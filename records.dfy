/** Optional values and outcomes that may carry an error. */
module Wrappers {
  datatype Option<+T> = None | Some(value: T)

  datatype Result<+T, +E> = Success(value: T) | Failure(error: E)
}

/** The values the calculator passes between its steps. */
module Records {
  /** The exceptions the calculator lets escape. Python raises them; the model returns them. */
  datatype PyError =
    | KeyError(key: string)   // a dictionary lookup on a key the JSON reply lacks
    | IndexError              // a position past the end of a list or a frame
    | ZeroDivisionError       // a float division by zero
    | ValueError              // `int()` of a NaN

  /** A boundary polygon. Its geometry is not modelled: the calculator only carries it along. */
  datatype Shape = Shape(id: nat)

  /** One row of the postal-code GeoDataFrame: its ZCTA5 code and its boundary. */
  datatype AreaRecord = AreaRecord(zcta5: string, geometry: Shape)

  /** One entry of the result list built from the distance-matrix replies. */
  datatype TravelRow = TravelRow(zipCode: string, state: string, minutes: real, geometry: Shape)
}
