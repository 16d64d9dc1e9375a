/**
 * geocode_address, from the reply on: the origin's coordinates and the short
 * name of its first state-level address component.
 */
module Geocoder {
  import opened Wrappers
  import opened Records

  datatype LatLng = LatLng(lat: real, lng: real)

  /** An entry of `address_components`. */
  datatype AddressComponent = AddressComponent(shortName: string, types: seq<string>)

  /** An entry of `results`: `geometry.location` and the address components. */
  datatype GeocodeResult = GeocodeResult(location: LatLng, addressComponents: seq<AddressComponent>)

  /** The JSON body of the reply; `status` is None when the key is absent. */
  datatype GeocodeReply = GeocodeReply(status: Option<string>, results: seq<GeocodeResult>)

  /** The pair the method returns: `(None, None)` on a failed status, else `((lat, lng), state)`. */
  datatype Origin = Origin(coords: Option<LatLng>, state: Option<string>)

  /** The component type that marks a state. */
  const StateLevel := "administrative_area_level_1"

  predicate IsStateComponent(c: AddressComponent)
  {
    StateLevel in c.types
  }

  /** `state` is the short name of the first state component, or None when there is none. */
  predicate IsFirstState(components: seq<AddressComponent>, state: Option<string>)
  {
    match state
    case None => forall k :: 0 <= k < |components| ==> !IsStateComponent(components[k])
    case Some(s) =>
      exists k :: 0 <= k < |components| && IsStateComponent(components[k])
                  && components[k].shortName == s
                  && forall l :: 0 <= l < k ==> !IsStateComponent(components[l])
  }

  /**
   * Reads the reply. A status other than OK gives `(None, None)`; a missing status
   * raises KeyError and an OK status with no results raises IndexError; otherwise
   * the first result's location and state.
   */
  method GeocodeAddress(data: GeocodeReply) returns (r: Result<Origin, PyError>)
    ensures data.status.None? ==> r == Failure(KeyError("status"))
    ensures data.status.Some? && data.status.value != "OK" ==> r == Success(Origin(None, None))
    ensures data.status == Some("OK") && data.results == [] ==> r == Failure(IndexError)
    ensures data.status == Some("OK") && data.results != [] ==>
              && r.Success?
              && r.value.coords == Some(data.results[0].location)
              && IsFirstState(data.results[0].addressComponents, r.value.state)
  {
    if data.status.None? {
      return Failure(KeyError("status"));
    }
    if data.status.value != "OK" {
      return Success(Origin(None, None));
    }
    if data.results == [] {
      return Failure(IndexError);
    }
    var location := data.results[0].location;
    var components := data.results[0].addressComponents;
    var state: Option<string> := None;
    var k := 0;
    while k < |components|
      invariant 0 <= k <= |components|
      invariant state == None
      invariant forall l :: 0 <= l < k ==> !IsStateComponent(components[l])
    {
      if StateLevel in components[k].types {
        state := Some(components[k].shortName);
        break;
      }
      k := k + 1;
    }
    return Success(Origin(Some(location), state));
  }
}
