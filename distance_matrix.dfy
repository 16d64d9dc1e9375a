/**
 * calculate_driving_times: one route-matrix request per batch of the sample,
 * and one travel row per reply element that carries a duration.
 */
module DistanceMatrix {
  import opened Wrappers
  import opened Records
  import opened Sampling

  /** An entry of `element['elements']`; `duration` is None when the key is absent. */
  datatype Route = Route(duration: Option<RouteDuration>)

  /** `route['duration']`; `seconds` is None when the key is absent. */
  datatype RouteDuration = RouteDuration(seconds: Option<real>)

  /** An entry of `data['rows']`; `elements` is None when the key is absent. */
  datatype MatrixRow = MatrixRow(elements: Option<seq<Route>>)

  /** The JSON body of a reply; a field is None when its key is absent. */
  datatype MatrixReply = MatrixReply(status: Option<string>, rows: Option<seq<MatrixRow>>)

  /** The two requests made per batch: the POST with the payload, then a bare GET of the same URL. */
  datatype Exchange = Exchange(postReply: MatrixReply, getReply: MatrixReply)

  /** Every row gets this state label, whatever the area. */
  const StateLabel := "VA"

  /** The rows collected so far, then the rows of the next step; the first exception wins. */
  function Then(done: Result<seq<TravelRow>, PyError>, next: Result<seq<TravelRow>, PyError>)
    : Result<seq<TravelRow>, PyError>
  {
    match done
    case Failure(e) => Failure(e)
    case Success(rows) =>
      match next
      case Failure(e) => Failure(e)
      case Success(more) => Success(rows + more)
  }

  /** The row built for destination j of the batch from a duration of `seconds`. */
  function RowFor(batch: seq<AreaRecord>, j: nat, seconds: real): TravelRow
    requires j < |batch|
  {
    TravelRow(batch[j].zcta5, StateLabel, seconds / 60.0, batch[j].geometry)
  }

  /** What the route at position j adds: nothing without a duration, else one row. */
  function RouteRows(batch: seq<AreaRecord>, j: nat, route: Route): Result<seq<TravelRow>, PyError>
  {
    match route.duration
    case None => Success([])
    case Some(d) =>
      if j >= |batch| then Failure(IndexError)   // batch.iloc[j] is read before the duration
      else
        match d.seconds
        case None => Failure(KeyError("seconds"))
        case Some(s) => Success([RowFor(batch, j, s)])
  }

  /** The routes of one matrix row, left to right. */
  function RoutesRows(batch: seq<AreaRecord>, routes: seq<Route>): Result<seq<TravelRow>, PyError>
  {
    if routes == [] then Success([])
    else Then(RoutesRows(batch, routes[..|routes| - 1]),
              RouteRows(batch, |routes| - 1, routes[|routes| - 1]))
  }

  /** One matrix row: nothing when it has no `elements` key. */
  function ElementRows(batch: seq<AreaRecord>, row: MatrixRow): Result<seq<TravelRow>, PyError>
  {
    match row.elements
    case None => Success([])
    case Some(routes) => RoutesRows(batch, routes)
  }

  /** All matrix rows of a reply, in order. */
  function MatrixRowsRows(batch: seq<AreaRecord>, rows: seq<MatrixRow>): Result<seq<TravelRow>, PyError>
  {
    if rows == [] then Success([])
    else Then(MatrixRowsRows(batch, rows[..|rows| - 1]), ElementRows(batch, rows[|rows| - 1]))
  }

  /** What one batch adds: KeyError without a status, nothing unless the status is OK or without rows. */
  function BatchRows(batch: seq<AreaRecord>, reply: MatrixReply): Result<seq<TravelRow>, PyError>
  {
    match reply.status
    case None => Failure(KeyError("status"))
    case Some(s) =>
      if s != "OK" then Success([])
      else
        match reply.rows
        case None => Success([])
        case Some(rows) => MatrixRowsRows(batch, rows)
  }

  /** The batches in order, batch k answered by exchange k, of which only the GET reply is read. */
  function RunBatches(batches: seq<seq<AreaRecord>>, exchanges: seq<Exchange>): Result<seq<TravelRow>, PyError>
    requires |batches| == |exchanges|
  {
    if batches == [] then Success([])
    else Then(RunBatches(batches[..|batches| - 1], exchanges[..|exchanges| - 1]),
              BatchRows(batches[|batches| - 1], exchanges[|exchanges| - 1].getReply))
  }

  /** The list `results` holds when the loop over the sample's batches ends, or the exception raised. */
  function DrivingRows(sample: seq<AreaRecord>, exchanges: seq<Exchange>): Result<seq<TravelRow>, PyError>
    requires |exchanges| == BatchCount(|sample|)
  {
    RunBatches(Batches(sample), exchanges)
  }

  // ---------------------------------------------------------------------------
  // An exception ends the loop: once a prefix fails, the whole fails the same way.

  lemma {:induction false} RoutesFailureSticks(batch: seq<AreaRecord>, routes: seq<Route>, j: nat, e: PyError)
    requires j <= |routes| && RoutesRows(batch, routes[..j]) == Failure(e)
    ensures RoutesRows(batch, routes) == Failure(e)
    decreases |routes| - j
  {
    if j < |routes| {
      var front := routes[..|routes| - 1];
      assert front[..j] == routes[..j];
      RoutesFailureSticks(batch, front, j, e);
    } else {
      assert routes[..j] == routes;
    }
  }

  lemma {:induction false} MatrixRowsFailureSticks(batch: seq<AreaRecord>, rows: seq<MatrixRow>, i: nat, e: PyError)
    requires i <= |rows| && MatrixRowsRows(batch, rows[..i]) == Failure(e)
    ensures MatrixRowsRows(batch, rows) == Failure(e)
    decreases |rows| - i
  {
    if i < |rows| {
      var front := rows[..|rows| - 1];
      assert front[..i] == rows[..i];
      MatrixRowsFailureSticks(batch, front, i, e);
    } else {
      assert rows[..i] == rows;
    }
  }

  lemma {:induction false} BatchesFailureSticks(batches: seq<seq<AreaRecord>>, exchanges: seq<Exchange>,
                                                k: nat, e: PyError)
    requires |batches| == |exchanges| && k <= |batches|
    requires RunBatches(batches[..k], exchanges[..k]) == Failure(e)
    ensures RunBatches(batches, exchanges) == Failure(e)
    decreases |batches| - k
  {
    if k < |batches| {
      var front, frontEx := batches[..|batches| - 1], exchanges[..|exchanges| - 1];
      assert front[..k] == batches[..k] && frontEx[..k] == exchanges[..k];
      BatchesFailureSticks(front, frontEx, k, e);
    } else {
      assert batches[..k] == batches && exchanges[..k] == exchanges;
    }
  }

  // ---------------------------------------------------------------------------
  // The loops.

  /**
   * The inner loop `for j, route in enumerate(element['elements'])`: one row per
   * route with a duration. A route past the end of the batch or a duration
   * without seconds raises.
   */
  method AppendRouteRows(results: seq<TravelRow>, batch: seq<AreaRecord>, routes: seq<Route>)
    returns (r: Result<seq<TravelRow>, PyError>)
    ensures r == Then(Success(results), RoutesRows(batch, routes))
  {
    var acc := results;
    var j := 0;
    while j < |routes|
      invariant 0 <= j <= |routes|
      invariant RoutesRows(batch, routes[..j]).Success?
      invariant acc == results + RoutesRows(batch, routes[..j]).value
    {
      assert routes[..j + 1][..j] == routes[..j];
      var route := routes[j];
      if route.duration.Some? {
        if j >= |batch| {
          RoutesFailureSticks(batch, routes, j + 1, IndexError);
          return Failure(IndexError);
        }
        var zipCode := batch[j].zcta5;
        var state := StateLabel;
        if route.duration.value.seconds.None? {
          RoutesFailureSticks(batch, routes, j + 1, KeyError("seconds"));
          return Failure(KeyError("seconds"));
        }
        var minutes := route.duration.value.seconds.value / 60.0;
        acc := acc + [TravelRow(zipCode, state, minutes, batch[j].geometry)];
      }
      j := j + 1;
    }
    assert routes[..j] == routes;
    return Success(acc);
  }

  /**
   * The body of the loop over batches: reads the reply, then appends the rows of
   * each matrix row that has `elements`. A status other than OK adds nothing; a
   * missing status raises.
   */
  method AppendBatchRows(results: seq<TravelRow>, batch: seq<AreaRecord>, exchange: Exchange)
    returns (r: Result<seq<TravelRow>, PyError>)
    ensures r == Then(Success(results), BatchRows(batch, exchange.getReply))
  {
    var data := exchange.postReply;
    data := exchange.getReply;   // the GET overwrites the POST's reply
    if data.status.None? {
      return Failure(KeyError("status"));
    }
    if data.status.value != "OK" {
      assert results + [] == results;
      return Success(results);   // `continue`: the batch is skipped
    }
    var acc := results;
    if data.rows.Some? {
      var rows := data.rows.value;
      var i := 0;
      while i < |rows|
        invariant 0 <= i <= |rows|
        invariant MatrixRowsRows(batch, rows[..i]).Success?
        invariant acc == results + MatrixRowsRows(batch, rows[..i]).value
      {
        assert rows[..i + 1][..i] == rows[..i];
        if rows[i].elements.Some? {
          var step := AppendRouteRows(acc, batch, rows[i].elements.value);
          if step.Failure? {
            MatrixRowsFailureSticks(batch, rows, i + 1, step.error);
            return step;
          }
          acc := step.value;
        }
        i := i + 1;
      }
      assert rows[..i] == rows;
    }
    return Success(acc);
  }

  /**
   * The loop `for i in range(0, len(sample_zips), 25)`: batch `iloc[i:i+25]` is
   * answered by the next exchange, and its rows are appended to `results`.
   */
  method CollectDrivingTimes(sample: seq<AreaRecord>, exchanges: seq<Exchange>)
    returns (r: Result<seq<TravelRow>, PyError>)
    requires |exchanges| == BatchCount(|sample|)
    ensures r == DrivingRows(sample, exchanges)
  {
    var results: seq<TravelRow> := [];
    var n := |sample|;
    ghost var batches := Batches(sample);
    var i := 0;
    var k := 0;   // the exchange the next batch uses
    StepInRange(n, 0);
    while i < n
      invariant k <= |batches| && i == k * BatchSize
      invariant i < n <==> k < |batches|
      invariant RunBatches(batches[..k], exchanges[..k]) == Success(results)
    {
      var batch := sample[i .. BatchEnd(i, n)];
      BatchIsSlice(sample, k);
      assert batch == batches[k];
      assert batches[..k + 1][..k] == batches[..k] && exchanges[..k + 1][..k] == exchanges[..k];
      var step := AppendBatchRows(results, batch, exchanges[k]);
      if step.Failure? {
        BatchesFailureSticks(batches, exchanges, k + 1, step.error);
        return step;
      }
      results := step.value;
      assert (k + 1) * BatchSize == i + BatchSize;
      StepInRange(n, k + 1);
      i := i + BatchSize;
      k := k + 1;
    }
    assert batches[..k] == batches && exchanges[..k] == exchanges;
    return Success(results);
  }

  /**
   * What calculate_driving_times hands to its caller. The method has no return
   * statement, so whenever it does not raise, the caller receives None and
   * never the rows collected.
   */
  function CalculateDrivingTimes(given: Option<seq<AreaRecord>>, zips: seq<AreaRecord>, draw: seq<nat>,
                                 exchanges: seq<Exchange>): (r: Result<Option<seq<TravelRow>>, PyError>)
    requires given.None? ==> IsDraw(draw, |zips|)
    requires |exchanges| == BatchCount(|ChooseSample(given, zips, draw)|)
    ensures r.Failure? <==> DrivingRows(ChooseSample(given, zips, draw), exchanges).Failure?
    ensures r.Failure? ==> r.error == DrivingRows(ChooseSample(given, zips, draw), exchanges).error
    ensures r.Success? ==> r.value == None
  {
    match DrivingRows(ChooseSample(given, zips, draw), exchanges)
    case Failure(e) => Failure(e)
    case Success(_) => Success(None)
  }

  // ---------------------------------------------------------------------------
  // What the collected rows are.

  /** Positions of the routes that carry a duration, in increasing order. */
  function TimedPositions(routes: seq<Route>): (ps: seq<nat>)
    ensures forall t :: 0 <= t < |ps| ==> ps[t] < |routes| && routes[ps[t]].duration.Some?
    ensures forall j :: 0 <= j < |routes| && routes[j].duration.Some? ==> j in ps
    ensures forall t, u :: 0 <= t < u < |ps| ==> ps[t] < ps[u]
  {
    if routes == [] then []
    else
      var front := TimedPositions(routes[..|routes| - 1]);
      if routes[|routes| - 1].duration.Some? then front + [|routes| - 1] else front
  }

  /** The seconds of a route that has them. */
  function Seconds(route: Route): real
    requires route.duration.Some? && route.duration.value.seconds.Some?
  {
    route.duration.value.seconds.value
  }

  /**
   * The routes of a matrix row yield exactly one row per route with a duration,
   * in route order: the t-th row comes from the t-th timed route j, with the zip
   * code of batch[j], state "VA" and seconds / 60 minutes.
   */
  lemma {:induction false} RoutesRowsContent(batch: seq<AreaRecord>, routes: seq<Route>)
    requires RoutesRows(batch, routes).Success?
    ensures var out := RoutesRows(batch, routes).value;
            var ps := TimedPositions(routes);
            && |out| == |ps|
            && forall t :: 0 <= t < |out| ==>
                 && ps[t] < |batch| && routes[ps[t]].duration.value.seconds.Some?
                 && out[t] == RowFor(batch, ps[t], Seconds(routes[ps[t]]))
  {
    if routes != [] {
      var front := routes[..|routes| - 1];
      var last := routes[|routes| - 1];
      assert RoutesRows(batch, front).Success?;
      RoutesRowsContent(batch, front);
      var ps0 := TimedPositions(front);
      forall t | 0 <= t < |ps0| ensures routes[ps0[t]] == front[ps0[t]] { }
    }
  }

  /** A route past the end of the batch that carries a duration makes the matrix row raise IndexError. */
  lemma RouteBeyondBatchRaises(batch: seq<AreaRecord>, routes: seq<Route>, j: nat)
    requires |batch| <= j < |routes| && routes[j].duration.Some?
    requires RoutesRows(batch, routes[..j]).Success?
    ensures RoutesRows(batch, routes) == Failure(IndexError)
  {
    assert routes[..j + 1][..j] == routes[..j];
    RoutesFailureSticks(batch, routes, j + 1, IndexError);
  }

  /** A matrix row yields at most one row per destination of the batch. */
  lemma {:induction false} RoutesRowsBound(batch: seq<AreaRecord>, routes: seq<Route>)
    requires RoutesRows(batch, routes).Success?
    ensures |RoutesRows(batch, routes).value| <= |routes|
    ensures |RoutesRows(batch, routes).value| <= |batch|
  {
    if routes != [] {
      var front := routes[..|routes| - 1];
      assert RoutesRows(batch, front).Success?;
      RoutesRowsBound(batch, front);
    }
  }

  /** A reply with at most one matrix row, as for the one origin sent. */
  predicate SingleOriginReply(reply: MatrixReply)
  {
    reply.rows.None? || |reply.rows.value| <= 1
  }

  /** A batch whose reply has at most one matrix row yields at most one row per destination. */
  lemma BatchRowsBound(batch: seq<AreaRecord>, reply: MatrixReply)
    requires SingleOriginReply(reply) && BatchRows(batch, reply).Success?
    ensures |BatchRows(batch, reply).value| <= |batch|
  {
    if reply.status == Some("OK") && reply.rows.Some? && |reply.rows.value| == 1 {
      var row := reply.rows.value[0];
      assert reply.rows.value[..0] == [];
      assert MatrixRowsRows(batch, reply.rows.value) == Then(Success([]), ElementRows(batch, row));
      if row.elements.Some? {
        RoutesRowsBound(batch, row.elements.value);
        assert [] + RoutesRows(batch, row.elements.value).value == RoutesRows(batch, row.elements.value).value;
      }
    }
  }

  lemma {:induction false} RunBatchesBound(batches: seq<seq<AreaRecord>>, exchanges: seq<Exchange>)
    requires |batches| == |exchanges|
    requires forall k :: 0 <= k < |exchanges| ==> SingleOriginReply(exchanges[k].getReply)
    requires RunBatches(batches, exchanges).Success?
    ensures |RunBatches(batches, exchanges).value| <= |Flatten(batches)|
  {
    if batches != [] {
      var front, frontEx := batches[..|batches| - 1], exchanges[..|exchanges| - 1];
      var last := batches[|batches| - 1];
      assert RunBatches(front, frontEx).Success?;
      RunBatchesBound(front, frontEx);
      BatchRowsBound(last, exchanges[|exchanges| - 1].getReply);
      assert front + [last] == batches;
      FlattenAppend(front, last);
    }
  }

  /**
   * When every reply holds at most one matrix row, a run yields no more rows than
   * areas were sampled.
   */
  lemma DrivingRowsBound(sample: seq<AreaRecord>, exchanges: seq<Exchange>)
    requires |exchanges| == BatchCount(|sample|)
    requires forall k :: 0 <= k < |exchanges| ==> SingleOriginReply(exchanges[k].getReply)
    requires DrivingRows(sample, exchanges).Success?
    ensures |DrivingRows(sample, exchanges).value| <= |sample|
  {
    RunBatchesBound(Batches(sample), exchanges);
  }

  /** Every collected row carries the state label "VA". */
  lemma {:induction false} RunBatchesStateLabel(batches: seq<seq<AreaRecord>>, exchanges: seq<Exchange>)
    requires |batches| == |exchanges| && RunBatches(batches, exchanges).Success?
    ensures forall x :: x in RunBatches(batches, exchanges).value ==> x.state == StateLabel
  {
    if batches != [] {
      var front, frontEx := batches[..|batches| - 1], exchanges[..|exchanges| - 1];
      assert RunBatches(front, frontEx).Success?;
      RunBatchesStateLabel(front, frontEx);
      var reply := exchanges[|exchanges| - 1].getReply;
      var last := batches[|batches| - 1];
      if reply.status == Some("OK") && reply.rows.Some? {
        MatrixRowsStateLabel(last, reply.rows.value);
      }
    }
  }

  lemma {:induction false} MatrixRowsStateLabel(batch: seq<AreaRecord>, rows: seq<MatrixRow>)
    requires MatrixRowsRows(batch, rows).Success?
    ensures forall x :: x in MatrixRowsRows(batch, rows).value ==> x.state == StateLabel
  {
    if rows != [] {
      var front := rows[..|rows| - 1];
      assert MatrixRowsRows(batch, front).Success?;
      MatrixRowsStateLabel(batch, front);
      var row := rows[|rows| - 1];
      if row.elements.Some? {
        RoutesRowsContent(batch, row.elements.value);
      }
    }
  }

  /** A batch whose reply status is not OK adds nothing, whatever rows the reply holds. */
  lemma {:induction false} SkippedBatchAddsNothing(batches: seq<seq<AreaRecord>>, exchanges: seq<Exchange>,
                                                   k: nat)
    requires |batches| == |exchanges| && k < |exchanges|
    requires exchanges[k].getReply.status.Some? && exchanges[k].getReply.status.value != "OK"
    ensures var quiet := exchanges[k := Exchange(exchanges[k].postReply, MatrixReply(Some("OK"), None))];
            RunBatches(batches, exchanges) == RunBatches(batches, quiet)
    decreases |batches|
  {
    var quiet := exchanges[k := Exchange(exchanges[k].postReply, MatrixReply(Some("OK"), None))];
    if k < |batches| - 1 {
      assert quiet[..|quiet| - 1] == exchanges[..|exchanges| - 1][k := quiet[k]];
      SkippedBatchAddsNothing(batches[..|batches| - 1], exchanges[..|exchanges| - 1], k);
    } else {
      assert quiet[..|quiet| - 1] == exchanges[..|exchanges| - 1];
    }
  }

  /** The POST replies play no part: only the GET replies decide the result. */
  lemma {:induction false} PostRepliesIgnored(batches: seq<seq<AreaRecord>>, exchanges: seq<Exchange>,
                                              others: seq<Exchange>)
    requires |batches| == |exchanges| == |others|
    requires forall k :: 0 <= k < |exchanges| ==> exchanges[k].getReply == others[k].getReply
    ensures RunBatches(batches, exchanges) == RunBatches(batches, others)
    decreases |batches|
  {
    if batches != [] {
      PostRepliesIgnored(batches[..|batches| - 1], exchanges[..|exchanges| - 1], others[..|others| - 1]);
    }
  }
}
