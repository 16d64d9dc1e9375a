/**
 * filter_results: narrows the travel rows to those within the time limit and,
 * when state lines are respected, to those in the origin's state.
 */
module ResultFilter {
  import opened Wrappers
  import opened Records

  /** `a` is `b` with some entries removed and the others kept in their order. */
  predicate IsSubsequence<T(==)>(a: seq<T>, b: seq<T>)
    decreases |b|
  {
    if a == [] then true
    else if b == [] then false
    else (a[0] == b[0] && IsSubsequence(a[1..], b[1..])) || IsSubsequence(a, b[1..])
  }

  lemma {:induction false} SubsequenceTransitive<T>(a: seq<T>, b: seq<T>, c: seq<T>)
    requires IsSubsequence(a, b) && IsSubsequence(b, c)
    ensures IsSubsequence(a, c)
    decreases |c|
  {
    if a != [] {
      assert b != [] && c != [];
      if b[0] == c[0] && IsSubsequence(b[1..], c[1..]) {
        if a[0] == b[0] && IsSubsequence(a[1..], b[1..]) {
          SubsequenceTransitive(a[1..], b[1..], c[1..]);
        } else {
          SubsequenceTransitive(a, b[1..], c[1..]);
        }
      } else {
        SubsequenceTransitive(a, b, c[1..]);
      }
    }
  }

  /** The two boolean masks the filter applies, one column each. */
  datatype Mask =
    | TimeAtMost(maxTime: real)            // driving_time_minutes <= max_time
    | StateIs(originState: Option<string>) // state == origin_state

  /** A mask entry. pandas compares a column with None as all-false, hence the Option. */
  predicate Passes(row: TravelRow, mask: Mask)
  {
    match mask
    case TimeAtMost(t) => row.minutes <= t
    case StateIs(s) => s == Some(row.state)
  }

  /** Boolean-mask indexing `rows[mask]`: the rows whose mask entry is true, in their order. */
  function Where(rows: seq<TravelRow>, mask: Mask): (r: seq<TravelRow>)
    ensures forall x :: x in r ==> Passes(x, mask)
    ensures forall x :: multiset(r)[x] == if Passes(x, mask) then multiset(rows)[x] else 0
    ensures IsSubsequence(r, rows)
  {
    if rows == [] then []
    else
      assert rows == [rows[0]] + rows[1..];
      if Passes(rows[0], mask) then [rows[0]] + Where(rows[1..], mask)
      else Where(rows[1..], mask)
  }

  lemma {:induction false} WhereKeepsPassing(rows: seq<TravelRow>, mask: Mask)
    requires forall x :: x in rows ==> Passes(x, mask)
    ensures Where(rows, mask) == rows
  {
    if rows != [] {
      WhereKeepsPassing(rows[1..], mask);
    }
  }

  /** The filter's meaning: within the time limit and, when state lines count, in the origin's state. */
  predicate Keeps(row: TravelRow, maxTime: real, respectStateLines: bool, originState: Option<string>)
  {
    row.minutes <= maxTime && (respectStateLines ==> originState == Some(row.state))
  }

  /**
   * The time mask first, then the state mask when state lines are respected.
   * The result holds exactly the rows the filter keeps, each as often as in the
   * input, in the input's order.
   */
  function FilterResults(rows: seq<TravelRow>, maxTime: real, respectStateLines: bool,
                         originState: Option<string>): (r: seq<TravelRow>)
    ensures forall x :: x in r ==> x.minutes <= maxTime
    ensures forall x :: x in r && respectStateLines ==> originState == Some(x.state)
    ensures forall x :: multiset(r)[x] ==
              if Keeps(x, maxTime, respectStateLines, originState) then multiset(rows)[x] else 0
    ensures IsSubsequence(r, rows)
  {
    var filtered := Where(rows, TimeAtMost(maxTime));
    if respectStateLines then
      var r := Where(filtered, StateIs(originState));
      SubsequenceTransitive(r, filtered, rows);
      r
    else
      filtered
  }

  /** Filtering what the filter returned changes nothing. */
  lemma FilterIdempotent(rows: seq<TravelRow>, maxTime: real, respectStateLines: bool,
                         originState: Option<string>)
    ensures var once := FilterResults(rows, maxTime, respectStateLines, originState);
            FilterResults(once, maxTime, respectStateLines, originState) == once
  {
    var once := FilterResults(rows, maxTime, respectStateLines, originState);
    WhereKeepsPassing(once, TimeAtMost(maxTime));
    if respectStateLines {
      WhereKeepsPassing(once, StateIs(originState));
    }
  }

  /** Without the state flag the filter is the time mask alone, whatever the origin state. */
  lemma {:induction false} StateIgnoredWithoutFlag(rows: seq<TravelRow>, maxTime: real,
                                                   originState: Option<string>)
    ensures FilterResults(rows, maxTime, false, originState) == FilterResults(rows, maxTime, false, None)
    ensures forall k :: 0 <= k < |rows| && rows[k].minutes <= maxTime ==>
              rows[k] in FilterResults(rows, maxTime, false, originState)
  {
    forall k | 0 <= k < |rows| && rows[k].minutes <= maxTime
      ensures rows[k] in FilterResults(rows, maxTime, false, originState)
    {
      assert rows[k] in multiset(rows);
      assert multiset(FilterResults(rows, maxTime, false, originState))[rows[k]] > 0;
    }
  }

  /** With the state flag and no origin state (the geocoder found none), nothing survives. */
  lemma {:induction false} NoOriginStateKeepsNothing(rows: seq<TravelRow>, maxTime: real)
    ensures FilterResults(rows, maxTime, true, None) == []
  {
  }

  /** Two rows, one too far and out of state: only the near Virginia one is kept. */
  lemma FilterExample()
    ensures var near := TravelRow("22201", "VA", 15.0, Shape(0));
            var far := TravelRow("20001", "DC", 50.0, Shape(1));
            FilterResults([near, far], 30.0, true, Some("VA")) == [near]
  {
  }
}
