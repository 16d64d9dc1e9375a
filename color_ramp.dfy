/**
 * get_color_for_time and its use in create_map: a green-to-red ramp written as
 * `#rrggbb`, scaled by the largest driving time of the filtered rows.
 */
module ColorRamp {
  import opened Wrappers
  import opened Records

  predicate IsLowerHex(c: char)
  {
    '0' <= c <= '9' || 'a' <= c <= 'f'
  }

  /** The lowercase hexadecimal digit for d. */
  function HexDigit(d: nat): (c: char)
    requires d < 16
  {
    if d < 10 then ('0' as int + d) as char else ('a' as int + d - 10) as char
  }

  /** The value of a lowercase hexadecimal digit, -1 for any other character. */
  function DigitValue(c: char): int
  {
    if '0' <= c <= '9' then c as int - '0' as int
    else if 'a' <= c <= 'f' then c as int - 'a' as int + 10
    else -1
  }

  /** The number two hexadecimal digits spell. */
  function ParseHex2(s: string): int
    requires |s| == 2
  {
    16 * DigitValue(s[0]) + DigitValue(s[1])
  }

  /** Python's `format(v, '02x')` for a channel value: two lowercase digits that read back as v. */
  function Hex2(v: nat): (s: string)
    requires v < 256
    ensures |s| == 2 && IsLowerHex(s[0]) && IsLowerHex(s[1])
    ensures ParseHex2(s) == v
  {
    [HexDigit(v / 16), HexDigit(v % 16)]
  }

  /** Python's `int()` on a float: truncation toward zero. */
  function Trunc(x: real): int
  {
    if x >= 0.0 then x.Floor else -((-x).Floor)
  }

  function Min(a: int, b: int): int
  {
    if a <= b then a else b
  }

  lemma RatioInUnit(time: real, maxTime: real)
    requires 0.0 <= time <= maxTime && 0.0 < maxTime
    ensures 0.0 <= time / maxTime <= 1.0
  {
  }

  lemma RatioMonotone(t1: real, t2: real, maxTime: real)
    requires 0.0 <= t1 <= t2 <= maxTime && 0.0 < maxTime
    ensures t1 / maxTime <= t2 / maxTime
  {
    var q1, q2 := t1 / maxTime, t2 / maxTime;
    assert q1 * maxTime == t1 && q2 * maxTime == t2;
    assert (q2 - q1) * maxTime == t2 - t1;
  }

  /** `r = min(255, int(255 * ratio))`, a channel value. */
  function RedLevel(time: real, maxTime: real): (r: int)
    requires 0.0 <= time <= maxTime && 0.0 < maxTime
    ensures 0 <= r <= 255
  {
    RatioInUnit(time, maxTime);
    Min(255, Trunc(255.0 * (time / maxTime)))
  }

  /** `g = min(255, int(255 * (1 - ratio)))`, a channel value. */
  function GreenLevel(time: real, maxTime: real): (g: int)
    requires 0.0 <= time <= maxTime && 0.0 < maxTime
    ensures 0 <= g <= 255
  {
    RatioInUnit(time, maxTime);
    Min(255, Trunc(255.0 * (1.0 - time / maxTime)))
  }

  /** `#` and six lowercase hexadecimal digits. */
  predicate IsColor(c: string)
  {
    |c| == 7 && c[0] == '#' && forall k :: 1 <= k < 7 ==> IsLowerHex(c[k])
  }

  /**
   * The colour for a driving time given as plain floats. A largest time of 0 divides
   * by zero; otherwise the colour reads back as the red and green levels with blue 0.
   */
  function ColorForTime(time: real, maxTime: real): (r: Result<string, PyError>)
    requires 0.0 <= time <= maxTime
    ensures r.Failure? <==> maxTime == 0.0
    ensures r.Failure? ==> r.error == ZeroDivisionError
    ensures r.Success? ==> && IsColor(r.value)
                           && ParseHex2(r.value[1..3]) == RedLevel(time, maxTime)
                           && ParseHex2(r.value[3..5]) == GreenLevel(time, maxTime)
                           && r.value[5..] == "00"
  {
    if maxTime == 0.0 then Failure(ZeroDivisionError)
    else
      var red, green, blue := Hex2(RedLevel(time, maxTime)), Hex2(GreenLevel(time, maxTime)), Hex2(0);
      var c := "#" + red + green + blue;
      assert c[1..3] == red && c[3..5] == green && c[5..] == blue;
      Success(c)
  }

  /** Red never falls and green never rises as the driving time grows. */
  lemma RedRisesGreenFalls(t1: real, t2: real, maxTime: real)
    requires 0.0 <= t1 <= t2 <= maxTime && 0.0 < maxTime
    ensures RedLevel(t1, maxTime) <= RedLevel(t2, maxTime)
    ensures GreenLevel(t1, maxTime) >= GreenLevel(t2, maxTime)
  {
    RatioMonotone(t1, t2, maxTime);
    RatioInUnit(t1, maxTime);
    RatioInUnit(t2, maxTime);
  }

  /** Time 0 is pure green and the largest time is pure red. */
  lemma RampEnds(maxTime: real)
    requires 0.0 < maxTime
    ensures ColorForTime(0.0, maxTime) == Success("#00ff00")
    ensures ColorForTime(maxTime, maxTime) == Success("#ff0000")
  {
    assert 0.0 / maxTime == 0.0;
    assert maxTime / maxTime == 1.0;
    assert RedLevel(0.0, maxTime) == 0 && GreenLevel(0.0, maxTime) == 255;
    assert RedLevel(maxTime, maxTime) == 255 && GreenLevel(maxTime, maxTime) == 0;
    assert Hex2(0) == "00" && Hex2(255) == "ff";
    assert "#" + "00" + "ff" + "00" == "#00ff00";
    assert "#" + "ff" + "00" + "00" == "#ff0000";
  }

  /** `gdf['driving_time_minutes'].max()`. */
  function MaxMinutes(rows: seq<TravelRow>): (m: real)
    requires rows != []
    ensures forall x :: x in rows ==> x.minutes <= m
    ensures exists x :: x in rows && x.minutes == m
  {
    if |rows| == 1 then rows[0].minutes
    else
      var rest := MaxMinutes(rows[1..]);
      assert forall x :: x in rows ==> x == rows[0] || x in rows[1..];
      if rows[0].minutes >= rest then rows[0].minutes else rest
  }

  /**
   * The fill colours create_map gives its regions, one per filtered row in order.
   * No rows give no regions (the map holds only the origin marker). The largest
   * time is a numpy float, whose division by zero gives NaN instead of raising,
   * so a largest time of 0 fails later, in `int(255 * nan)`, with ValueError.
   */
  function RegionColors(rows: seq<TravelRow>): (r: Result<seq<string>, PyError>)
    requires forall x :: x in rows ==> 0.0 <= x.minutes
    ensures rows == [] ==> r == Success([])
    ensures r.Failure? <==> rows != [] && MaxMinutes(rows) == 0.0
    ensures r.Failure? ==> r.error == ValueError
    ensures r.Success? ==> |r.value| == |rows| && forall k :: 0 <= k < |rows| ==>
              && IsColor(r.value[k])
              && ParseHex2(r.value[k][1..3]) == RedLevel(rows[k].minutes, MaxMinutes(rows))
              && ParseHex2(r.value[k][3..5]) == GreenLevel(rows[k].minutes, MaxMinutes(rows))
              && r.value[k][5..] == "00"
  {
    if rows == [] then Success([])
    else
      var m := MaxMinutes(rows);
      if m == 0.0 then Failure(ValueError)
      else
        Success(seq(|rows|, k requires 0 <= k < |rows| =>
                  assert rows[k] in rows;
                  ColorForTime(rows[k].minutes, m).value))
  }

  /** Within one map, a region with a longer driving time is at least as red and at most as green. */
  lemma RegionColorsOrdered(rows: seq<TravelRow>, i: nat, j: nat)
    requires forall x :: x in rows ==> 0.0 <= x.minutes
    requires i < |rows| && j < |rows| && rows[i].minutes <= rows[j].minutes
    requires RegionColors(rows).Success?
    ensures var colors := RegionColors(rows).value;
            && ParseHex2(colors[i][1..3]) <= ParseHex2(colors[j][1..3])
            && ParseHex2(colors[i][3..5]) >= ParseHex2(colors[j][3..5])
  {
    var m := MaxMinutes(rows);
    assert rows[i] in rows && rows[j] in rows;
    RedRisesGreenFalls(rows[i].minutes, rows[j].minutes, m);
  }
}
