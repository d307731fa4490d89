/**
 * The score classifier of the summary page: a happiness score is shown in
 * one of five colours, chosen by thresholds checked from the highest down.
 */
module ScoreColor {
  import opened Wrappers

  const Highest := "#0E4F77"
  const UpperMiddle := "#118ab2ff"
  const Middle := "#73C2FB"
  const Low := "#A2D2FF"
  const NoScore := "#ffffffff"

  /** The five colours, highest bucket first. */
  const Palette: seq<string> := [Highest, UpperMiddle, Middle, Low, NoScore]

  /** The lower bounds of the first four buckets, highest first. */
  const Thresholds: seq<real> := [7.0, 6.0, 5.5, 4.5]

  /**
   * `val >= t` where `val` is the result of `parseFloat`: a comparison with
   * a value that did not parse (NaN) is false.
   */
  predicate AtLeast(val: Option<real>, t: real) {
    val.Some? && val.value >= t
  }

  /** `getColorByScore`: `score` is what `parseFloat` makes of the input. */
  function ColorByScore(score: Option<real>): (color: string)
    ensures color in Palette
    ensures score.None? ==> color == NoScore
  {
    if AtLeast(score, 7.0) then Highest
    else if AtLeast(score, 6.0) then UpperMiddle
    else if AtLeast(score, 5.5) then Middle
    else if AtLeast(score, 4.5) then Low
    else NoScore
  }

  /** How many of the thresholds `ts` lie strictly above `v`. */
  function CountAbove(ts: seq<real>, v: real): (n: nat)
    ensures n <= |ts|
  {
    if ts == [] then 0 else (if v < ts[0] then 1 else 0) + CountAbove(ts[1..], v)
  }

  /**
   * The bucket of a numeric score, 0 being the highest: the number of
   * thresholds the score does not reach.
   */
  function Band(v: real): (b: nat)
    ensures b < |Palette|
  {
    CountAbove(Thresholds, v)
  }

  /** The rank of a colour: 4 for the highest bucket, 0 for no score. */
  function Rank(color: string): (k: nat)
    ensures k < |Palette|
  {
    if color == Highest then 4
    else if color == UpperMiddle then 3
    else if color == Middle then 2
    else if color == Low then 1
    else 0
  }

  /** A numeric score gets the colour of the bucket its thresholds select. */
  lemma ColorIsBand(v: real)
    ensures ColorByScore(Some(v)) == Palette[Band(v)]
    ensures Rank(ColorByScore(Some(v))) == |Palette| - 1 - Band(v)
  {
    var t1 := Thresholds[1..];
    var t2 := t1[1..];
    var t3 := t2[1..];
    assert t3 == [4.5] && t3[1..] == [];
    assert CountAbove(t3, v) == if v < 4.5 then 1 else 0;
    assert CountAbove(t2, v) == (if v < 5.5 then 1 else 0) + CountAbove(t3, v);
    assert CountAbove(t1, v) == (if v < 6.0 then 1 else 0) + CountAbove(t2, v);
    assert Band(v) == (if v < 7.0 then 1 else 0) + CountAbove(t1, v);
  }

  /** Raising the score never lowers the bucket of the thresholds `ts`. */
  lemma {:induction false} CountAboveMonotone(ts: seq<real>, v1: real, v2: real)
    requires v1 >= v2
    ensures CountAbove(ts, v1) <= CountAbove(ts, v2)
  {
    if ts != [] {
      CountAboveMonotone(ts[1..], v1, v2);
    }
  }

  /**
   * The classifier is monotone: a higher score never gets a lower-ranked
   * colour, and a missing score gets the lowest rank.
   */
  lemma ColorMonotone(s1: Option<real>, s2: Option<real>)
    requires s2.None? || (s1.Some? && s1.value >= s2.value)
    ensures Rank(ColorByScore(s1)) >= Rank(ColorByScore(s2))
  {
    if s2.Some? {
      ColorIsBand(s1.value);
      ColorIsBand(s2.value);
      CountAboveMonotone(Thresholds, s1.value, s2.value);
    }
  }

  /** The donut's colours: one per value, each the classifier's colour for it. */
  function DonutColors(values: seq<real>): (colors: seq<string>)
    ensures |colors| == |values|
    ensures forall i :: 0 <= i < |values| ==> colors[i] == ColorByScore(Some(values[i]))
  {
    if values == [] then [] else [ColorByScore(Some(values[0]))] + DonutColors(values[1..])
  }
}
