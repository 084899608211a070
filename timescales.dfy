/** `timescale_label` and the transition timescale of one edge. Decimal
    rendering of reals (the `.0f` and `.1f` formats) is a parameter `fixed`,
    `fixed(v, d)` standing for `v` written with `d` decimals. */
module Timescales {
  import opened Wrappers

  /** The label of a timescale below one microsecond (note the leading space). */
  const StableLabel: string := " Stable"
  const MicroSuffix: string := " $\\mu$s"
  const MilliSuffix: string := " ms"

  /** The three ranges the labels distinguish. */
  datatype Band = Stable | Microseconds | Milliseconds

  function BandOf(timescale: real): Band {
    if timescale < 0.000001 then Stable
    else if timescale < 0.5 then Microseconds
    else Milliseconds
  }

  predicate EndsWith(s: string, suffix: string) {
    |suffix| <= |s| && s[|s| - |suffix|..] == suffix
  }

  /** `timescale_label(timescale)` */
  function TimescaleLabel(timescale: real, fixed: (real, nat) -> string): (text: string)
    ensures timescale < 0.000001 <==> text == StableLabel
    ensures 0.000001 <= timescale < 0.5 <==> EndsWith(text, MicroSuffix)
    ensures 0.5 <= timescale <==> EndsWith(text, MilliSuffix)
    ensures 0.000001 <= timescale < 0.5 ==> text == fixed(timescale * 1000.0, 0) + MicroSuffix
    ensures 0.5 <= timescale ==> text == fixed(timescale, 1) + MilliSuffix
  {
    if timescale < 0.000001 then StableLabel
    else if timescale < 0.5 then
      var text := fixed(timescale * 1000.0, 0) + MicroSuffix;
      assert text[|text| - 3..] == MicroSuffix[|MicroSuffix| - 3..];
      text
    else
      var text := fixed(timescale, 1) + MilliSuffix;
      assert text[|text| - 3..] == MilliSuffix;
      text
  }

  /** Reads the band back from a label by its ending. */
  function BandOfLabel(text: string): (b: Option<Band>)
  {
    if text == StableLabel then Some(Stable)
    else if EndsWith(text, MicroSuffix) then Some(Microseconds)
    else if EndsWith(text, MilliSuffix) then Some(Milliseconds)
    else None
  }

  /** Whatever the decimal rendering, a label says which band its timescale
      is in: the three cases partition the reals. */
  lemma LabelNamesBand(timescale: real, fixed: (real, nat) -> string)
    ensures BandOfLabel(TimescaleLabel(timescale, fixed)) == Some(BandOf(timescale))
  {
  }

  function BandIndex(b: Band): nat {
    match b
    case Stable => 0
    case Microseconds => 1
    case Milliseconds => 2
  }

  /** A longer timescale never gets an earlier band. */
  lemma BandMonotone(t1: real, t2: real)
    requires t1 <= t2
    ensures BandIndex(BandOf(t1)) <= BandIndex(BandOf(t2))
  {
  }

  /** The timescale of an edge of probability `prob`: `1 / (rate + 1e-16)`. For
      `prob < 1` the rate `-log(1 - prob) / dt` is not modelled and
      `finiteTimescale` gives the whole expression; for `prob >= 1` the rate
      is infinite and the timescale is `1 / inf = 0`. */
  function EdgeTimescale(prob: real, finiteTimescale: real -> real): (t: real)
    ensures prob >= 1.0 ==> t == 0.0
    ensures prob < 1.0 ==> t == finiteTimescale(prob)
  {
    if prob < 1.0 then finiteTimescale(prob) else 0.0
  }

  /** A transition of probability at least 1 is labelled " Stable". */
  lemma CertainTransitionIsStable(prob: real, finiteTimescale: real -> real, fixed: (real, nat) -> string)
    requires prob >= 1.0
    ensures TimescaleLabel(EdgeTimescale(prob, finiteTimescale), fixed) == StableLabel
  {
  }
}
