/**
 * `build_question` (app.py, lines 40-58): the summary record written into
 * a fixed question template. How Python renders each number (`str` of an
 * int, the shortest `repr` of a float) is left to two parameters.
 */
module Prompt {
  import opened Summary

  /** The literal text around the values: twelve values sit between thirteen pieces. */
  const Labels: seq<string> := [
    "\nBased on the summarized OBD-II vehicle data over time, provide a detailed diagnostic report:\n"
      + "1. Assess overall vehicle health.\n2. Identify anomalies or issues.\n3. Suggest maintenance tips.\n\n"
      + "Data Summary:\n- Avg Engine Coolant Temp: ",
    " \U{00B0}C\n- Max Engine RPM: ",
    " RPM\n- Avg Engine RPM: ",
    " RPM\n- Max Speed: ",
    " km/h\n- Avg Air Flow (MAF): ",
    " g/s\n- Max Throttle: ",
    " %\n- Min Ambient Temp: ",
    " \U{00B0}C\n- Avg Intake Air Temp: ",
    " \U{00B0}C\n- Pedal D: ",
    "% to ",
    "%\n- Pedal E: ",
    "% to ",
    "%\n"
  ]

  /** The summary's values, rendered, in the order the template shows them. */
  function Values(s: SummaryRecord, showReal: real -> string, showInt: int -> string): (vs: seq<string>)
    ensures |vs| == |Labels| - 1
  {
    [showReal(s.engineTempAvg), showInt(s.rpmMax), showInt(s.rpmAvg), showInt(s.speedMax),
     showReal(s.mafAvg), showReal(s.throttleMax), showReal(s.ambientMin), showReal(s.intakeTempAvg),
     showReal(s.pedalDRange.0), showReal(s.pedalDRange.1),
     showReal(s.pedalERange.0), showReal(s.pedalERange.1)]
  }

  /** `lits[0] + vals[0] + lits[1] + ... + vals[n-1] + lits[n]`, the shape of an f-string. */
  function Fill(lits: seq<string>, vals: seq<string>): (r: string)
    requires |lits| == |vals| + 1
    decreases |vals|
  {
    if |vals| == 0 then lits[0] else lits[0] + vals[0] + Fill(lits[1..], vals[1..])
  }

  /** Where `vals[k]` starts in `Fill(lits, vals)`. */
  function Offset(lits: seq<string>, vals: seq<string>, k: nat): nat
    requires |lits| == |vals| + 1 && k < |vals|
    decreases k
  {
    if k == 0 then |lits[0]| else |lits[0]| + |vals[0]| + Offset(lits[1..], vals[1..], k - 1)
  }

  /** Each value stands in the filled text right after the piece of template that labels it. */
  lemma {:induction false} FillPlacesValue(lits: seq<string>, vals: seq<string>, k: nat)
    requires |lits| == |vals| + 1 && k < |vals|
    ensures var r, p := Fill(lits, vals), Offset(lits, vals, k);
      |lits[k]| <= p && p + |vals[k]| <= |r|
      && r[p - |lits[k]|..p] == lits[k] && r[p..p + |vals[k]|] == vals[k]
  {
    var r, p := Fill(lits, vals), Offset(lits, vals, k);
    var tail := Fill(lits[1..], vals[1..]);
    assert r == lits[0] + vals[0] + tail;
    if k == 0 {
      assert r[..|lits[0]|] == lits[0];
      assert r[p..p + |vals[0]|] == vals[0];
    } else {
      FillPlacesValue(lits[1..], vals[1..], k - 1);
      var q := Offset(lits[1..], vals[1..], k - 1);
      var shift := |lits[0]| + |vals[0]|;
      assert p == shift + q;
      assert r[shift..] == tail;
      assert r[p - |lits[k]|..p] == tail[q - |lits[k]|..q];
      assert r[p..p + |vals[k]|] == tail[q..q + |vals[k]|];
    }
  }

  /** `build_question(summary)`. */
  function BuildQuestion(s: SummaryRecord, showReal: real -> string, showInt: int -> string): string {
    Fill(Labels, Values(s, showReal, showInt))
  }

  /**
   * The question shows every one of the twelve values, each directly after
   * its label: e.g. the text of `rpm_max` follows "- Max Engine RPM: ".
   */
  lemma QuestionShowsEveryValue(s: SummaryRecord, showReal: real -> string, showInt: int -> string, k: nat)
    requires k < |Labels| - 1
    ensures var q, vs := BuildQuestion(s, showReal, showInt), Values(s, showReal, showInt);
      var p := Offset(Labels, vs, k);
      |Labels[k]| <= p && p + |vs[k]| <= |q|
      && q[p - |Labels[k]|..p] == Labels[k] && q[p..p + |vs[k]|] == vs[k]
  {
    FillPlacesValue(Labels, Values(s, showReal, showInt), k);
  }
}
