/**
 * The archive picker: one button per archive, in archive order, whose
 * argument is the archive index and whose caption shows the archive's step and
 * the period it covers, "step (step*rows)", both as duration labels.
 */
module Picker {
  import opened Wrappers
  import opened RrdFile
  import opened DurationFormat
  import opened DurationLabel

  /** A picker button: the arguments passed to the click handler, its label (`caption`), and the chart method ("skip"). */
  datatype Button = Button(args: seq<int>, caption: string, action: string)

  /** The caption of an archive's button: its step, then in parentheses its period step * rows. */
  function ButtonLabel(step: nat, rows: nat): string {
    FormatTime(step) + " (" + FormatTime(step * rows) + ")"
  }

  /** `buttons` is the picker of `rrd`: button i selects archive i and is captioned with its step and period. */
  predicate IsPicker<V>(rrd: Rrd<V>, buttons: seq<Button>) {
    && |buttons| == NrRRAs(rrd)
    && forall i :: 0 <= i < |buttons| ==>
         buttons[i] == Button([i], ButtonLabel(rrd.archives[i].step, rrd.archives[i].rows), "skip")
  }

  /** `createRraButtons()`: the picker, built archive by archive. */
  method CreateRraButtons<V>(rrd: Rrd<V>) returns (buttons: seq<Button>)
    ensures |buttons| == NrRRAs(rrd)
    ensures forall i :: 0 <= i < |buttons| ==> buttons[i].args == [i] && buttons[i].action == "skip"
    ensures forall i :: 0 <= i < |buttons| ==>
              buttons[i].caption == ButtonLabel(rrd.archives[i].step, rrd.archives[i].rows)
    ensures IsPicker(rrd, buttons)
  {
    buttons := [];
    var i := 0;
    while i < NrRRAs(rrd)
      invariant 0 <= i <= NrRRAs(rrd)
      invariant |buttons| == i
      invariant forall k :: 0 <= k < i ==>
                  buttons[k] == Button([k], ButtonLabel(rrd.archives[k].step, rrd.archives[k].rows), "skip")
    {
      var rra := rrd.archives[i];
      var step := rra.step;
      var rows := rra.rows;
      buttons := buttons + [Button([i], ButtonLabel(step, rows), "skip")];
      i := i + 1;
    }
  }

  /** The index of the first `c` in `t`, or |t| when there is none. */
  function FirstIndexOf(t: string, c: char): (k: nat)
    ensures k <= |t|
    ensures forall i :: 0 <= i < k ==> t[i] != c
    ensures k < |t| ==> t[k] == c
    decreases |t|
  {
    if |t| == 0 then 0 else if t[0] == c then 0 else 1 + FirstIndexOf(t[1..], c)
  }

  /** Splits a caption "a (b)" at its first '(' into a and b. */
  function SplitButtonLabel(caption: string): Option<(string, string)> {
    var k := FirstIndexOf(caption, '(');
    if 1 <= k < |caption| - 1 && caption[k - 1] == ' ' && caption[|caption| - 1] == ')' then
      Some((caption[..k - 1], caption[k + 1..|caption| - 1]))
    else None
  }

  /** The first `c` of `p + rest` is the head of `rest` when `p` has none. */
  lemma FirstIndexAfterPrefix(p: string, rest: string, c: char)
    requires forall i :: 0 <= i < |p| ==> p[i] != c
    requires |rest| > 0 && rest[0] == c
    ensures FirstIndexOf(p + rest, c) == |p|
  {
    var t := p + rest;
    assert forall i :: 0 <= i < |p| ==> t[i] == p[i];
    assert t[|p|] == c;
  }

  /** "a (b)" splits back into a and b when a has no '('. */
  lemma SplitCaption(a: string, b: string)
    requires |a| > 0
    requires forall i :: 0 <= i < |a| ==> a[i] != '('
    ensures SplitButtonLabel(a + " (" + b + ")") == Some((a, b))
  {
    var p, rest := a + " ", "(" + b + ")";
    var caption := a + " (" + b + ")";
    assert caption == p + rest;
    FirstIndexAfterPrefix(p, rest, '(');
    assert caption[..|a|] == a;
    assert caption[|a| + 2..|caption| - 1] == b;
  }

  /** A caption splits back into the step label and the period label it was made of. */
  lemma SplitButtonLabelOf(step: nat, rows: nat)
    ensures SplitButtonLabel(ButtonLabel(step, rows)) == Some((FormatTime(step), FormatTime(step * rows)))
  {
    var a := FormatTime(step);
    FormatTimeIsLabelText(step);
    assert forall i :: 0 <= i < |a| ==> IsLabelChar(a[i]);
    SplitCaption(a, FormatTime(step * rows));
  }

  /**
   * Both halves of a caption read back: the step label to within the
   * precision of the step, the period label to within that of the period.
   */
  lemma ButtonLabelReadBack(step: nat, rows: nat)
    ensures SplitButtonLabel(ButtonLabel(step, rows)).Some?
    ensures var (a, b) := SplitButtonLabel(ButtonLabel(step, rows)).value;
            && ParseLabel(a).Some? && ParseLabel(a).value <= step < ParseLabel(a).value + Precision(step)
            && ParseLabel(b).Some? && ParseLabel(b).value <= step * rows < ParseLabel(b).value + Precision(step * rows)
  {
    SplitButtonLabelOf(step, rows);
    FormatTimeReadBack(step);
    FormatTimeReadBack(step * rows);
  }
}
