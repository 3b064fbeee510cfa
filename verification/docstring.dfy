/** The description shown for a command file in the help listing: the text
    of the file's leading triple-quoted block, read line by line.

    `ScanAsWritten` is the scan exactly as the launcher performs it: the first
    line holding the marker opens the block with the stripped text after that
    marker (up to a second marker on the same line, if any), every following
    line adds a space and its stripped text, and the next line holding the
    marker adds its stripped text before the marker and ends the scan.
    `DocstringSpec` says the same thing declaratively, by positions of marker
    lines. `DocstringFixed` also ends the scan at a one-line block
    (`"""text"""`), which the launcher's scan does not do. */
module Docstring {
  import opened Optional
  import opened Text

  const Marker: string := "\"\"\""

  /** Shown when a file yields an empty description. */
  const NoDescription: string := "Sem descri\U{e7}\U{e3}o"

  predicate HasMarker(line: string)
  {
    Contains(line, Marker)
  }

  /** The line opens and closes a block on its own: two markers or more. */
  predicate IsOneLiner(line: string)
  {
    |Split(line, Marker)| > 2
  }

  /** The description's first part: the stripped text after the marker. */
  function Opening(line: string): string
    requires HasMarker(line)
  {
    SplitSpec(line, Marker);
    Strip(Split(line, Marker)[1])
  }

  /** The description's last part: the stripped text before the marker. */
  function Closing(line: string): string
    requires HasMarker(line)
  {
    Strip(Split(line, Marker)[0])
  }

  /** A line as the scan uses it: whether it holds the marker, its stripped
      text, and for a marker line the stripped text after and before the
      first marker and whether a second marker follows. */
  datatype LineView = LineView(
    marked: bool,
    stripped: string,
    opening: string,
    closing: string,
    oneLiner: bool)

  function View(line: string): (v: LineView)
    ensures v.marked == HasMarker(line) && v.stripped == Strip(line)
  {
    if HasMarker(line) then LineView(true, Strip(line), Opening(line), Closing(line), IsOneLiner(line))
    else LineView(false, Strip(line), "", "", false)
  }

  /** The view of every line, in order. */
  function Views(lines: seq<string>): (r: seq<LineView>)
    ensures |r| == |lines|
    ensures forall k :: 0 <= k < |lines| ==> r[k] == View(lines[k])
  {
    seq(|lines|, k requires 0 <= k < |lines| => View(lines[k]))
  }

  lemma ViewsAppend(a: seq<string>, b: seq<string>)
    ensures Views(a + b) == Views(a) + Views(b)
  {
  }

  // ---------------------------------------------------------------------
  // The scan as written: two phases of one loop, before and after the
  // opening marker.
  // ---------------------------------------------------------------------

  /** Inside the block, from line `i`, with the description so far `acc`. */
  function ScanOpen(vs: seq<LineView>, i: nat, acc: string): string
    requires i <= |vs|
    decreases |vs| - i
  {
    if i == |vs| then acc
    else if vs[i].marked then acc + vs[i].closing
    else ScanOpen(vs, i + 1, acc + (" " + vs[i].stripped))
  }

  /** Before the block, from line `i`: the description is empty so far. */
  function ScanClosed(vs: seq<LineView>, i: nat): string
    requires i <= |vs|
    decreases |vs| - i
  {
    if i == |vs| then ""
    else if vs[i].marked then ScanOpen(vs, i + 1, vs[i].opening)
    else ScanClosed(vs, i + 1)
  }

  /** The description the launcher's scan extracts from a file's lines. It
      is the declarative description `DocstringSpec`, defined below. */
  function ScanAsWritten(lines: seq<string>): (r: string)
    ensures r == DocstringSpec(lines)
  {
    ScanClosedSpec(Views(lines), 0);
    ScanClosed(Views(lines), 0)
  }

  // ---------------------------------------------------------------------
  // The same description, stated by the positions of the marker lines.
  // ---------------------------------------------------------------------

  /** The first line at or after `from` that holds the marker. */
  function FirstMarker(vs: seq<LineView>, from: nat): (r: Option<nat>)
    requires from <= |vs|
    ensures r.Some? ==> from <= r.value < |vs|
    decreases |vs| - from
  {
    if from == |vs| then None
    else if vs[from].marked then Some(from)
    else FirstMarker(vs, from + 1)
  }

  /** `FirstMarker` finds a marker line, and no earlier one at or after
      `from`; it finds none only when there is none. */
  lemma {:induction false} FirstMarkerIsFirst(vs: seq<LineView>, from: nat)
    requires from <= |vs|
    ensures var r := FirstMarker(vs, from);
      && (r.Some? ==> vs[r.value].marked && forall k :: from <= k < r.value ==> !vs[k].marked)
      && (r.None? ==> forall k :: from <= k < |vs| ==> !vs[k].marked)
    decreases |vs| - from
  {
    if from < |vs| && !vs[from].marked {
      FirstMarkerIsFirst(vs, from + 1);
    }
  }

  /** Lines `lo` up to `hi`, each stripped and preceded by one space. */
  function Continuation(vs: seq<LineView>, lo: nat, hi: nat): string
    requires lo <= hi <= |vs|
    decreases hi - lo
  {
    if lo == hi then "" else " " + vs[lo].stripped + Continuation(vs, lo + 1, hi)
  }

  /** The block's text after it opened at line `i - 1`: the continuation
      lines up to the closing marker line and that line's text before the
      marker, or every remaining line when no marker closes the block. */
  function BodyFrom(vs: seq<LineView>, i: nat): string
    requires i <= |vs|
  {
    match FirstMarker(vs, i)
    case None => Continuation(vs, i, |vs|)
    case Some(j) => Continuation(vs, i, j) + vs[j].closing
  }

  /** What the scan yields from line `i` on, before the block has opened. */
  function FromFirstMarker(vs: seq<LineView>, i: nat): string
    requires i <= |vs|
  {
    match FirstMarker(vs, i)
    case None => ""
    case Some(k) => vs[k].opening + BodyFrom(vs, k + 1)
  }

  /** The description: empty without a marker line; otherwise the opening
      text of the first marker line followed by the block's body. */
  function DocstringSpec(lines: seq<string>): string
  {
    FromFirstMarker(Views(lines), 0)
  }

  lemma SkipUnmarked(vs: seq<LineView>, i: nat)
    requires i < |vs| && !vs[i].marked
    ensures FirstMarker(vs, i) == FirstMarker(vs, i + 1)
  {
  }

  lemma MarkerHere(vs: seq<LineView>, i: nat)
    requires i < |vs| && vs[i].marked
    ensures FirstMarker(vs, i) == Some(i)
  {
  }

  /** A block closed by the very next line has only that line's closing
      text. */
  lemma ClosesHere(vs: seq<LineView>, i: nat)
    requires i < |vs| && vs[i].marked
    ensures BodyFrom(vs, i) == vs[i].closing
  {
    MarkerHere(vs, i);
    assert Continuation(vs, i, i) == "";
  }

  lemma NoLinesLeft(vs: seq<LineView>)
    ensures FirstMarker(vs, |vs|) == None
    ensures BodyFrom(vs, |vs|) == ""
  {
  }

  lemma ContinuationStep(vs: seq<LineView>, i: nat, j: nat)
    requires i < j <= |vs|
    ensures Continuation(vs, i, j) == " " + vs[i].stripped + Continuation(vs, i + 1, j)
  {
  }

  /** An unmarked line inside the block adds a space and its stripped text. */
  lemma BodyStep(vs: seq<LineView>, i: nat)
    requires i < |vs| && !vs[i].marked
    ensures BodyFrom(vs, i) == " " + vs[i].stripped + BodyFrom(vs, i + 1)
  {
    SkipUnmarked(vs, i);
    var f := FirstMarker(vs, i + 1);
    if f.None? {
      ContinuationStep(vs, i, |vs|);
    } else {
      var j := f.value;
      ContinuationStep(vs, i, j);
      ConcatAssoc(" " + vs[i].stripped, Continuation(vs, i + 1, j), vs[j].closing);
    }
  }

  lemma {:induction false} ScanOpenSpec(vs: seq<LineView>, i: nat, acc: string)
    requires i <= |vs|
    ensures ScanOpen(vs, i, acc) == acc + BodyFrom(vs, i)
    decreases |vs| - i
  {
    if i == |vs| {
      NoLinesLeft(vs);
    } else if vs[i].marked {
      ClosesHere(vs, i);
    } else {
      var line := " " + vs[i].stripped;
      ScanOpenSpec(vs, i + 1, acc + line);
      BodyStep(vs, i);
      ConcatAssoc(acc, line, BodyFrom(vs, i + 1));
    }
  }

  lemma {:induction false} ScanClosedSpec(vs: seq<LineView>, i: nat)
    requires i <= |vs|
    ensures ScanClosed(vs, i) == FromFirstMarker(vs, i)
    decreases |vs| - i
  {
    if i == |vs| {
      NoLinesLeft(vs);
    } else if vs[i].marked {
      OpensHere(vs, i);
      ScanOpenSpec(vs, i + 1, vs[i].opening);
    } else {
      StillClosed(vs, i);
      ScanClosedSpec(vs, i + 1);
    }
  }

  lemma OpensHere(vs: seq<LineView>, i: nat)
    requires i < |vs| && vs[i].marked
    ensures ScanClosed(vs, i) == ScanOpen(vs, i + 1, vs[i].opening)
    ensures FromFirstMarker(vs, i) == vs[i].opening + BodyFrom(vs, i + 1)
  {
    ScanOpensAt(vs, i);
    SpecOpensAt(vs, i);
  }

  lemma ScanOpensAt(vs: seq<LineView>, i: nat)
    requires i < |vs| && vs[i].marked
    ensures ScanClosed(vs, i) == ScanOpen(vs, i + 1, vs[i].opening)
  {
  }

  lemma SpecOpensAt(vs: seq<LineView>, i: nat)
    requires i < |vs| && vs[i].marked
    ensures FromFirstMarker(vs, i) == vs[i].opening + BodyFrom(vs, i + 1)
  {
    MarkerHere(vs, i);
  }

  lemma StillClosed(vs: seq<LineView>, i: nat)
    requires i < |vs| && !vs[i].marked
    ensures ScanClosed(vs, i) == ScanClosed(vs, i + 1)
    ensures FromFirstMarker(vs, i) == FromFirstMarker(vs, i + 1)
  {
    ScanSkips(vs, i);
    SpecSkips(vs, i);
  }

  lemma ScanSkips(vs: seq<LineView>, i: nat)
    requires i < |vs| && !vs[i].marked
    ensures ScanClosed(vs, i) == ScanClosed(vs, i + 1)
  {
  }

  lemma SpecSkips(vs: seq<LineView>, i: nat)
    requires i < |vs| && !vs[i].marked
    ensures FromFirstMarker(vs, i) == FromFirstMarker(vs, i + 1)
  {
    SkipUnmarked(vs, i);
  }

  // ---------------------------------------------------------------------
  // The corrected scan: a one-line block ends where it opened.
  // ---------------------------------------------------------------------

  function ScanClosedFixed(vs: seq<LineView>, i: nat): string
    requires i <= |vs|
    decreases |vs| - i
  {
    if i == |vs| then ""
    else if vs[i].marked then
      if vs[i].oneLiner then vs[i].opening
      else ScanOpen(vs, i + 1, vs[i].opening)
    else ScanClosedFixed(vs, i + 1)
  }

  /** The description with one-line blocks read as one line. */
  function DocstringFixed(lines: seq<string>): string
  {
    ScanClosedFixed(Views(lines), 0)
  }

  /** The corrected description when the block opens at line `at`: a
      one-line block is its opening text alone. */
  function FixedAt(vs: seq<LineView>, at: Option<nat>): string
    requires at.Some? ==> at.value < |vs|
  {
    match at
    case None => ""
    case Some(k) =>
      if vs[k].oneLiner then vs[k].opening
      else vs[k].opening + BodyFrom(vs, k + 1)
  }

  /** The corrected scan from line `i`: the opening text alone when the
      first marker line is a one-line block, the launcher's reading
      otherwise. */
  lemma {:induction false} ScanClosedFixedSpec(vs: seq<LineView>, i: nat)
    requires i <= |vs|
    ensures ScanClosedFixed(vs, i) == FixedAt(vs, FirstMarker(vs, i))
    decreases |vs| - i
  {
    if i == |vs| {
      NoLinesLeft(vs);
    } else if vs[i].marked {
      MarkerHere(vs, i);
      if !vs[i].oneLiner {
        ScanOpenSpec(vs, i + 1, vs[i].opening);
      }
    } else {
      SkipUnmarked(vs, i);
      ScanClosedFixedSpec(vs, i + 1);
    }
  }

  /** The first line holding the marker, if any. */
  function FirstMarkerLine(lines: seq<string>): Option<nat>
  {
    FirstMarker(Views(lines), 0)
  }

  /** Where the block does not open and close on one line, the corrected
      scan and the launcher's scan give the same description. */
  lemma FixedAgreesOnBlocks(lines: seq<string>)
    requires FirstMarkerLine(lines).Some? ==> !IsOneLiner(lines[FirstMarkerLine(lines).value])
    ensures DocstringFixed(lines) == ScanAsWritten(lines)
  {
    var vs := Views(lines);
    var f := FirstMarker(vs, 0);
    if f.Some? {
      FirstMarkerIsFirst(vs, 0);
      MarkedView(lines[f.value]);
    }
    ScanClosedFixedSpec(vs, 0);
    ScanClosedSpec(vs, 0);
    FixedAtAgrees(vs, 0);
  }

  /** What the view of a marker line records about it. */
  lemma MarkedView(line: string)
    requires HasMarker(line)
    ensures View(line).oneLiner == IsOneLiner(line)
    ensures View(line).opening == Opening(line)
  {
  }

  lemma FixedAtAgrees(vs: seq<LineView>, i: nat)
    requires i <= |vs|
    requires FirstMarker(vs, i).Some? ==> !vs[FirstMarker(vs, i).value].oneLiner
    ensures FixedAt(vs, FirstMarker(vs, i)) == FromFirstMarker(vs, i)
  {
  }

  /** Lines added after the first marker line do not move it. */
  lemma FirstMarkerKept(vs: seq<LineView>, rest: seq<LineView>)
    requires FirstMarker(vs, 0).Some?
    ensures FirstMarker(vs + rest, 0) == FirstMarker(vs, 0)
  {
    var k := FirstMarker(vs, 0).value;
    var all := vs + rest;
    FirstMarkerIsFirst(vs, 0);
    FirstMarkerIsFirst(all, 0);
    assert all[k] == vs[k];
    forall j | 0 <= j < k
      ensures !all[j].marked
    {
      assert all[j] == vs[j];
    }
  }

  /** A one-line block is the whole description; later lines are not read. */
  lemma FixedStopsAtOneLiner(lines: seq<string>, rest: seq<string>)
    requires FirstMarkerLine(lines).Some? && IsOneLiner(lines[FirstMarkerLine(lines).value])
    ensures DocstringFixed(lines + rest) == Opening(lines[FirstMarkerLine(lines).value])
  {
    var k := FirstMarkerLine(lines).value;
    ViewsAppend(lines, rest);
    FirstMarkerKept(Views(lines), Views(rest));
    assert Views(lines + rest)[k] == Views(lines)[k];
    ScanClosedFixedSpec(Views(lines + rest), 0);
  }

  /** The pieces of the line `"""A"""` around its two markers. */
  lemma SplitOneLiner()
    ensures Split(Marker + "A" + Marker, Marker) == ["", "A", ""]
  {
    var first := Marker + "A" + Marker;
    assert OccursAt(first, Marker, 0) by { assert first[0..3] == Marker; }
    FindHere(first, Marker, 0);
    SplitFirst(first, Marker, 0);
    assert first[..0] == "" && first[3..] == "A" + Marker;
    SplitAfterText();
  }

  /** The pieces of `A"""`: the text and the empty rest. */
  lemma SplitAfterText()
    ensures Split("A" + Marker, Marker) == ["A", ""]
  {
    var after := "A" + Marker;
    assert !OccursAt(after, Marker, 0) by { assert after[0] != Marker[0]; }
    FindPast(after, Marker, 0);
    assert OccursAt(after, Marker, 1) by { assert after[1..4] == Marker; }
    FindHere(after, Marker, 1);
    SplitFirst(after, Marker, 1);
    assert after[..1] == "A" && after[4..] == "";
    FindNone("", Marker, 0);
    SplitNone("", Marker);
  }

  lemma PlainLine()
    ensures !HasMarker("b") && Strip("b") == "b" && Strip("A") == "A"
  {
    FindNone("b", Marker, 0);
    StripPadded("", "b", "");
    assert "" + "b" + "" == "b";
    StripPadded("", "A", "");
    assert "" + "A" + "" == "A";
  }

  /** The view of the line `"""A"""`: a one-line block saying `A`. */
  lemma OneLinerView()
    ensures View(Marker + "A" + Marker).marked
    ensures View(Marker + "A" + Marker).opening == "A"
    ensures View(Marker + "A" + Marker).oneLiner
  {
    var first := Marker + "A" + Marker;
    SplitOneLiner();
    PlainLine();
    SplitSpec(first, Marker);
  }

  /** The launcher's scan runs past a one-line block: for the file
      `"""A"""` followed by the line `b` it reports `A b`, where the block
      says `A`. */
  lemma OneLinerRunsOn()
    ensures ScanAsWritten([Marker + "A" + Marker, "b"]) == "A b"
    ensures DocstringFixed([Marker + "A" + Marker, "b"]) == "A"
  {
    var first := Marker + "A" + Marker;
    var lines := [first, "b"];
    OneLinerView();
    PlainLine();
    var vs := Views(lines);
    assert vs[0] == View(first);
    assert vs[1] == View("b");
    assert ScanOpen(vs, 1, "A") == ScanOpen(vs, 2, "A" + (" " + "b"));
    assert "A" + (" " + "b") == "A b";
  }

  /** `get_command_docstring` on a readable file: the scanned description,
      or the fixed "no description" text when the scan yields nothing. */
  function Describe(lines: seq<string>): (r: string)
    ensures r != ""
    ensures DocstringSpec(lines) == "" ==> r == NoDescription
    ensures DocstringSpec(lines) != "" ==> r == DocstringSpec(lines)
  {
    var d := ScanAsWritten(lines);
    if d == "" then NoDescription else d
  }

  /** The description with the corrected scan. */
  function DescribeFixed(lines: seq<string>): (r: string)
    ensures r != ""
    ensures DocstringFixed(lines) == "" ==> r == NoDescription
    ensures DocstringFixed(lines) != "" ==> r == DocstringFixed(lines)
  {
    var d := DocstringFixed(lines);
    if d == "" then NoDescription else d
  }
}
