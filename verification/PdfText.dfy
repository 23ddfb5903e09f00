/** Visual lines and font annotations of one PDF text block: the two loops of
    src/uaf/app/formats/pdf_format.py that must agree on character offsets. */
module PdfText {
  import opened Collections
  import opened Nodes

  datatype Box = Box(x0: real, y0: real, x1: real, y1: real)

  /** A span as extracted: `family` is the mapped CSS family, `math` tells a Computer Modern math
      font, `align` the vertical shift detected for a sub- or superscript. */
  datatype PdfSpan = PdfSpan(text: string, family: Option<string>, style: Option<string>, size: Option<real>,
                             weight: Option<string>, math: bool, align: Option<real>)

  datatype PdfLine = PdfLine(spans: seq<PdfSpan>, box: Box)

  function Min(a: real, b: real): real { if a < b then a else b }
  function Max(a: real, b: real): real { if a > b then a else b }

  /** _same_baseline: more than half of the shorter line overlaps. */
  predicate SameBaseline(a: Box, b: Box) {
    var overlap := Min(a.y1, b.y1) - Max(a.y0, b.y0);
    var height := Min(a.y1 - a.y0, b.y1 - b.y0);
    height > 0.0 && overlap / height > 0.5
  }

  /** The same without division: twice the overlap exceeds the lesser height, which is positive. */
  lemma SameBaselineIff(a: Box, b: Box)
    ensures var overlap := (if a.y1 < b.y1 then a.y1 else b.y1) - (if a.y0 > b.y0 then a.y0 else b.y0);
      var lesser := if a.y1 - a.y0 < b.y1 - b.y0 then a.y1 - a.y0 else b.y1 - b.y0;
      SameBaseline(a, b) <==> lesser > 0.0 && 2.0 * overlap > lesser
  {
    var overlap := Min(a.y1, b.y1) - Max(a.y0, b.y0);
    var lesser := Min(a.y1 - a.y0, b.y1 - b.y0);
    if lesser > 0.0 { Halves(overlap, lesser); }
  }

  lemma Halves(o: real, h: real)
    requires h > 0.0
    ensures o / h > 0.5 <==> 2.0 * o > h
  {
    var q := o / h;
    assert q * h == o;
    if q > 0.5 { assert (q - 0.5) * h > 0.0; } else { assert (0.5 - q) * h >= 0.0; }
  }

  function Union(a: Box, b: Box): Box {
    Box(Min(a.x0, b.x0), Min(a.y0, b.y0), Max(a.x1, b.x1), Max(a.y1, b.y1))
  }

  // ----- grouping -----

  /** The lines grouped into visual lines, and the envelope of the last group. */
  datatype Grouping = Grouping(groups: seq<seq<PdfLine>>, envelope: Box)

  function Grouped(lines: seq<PdfLine>): (g: Grouping)
    requires lines != []
    ensures g.groups != [] && forall i :: 0 <= i < |g.groups| ==> g.groups[i] != []
  {
    if |lines| == 1 then Grouping([[lines[0]]], lines[0].box)
    else
      var g, line := Grouped(Init(lines)), Last(lines);
      if SameBaseline(g.envelope, line.box)
      then Grouping(Init(g.groups) + [Last(g.groups) + [line]], Union(g.envelope, line.box))
      else Grouping(g.groups + [[line]], line.box)
  }

  lemma ExtendLast<T>(groups: seq<seq<T>>, x: T)
    requires groups != []
    ensures Flatten(Init(groups) + [Last(groups) + [x]]) == Flatten(groups) + [x]
  {
    assert groups == Init(groups) + [Last(groups)];
    FlattenLast(Init(groups), Last(groups));
    FlattenLast(Init(groups), Last(groups) + [x]);
    hide Flatten;
  }

  /** Nothing is lost or moved: the groups, one after another, are the lines. */
  lemma {:induction false} GroupsHoldLines(lines: seq<PdfLine>)
    requires lines != []
    ensures Flatten(Grouped(lines).groups) == lines
  {
    hide SameBaseline, Union, Flatten;
    if |lines| == 1 {
      var none: seq<seq<PdfLine>> := [];
      FlattenLast(none, [lines[0]]);
      FlattenNone<PdfLine>();
      assert none + [[lines[0]]] == [[lines[0]]];
    } else {
      var g, line := Grouped(Init(lines)).groups, Last(lines);
      GroupsHoldLines(Init(lines));
      ExtendLast(g, line);
      FlattenLast(g, [line]);
      assert Init(lines) + [line] == lines;
    }
  }

  lemma FlattenNone<T>()
    ensures Flatten<T>([]) == []
  {
  }

  function Flatten<T>(xs: seq<seq<T>>): seq<T> {
    if xs == [] then [] else Flatten(Init(xs)) + Last(xs)
  }

  lemma FlattenLast<T>(xs: seq<seq<T>>, x: seq<T>)
    ensures Flatten(xs + [x]) == Flatten(xs) + x
  {
    assert Init(xs + [x]) == xs;
  }

  // ----- texts -----

  function SpansText(spans: seq<PdfSpan>): string {
    if spans == [] then "" else spans[0].text + SpansText(spans[1..])
  }

  /** The lines of one visual line, joined by single spaces. */
  function GroupText(group: seq<PdfLine>): string
    requires group != []
  {
    if |group| == 1 then SpansText(group[0].spans) else GroupText(Init(group)) + " " + SpansText(Last(group).spans)
  }

  function GroupTexts(groups: seq<seq<PdfLine>>): (r: seq<string>)
    requires forall i :: 0 <= i < |groups| ==> groups[i] != []
    ensures |r| == |groups|
  {
    if groups == [] then [] else GroupTexts(Init(groups)) + [GroupText(Last(groups))]
  }

  /** `sep.join(parts)` */
  function JoinWith(sep: string, parts: seq<string>): string {
    if parts == [] then "" else if |parts| == 1 then parts[0] else JoinWith(sep, Init(parts)) + sep + Last(parts)
  }

  function JoinLines(lines: seq<string>): string {
    JoinWith("\n", lines)
  }

  function TextsOf(spans: seq<PdfSpan>): (r: seq<string>)
    ensures |r| == |spans| && forall i :: 0 <= i < |r| ==> r[i] == spans[i].text
  {
    seq(|spans|, i requires 0 <= i < |spans| => spans[i].text)
  }

  /** The text of each line: the texts of its spans, joined without anything between. */
  function LineTexts(lines: seq<PdfLine>): (r: seq<string>)
    ensures |r| == |lines| && forall i :: 0 <= i < |r| ==> r[i] == JoinWith("", TextsOf(lines[i].spans))
  {
    seq(|lines|, i requires 0 <= i < |lines| => JoinWith("", TextsOf(lines[i].spans)))
  }

  lemma {:induction false} SpansTextJoins(spans: seq<PdfSpan>)
    ensures SpansText(spans) == JoinWith("", TextsOf(spans))
  {
    if |spans| == 1 {
      assert spans[1..] == [];
    } else if spans != [] {
      var most, last := Init(spans), Last(spans);
      SpansTextJoins(most);
      SpansTextLast(most, last);
      assert spans == most + [last] && Init(TextsOf(spans)) == TextsOf(most);
    }
  }

  lemma {:induction false} SpansTextLast(spans: seq<PdfSpan>, s: PdfSpan)
    ensures SpansText(spans + [s]) == SpansText(spans) + s.text
  {
    if spans == [] {
      assert spans + [s] == [s] && [s][1..] == [];
    } else {
      SpansTextLast(spans[1..], s);
      assert (spans + [s])[1..] == spans[1..] + [s];
    }
  }

  lemma {:induction false} GroupTextJoins(group: seq<PdfLine>)
    requires group != []
    ensures GroupText(group) == JoinWith(" ", LineTexts(group))
  {
    SpansTextJoins(Last(group).spans);
    hide SpansText, TextsOf;
    assert Last(LineTexts(group)) == JoinWith("", TextsOf(Last(group).spans));
    if |group| > 1 {
      GroupTextJoins(Init(group));
      assert Init(LineTexts(group)) == LineTexts(Init(group));
    }
  }

  // ----- which lines share a visual line, read off their boxes -----

  /** All lines have the same y-range, of positive height. */
  ghost predicate OneHeight(lines: seq<PdfLine>) {
    && (forall i :: 0 <= i < |lines| ==> lines[i].box.y0 < lines[i].box.y1)
    && forall i, j :: 0 <= i < |lines| && 0 <= j < |lines| ==>
         lines[i].box.y0 == lines[j].box.y0 && lines[i].box.y1 == lines[j].box.y1
  }

  /** No two lines share a height. */
  ghost predicate Stacked(lines: seq<PdfLine>) {
    forall i, j :: 0 <= i < j < |lines| ==>
      lines[i].box.y1 <= lines[j].box.y0 || lines[j].box.y1 <= lines[i].box.y0
  }

  lemma {:induction false} OneHeightGroup(lines: seq<PdfLine>)
    requires lines != [] && OneHeight(lines)
    ensures Grouped(lines).groups == [lines]
    ensures Grouped(lines).envelope.y0 == lines[0].box.y0 && Grouped(lines).envelope.y1 == lines[0].box.y1
  {
    if |lines| == 1 {
      assert [lines[0]] == lines;
    } else {
      OneHeightGroup(Init(lines));
      var g, box := Grouped(Init(lines)), Last(lines).box;
      assert box.y0 == lines[0].box.y0 && box.y1 == lines[0].box.y1 && box.y0 < box.y1;
      SameBaselineIff(g.envelope, box);
      hide SameBaseline;
      assert Init(lines) + [Last(lines)] == lines;
    }
  }

  lemma {:induction false} StackedGroups(lines: seq<PdfLine>)
    requires lines != [] && Stacked(lines)
    ensures |Grouped(lines).groups| == |lines| && Grouped(lines).envelope == Last(lines).box
    ensures forall i :: 0 <= i < |lines| ==> Grouped(lines).groups[i] == [lines[i]]
  {
    if |lines| > 1 {
      StackedGroups(Init(lines));
      SameBaselineIff(lines[|lines| - 2].box, lines[|lines| - 1].box);
      hide SameBaseline;
    }
  }

  /** The texts of visual lines of one line each, or of a single visual line. */
  lemma {:induction false} SingleTexts(groups: seq<seq<PdfLine>>, lines: seq<PdfLine>)
    requires |groups| == |lines| && forall i :: 0 <= i < |lines| ==> groups[i] == [lines[i]]
    ensures GroupTexts(groups) == LineTexts(lines)
  {
    if groups != [] {
      SingleTexts(Init(groups), Init(lines));
      GroupTextJoins(Last(groups));
      assert LineTexts(lines) == LineTexts(Init(lines)) + [LineTexts(lines)[|lines| - 1]];
      assert LineTexts([Last(lines)])[0] == LineTexts(lines)[|lines| - 1];
      hide GroupText;
    }
  }

  lemma OneText(lines: seq<PdfLine>)
    requires lines != []
    ensures GroupTexts([lines]) == [JoinWith(" ", LineTexts(lines))]
  {
    GroupTextJoins(lines);
    assert Init([lines]) == [];
    hide GroupText, LineTexts, JoinWith;
  }

  /** Lines of one height are one visual line; lines at heights of their own are one each. */
  lemma VisualTexts(lines: seq<PdfLine>)
    requires lines != []
    ensures OneHeight(lines) ==> GroupTexts(Grouped(lines).groups) == [JoinWith(" ", LineTexts(lines))]
    ensures Stacked(lines) ==> GroupTexts(Grouped(lines).groups) == LineTexts(lines)
  {
    hide Grouped, GroupTexts, LineTexts, JoinWith;
    if OneHeight(lines) {
      OneHeightGroup(lines);
      OneText(lines);
    }
    if Stacked(lines) {
      StackedGroups(lines);
      SingleTexts(Grouped(lines).groups, lines);
    }
  }

  /** Twice the common height exceeds the lesser height. */
  predicate MostlyOverlap(a: PdfLine, b: PdfLine) {
    var top := if a.box.y0 > b.box.y0 then a.box.y0 else b.box.y0;
    var bottom := if a.box.y1 < b.box.y1 then a.box.y1 else b.box.y1;
    2.0 * (bottom - top) > a.box.y1 - a.box.y0 || 2.0 * (bottom - top) > b.box.y1 - b.box.y0
  }

  /** Two lines of positive height are one visual line if and only if twice the overlap exceeds the
      lesser height. */
  lemma TwoLines(a: PdfLine, b: PdfLine)
    requires a.box.y0 < a.box.y1 && b.box.y0 < b.box.y1
    ensures GroupTexts(Grouped([a, b]).groups)
      == if MostlyOverlap(a, b) then [JoinWith(" ", LineTexts([a, b]))] else LineTexts([a, b])
  {
    SameBaselineIff(a.box, b.box);
    hide SameBaseline, LineTexts, JoinWith;
    assert Init([a, b]) == [a] && [a] + [b] == [a, b];
    OneText([a, b]);
    SingleTexts([[a], [b]], [a, b]);
    assert [[a]] + [[b]] == [[a], [b]] && Init([[a]]) + [[a] + [b]] == [[a, b]];
    hide GroupTexts;
  }

  /** The envelope has the least top and the greatest bottom of the last visual line. */
  ghost predicate SpansHeight(group: seq<PdfLine>, top: real, bottom: real) {
    && (forall k :: 0 <= k < |group| ==> top <= group[k].box.y0 && group[k].box.y1 <= bottom)
    && (exists k :: 0 <= k < |group| && group[k].box.y0 == top)
    && (exists k :: 0 <= k < |group| && group[k].box.y1 == bottom)
  }

  lemma {:induction false} EnvelopeHeight(lines: seq<PdfLine>)
    requires lines != []
    ensures SpansHeight(Last(Grouped(lines).groups), Grouped(lines).envelope.y0, Grouped(lines).envelope.y1)
  {
    hide SameBaseline;
    if |lines| == 1 {
      assert Last(Grouped(lines).groups)[0] == lines[0];
    } else {
      EnvelopeHeight(Init(lines));
      var g, h, line := Grouped(Init(lines)), Grouped(lines), Last(lines);
      var group, after := Last(g.groups), Last(h.groups);
      if SameBaseline(g.envelope, line.box) {
        assert after == group + [line];
        HeightNext(group, g.envelope.y0, g.envelope.y1, line);
      } else {
        assert after == [line] && after[0] == line;
      }
    }
  }

  lemma HeightNext(group: seq<PdfLine>, top: real, bottom: real, line: PdfLine)
    requires SpansHeight(group, top, bottom)
    ensures SpansHeight(group + [line], Min(top, line.box.y0), Max(bottom, line.box.y1))
  {
    var after := group + [line];
    var i :| 0 <= i < |group| && group[i].box.y0 == top;
    var j :| 0 <= j < |group| && group[j].box.y1 == bottom;
    assert after[i] == group[i] && after[j] == group[j] && after[|group|] == line;
  }

  /** In general, line i joins the visual line before it if and only if twice its overlap with the
      heights that visual line spans exceeds the lesser of the two heights. */
  lemma LineJoinsIff(lines: seq<PdfLine>, i: nat, top: real, bottom: real)
    requires 1 <= i < |lines| && SpansHeight(Last(Grouped(lines[..i]).groups), top, bottom)
    ensures var box, g, h := lines[i].box, Grouped(lines[..i]).groups, Grouped(lines[..i + 1]).groups;
      var overlap := (if bottom < box.y1 then bottom else box.y1) - (if top > box.y0 then top else box.y0);
      var lesser := if bottom - top < box.y1 - box.y0 then bottom - top else box.y1 - box.y0;
      h == if lesser > 0.0 && 2.0 * overlap > lesser then Init(g) + [Last(g) + [lines[i]]] else g + [[lines[i]]]
  {
    var g := Grouped(lines[..i]);
    EnvelopeHeight(lines[..i]);
    HeightOnce(Last(g.groups), top, bottom, g.envelope.y0, g.envelope.y1);
    SameBaselineIff(g.envelope, lines[i].box);
    GroupedNext(lines, i);
    hide SameBaseline, Grouped, Union;
  }

  lemma HeightOnce(group: seq<PdfLine>, top: real, bottom: real, top': real, bottom': real)
    requires SpansHeight(group, top, bottom) && SpansHeight(group, top', bottom')
    ensures top == top' && bottom == bottom'
  {
  }

  method LineText(line: PdfLine) returns (text: string)
    ensures text == SpansText(line.spans)
  {
    text := "";
    for i := 0 to |line.spans|
      invariant text + SpansText(line.spans[i..]) == SpansText(line.spans)
    {
      text := text + line.spans[i].text;
    }
  }

  /** _merge_visual_lines */
  method MergeVisualLines(lines: seq<PdfLine>) returns (visual: seq<string>)
    ensures visual == if lines == [] then [] else GroupTexts(Grouped(lines).groups)
    ensures OneHeight(lines) && lines != [] ==> visual == [JoinWith(" ", LineTexts(lines))]
    ensures Stacked(lines) ==> visual == LineTexts(lines)
    ensures |lines| == 2 && (forall k :: 0 <= k < 2 ==> lines[k].box.y0 < lines[k].box.y1)
      ==> visual == if MostlyOverlap(lines[0], lines[1]) then [JoinWith(" ", LineTexts(lines))] else LineTexts(lines)
  {
    hide OneHeight, Stacked, MostlyOverlap, LineTexts, JoinWith, SameBaseline, Union, Grouped, GroupTexts, GroupText;
    if lines == [] {
      return [];
    }
    VisualTexts(lines);
    if |lines| == 2 && lines[0].box.y0 < lines[0].box.y1 && lines[1].box.y0 < lines[1].box.y1 {
      TwoLines(lines[0], lines[1]);
      assert [lines[0], lines[1]] == lines;
    }
    var first := LineText(lines[0]);
    visual := [first];
    var envelope := lines[0].box;
    FirstGroup(lines);
    for i := 1 to |lines|
      invariant visual == GroupTexts(Grouped(lines[..i]).groups) && envelope == Grouped(lines[..i]).envelope
      invariant |visual| > 0
    {
      GroupNext(lines, i);
      var text := LineText(lines[i]);
      if SameBaseline(envelope, lines[i].box) {
        visual := Init(visual) + [Last(visual) + " " + text];
        envelope := Union(envelope, lines[i].box);
      } else {
        visual := visual + [text];
        envelope := lines[i].box;
      }
    }
    assert lines[..|lines|] == lines;
  }

  lemma FirstGroup(lines: seq<PdfLine>)
    requires lines != []
    ensures GroupTexts(Grouped(lines[..1]).groups) == [SpansText(lines[0].spans)]
    ensures Grouped(lines[..1]).envelope == lines[0].box
  {
    assert lines[..1] == [lines[0]];
    TextsLast([], [lines[0]]);
  }

  lemma TextsLast(groups: seq<seq<PdfLine>>, group: seq<PdfLine>)
    requires (forall i :: 0 <= i < |groups| ==> groups[i] != []) && group != []
    ensures GroupTexts(groups + [group]) == GroupTexts(groups) + [GroupText(group)]
  {
    assert Init(groups + [group]) == groups;
    hide GroupText;
  }

  /** What one more line does to the texts. */
  lemma GroupNext(lines: seq<PdfLine>, i: nat)
    requires 1 <= i < |lines|
    ensures var g, h, line := Grouped(lines[..i]), Grouped(lines[..i + 1]), lines[i];
      var texts := GroupTexts(g.groups);
      && |texts| > 0
      && h.envelope == (if SameBaseline(g.envelope, line.box) then Union(g.envelope, line.box) else line.box)
      && GroupTexts(h.groups) ==
        (if SameBaseline(g.envelope, line.box) then Init(texts) + [Last(texts) + " " + SpansText(line.spans)]
         else texts + [SpansText(line.spans)])
  {
    assert Init(lines[..i + 1]) == lines[..i];
    var g, line := Grouped(lines[..i]), lines[i];
    var last := Last(g.groups);
    assert g.groups == Init(g.groups) + [last];
    assert Init(last + [line]) == last;
    hide SameBaseline, Union, SpansText;
    TextsLast(Init(g.groups), last);
    TextsLast(Init(g.groups), last + [line]);
    TextsLast(g.groups, [line]);
    hide GroupTexts, Grouped;
  }

  // ----- left offsets -----

  function LeftMost(group: seq<PdfLine>): (r: real)
    requires group != []
    ensures forall k :: 0 <= k < |group| ==> r <= group[k].box.x0
    ensures exists k :: 0 <= k < |group| && r == group[k].box.x0
  {
    if |group| == 1 then group[0].box.x0 else Min(LeftMost(Init(group)), Last(group).box.x0)
  }

  /** One left offset per visual line, relative to the block. */
  function Lefts(groups: seq<seq<PdfLine>>, x0: real, round: real -> real): (r: seq<real>)
    requires forall i :: 0 <= i < |groups| ==> groups[i] != []
    ensures |r| == |groups| && forall i :: 0 <= i < |groups| ==> r[i] == round(LeftMost(groups[i]) - x0)
  {
    seq(|groups|, i requires 0 <= i < |groups| => round(LeftMost(groups[i]) - x0))
  }

  lemma LeftNext(lines: seq<PdfLine>, i: nat)
    requires 1 <= i < |lines|
    ensures var g, h, line := Grouped(lines[..i]), Grouped(lines[..i + 1]), lines[i];
      && h.envelope == (if SameBaseline(g.envelope, line.box) then Union(g.envelope, line.box) else line.box)
      && LeftMost(Last(h.groups)) ==
        (if SameBaseline(g.envelope, line.box) then Min(LeftMost(Last(g.groups)), line.box.x0) else line.box.x0)
      && Init(h.groups) == if SameBaseline(g.envelope, line.box) then Init(g.groups) else g.groups
  {
    assert Init(lines[..i + 1]) == lines[..i];
    var g, line := Grouped(lines[..i]), lines[i];
    assert Init(Last(g.groups) + [line]) == Last(g.groups);
    hide SameBaseline, Union, Min, Grouped;
  }

  /** _compute_line_lefts: the same grouping a third time.  Nothing is reported for a single visual
      line or when no line is indented by more than half a point. */
  method ComputeLineLefts(lines: seq<PdfLine>, x0: real, round: real -> real) returns (r: Option<seq<real>>)
    ensures r == if lines == [] then None else
      var lefts := Lefts(Grouped(lines).groups, x0, round);
      if |lefts| >= 2 && exists i :: 0 <= i < |lefts| && lefts[i] > 0.5 then Some(lefts) else None
  {
    hide SameBaseline, Union, Min, Grouped, LeftMost, Lefts;
    if lines == [] {
      return None;
    }
    var envelope, least := lines[0].box, lines[0].box.x0;
    var lefts: seq<real> := [];
    FirstLeft(lines, x0, round);
    for i := 1 to |lines|
      invariant LeftsSoFar(Grouped(lines[..i]), x0, round, envelope, least, lefts)
    {
      hide LeftsSoFar;
      LeftRound(lines, i, x0, round, envelope, least, lefts);
      if SameBaseline(envelope, lines[i].box) {
        envelope := Union(envelope, lines[i].box);
        least := Min(least, lines[i].box.x0);
      } else {
        lefts := lefts + [round(least - x0)];
        envelope, least := lines[i].box, lines[i].box.x0;
      }
    }
    assert lines[..|lines|] == lines;
    LeftsLast(Grouped(lines).groups, x0, round);
    hide LeftsSoFar;
    lefts := lefts + [round(least - x0)];
    if |lefts| < 2 {
      return None;
    }
    if !exists i :: 0 <= i < |lefts| && lefts[i] > 0.5 {
      return None;
    }
    r := Some(lefts);
  }

  lemma LeftsLast(groups: seq<seq<PdfLine>>, x0: real, round: real -> real)
    requires groups != [] && forall i :: 0 <= i < |groups| ==> groups[i] != []
    ensures Lefts(groups, x0, round) == Lefts(Init(groups), x0, round) + [round(LeftMost(Last(groups)) - x0)]
  {
  }

  /** The offsets of all groups but the last, which is still open. */
  ghost predicate LeftsSoFar(g: Grouping, x0: real, round: real -> real, envelope: Box, least: real, lefts: seq<real>) {
    && g.groups != [] && (forall i :: 0 <= i < |g.groups| ==> g.groups[i] != [])
    && envelope == g.envelope && least == LeftMost(Last(g.groups)) && lefts == Lefts(Init(g.groups), x0, round)
  }

  lemma LeftRound(lines: seq<PdfLine>, i: nat, x0: real, round: real -> real, envelope: Box, least: real,
                  lefts: seq<real>)
    requires 1 <= i < |lines| && LeftsSoFar(Grouped(lines[..i]), x0, round, envelope, least, lefts)
    ensures var box, h := lines[i].box, Grouped(lines[..i + 1]);
      if SameBaseline(envelope, box) then LeftsSoFar(h, x0, round, Union(envelope, box), Min(least, box.x0), lefts)
      else LeftsSoFar(h, x0, round, box, box.x0, lefts + [round(least - x0)])
  {
    hide SameBaseline, Union, Min, Grouped, LeftMost, Lefts, LeftsSoFar;
    var g, h, box := Grouped(lines[..i]), Grouped(lines[..i + 1]), lines[i].box;
    LeftNext(lines, i);
    if SameBaseline(g.envelope, box) {
      LeftSame(g, h, x0, round, envelope, least, lefts, box);
    } else {
      LeftNew(g, h, x0, round, envelope, least, lefts, box);
    }
    assert envelope == g.envelope by { LeftEnvelope(g, x0, round, envelope, least, lefts); }
  }

  lemma LeftEnvelope(g: Grouping, x0: real, round: real -> real, envelope: Box, least: real, lefts: seq<real>)
    requires LeftsSoFar(g, x0, round, envelope, least, lefts)
    ensures envelope == g.envelope
  {
  }

  lemma LeftSame(g: Grouping, h: Grouping, x0: real, round: real -> real, envelope: Box, least: real,
                 lefts: seq<real>, box: Box)
    requires LeftsSoFar(g, x0, round, envelope, least, lefts)
    requires h.groups != [] && forall i :: 0 <= i < |h.groups| ==> h.groups[i] != []
    requires h.envelope == Union(g.envelope, box) && Init(h.groups) == Init(g.groups)
    requires LeftMost(Last(h.groups)) == Min(LeftMost(Last(g.groups)), box.x0)
    ensures LeftsSoFar(h, x0, round, Union(envelope, box), Min(least, box.x0), lefts)
  {
    hide Union, Min, LeftMost, Lefts;
  }

  lemma LeftNew(g: Grouping, h: Grouping, x0: real, round: real -> real, envelope: Box, least: real,
                lefts: seq<real>, box: Box)
    requires LeftsSoFar(g, x0, round, envelope, least, lefts)
    requires h.groups != [] && forall i :: 0 <= i < |h.groups| ==> h.groups[i] != []
    requires h.envelope == box && Init(h.groups) == g.groups && LeftMost(Last(h.groups)) == box.x0
    ensures LeftsSoFar(h, x0, round, box, box.x0, lefts + [round(least - x0)])
  {
    hide LeftMost, Lefts;
    LeftsLast(g.groups, x0, round);
  }

  lemma FirstLeft(lines: seq<PdfLine>, x0: real, round: real -> real)
    requires lines != []
    ensures LeftsSoFar(Grouped(lines[..1]), x0, round, lines[0].box, lines[0].box.x0, [])
  {
    assert lines[..1] == [lines[0]];
  }

  // ----- annotations -----

  /** The block's own font, which annotations are relative to. */
  datatype Dominant = Dominant(family: Option<string>, weight: Option<string>)

  const BLANK := PdfSpan(" ", None, None, None, None, false, None)

  /** Whether a span differs from the block enough to be annotated. */
  predicate Annotated(d: Dominant, s: PdfSpan) {
    || (s.family.Some? && s.family.value != "" && s.family != d.family)
    || s.math
    || (s.weight.Some? &&
      s.weight.value != (if d.weight.Some? && d.weight.value != "" then d.weight.value else "normal"))
  }

  function Annotation(s: PdfSpan, start: nat): FontAnnotation {
    var family := if s.family.Some? then s.family.value else "";
    FontAnnotation(start, start + |s.text|, family, s.style, s.size, s.weight, s.align)
  }

  /** Annotations of consecutive spans, the first of which starts at `start`. */
  function Annotations(d: Dominant, spans: seq<PdfSpan>, start: nat): seq<FontAnnotation> {
    if spans == [] then []
    else
      var rest := Annotations(d, spans[1..], start + |spans[0].text|);
      if Annotated(d, spans[0]) then [Annotation(spans[0], start)] + rest else rest
  }

  /** Spans with text, as the annotation builder keeps them. */
  function Inked(spans: seq<PdfSpan>): (r: seq<PdfSpan>)
    ensures forall s :: s in r ==> s in spans && s.text != ""
  {
    if spans == [] then [] else (if spans[0].text == "" then [] else [spans[0]]) + Inked(spans[1..])
  }

  /** The spans of a visual line, blanks between its parts. */
  function GroupSpans(group: seq<PdfLine>): seq<PdfSpan>
    requires group != []
  {
    if |group| == 1 then Inked(group[0].spans) else GroupSpans(Init(group)) + [BLANK] + Inked(Last(group).spans)
  }

  /** All annotations of a block: one visual line after another, one character apart. */
  function BlockAnnotations(d: Dominant, groups: seq<seq<PdfLine>>): seq<FontAnnotation>
    requires forall i :: 0 <= i < |groups| ==> groups[i] != []
  {
    if groups == [] then []
    else BlockAnnotations(d, Init(groups)) + Annotations(d, GroupSpans(Last(groups)), LineStart(Init(groups)))
  }

  /** Where the next visual line starts: after the lines so far and their newlines. */
  function LineStart(groups: seq<seq<PdfLine>>): nat
    requires forall i :: 0 <= i < |groups| ==> groups[i] != []
  {
    if groups == [] then 0 else LineStart(Init(groups)) + |SpansText(GroupSpans(Last(groups)))| + 1
  }

  /** `_flush`: annotate a visual line, returning the offset behind it. */
  method Flush(d: Dominant, spans: seq<PdfSpan>, offset: nat) returns (annotations: seq<FontAnnotation>, end: nat)
    ensures annotations == Annotations(d, spans, offset) && end == offset + |SpansText(spans)|
  {
    hide Annotated, Annotation, Annotations, SpansText;
    annotations, end := [], offset;
    assert spans[0..] == spans;
    for i := 0 to |spans|
      invariant annotations + Annotations(d, spans[i..], end) == Annotations(d, spans, offset)
      invariant end + |SpansText(spans[i..])| == offset + |SpansText(spans)|
    {
      FlushRound(d, spans, i, end);
      if Annotated(d, spans[i]) {
        annotations := annotations + [Annotation(spans[i], end)];
      }
      end := end + |spans[i].text|;
    }
    FlushNone(d, end);
    assert spans[|spans|..] == [];
  }

  lemma FlushNone(d: Dominant, at: nat)
    ensures Annotations(d, [], at) == [] && SpansText([]) == ""
  {
  }

  lemma FlushRound(d: Dominant, spans: seq<PdfSpan>, i: nat, at: nat)
    requires i < |spans|
    ensures Annotations(d, spans[i..], at) ==
      (if Annotated(d, spans[i]) then [Annotation(spans[i], at)] else [])
      + Annotations(d, spans[i + 1..], at + |spans[i].text|)
    ensures |SpansText(spans[i..])| == |spans[i].text| + |SpansText(spans[i + 1..])|
  {
    hide Annotated, Annotation;
    assert spans[i..][1..] == spans[i + 1..];
  }

  method KeepInked(spans: seq<PdfSpan>) returns (r: seq<PdfSpan>)
    ensures r == Inked(spans)
  {
    hide Inked;
    r := [];
    InkedNone();
    for i := 0 to |spans|
      invariant r + Inked(spans[i..]) == Inked(spans)
    {
      InkedRound(spans, i, r);
      if spans[i].text != "" {
        r := r + [spans[i]];
      }
    }
    assert spans[|spans|..] == [];
  }

  lemma InkedNone()
    ensures Inked([]) == []
  {
  }

  lemma InkedRound(spans: seq<PdfSpan>, i: nat, r: seq<PdfSpan>)
    requires i < |spans|
    ensures r + Inked(spans[i..]) == (if spans[i].text == "" then r else r + [spans[i]]) + Inked(spans[i + 1..])
  {
    assert spans[i..][1..] == spans[i + 1..];
    assert Inked(spans[i..]) == (if spans[i].text == "" then [] else [spans[i]]) + Inked(spans[i + 1..]);
    hide Inked;
  }

  /** The loop's state after some lines: the last group is pending, those before it are flushed. */
  ghost predicate Flushed(d: Dominant, g: Grouping, annotations: seq<FontAnnotation>, offset: int, first: bool,
                          pending: seq<PdfSpan>, envelope: Box) {
    && g.groups != [] && (forall i :: 0 <= i < |g.groups| ==> g.groups[i] != [])
    && pending == GroupSpans(Last(g.groups)) && envelope == g.envelope
    && annotations == BlockAnnotations(d, Init(g.groups))
    && first == (Init(g.groups) == []) && offset == (if first then 0 else LineStart(Init(g.groups)) - 1)
  }

  lemma FlushedFirst(d: Dominant, lines: seq<PdfLine>)
    requires lines != []
    ensures Flushed(d, Grouped(lines[..1]), [], 0, true, Inked(lines[0].spans), lines[0].box)
  {
    assert lines[..1] == [lines[0]];
    assert Init([[lines[0]]]) == [];
  }

  lemma GroupedNext(lines: seq<PdfLine>, i: nat)
    requires 1 <= i < |lines|
    ensures var g, line := Grouped(lines[..i]), lines[i];
      Grouped(lines[..i + 1]) ==
        if SameBaseline(g.envelope, line.box)
        then Grouping(Init(g.groups) + [Last(g.groups) + [line]], Union(g.envelope, line.box))
        else Grouping(g.groups + [[line]], line.box)
  {
    assert Init(lines[..i + 1]) == lines[..i];
    hide SameBaseline, Union;
  }

  lemma FlushedSame(d: Dominant, g: Grouping, line: PdfLine, annotations: seq<FontAnnotation>, offset: int, first: bool,
                    pending: seq<PdfSpan>, envelope: Box)
    requires Flushed(d, g, annotations, offset, first, pending, envelope)
    ensures Flushed(d, Grouping(Init(g.groups) + [Last(g.groups) + [line]], Union(envelope, line.box)),
                    annotations, offset, first, pending + [BLANK] + Inked(line.spans), Union(envelope, line.box))
  {
    var groups := Init(g.groups) + [Last(g.groups) + [line]];
    assert Init(groups) == Init(g.groups) && Init(Last(groups)) == Last(g.groups);
    hide Union, BlockAnnotations, LineStart;
  }

  lemma FlushedNew(d: Dominant, g: Grouping, line: PdfLine, annotations: seq<FontAnnotation>, offset: int, first: bool,
                   pending: seq<PdfSpan>, envelope: Box)
    requires Flushed(d, g, annotations, offset, first, pending, envelope)
    ensures var start := if first then offset else offset + 1;
      && start >= 0
      && Flushed(d, Grouping(g.groups + [[line]], line.box), annotations + Annotations(d, pending, start),
                 start + |SpansText(pending)|, false, Inked(line.spans), line.box)
  {
    var groups := g.groups + [[line]];
    assert Init(groups) == g.groups;
    FlushedOffset(d, g, annotations, offset, first, pending, envelope);
    hide Annotations, SpansText;
  }

  lemma FlushedOffset(d: Dominant, g: Grouping, annotations: seq<FontAnnotation>, offset: int, first: bool,
                      pending: seq<PdfSpan>, envelope: Box)
    requires Flushed(d, g, annotations, offset, first, pending, envelope)
    ensures (if first then offset else offset + 1) == LineStart(Init(g.groups))
    ensures annotations + Annotations(d, pending, LineStart(Init(g.groups))) == BlockAnnotations(d, g.groups)
  {
    hide Annotations, SpansText, GroupSpans;
  }

  /** _build_font_annotations, up to the empty result that it returns as None. */
  method BuildFontAnnotations(lines: seq<PdfLine>, d: Dominant) returns (annotations: seq<FontAnnotation>)
    ensures annotations == if lines == [] then [] else BlockAnnotations(d, Grouped(lines).groups)
  {
    hide SameBaseline, Union, Flushed, Annotations, SpansText, GroupSpans, Inked, BlockAnnotations, LineStart,
      Grouped;
    annotations := [];
    if lines == [] {
      return;
    }
    var offset, first, envelope := 0, true, lines[0].box;
    var pending := KeepInked(lines[0].spans);
    FlushedFirst(d, lines);
    for i := 1 to |lines|
      invariant Flushed(d, Grouped(lines[..i]), annotations, offset, first, pending, envelope)
    {
      ghost var g := Grouped(lines[..i]);
      GroupedNext(lines, i);
      SameEnvelope(d, g, annotations, offset, first, pending, envelope);
      var inked := KeepInked(lines[i].spans);
      if SameBaseline(envelope, lines[i].box) {
        FlushedSame(d, g, lines[i], annotations, offset, first, pending, envelope);
        pending := pending + [BLANK] + inked;
        envelope := Union(envelope, lines[i].box);
      } else {
        FlushedNew(d, g, lines[i], annotations, offset, first, pending, envelope);
        if !first {
          offset := offset + 1;
        }
        var more, end := Flush(d, pending, offset);
        annotations, offset, first := annotations + more, end, false;
        pending, envelope := inked, lines[i].box;
      }
    }
    assert lines[..|lines|] == lines;
    FlushedOffset(d, Grouped(lines), annotations, offset, first, pending, envelope);
    if !first {
      offset := offset + 1;
    }
    var more, end := Flush(d, pending, offset);
    annotations := annotations + more;
  }

  lemma SameEnvelope(d: Dominant, g: Grouping, annotations: seq<FontAnnotation>, offset: int, first: bool,
                     pending: seq<PdfSpan>, envelope: Box)
    requires Flushed(d, g, annotations, offset, first, pending, envelope)
    ensures envelope == g.envelope && g.groups != [] && (if first then offset else offset + 1) >= 0
  {
  }

  // ----- the offsets agree -----

  lemma {:induction false} SpansTextAppend(a: seq<PdfSpan>, b: seq<PdfSpan>)
    ensures SpansText(a + b) == SpansText(a) + SpansText(b)
  {
    hide SpansText;
    if a == [] {
      SpansTextNone();
      assert a + b == b;
    } else {
      SpansTextAppend(a[1..], b);
      SpansTextFirst(a + b);
      SpansTextFirst(a);
      assert (a + b)[1..] == a[1..] + b;
    }
  }

  lemma SpansTextNone()
    ensures SpansText([]) == ""
  {
  }

  lemma SpansTextFirst(spans: seq<PdfSpan>)
    requires spans != []
    ensures SpansText(spans) == spans[0].text + SpansText(spans[1..])
  {
  }

  lemma {:induction false} InkedText(spans: seq<PdfSpan>)
    ensures SpansText(Inked(spans)) == SpansText(spans)
  {
    if spans != [] {
      InkedText(spans[1..]);
      if spans[0].text == "" {
        assert Inked(spans) == Inked(spans[1..]);
      } else {
        assert Inked(spans)[1..] == Inked(spans[1..]);
      }
    }
  }

  /** The annotation builder walks over the very text that the merger writes. */
  lemma {:induction false} GroupSpansText(group: seq<PdfLine>)
    requires group != []
    ensures SpansText(GroupSpans(group)) == GroupText(group)
  {
    InkedText(Last(group).spans);
    if |group| > 1 {
      hide Inked;
      var most, last := GroupSpans(Init(group)), Inked(Last(group).spans);
      GroupSpansText(Init(group));
      SpansTextAppend(most + [BLANK], last);
      SpansTextAppend(most, [BLANK]);
      assert SpansText([BLANK]) == " ";
    }
  }

  /** Annotation k carries span k's attributes, and its range reads exactly that span's text. */
  ghost predicate Aligned(text: string, annotations: seq<FontAnnotation>, spans: seq<PdfSpan>) {
    && |annotations| == |spans|
    && forall k :: 0 <= k < |spans| ==> ReadsSpan(text, annotations[k], spans[k])
  }

  ghost predicate ReadsSpan(text: string, a: FontAnnotation, span: PdfSpan) {
    && 0 <= a.start <= a.end <= |text| && text[a.start..a.end] == span.text
    && a.fontFamily == (if span.family.Some? then span.family.value else "") && a.fontStyle == span.style
    && a.fontSize == span.size && a.fontWeight == span.weight && a.verticalAlign == span.align
  }

  /** In order, without overlap, between lo and hi. */
  ghost predicate InOrder(annotations: seq<FontAnnotation>, lo: int, hi: int) {
    && (forall k :: 0 <= k < |annotations| ==> lo <= annotations[k].start <= annotations[k].end <= hi)
    && (forall j, k :: 0 <= j < k < |annotations| ==> annotations[j].end <= annotations[k].start)
  }

  function AnnotatedOf(d: Dominant, spans: seq<PdfSpan>): seq<PdfSpan> {
    if spans == [] then []
    else (if Annotated(d, spans[0]) then [spans[0]] else []) + AnnotatedOf(d, spans[1..])
  }

  lemma AlignedCons(text: string, a: FontAnnotation, span: PdfSpan, annotations: seq<FontAnnotation>,
                    spans: seq<PdfSpan>)
    requires ReadsSpan(text, a, span) && Aligned(text, annotations, spans)
    ensures Aligned(text, [a] + annotations, [span] + spans)
  {
    hide ReadsSpan;
  }

  lemma InOrderCons(a: FontAnnotation, annotations: seq<FontAnnotation>, lo: int, hi: int)
    requires lo <= a.start <= a.end <= hi && InOrder(annotations, a.end, hi)
    ensures InOrder([a] + annotations, lo, hi)
  {
  }

  lemma {:induction false} LineAligned(d: Dominant, spans: seq<PdfSpan>, prefix: string)
    ensures Aligned(prefix + SpansText(spans), Annotations(d, spans, |prefix|), AnnotatedOf(d, spans))
    ensures InOrder(Annotations(d, spans, |prefix|), |prefix|, |prefix + SpansText(spans)|)
  {
    hide Annotated;
    if spans != [] {
      var s, rest := spans[0], spans[1..];
      var next := prefix + s.text;
      LineAligned(d, rest, next);
      assert next + SpansText(rest) == prefix + SpansText(spans);
      if Annotated(d, s) {
        var a := Annotation(s, |prefix|);
        assert ReadsSpan(prefix + SpansText(spans), a, s);
        AlignedCons(prefix + SpansText(spans), a, s, Annotations(d, rest, |next|), AnnotatedOf(d, rest));
        InOrderCons(a, Annotations(d, rest, |next|), |prefix|, |prefix + SpansText(spans)|);
      } else {
        assert AnnotatedOf(d, spans) == AnnotatedOf(d, rest);
      }
      hide Aligned, InOrder;
    }
  }

  lemma AlignedExtends(text: string, more: string, annotations: seq<FontAnnotation>, spans: seq<PdfSpan>)
    requires Aligned(text, annotations, spans)
    ensures Aligned(text + more, annotations, spans)
  {
    forall k | 0 <= k < |spans| ensures ReadsSpan(text + more, annotations[k], spans[k]) {
      var a := annotations[k];
      assert ReadsSpan(text, a, spans[k]);
      assert (text + more)[a.start..a.end] == text[a.start..a.end];
    }
  }

  lemma AlignedAppend(text: string, a: seq<FontAnnotation>, x: seq<PdfSpan>, b: seq<FontAnnotation>, y: seq<PdfSpan>)
    requires Aligned(text, a, x) && Aligned(text, b, y)
    ensures Aligned(text, a + b, x + y)
  {
    hide ReadsSpan;
  }

  lemma InOrderAppend(a: seq<FontAnnotation>, b: seq<FontAnnotation>, lo: int, mid: int, mid': int, hi: int)
    requires InOrder(a, lo, mid) && InOrder(b, mid', hi) && lo <= mid <= mid' <= hi
    ensures InOrder(a + b, lo, hi)
  {
    var c := a + b;
    forall j, k | 0 <= j < k < |c| ensures c[j].end <= c[k].start {
      assert j < |a| ==> c[j] == a[j];
      assert k >= |a| ==> c[k] == b[k - |a|];
      assert j >= |a| ==> c[j] == b[j - |a|];
    }
  }

  /** The text of the block before surrounding white space is stripped. */
  function BlockText(groups: seq<seq<PdfLine>>): string
    requires forall i :: 0 <= i < |groups| ==> groups[i] != []
  {
    JoinLines(GroupTexts(groups))
  }

  function BlockAnnotated(d: Dominant, groups: seq<seq<PdfLine>>): seq<PdfSpan>
    requires forall i :: 0 <= i < |groups| ==> groups[i] != []
  {
    if groups == [] then [] else BlockAnnotated(d, Init(groups)) + AnnotatedOf(d, GroupSpans(Last(groups)))
  }

  lemma BlockTextLast(groups: seq<seq<PdfLine>>)
    requires groups != [] && forall i :: 0 <= i < |groups| ==> groups[i] != []
    ensures BlockText(groups) ==
      (if Init(groups) == [] then "" else BlockText(Init(groups)) + "\n") + GroupText(Last(groups))
  {
    var texts := GroupTexts(groups);
    assert Init(texts) == GroupTexts(Init(groups)) && Last(texts) == GroupText(Last(groups));
    hide GroupText, GroupTexts;
  }

  lemma {:induction false} LineStartIs(groups: seq<seq<PdfLine>>)
    requires groups != [] && forall i :: 0 <= i < |groups| ==> groups[i] != []
    ensures LineStart(groups) == |BlockText(groups)| + 1
  {
    BlockTextLast(groups);
    GroupSpansText(Last(groups));
    hide BlockText, SpansText, GroupSpans, GroupText;
    if Init(groups) != [] {
      LineStartIs(Init(groups));
    }
  }

  /** The two loops agree: the annotations are in order, disjoint and in range, and each reads, on
      the merged text, exactly the span it was made for. */
  lemma {:induction false} AnnotationsAligned(d: Dominant, groups: seq<seq<PdfLine>>)
    requires forall i :: 0 <= i < |groups| ==> groups[i] != []
    ensures Aligned(BlockText(groups), BlockAnnotations(d, groups), BlockAnnotated(d, groups))
    ensures InOrder(BlockAnnotations(d, groups), 0, |BlockText(groups)|)
  {
    hide Annotations, AnnotatedOf, SpansText, GroupSpans, GroupText, BlockText, Aligned, InOrder;
    if groups == [] {
      NothingAligned(BlockText(groups));
    } else {
      var most, spans := Init(groups), GroupSpans(Last(groups));
      var prefix := if most == [] then "" else BlockText(most) + "\n";
      BlockTextLast(groups);
      GroupSpansText(Last(groups));
      LineAligned(d, spans, prefix);
      if most != [] { LineStartIs(most); }
      AnnotationsAligned(d, most);
      MostAligned(d, most, prefix + GroupText(Last(groups)));
      AlignedAppend(BlockText(groups), BlockAnnotations(d, most), BlockAnnotated(d, most),
        Annotations(d, spans, |prefix|), AnnotatedOf(d, spans));
      NoneBefore(d, most);
      var mid := if most == [] then 0 else |BlockText(most)|;
      InOrderAppend(BlockAnnotations(d, most), Annotations(d, spans, |prefix|), 0, mid, |prefix|, |BlockText(groups)|);
    }
  }

  lemma NothingAligned(text: string)
    ensures Aligned(text, [], []) && InOrder([], 0, |text|)
  {
  }

  lemma NoneBefore(d: Dominant, most: seq<seq<PdfLine>>)
    requires forall i :: 0 <= i < |most| ==> most[i] != []
    ensures most == [] ==> InOrder(BlockAnnotations(d, most), 0, 0)
  {
  }

  lemma MostAligned(d: Dominant, most: seq<seq<PdfLine>>, text: string)
    requires forall i :: 0 <= i < |most| ==> most[i] != []
    requires most != [] ==> |BlockText(most)| <= |text| && text[..|BlockText(most)|] == BlockText(most)
    requires Aligned(BlockText(most), BlockAnnotations(d, most), BlockAnnotated(d, most))
    ensures Aligned(text, BlockAnnotations(d, most), BlockAnnotated(d, most))
  {
    hide Aligned, BlockText;
    if most == [] {
      NothingAligned(text);
    } else {
      var n := |BlockText(most)|;
      assert BlockText(most) + text[n..] == text;
      AlignedExtends(BlockText(most), text[n..], BlockAnnotations(d, most), BlockAnnotated(d, most));
    }
  }

  // ----- stripping -----

  /** The white space that `str.strip` removes. */
  predicate IsSpace(c: char) {
    || '\U{0009}' <= c <= '\U{000D}' || '\U{001C}' <= c <= '\U{0020}' || c == '\U{0085}' || c == '\U{00A0}'
    || c == '\U{1680}' || '\U{2000}' <= c <= '\U{200A}' || c == '\U{2028}' || c == '\U{2029}' || c == '\U{202F}'
    || c == '\U{205F}' || c == '\U{3000}'
  }

  /** How many characters `strip` takes from the front. */
  function Lead(text: string): (n: nat)
    ensures n <= |text|
    ensures text == [] || !IsSpace(text[0]) ==> n == 0
    ensures text != [] && IsSpace(text[0]) ==> n > 0
  {
    if text == [] || !IsSpace(text[0]) then 0 else 1 + Lead(text[1..])
  }

  function DropTrail(text: string): (r: string)
    ensures r <= text && (r != [] ==> !IsSpace(Last(r)))
  {
    if text == [] || !IsSpace(Last(text)) then text else DropTrail(Init(text))
  }

  function Strip(text: string): string {
    DropTrail(text[Lead(text)..])
  }

  /** Stripping moves every character forward by the leading white space: what an annotation reads
      on the stripped text stands that much further on in the block text. */
  lemma StripShifts(text: string, start: nat, end: nat)
    requires start <= end <= |Strip(text)|
    ensures end + Lead(text) <= |text| && Strip(text)[start..end] == text[start + Lead(text)..end + Lead(text)]
  {
    var rest := text[Lead(text)..];
    assert Strip(text) == rest[..|Strip(text)|];
    assert rest[start..end] == text[start + Lead(text)..end + Lead(text)];
  }

  /** The range stays inside the stripped text, and the block text reads the same there as it does
      `lead` characters further on. */
  ghost predicate FitsStripped(text: string, a: FontAnnotation) {
    var lead := Lead(text);
    && 0 <= a.start <= a.end <= |Strip(text)|
    && text[a.start..a.end] == text[a.start + lead..a.end + lead]
  }

  lemma StripLength(text: string)
    ensures |Strip(text)| + Lead(text) <= |text|
  {
  }

  lemma FitsIffReads(text: string, a: FontAnnotation, span: PdfSpan)
    requires ReadsSpan(text, a, span)
    ensures ReadsSpan(Strip(text), a, span) <==> FitsStripped(text, a)
  {
    StripLength(text);
    if a.end <= |Strip(text)| { StripShifts(text, a.start, a.end); }
    hide Strip, Lead;
  }

  /** The annotations, whose offsets are those of the block text, still fit the stripped display
      text if and only if each of them ends inside it and covers characters that repeat as far
      further on as leading white space was stripped. */
  lemma StripKeepsAlignmentIff(d: Dominant, groups: seq<seq<PdfLine>>)
    requires forall i :: 0 <= i < |groups| ==> groups[i] != []
    ensures var text, a := BlockText(groups), BlockAnnotations(d, groups);
      Aligned(Strip(text), a, BlockAnnotated(d, groups)) <==> forall k :: 0 <= k < |a| ==> FitsStripped(text, a[k])
  {
    var text, a, spans := BlockText(groups), BlockAnnotations(d, groups), BlockAnnotated(d, groups);
    AnnotationsAligned(d, groups);
    hide BlockText, BlockAnnotations, BlockAnnotated, Strip, InOrder, ReadsSpan, FitsStripped;
    forall k | 0 <= k < |spans| ensures ReadsSpan(Strip(text), a[k], spans[k]) <==> FitsStripped(text, a[k]) {
      FitsIffReads(text, a[k], spans[k]);
    }
  }

  /** Without leading white space that leaves one condition: no annotation reaches into the trailing
      white space. */
  lemma UnindentedFits(text: string, a: FontAnnotation)
    requires Lead(text) == 0 && 0 <= a.start <= a.end <= |text|
    ensures FitsStripped(text, a) <==> a.end <= |Strip(text)|
  {
    StripLength(text);
    hide Strip;
  }

  lemma StripExample(c: char)
    requires IsSpace(c)
    ensures Lead([c] + "ab") == 1 && Strip([c] + "ab") == "ab"
  {
    assert ([c] + "ab")[1..] == "ab" && Lead("ab") == 0;
    assert Last("ab") == 'b' && DropTrail("ab") == "ab";
  }

  lemma OneLine(d: Dominant, line: PdfLine)
    ensures BlockAnnotations(d, [[line]]) == Annotations(d, Inked(line.spans), 0)
    ensures BlockText([[line]]) == SpansText(line.spans)
  {
    assert Init([[line]]) == [];
    hide Annotations, Inked, SpansText;
  }

  lemma ThreeSpans(d: Dominant, a: PdfSpan, b: PdfSpan, c: PdfSpan)
    requires a.text != "" && b.text != "" && c.text != "" && !Annotated(d, a) && Annotated(d, b) && !Annotated(d, c)
    ensures Inked([a, b, c]) == [a, b, c] && SpansText([a, b, c]) == a.text + b.text + c.text
    ensures Annotations(d, [a, b, c], 0) == [Annotation(b, |a.text|)]
  {
    hide Annotated;
    assert [a, b, c][1..] == [b, c] && [b, c][1..] == [c] && [c][1..] == [];
    assert Inked([c]) == [c] && Inked([b, c]) == [b, c];
    assert SpansText([c]) == c.text && SpansText([b, c]) == b.text + c.text;
    assert Annotations(d, [c], |a.text| + |b.text|) == [] &&
      Annotations(d, [b, c], |a.text|) == [Annotation(b, |a.text|)];
  }

  /** How that fails: behind any white space, the annotation made for "a" reads "b". */
  lemma LeadingSpaceMisaligns(c: char, box: Box)
    requires IsSpace(c)
    ensures var bold := PdfSpan("a", None, None, None, Some("bold"), false, None);
      var line := PdfLine([BLANK.(text := [c]), bold, PdfSpan("b", None, None, None, None, false, None)], box);
      var text, a := BlockText([[line]]), BlockAnnotations(Dominant(None, None), [[line]]);
      |a| == 1 && a[0].start == 1 && a[0].end == 2 && Strip(text) == "ab" && !FitsStripped(text, a[0])
  {
    var d, space, bold := Dominant(None, None), BLANK.(text := [c]),
      PdfSpan("a", None, None, None, Some("bold"), false, None);
    var plain := PdfSpan("b", None, None, None, None, false, None);
    StripExample(c);
    ThreeSpans(d, space, bold, plain);
    OneLine(d, PdfLine([space, bold, plain], box));
    hide Strip, Lead, BlockAnnotations, BlockText, Annotations, Inked, SpansText;
    var text := [c] + "ab";
    assert [c] + "a" + "b" == text;
    assert text[1..2] == "a" && text[2..3] == "b";
  }
}
