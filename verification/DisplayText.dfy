/** What the pieces of the way from a PDF block to its markup mean, each on its own: which spans are
    annotated, stripping, splitting into lines, escaping and sorting. */
module DisplayText {
  import opened Collections
  import opened Nodes
  import opened PdfText
  import opened DocText

  // ----- which spans are annotated -----

  /** A span with text is annotated when it is set in a math font, in a family of its own, or in a
      weight that is not the block's, which is "normal" unless the block has one. */
  ghost predicate StandsOut(d: Dominant, s: PdfSpan) {
    var own := s.family.Some? && s.family.value != "" && (d.family.None? || d.family.value != s.family.value);
    var normal := d.weight.None? || d.weight.value == "";
    var heavy := s.weight.Some? && if normal then s.weight.value != "normal" else s.weight != d.weight;
    s.text != "" && (s.math || own || heavy)
  }

  /** The spans standing out, in their order. */
  ghost function StandingOut(d: Dominant, spans: seq<PdfSpan>): seq<PdfSpan> {
    if spans == [] then []
    else StandingOut(d, Init(spans)) + if StandsOut(d, Last(spans)) then [Last(spans)] else []
  }

  ghost function AllSpans(lines: seq<PdfLine>): seq<PdfSpan> {
    if lines == [] then [] else AllSpans(Init(lines)) + Last(lines).spans
  }

  /** Each span standing out is kept as often as it occurs, and no other span is. */
  lemma {:induction false} StandingOutCounts(d: Dominant, spans: seq<PdfSpan>, s: PdfSpan)
    ensures multiset(StandingOut(d, spans))[s] == if StandsOut(d, s) then multiset(spans)[s] else 0
  {
    hide StandsOut;
    if spans != [] {
      StandingOutCounts(d, Init(spans), s);
      assert spans == Init(spans) + [Last(spans)];
    }
  }

  lemma {:induction false} StandingOutAppend(d: Dominant, a: seq<PdfSpan>, b: seq<PdfSpan>)
    ensures StandingOut(d, a + b) == StandingOut(d, a) + StandingOut(d, b)
  {
    hide StandsOut;
    if b == [] {
      assert a + b == a;
    } else {
      assert Init(a + b) == a + Init(b) && Last(a + b) == Last(b);
      StandingOutAppend(d, a, Init(b));
    }
  }

  lemma StandingOutOne(d: Dominant, s: PdfSpan)
    ensures StandingOut(d, [s]) == if StandsOut(d, s) then [s] else []
  {
    hide StandsOut;
    assert Init([s]) == [];
  }

  lemma InkedStandsOut(d: Dominant, s: PdfSpan)
    ensures s.text != "" && Annotated(d, s) <==> StandsOut(d, s)
  {
  }

  lemma InkedFirst(d: Dominant, spans: seq<PdfSpan>)
    requires spans != []
    ensures AnnotatedOf(d, Inked(spans)) ==
      (if spans[0].text != "" && Annotated(d, spans[0]) then [spans[0]] else []) + AnnotatedOf(d, Inked(spans[1..]))
  {
    hide Annotated;
    if spans[0].text != "" {
      assert Inked(spans)[1..] == Inked(spans[1..]);
    } else {
      assert Inked(spans) == Inked(spans[1..]);
    }
  }

  /** Dropping empty spans and then the inconspicuous ones leaves those standing out. */
  lemma {:induction false} InkedAnnotated(d: Dominant, spans: seq<PdfSpan>)
    ensures AnnotatedOf(d, Inked(spans)) == StandingOut(d, spans)
  {
    hide Annotated, StandsOut;
    if spans != [] {
      InkedAnnotated(d, spans[1..]);
      StandingOutAppend(d, [spans[0]], spans[1..]);
      StandingOutOne(d, spans[0]);
      assert [spans[0]] + spans[1..] == spans;
      InkedFirst(d, spans);
      InkedStandsOut(d, spans[0]);
      hide StandingOut, AnnotatedOf, Inked;
    }
  }

  lemma {:induction false} AnnotatedAppend(d: Dominant, a: seq<PdfSpan>, b: seq<PdfSpan>)
    ensures AnnotatedOf(d, a + b) == AnnotatedOf(d, a) + AnnotatedOf(d, b)
  {
    hide Annotated;
    if a == [] {
      assert a + b == b;
    } else {
      AnnotatedAppend(d, a[1..], b);
      assert (a + b)[1..] == a[1..] + b;
    }
  }

  lemma BlankIsPlain(d: Dominant)
    ensures AnnotatedOf(d, [BLANK]) == []
  {
    assert [BLANK][1..] == [];
  }

  lemma {:induction false} GroupStandingOut(d: Dominant, group: seq<PdfLine>)
    requires group != []
    ensures AnnotatedOf(d, GroupSpans(group)) == StandingOut(d, AllSpans(group))
  {
    hide Inked, AnnotatedOf, StandingOut;
    InkedAnnotated(d, Last(group).spans);
    if |group| > 1 {
      GroupStandingOut(d, Init(group));
      NextStandingOut(d, group);
    } else {
      assert Init(group) == [] && AllSpans(group) == Last(group).spans;
    }
  }

  lemma NextStandingOut(d: Dominant, group: seq<PdfLine>)
    requires |group| > 1
    ensures AnnotatedOf(d, GroupSpans(group)) ==
      AnnotatedOf(d, GroupSpans(Init(group))) + AnnotatedOf(d, Inked(Last(group).spans))
    ensures StandingOut(d, AllSpans(group)) ==
      StandingOut(d, AllSpans(Init(group))) + StandingOut(d, Last(group).spans)
  {
    hide Inked, AnnotatedOf, StandingOut;
    var most, last := GroupSpans(Init(group)), Last(group).spans;
    assert GroupSpans(group) == most + [BLANK] + Inked(last);
    assert AllSpans(group) == AllSpans(Init(group)) + last;
    hide GroupSpans, AllSpans;
    StandingOutAppend(d, AllSpans(Init(group)), last);
    BlankIsPlain(d);
    AnnotatedAppend(d, most, [BLANK]);
    AnnotatedAppend(d, most + [BLANK], Inked(last));
  }

  lemma AllSpansLast(lines: seq<PdfLine>, line: PdfLine)
    ensures AllSpans(lines + [line]) == AllSpans(lines) + line.spans
  {
    assert Init(lines + [line]) == lines;
  }

  lemma {:induction false} AllSpansAppend(a: seq<PdfLine>, b: seq<PdfLine>)
    ensures AllSpans(a + b) == AllSpans(a) + AllSpans(b)
  {
    if b == [] {
      assert a + b == a;
    } else {
      AllSpansLast(a + Init(b), Last(b));
      AllSpansLast(Init(b), Last(b));
      AllSpansAppend(a, Init(b));
      hide AllSpans;
      assert b == Init(b) + [Last(b)] && a + b == (a + Init(b)) + [Last(b)];
    }
  }

  lemma {:induction false} BlockStandingOut(d: Dominant, groups: seq<seq<PdfLine>>)
    requires forall i :: 0 <= i < |groups| ==> groups[i] != []
    ensures BlockAnnotated(d, groups) == StandingOut(d, AllSpans(Flatten(groups)))
  {
    hide AnnotatedOf, StandingOut, AllSpans, GroupSpans;
    if groups == [] {
      assert StandingOut(d, AllSpans([])) == [] by { NothingStandsOut(d); }
    } else {
      BlockStandingOut(d, Init(groups));
      GroupStandingOut(d, Last(groups));
      AllSpansAppend(Flatten(Init(groups)), Last(groups));
      StandingOutAppend(d, AllSpans(Flatten(Init(groups))), AllSpans(Last(groups)));
    }
  }

  lemma NothingStandsOut(d: Dominant)
    ensures StandingOut(d, AllSpans([])) == []
  {
  }

  /** There is one annotation for each span of the block that stands out, in their order, and on the
      merged text it reads exactly that span. */
  lemma AnnotationsReadSpans(d: Dominant, lines: seq<PdfLine>)
    requires lines != []
    ensures var groups := Grouped(lines).groups;
      Aligned(BlockText(groups), BlockAnnotations(d, groups), StandingOut(d, AllSpans(lines)))
  {
    GroupsHoldLines(lines);
    AnnotationsAligned(d, Grouped(lines).groups);
    BlockStandingOut(d, Grouped(lines).groups);
    hide Aligned, BlockText, BlockAnnotations, StandingOut, AllSpans, Grouped, Flatten;
  }

  // ----- stripping -----

  ghost predicate AllSpace(text: string) {
    forall i :: 0 <= i < |text| ==> IsSpace(text[i])
  }

  lemma {:induction false} LeadIsSpace(text: string)
    ensures AllSpace(text[..Lead(text)]) && (Lead(text) < |text| ==> !IsSpace(text[Lead(text)]))
  {
    hide IsSpace;
    if text != [] && IsSpace(text[0]) {
      LeadIsSpace(text[1..]);
      assert text[..Lead(text)] == [text[0]] + text[1..][..Lead(text) - 1];
    }
  }

  lemma {:induction false} TrailIsSpace(text: string)
    ensures AllSpace(text[|DropTrail(text)|..])
  {
    hide IsSpace;
    if text != [] && IsSpace(Last(text)) {
      TrailIsSpace(Init(text));
      var n := |DropTrail(text)|;
      assert text[n..] == Init(text)[n..] + [Last(text)];
    }
  }

  /** Only white space is stripped, and all of it at both ends. */
  lemma StripMeaning(text: string)
    ensures var lead, r := Lead(text), Strip(text);
      && lead + |r| <= |text| && text[lead..lead + |r|] == r
      && AllSpace(text[..lead]) && AllSpace(text[lead + |r|..])
      && (r != [] ==> !IsSpace(r[0]) && !IsSpace(Last(r)))
  {
    hide IsSpace;
    var rest := text[Lead(text)..];
    LeadIsSpace(text);
    TrailIsSpace(rest);
    assert rest[|Strip(text)|..] == text[Lead(text) + |Strip(text)|..];
  }

  /** The white space, by code point. */
  lemma SpaceCodes(c: char)
    ensures IsSpace(c) <==> c as int in {9, 10, 11, 12, 13, 28, 29, 30, 31, 32, 0x85, 0xA0, 0x1680, 0x2000, 0x2001,
      0x2002, 0x2003, 0x2004, 0x2005, 0x2006, 0x2007, 0x2008, 0x2009, 0x200A, 0x2028, 0x2029, 0x202F, 0x205F, 0x3000}
  {
  }

  // ----- splitting -----

  ghost predicate OneLineOnly(line: string) {
    forall i :: 0 <= i < |line| ==> line[i] != '\n'
  }

  lemma {:induction false} JoinFirst(sep: string, first: string, rest: seq<string>)
    requires rest != []
    ensures JoinWith(sep, [first] + rest) == first + sep + JoinWith(sep, rest)
  {
    var parts := [first] + rest;
    if |rest| == 1 {
      assert Init(parts) == [first] && Last(parts) == rest[0];
    } else {
      JoinFirst(sep, first, Init(rest));
      assert Init(parts) == [first] + Init(rest) && Last(parts) == Last(rest);
      assert (first + sep + JoinWith(sep, Init(rest))) + sep + Last(rest)
        == first + sep + (JoinWith(sep, Init(rest)) + sep + Last(rest));
    }
  }

  /** Splitting cuts at every newline and nowhere else: no line holds one, and joined by newlines the
      lines are the text again. */
  lemma {:induction false} SplitJoins(text: string)
    ensures JoinWith("\n", SplitLines(text)) == text
    ensures forall i :: 0 <= i < |SplitLines(text)| ==> OneLineOnly(SplitLines(text)[i])
  {
    if text != [] {
      var rest := SplitLines(text[1..]);
      SplitJoins(text[1..]);
      SplitHead(text, rest);
    }
  }

  lemma SplitHead(text: string, rest: seq<string>)
    requires text != [] && rest == SplitLines(text[1..]) && JoinWith("\n", rest) == text[1..]
    requires forall i :: 0 <= i < |rest| ==> OneLineOnly(rest[i])
    ensures JoinWith("\n", SplitLines(text)) == text
    ensures forall i :: 0 <= i < |SplitLines(text)| ==> OneLineOnly(SplitLines(text)[i])
  {
    var c := text[0];
    assert text == [c] + text[1..];
    SplitFirst(text, rest);
    hide SplitLines, JoinWith;
    if c == '\n' {
      JoinFirst("\n", "", rest);
      assert "" + "\n" + text[1..] == text;
    } else {
      JoinLonger(c, rest);
      assert OneLineOnly(rest[0]) && OneLineOnly([c] + rest[0]);
    }
  }

  lemma SplitFirst(text: string, rest: seq<string>)
    requires text != [] && rest == SplitLines(text[1..])
    ensures SplitLines(text) == if text[0] == '\n' then [""] + rest else [[text[0]] + rest[0]] + rest[1..]
  {
  }

  lemma JoinLonger(c: char, rest: seq<string>)
    requires rest != []
    ensures JoinWith("\n", [[c] + rest[0]] + rest[1..]) == [c] + JoinWith("\n", rest)
  {
    var first, more := rest[0], rest[1..];
    assert rest == [first] + more;
    if more == [] {
      JoinOne("\n", first);
      JoinOne("\n", [c] + first);
      assert rest == [first] && [[c] + first] + more == [[c] + first];
      hide JoinWith;
    } else {
      JoinFirst("\n", first, more);
      JoinFirst("\n", [c] + first, more);
      hide JoinWith;
      Reassociate(c, first, JoinWith("\n", more));
    }
  }

  lemma JoinOne(sep: string, x: string)
    ensures JoinWith(sep, [x]) == x
  {
  }

  lemma Reassociate(c: char, first: string, more: string)
    ensures [c] + first + "\n" + more == [c] + (first + "\n" + more)
  {
  }

  /** Splitting what was joined gives the lines back. */
  lemma {:induction false} JoinSplits(lines: seq<string>)
    requires lines != [] && forall i :: 0 <= i < |lines| ==> OneLineOnly(lines[i])
    ensures SplitLines(JoinWith("\n", lines)) == lines
  {
    hide SplitLines, OneLineOnly;
    if |lines| == 1 {
      SplitOne(lines[0]);
      assert lines == [lines[0]];
    } else {
      assert forall i :: 0 <= i < |lines[1..]| ==> lines[1..][i] == lines[i + 1];
      JoinSplits(lines[1..]);
      JoinFirst("\n", lines[0], lines[1..]);
      assert lines == [lines[0]] + lines[1..];
      SplitAfter(lines[0], JoinWith("\n", lines[1..]));
      hide JoinWith;
    }
  }

  lemma {:induction false} SplitOne(line: string)
    requires OneLineOnly(line)
    ensures SplitLines(line) == [line]
  {
    if line != [] {
      SplitOne(line[1..]);
      assert line == [line[0]] + line[1..];
    }
  }

  lemma {:induction false} SplitAfter(line: string, more: string)
    requires OneLineOnly(line)
    ensures SplitLines(line + "\n" + more) == [line] + SplitLines(more)
  {
    var text := line + "\n" + more;
    if line == [] {
      assert text[1..] == more && text[0] == '\n';
    } else {
      SplitAfter(line[1..], more);
      assert text[1..] == line[1..] + "\n" + more && text[0] == line[0];
      assert line == [line[0]] + line[1..];
    }
  }

  // ----- escaping -----

  /** What a reader of the markup sees of an escaped text: the five entities stand for their
      characters. */
  function Unescape(html: string): string {
    if html == [] then []
    else if "&amp;" <= html then ['&'] + Unescape(html[5..])
    else if "&lt;" <= html then ['<'] + Unescape(html[4..])
    else if "&gt;" <= html then ['>'] + Unescape(html[4..])
    else if "&quot;" <= html then ['\"'] + Unescape(html[6..])
    else if "&#x27;" <= html then ['\''] + Unescape(html[6..])
    else [html[0]] + Unescape(html[1..])
  }

  /** The five characters that markup is made of are written as entities, every other as itself. */
  lemma EscapedChar(c: char)
    ensures EscapeChar(c) ==
      if c == '&' then "&amp;" else if c == '<' then "&lt;" else if c == '>' then "&gt;"
      else if c == '\"' then "&quot;" else if c == '\'' then "&#x27;" else [c]
    ensures forall d :: d in EscapeChar(c) ==> d !in {'<', '>', '\"', '\''}
  {
  }

  lemma UnescapeFirst(c: char, rest: string)
    ensures Unescape(EscapeChar(c) + rest) == [c] + Unescape(rest)
  {
    var html := EscapeChar(c) + rest;
    assert html[|EscapeChar(c)|..] == rest;
    if c == '&' {
      assert "&amp;" <= html;
    } else if c == '<' {
      assert "&lt;" <= html && html[1] == 'l';
    } else if c == '>' {
      assert "&gt;" <= html && html[1] == 'g';
    } else if c == '\"' {
      assert "&quot;" <= html && html[1] == 'q';
    } else if c == '\'' {
      assert "&#x27;" <= html && html[1] == '#';
    } else {
      assert html[0] == c && c != '&';
    }
  }

  /** Escaped text holds no markup, and reads as the text it was made from. */
  lemma {:induction false} EscapeReads(s: string)
    ensures Unescape(Escape(s)) == s
    ensures forall d :: d in Escape(s) ==> d !in {'<', '>', '\"', '\''}
  {
    if s != [] {
      EscapeReads(s[1..]);
      UnescapeFirst(s[0], Escape(s[1..]));
      EscapedChar(s[0]);
      hide Unescape, EscapeChar;
    }
  }

  // ----- sorting -----

  function StartingAt(notes: seq<FontAnnotation>, at: int): seq<FontAnnotation> {
    if notes == [] then []
    else StartingAt(Init(notes), at) + if Last(notes).start == at then [Last(notes)] else []
  }

  ghost predicate Ascending(notes: seq<FontAnnotation>) {
    forall i, j :: 0 <= i < j < |notes| ==> notes[i].start <= notes[j].start
  }

  lemma {:induction false} InsertedAscends(notes: seq<FontAnnotation>, a: FontAnnotation)
    requires Ascending(notes)
    ensures Ascending(InsertByStart(notes, a))
    ensures multiset(InsertByStart(notes, a)) == multiset(notes) + multiset{a}
  {
    if notes == [] || Last(notes).start <= a.start {
      AscendingLast(notes, a);
    } else {
      var less, last := InsertByStart(Init(notes), a), Last(notes);
      InsertedAscends(Init(notes), a);
      assert notes == Init(notes) + [last];
      forall x | x in less ensures x.start <= last.start { assert x in multiset(less); }
      AscendingLast(less, last);
      hide Ascending;
    }
  }

  lemma {:induction false} InsertedStable(notes: seq<FontAnnotation>, a: FontAnnotation, at: int)
    ensures StartingAt(InsertByStart(notes, a), at) == StartingAt(notes, at) + StartingAt([a], at)
  {
    hide StartingAt;
    StartingLast([], a, at);
    assert [] + [a] == [a];
    if notes == [] || Last(notes).start <= a.start {
      StartingLast(notes, a, at);
    } else {
      InsertedStable(Init(notes), a, at);
      StartingLast(InsertByStart(Init(notes), a), Last(notes), at);
      StartingLast(Init(notes), Last(notes), at);
      assert notes == Init(notes) + [Last(notes)];
    }
  }

  lemma AscendingLast(notes: seq<FontAnnotation>, a: FontAnnotation)
    requires Ascending(notes)
    requires notes == [] || Last(notes).start <= a.start || forall x :: x in notes ==> x.start <= a.start
    ensures Ascending(notes + [a])
  {
    forall i | 0 <= i < |notes| ensures notes[i].start <= a.start {
      assert notes[i] in notes;
      if i < |notes| - 1 { assert notes[i].start <= notes[|notes| - 1].start; }
    }
  }

  lemma StartingLast(notes: seq<FontAnnotation>, a: FontAnnotation, at: int)
    ensures StartingAt(notes + [a], at) == StartingAt(notes, at) + (if a.start == at then [a] else [])
    ensures StartingAt([], at) == []
  {
    assert Init(notes + [a]) == notes;
  }

  /** The sort puts starts in order, keeps every annotation, and leaves those with one start in the
      order they came in. */
  lemma {:induction false} SortMeaning(notes: seq<FontAnnotation>)
    ensures var r := SortedByStart(notes);
      && Ascending(r) && multiset(r) == multiset(notes) && forall at :: StartingAt(r, at) == StartingAt(notes, at)
  {
    if notes != [] {
      var most, last := SortedByStart(Init(notes)), Last(notes);
      SortMeaning(Init(notes));
      InsertedAscends(most, last);
      assert notes == Init(notes) + [last];
      hide InsertByStart, Ascending, StartingAt;
      forall at ensures StartingAt(SortedByStart(notes), at) == StartingAt(notes, at) {
        InsertedStable(most, last, at);
        StartingLast(Init(notes), last, at);
        StartingLast([], last, at);
        assert [] + [last] == [last];
      }
    }
  }
}
