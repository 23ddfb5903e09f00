/** Rendering annotated text line by line: _format_per_line_annotated_text of
    src/uaf/app/lenses/doc_lens.py.  Markup around the text is reduced to which annotation a
    fragment carries. */
module DocText {
  import opened Collections
  import opened Nodes
  import opened PdfText

  /** A piece of inner text, inside the span of an annotation or plain. */
  datatype Fragment = Fragment(text: string, mark: Option<FontAnnotation>)

  /** html.escape */
  function EscapeChar(c: char): string {
    match c
    case '&' => "&amp;"
    case '<' => "&lt;"
    case '>' => "&gt;"
    case '\"' => "&quot;"
    case '\'' => "&#x27;"
    case _ => [c]
  }

  function Escape(s: string): string {
    if s == [] then [] else EscapeChar(s[0]) + Escape(s[1..])
  }

  lemma EscapeFirst(c: char, s: string)
    ensures Escape([c] + s) == EscapeChar(c) + Escape(s)
  {
    hide EscapeChar;
    assert ([c] + s)[1..] == s;
  }

  lemma {:induction false} EscapeAppend(a: string, b: string)
    ensures Escape(a + b) == Escape(a) + Escape(b)
  {
    hide Escape, EscapeChar;
    EscapeNothing();
    if a == [] {
      assert a + b == b;
    } else {
      EscapeAppend(a[1..], b);
      EscapeFirst(a[0], a[1..] + b);
      EscapeFirst(a[0], a[1..]);
      assert a + b == [a[0]] + (a[1..] + b) && a == [a[0]] + a[1..];
    }
  }

  // ----- one line -----

  /** `text[i:j]` for nonnegative i. */
  function Slice(text: string, i: nat, j: int): string {
    var hi := if j > |text| then |text| else j;
    if i < hi then text[i..hi] else ""
  }

  predicate Overlaps(a: FontAnnotation, lo: nat, hi: nat) {
    a.end > lo && a.start < hi
  }

  /** The part of the annotation on the line from lo to hi. */
  function From(a: FontAnnotation, lo: nat): nat { if a.start > lo then a.start else lo }
  function To(a: FontAnnotation, hi: nat): int { if a.end < hi then a.end else hi }

  /** What the loop emits for a line once it has reached position pos. */
  function LineFragments(text: string, notes: seq<FontAnnotation>, lo: nat, hi: nat, pos: int): seq<Fragment>
    requires lo <= pos && lo <= hi
    decreases |notes|
  {
    if notes == [] then
      if pos < hi then [Fragment(Slice(text, pos, hi), None)] else []
    else
      var a := notes[0];
      if !Overlaps(a, lo, hi) then LineFragments(text, notes[1..], lo, hi, pos)
      else
        (if From(a, lo) > pos then [Fragment(Slice(text, pos, From(a, lo)), None)] else [])
        + [Fragment(Slice(text, From(a, lo), To(a, hi)), Some(a))]
        + LineFragments(text, notes[1..], lo, hi, To(a, hi))
  }

  method FormatLine(text: string, notes: seq<FontAnnotation>, lo: nat, hi: nat) returns (parts: seq<Fragment>)
    requires lo <= hi
    ensures parts == LineFragments(text, notes, lo, hi, lo)
  {
    parts := [];
    var pos: int := lo;
    for i := 0 to |notes|
      invariant lo <= pos
      invariant parts + LineFragments(text, notes[i..], lo, hi, pos) == LineFragments(text, notes, lo, hi, lo)
    {
      hide Slice;
      assert notes[i..][1..] == notes[i + 1..];
      var a := notes[i];
      if Overlaps(a, lo, hi) {
        if From(a, lo) > pos {
          parts := parts + [Fragment(Slice(text, pos, From(a, lo)), None)];
        }
        parts := parts + [Fragment(Slice(text, From(a, lo), To(a, hi)), Some(a))];
        pos := To(a, hi);
      }
    }
    if pos < hi {
      parts := parts + [Fragment(Slice(text, pos, hi), None)];
    }
  }

  // ----- text and marks, character by character -----

  function TagAll(text: string, mark: Option<FontAnnotation>): (r: seq<(char, Option<FontAnnotation>)>)
    ensures |r| == |text| && forall i :: 0 <= i < |r| ==> r[i] == (text[i], mark)
  {
    seq(|text|, i requires 0 <= i < |text| => (text[i], mark))
  }

  /** The characters a reader sees, each with the annotation it is styled by. */
  function Tags(parts: seq<Fragment>): seq<(char, Option<FontAnnotation>)> {
    if parts == [] then [] else TagAll(parts[0].text, parts[0].mark) + Tags(parts[1..])
  }

  /** The escaped inner text of the fragments. */
  function InnerHtml(parts: seq<Fragment>): string {
    if parts == [] then "" else Escape(parts[0].text) + InnerHtml(parts[1..])
  }

  function InnerText(parts: seq<Fragment>): string {
    if parts == [] then "" else parts[0].text + InnerText(parts[1..])
  }

  lemma {:induction false} InnerHtmlIsEscaped(parts: seq<Fragment>)
    ensures InnerHtml(parts) == Escape(InnerText(parts))
  {
    hide Escape;
    if parts != [] {
      InnerHtmlIsEscaped(parts[1..]);
      EscapeAppend(parts[0].text, InnerText(parts[1..]));
    } else {
      assert Escape("") == "" by { EscapeNothing(); }
    }
  }

  lemma EscapeNothing()
    ensures Escape("") == ""
  {
  }

  /** The first annotation whose range holds the position. */
  function Cover(notes: seq<FontAnnotation>, p: int): Option<FontAnnotation> {
    if notes == [] then None
    else if notes[0].start <= p < notes[0].end then Some(notes[0])
    else Cover(notes[1..], p)
  }

  function Expected(text: string, notes: seq<FontAnnotation>, lo: nat, hi: nat)
    : (r: seq<(char, Option<FontAnnotation>)>)
    requires lo <= hi <= |text|
    ensures |r| == hi - lo && forall i :: 0 <= i < |r| ==> r[i] == (text[lo + i], Cover(notes, lo + i))
  {
    seq(hi - lo, i requires 0 <= i < hi - lo => (text[lo + i], Cover(notes, lo + i)))
  }

  /** Each annotation on the line starts no earlier than where the one before it ended. */
  ghost predicate Chain(notes: seq<FontAnnotation>, lo: nat, hi: nat, pos: int)
    decreases |notes|
  {
    notes == [] ||
    if !Overlaps(notes[0], lo, hi) then Chain(notes[1..], lo, hi, pos)
    else pos <= From(notes[0], lo) && Chain(notes[1..], lo, hi, To(notes[0], hi))
  }

  ghost predicate Forward(notes: seq<FontAnnotation>) {
    forall i :: 0 <= i < |notes| ==> notes[i].start <= notes[i].end
  }

  lemma {:induction false} ChainLater(notes: seq<FontAnnotation>, lo: nat, hi: nat, pos: int, p: int)
    requires Chain(notes, lo, hi, pos) && Forward(notes) && lo <= p < pos && p < hi
    ensures Cover(notes, p) == None
    decreases |notes|
  {
    if notes != [] {
      assert Forward(notes[1..]);
      if !Overlaps(notes[0], lo, hi) {
        ChainLater(notes[1..], lo, hi, pos, p);
      } else {
        ChainLater(notes[1..], lo, hi, To(notes[0], hi), p);
      }
    }
  }

  /** Where the annotation at the head begins and ends on its line. */
  lemma HeadRange(a: FontAnnotation, lo: nat, hi: nat, pos: nat)
    requires Overlaps(a, lo, hi) && a.start <= a.end && lo <= pos <= From(a, lo) && lo <= hi
    ensures pos <= From(a, lo) <= To(a, hi) <= hi && lo <= To(a, hi)
    ensures From(a, lo) == a.start || From(a, lo) == pos
    ensures To(a, hi) == a.end || To(a, hi) == hi
    ensures a.start <= From(a, lo) && To(a, hi) <= a.end
  {
  }

  lemma PlainBefore(text: string, notes: seq<FontAnnotation>, lo: nat, hi: nat, pos: nat)
    requires notes != [] && lo <= pos <= hi <= |text| && Chain(notes, lo, hi, pos) && Forward(notes)
    requires Overlaps(notes[0], lo, hi)
    ensures var at := From(notes[0], lo);
      pos <= at <= |text| && TagAll(text[pos..at], None) == Expected(text, notes, pos, at)
  {
    var a, rest := notes[0], notes[1..];
    assert Forward(rest);
    HeadRange(a, lo, hi, pos);
    forall p | pos <= p < From(a, lo) ensures Cover(notes, p) == None {
      ChainLater(rest, lo, hi, To(a, hi), p);
    }
  }

  lemma MarkedHead(text: string, notes: seq<FontAnnotation>, lo: nat, hi: nat, pos: nat)
    requires notes != [] && lo <= pos <= From(notes[0], lo) && hi <= |text| && lo <= hi && Forward(notes)
    requires Overlaps(notes[0], lo, hi)
    ensures var at, end := From(notes[0], lo), To(notes[0], hi);
      at <= end <= |text| && TagAll(text[at..end], Some(notes[0])) == Expected(text, notes, at, end)
  {
    HeadRange(notes[0], lo, hi, pos);
  }

  lemma RestAfter(text: string, notes: seq<FontAnnotation>, lo: nat, hi: nat, pos: nat)
    requires notes != [] && lo <= pos <= From(notes[0], lo) && hi <= |text| && lo <= hi && Forward(notes)
    requires Overlaps(notes[0], lo, hi)
    ensures var end := To(notes[0], hi);
      0 <= end <= hi && Expected(text, notes[1..], end, hi) == Expected(text, notes, end, hi)
  {
    HeadRange(notes[0], lo, hi, pos);
    forall p | To(notes[0], hi) <= p < hi ensures Cover(notes, p) == Cover(notes[1..], p) {}
  }

  lemma ExpectedJoins(text: string, notes: seq<FontAnnotation>, a: nat, b: nat, c: nat)
    requires a <= b <= c <= |text|
    ensures Expected(text, notes, a, b) + Expected(text, notes, b, c) == Expected(text, notes, a, c)
  {
    hide Cover;
  }

  /** Without overlaps every character of the line comes out once, in order, marked by exactly the
      annotation that covers it. */
  lemma {:induction false} LineTags(text: string, notes: seq<FontAnnotation>, lo: nat, hi: nat, pos: nat)
    requires lo <= pos <= hi <= |text| && Chain(notes, lo, hi, pos) && Forward(notes)
    ensures Tags(LineFragments(text, notes, lo, hi, pos)) == Expected(text, notes, pos, hi)
    decreases |notes|
  {
    if notes == [] {
      TagsOne(text, pos, hi);
    } else {
      var a, rest := notes[0], notes[1..];
      assert Forward(rest);
      if !Overlaps(a, lo, hi) {
        LineTags(text, rest, lo, hi, pos);
        forall p | pos <= p < hi ensures Cover(notes, p) == Cover(rest, p) {}
        assert Expected(text, notes, pos, hi) == Expected(text, rest, pos, hi);
      } else {
        HeadRange(a, lo, hi, pos);
        LineTags(text, rest, lo, hi, To(a, hi));
        LineTagsAt(text, notes, lo, hi, pos);
      }
    }
  }

  lemma LineTagsAt(text: string, notes: seq<FontAnnotation>, lo: nat, hi: nat, pos: nat)
    requires notes != [] && lo <= pos <= hi <= |text| && Chain(notes, lo, hi, pos) && Forward(notes)
    requires Overlaps(notes[0], lo, hi)
    requires var end := To(notes[0], hi);
      lo <= end <= hi && Tags(LineFragments(text, notes[1..], lo, hi, end)) == Expected(text, notes[1..], end, hi)
    ensures Tags(LineFragments(text, notes, lo, hi, pos)) == Expected(text, notes, pos, hi)
  {
    hide LineFragments, Tags, Expected, Cover, Chain, Slice, TagAll, Forward;
    var a, at, end := notes[0], From(notes[0], lo), To(notes[0], hi);
    ForwardHead(notes);
    ChainHead(notes, lo, hi, pos);
    HeadRange(a, lo, hi, pos);
    PlainBefore(text, notes, lo, hi, pos);
    MarkedHead(text, notes, lo, hi, pos);
    RestAfter(text, notes, lo, hi, pos);
    ExpectedJoins(text, notes, at, end, hi);
    ExpectedJoins(text, notes, pos, at, hi);
    SliceIs(text, at, end);
    var tail := LineFragments(text, notes[1..], lo, hi, end);
    var mid := Fragment(text[at..end], Some(a));
    TagsCons(mid, tail);
    FragmentsStep(text, notes, lo, hi, pos);
    if at > pos {
      SliceIs(text, pos, at);
      TagsCons(Fragment(text[pos..at], None), [mid] + tail);
    } else {
      ExpectedNone(text, notes, pos);
    }
  }

  lemma ForwardHead(notes: seq<FontAnnotation>)
    requires notes != [] && Forward(notes)
    ensures notes[0].start <= notes[0].end
  {
  }

  lemma ChainHead(notes: seq<FontAnnotation>, lo: nat, hi: nat, pos: int)
    requires notes != [] && Chain(notes, lo, hi, pos) && Overlaps(notes[0], lo, hi)
    ensures pos <= From(notes[0], lo)
  {
  }

  lemma SliceIs(text: string, i: nat, j: nat)
    requires i <= j <= |text|
    ensures Slice(text, i, j) == text[i..j]
  {
  }

  lemma ExpectedNone(text: string, notes: seq<FontAnnotation>, p: nat)
    requires p <= |text|
    ensures Expected(text, notes, p, p) == []
  {
  }

  lemma FragmentsStep(text: string, notes: seq<FontAnnotation>, lo: nat, hi: nat, pos: nat)
    requires notes != [] && lo <= pos && lo <= hi && Overlaps(notes[0], lo, hi) && lo <= To(notes[0], hi)
    ensures var at, end := From(notes[0], lo), To(notes[0], hi);
      var tail := [Fragment(Slice(text, at, end), Some(notes[0]))] + LineFragments(text, notes[1..], lo, hi, end);
      LineFragments(text, notes, lo, hi, pos) ==
        (if at > pos then [Fragment(Slice(text, pos, at), None)] + tail else tail)
  {
    hide Slice;
  }

  lemma TagsOne(text: string, pos: nat, hi: nat)
    requires pos <= hi <= |text|
    ensures Tags(LineFragments(text, [], 0, hi, pos)) == Expected(text, [], pos, hi)
  {
    if pos < hi {
      TagsCons(Fragment(text[pos..hi], None), []);
    }
  }

  lemma TagsCons(f: Fragment, rest: seq<Fragment>)
    ensures Tags([f] + rest) == TagAll(f.text, f.mark) + Tags(rest)
  {
    assert ([f] + rest)[1..] == rest;
  }

  // ----- conservation -----

  /** The text of the fragments is what the tags spell. */
  function Letters(tags: seq<(char, Option<FontAnnotation>)>): (r: string)
    ensures |r| == |tags| && forall i :: 0 <= i < |r| ==> r[i] == tags[i].0
  {
    seq(|tags|, i requires 0 <= i < |tags| => tags[i].0)
  }

  lemma {:induction false} InnerTextSpells(parts: seq<Fragment>)
    ensures InnerText(parts) == Letters(Tags(parts))
  {
    if parts != [] {
      InnerTextSpells(parts[1..]);
      LettersAppend(TagAll(parts[0].text, parts[0].mark), Tags(parts[1..]));
      assert Letters(TagAll(parts[0].text, parts[0].mark)) == parts[0].text;
    }
  }

  lemma LettersAppend(a: seq<(char, Option<FontAnnotation>)>, b: seq<(char, Option<FontAnnotation>)>)
    ensures Letters(a + b) == Letters(a) + Letters(b)
  {
  }

  /** Overlapping annotations repeat text: a line never comes out shorter, and it comes out with
      its own length only if no annotation on it starts before the previous one ended. */
  lemma {:induction false} LineNotShorter(text: string, notes: seq<FontAnnotation>, lo: nat, hi: nat, pos: nat)
    requires lo <= pos <= hi <= |text| && Forward(notes)
    ensures var n := |InnerText(LineFragments(text, notes, lo, hi, pos))|;
      n >= hi - pos && (n == hi - pos ==> Chain(notes, lo, hi, pos))
    decreases |notes|
  {
    if notes == [] {
      if pos < hi { SliceIs(text, pos, hi); InnerCons(Fragment(text[pos..hi], None), []); }
    } else {
      assert Forward(notes[1..]);
      if !Overlaps(notes[0], lo, hi) {
        LineNotShorter(text, notes[1..], lo, hi, pos);
      } else {
        LineNotShorterAt(text, notes, lo, hi, pos);
      }
    }
  }

  lemma InnerCons(f: Fragment, rest: seq<Fragment>)
    ensures InnerText([f] + rest) == f.text + InnerText(rest)
  {
    assert ([f] + rest)[1..] == rest;
  }

  lemma ClippedRange(a: FontAnnotation, lo: nat, hi: nat)
    requires Overlaps(a, lo, hi) && a.start <= a.end && lo <= hi
    ensures lo <= From(a, lo) <= To(a, hi) <= hi
  {
  }

  lemma {:induction false} LineNotShorterAt(text: string, notes: seq<FontAnnotation>, lo: nat, hi: nat, pos: nat)
    requires notes != [] && Overlaps(notes[0], lo, hi) && lo <= pos <= hi <= |text| && Forward(notes)
    ensures var n := |InnerText(LineFragments(text, notes, lo, hi, pos))|;
      n >= hi - pos && (n == hi - pos ==> Chain(notes, lo, hi, pos))
    decreases |notes|, 0
  {
    var at, end := From(notes[0], lo), To(notes[0], hi);
    ForwardHead(notes);
    ClippedRange(notes[0], lo, hi);
    assert Forward(notes[1..]);
    LineNotShorter(text, notes[1..], lo, hi, end);
    ChainMeans(notes, lo, hi, pos);
    hide Chain, Slice, InnerText, LineFragments, Forward;
    var tail := LineFragments(text, notes[1..], lo, hi, end);
    var mid := Fragment(text[at..end], Some(notes[0]));
    SliceIs(text, at, end);
    FragmentsStep(text, notes, lo, hi, pos);
    InnerCons(mid, tail);
    if at > pos {
      SliceIs(text, pos, at);
      InnerCons(Fragment(text[pos..at], None), [mid] + tail);
    }
  }

  lemma ChainMeans(notes: seq<FontAnnotation>, lo: nat, hi: nat, pos: int)
    requires notes != [] && Overlaps(notes[0], lo, hi)
    ensures Chain(notes, lo, hi, pos) <==> pos <= From(notes[0], lo) && Chain(notes[1..], lo, hi, To(notes[0], hi))
  {
  }

  /** The annotations on the line, each ending before the next starts; an empty line shows nothing of
      them anyway. */
  ghost predicate DisjointOn(notes: seq<FontAnnotation>, lo: nat, hi: nat) {
    forall i, j :: 0 <= i < j < |notes| ==>
      (lo < notes[i].end && notes[i].start < hi && lo < notes[j].end && notes[j].start < hi ==>
        lo == hi || notes[i].end <= notes[j].start)
  }

  ghost predicate StartBehind(notes: seq<FontAnnotation>, lo: nat, hi: nat, pos: int) {
    forall j :: 0 <= j < |notes| && Overlaps(notes[j], lo, hi) ==> pos <= From(notes[j], lo)
  }

  lemma {:induction false} ChainIff(notes: seq<FontAnnotation>, lo: nat, hi: nat, pos: int)
    requires Forward(notes) && lo <= hi && pos <= hi
    ensures Chain(notes, lo, hi, pos) <==> StartBehind(notes, lo, hi, pos) && DisjointOn(notes, lo, hi)
    decreases |notes|
  {
    if notes != [] {
      assert Forward(notes[1..]);
      ChainIff(notes[1..], lo, hi, if Overlaps(notes[0], lo, hi) then To(notes[0], hi) else pos);
      ConditionsFirst(notes, lo, hi, pos);
      hide StartBehind, DisjointOn, Forward, Overlaps;
    }
  }

  lemma ConditionsFirst(notes: seq<FontAnnotation>, lo: nat, hi: nat, pos: int)
    requires notes != [] && Forward(notes) && lo <= hi && pos <= hi
    ensures var a, rest := notes[0], notes[1..];
      if Overlaps(a, lo, hi) then
        StartBehind(notes, lo, hi, pos) && DisjointOn(notes, lo, hi) <==>
          pos <= From(a, lo) && StartBehind(rest, lo, hi, To(a, hi)) && DisjointOn(rest, lo, hi)
      else
        && (StartBehind(notes, lo, hi, pos) <==> StartBehind(rest, lo, hi, pos))
        && (DisjointOn(notes, lo, hi) <==> DisjointOn(rest, lo, hi))
  {
  }

  /** A line's text is emitted exactly, escaped, if and only if the annotations on it do not
      overlap; then each character also carries exactly the annotation covering it. */
  lemma LineConservedIff(text: string, notes: seq<FontAnnotation>, lo: nat, hi: nat)
    requires lo <= hi <= |text| && Forward(notes)
    ensures var parts := LineFragments(text, notes, lo, hi, lo);
      && InnerHtml(parts) == Escape(InnerText(parts))
      && (InnerText(parts) == text[lo..hi] <==> DisjointOn(notes, lo, hi))
      && (DisjointOn(notes, lo, hi) ==> Tags(parts) == Expected(text, notes, lo, hi))
      && (DisjointOn(notes, lo, hi) <==> Chain(notes, lo, hi, lo))
  {
    ChainIff(notes, lo, hi, lo);
    assert StartBehind(notes, lo, hi, lo);
    hide StartBehind, DisjointOn;
    var parts := LineFragments(text, notes, lo, hi, lo);
    hide LineFragments, InnerHtml, InnerText, Chain, Forward, Cover, Tags;
    InnerHtmlIsEscaped(parts);
    LineNotShorter(text, notes, lo, hi, lo);
    if Chain(notes, lo, hi, lo) {
      LineTags(text, notes, lo, hi, lo);
      InnerTextSpells(parts);
      assert Letters(Expected(text, notes, lo, hi)) == text[lo..hi];
    }
  }

  // ----- lines -----

  /** `text.split("\n")` */
  function SplitLines(text: string): (r: seq<string>)
    ensures r != []
  {
    if text == [] then [""]
    else
      var rest := SplitLines(text[1..]);
      if text[0] == '\n' then [""] + rest else [[text[0]] + rest[0]] + rest[1..]
  }

  /** Where line i starts: one character behind the end of the previous line. */
  function StartOf(lines: seq<string>, i: nat): nat
    requires i <= |lines|
  {
    if i == 0 then 0 else StartOf(lines, i - 1) + |lines[i - 1]| + 1
  }

  lemma {:induction false} StartShift(lines: seq<string>, first: string, i: nat)
    requires i <= |lines|
    ensures StartOf([first] + lines, i + 1) == |first| + 1 + StartOf(lines, i)
  {
    if i > 0 {
      StartShift(lines, first, i - 1);
      assert ([first] + lines)[i] == lines[i - 1];
    }
  }

  lemma {:induction false} StartLonger(lines: seq<string>, first: string, i: nat)
    requires lines != [] && 0 < i <= |lines|
    ensures StartOf([first] + lines[1..], i) == StartOf(lines, i) + |first| - |lines[0]|
  {
    if i > 1 {
      StartLonger(lines, first, i - 1);
      assert ([first] + lines[1..])[i - 1] == lines[i - 1];
    }
  }

  lemma SliceTail(text: string, a: nat, b: nat)
    requires text != [] && a <= b < |text|
    ensures text[1..][a..b] == text[a + 1..b + 1]
  {
  }

  ghost predicate StandsAt(text: string, line: string, start: nat) {
    start + |line| <= |text| && text[start..start + |line|] == line
  }

  lemma StandsLater(text: string, line: string, start: nat)
    requires text != [] && StandsAt(text[1..], line, start)
    ensures StandsAt(text, line, start + 1)
  {
    SliceTail(text, start, start + |line|);
  }

  lemma StandsLonger(text: string, line: string)
    requires text != [] && StandsAt(text[1..], line, 0)
    ensures StandsAt(text, [text[0]] + line, 0)
  {
    SliceTail(text, 0, |line|);
  }

  /** The running offset of the renderer is right: line i stands at StartOf(i) in the text. */
  lemma {:induction false} LineStands(text: string, i: nat)
    requires i < |SplitLines(text)|
    ensures StandsAt(text, SplitLines(text)[i], StartOf(SplitLines(text), i))
  {
    hide StandsAt, StartOf;
    if text == [] {
      EmptyStands(i);
    } else {
      var rest, lines := SplitLines(text[1..]), SplitLines(text);
      if text[0] == '\n' {
        if i == 0 {
          EmptyLineStands(text, lines);
        } else {
          LineStands(text[1..], i - 1);
          StartShift(rest, "", i - 1);
          StandsLater(text, rest[i - 1], StartOf(rest, i - 1));
        }
      } else {
        LineStands(text[1..], i);
        if i == 0 {
          FirstStart(rest);
          FirstStart(lines);
          StandsLonger(text, rest[0]);
        } else {
          StartLonger(rest, [text[0]] + rest[0], i);
          StandsLater(text, rest[i], StartOf(rest, i));
        }
      }
    }
  }

  lemma FirstStart(lines: seq<string>)
    ensures StartOf(lines, 0) == 0
  {
  }

  lemma EmptyLineStands(text: string, lines: seq<string>)
    ensures StandsAt(text, "", StartOf(lines, 0))
  {
  }

  lemma EmptyStands(i: nat)
    requires i < |SplitLines("")|
    ensures StandsAt("", SplitLines("")[i], StartOf(SplitLines(""), i))
  {
    FirstStart([""]);
  }

  // ----- the renderer -----

  /** `sorted(annotations, key=lambda a: a.start)`, which is stable. */
  function SortedByStart(notes: seq<FontAnnotation>): seq<FontAnnotation> {
    if notes == [] then [] else InsertByStart(SortedByStart(Init(notes)), Last(notes))
  }

  function InsertByStart(notes: seq<FontAnnotation>, a: FontAnnotation): seq<FontAnnotation> {
    if notes == [] || Last(notes).start <= a.start then notes + [a] else InsertByStart(Init(notes), a) + [Last(notes)]
  }

  lemma {:induction false} SortedStays(notes: seq<FontAnnotation>)
    requires forall i, j :: 0 <= i < j < |notes| ==> notes[i].start <= notes[j].start
    ensures SortedByStart(notes) == notes
  {
    if notes != [] {
      SortedStays(Init(notes));
      assert Init(notes) + [Last(notes)] == notes;
      assert |notes| > 1 ==> Last(Init(notes)).start <= Last(notes).start;
    }
  }

  function OffsetAt(text: string, i: nat): nat
    requires i < |SplitLines(text)|
  {
    StartOf(SplitLines(text), i)
  }

  /** What is rendered for line i of the text. */
  function RenderedLine(text: string, notes: seq<FontAnnotation>, i: nat): seq<Fragment>
    requires i < |SplitLines(text)|
  {
    var lo := OffsetAt(text, i);
    LineFragments(text, notes, lo, lo + |SplitLines(text)[i]|, lo)
  }

  lemma StartNext(lines: seq<string>, i: nat)
    requires i < |lines|
    ensures StartOf(lines, 0) == 0 && StartOf(lines, i + 1) == StartOf(lines, i) + |lines[i]| + 1
  {
  }

  /** _format_per_line_annotated_text: the fragments of each line. */
  method FormatPerLine(text: string, annotations: seq<FontAnnotation>) returns (out: seq<seq<Fragment>>)
    ensures |out| == |SplitLines(text)|
    ensures forall i :: 0 <= i < |out| ==> out[i] == RenderedLine(text, SortedByStart(annotations), i)
  {
    hide LineFragments, SplitLines, StartOf, SortedByStart;
    var lines, notes := SplitLines(text), SortedByStart(annotations);
    out := [];
    var lineStart := 0;
    StartNext(lines, 0);
    for i := 0 to |lines|
      invariant |out| == i && lineStart == StartOf(lines, i)
      invariant forall k :: 0 <= k < i ==> out[k] == RenderedLine(text, notes, k)
    {
      var lineEnd := lineStart + |lines[i]|;
      var parts := FormatLine(text, notes, lineStart, lineEnd);
      StartNext(lines, i);
      assert parts == RenderedLine(text, notes, i);
      hide RenderedLine;
      out := out + [parts];
      lineStart := lineEnd + 1;
    }
  }

  /** Disjoint annotations in order stay so on every line. */
  lemma {:induction false} InOrderChains(notes: seq<FontAnnotation>, lo: nat, hi: nat, pos: int, from: int, to: int)
    requires InOrder(notes, from, to) && lo <= hi && (pos <= lo || pos <= from)
    ensures Chain(notes, lo, hi, pos) && Forward(notes)
    decreases |notes|
  {
    if notes != [] {
      InOrderRest(notes, from, to);
      if !Overlaps(notes[0], lo, hi) {
        InOrderChains(notes[1..], lo, hi, pos, from, to);
      } else {
        InOrderChains(notes[1..], lo, hi, To(notes[0], hi), notes[0].end, to);
      }
    }
  }

  lemma InOrderRest(notes: seq<FontAnnotation>, from: int, to: int)
    requires notes != [] && InOrder(notes, from, to)
    ensures InOrder(notes[1..], notes[0].end, to) && InOrder(notes[1..], from, to)
    ensures from <= notes[0].start <= notes[0].end
  {
    var rest := notes[1..];
    assert forall k :: 0 <= k < |rest| ==> rest[k] == notes[k + 1];
    forall j, k | 0 <= j < k < |rest| ensures rest[j].end <= rest[k].start {
      assert rest[j] == notes[j + 1] && rest[k] == notes[k + 1];
    }
    forall k | 0 <= k < |rest| ensures notes[0].end <= rest[k].start <= rest[k].end <= to {
      assert rest[k] == notes[k + 1];
    }
  }

  /** Rendering conserves text: for annotations in order and disjoint, in range or not, each line's
      inner markup is the escape of exactly that line, and each character carries the annotation
      covering it. */
  lemma PerLineConserves(text: string, annotations: seq<FontAnnotation>, from: int, to: int, i: nat)
    requires InOrder(annotations, from, to) && i < |SplitLines(text)|
    ensures var lo, line := OffsetAt(text, i), SplitLines(text)[i];
      var parts := RenderedLine(text, SortedByStart(annotations), i);
      && lo + |line| <= |text| && InnerHtml(parts) == Escape(line)
      && Tags(parts) == Expected(text, annotations, lo, lo + |line|)
  {
    hide SortedByStart, SplitLines, InOrder, Chain, Forward, LineFragments, Cover, Escape, InnerHtml, InnerText, Tags;
    var lo, line := OffsetAt(text, i), SplitLines(text)[i];
    LineStands(text, i);
    InOrderChains(annotations, lo, lo + |line|, lo, from, to);
    InOrderSorted(annotations, from, to);
    hide StartOf;
    LineConservedIff(text, annotations, lo, lo + |line|);
  }

  lemma InOrderSorted(notes: seq<FontAnnotation>, from: int, to: int)
    requires InOrder(notes, from, to)
    ensures SortedByStart(notes) == notes
  {
    SortedStays(notes);
  }

  // ----- from the PDF block to the markup -----

  lemma {:induction false} CoverFound(notes: seq<FontAnnotation>, from: int, to: int, k: nat, p: int)
    requires InOrder(notes, from, to) && k < |notes| && notes[k].start <= p < notes[k].end
    ensures Cover(notes, p) == Some(notes[k])
    decreases |notes|
  {
    if k > 0 {
      InOrderRest(notes, from, to);
      CoverFound(notes[1..], from, to, k - 1, p);
    }
  }

  lemma {:induction false} CoverIs(notes: seq<FontAnnotation>, p: int) returns (k: nat)
    requires Cover(notes, p).Some?
    ensures k < |notes| && notes[k].start <= p < notes[k].end && Cover(notes, p) == Some(notes[k])
    decreases |notes|
  {
    if notes[0].start <= p < notes[0].end {
      k := 0;
    } else {
      var j := CoverIs(notes[1..], p);
      k := j + 1;
    }
  }

  /** A character is styled by an annotation exactly when it lies in the annotation's range. */
  ghost predicate MarkedExactly(tags: seq<(char, Option<FontAnnotation>)>, notes: seq<FontAnnotation>, lo: int) {
    forall p, k :: 0 <= p < |tags| && 0 <= k < |notes| ==>
      (tags[p].1 == Some(notes[k]) <==> notes[k].start <= lo + p < notes[k].end)
  }

  lemma ExpectedMarks(text: string, notes: seq<FontAnnotation>, from: int, to: int, lo: nat, hi: nat)
    requires InOrder(notes, from, to) && lo <= hi <= |text|
    ensures MarkedExactly(Expected(text, notes, lo, hi), notes, lo)
  {
    hide InOrder, Cover;
    var tags := Expected(text, notes, lo, hi);
    forall p, k | 0 <= p < |tags| && 0 <= k < |notes|
      ensures tags[p].1 == Some(notes[k]) <==> notes[k].start <= lo + p < notes[k].end
    {
      if notes[k].start <= lo + p < notes[k].end {
        CoverFound(notes, from, to, k, lo + p);
      }
      if Cover(notes, lo + p) == Some(notes[k]) {
        var j := CoverIs(notes, lo + p);
      }
    }
  }

  /** End to end, for any block, stripped as it is stored: every visual line's markup is the escape
      of that line and a character is styled by an annotation exactly when it lies in its range;
      those ranges read the spans they were made for if and only if they fit the stripped text. */
  lemma BlockRendersFaithfully(d: Dominant, groups: seq<seq<PdfLine>>, i: nat)
    requires forall g :: 0 <= g < |groups| ==> groups[g] != []
    requires i < |SplitLines(Strip(BlockText(groups)))|
    ensures var text, notes := Strip(BlockText(groups)), BlockAnnotations(d, groups);
      var parts := RenderedLine(text, SortedByStart(notes), i);
      && InnerHtml(parts) == Escape(SplitLines(text)[i])
      && MarkedExactly(Tags(parts), notes, OffsetAt(text, i))
      && (Aligned(text, notes, BlockAnnotated(d, groups)) <==>
          forall k :: 0 <= k < |notes| ==> FitsStripped(BlockText(groups), notes[k]))
  {
    hide BlockText, BlockAnnotations, BlockAnnotated, Strip, Aligned, SplitLines, OffsetAt, RenderedLine, InnerHtml,
      Escape, SortedByStart, InOrder, Tags, MarkedExactly, FitsStripped;
    var text, notes, to := Strip(BlockText(groups)), BlockAnnotations(d, groups), |BlockText(groups)|;
    AnnotationsAligned(d, groups);
    StripKeepsAlignmentIff(d, groups);
    PerLineConserves(text, notes, 0, to, i);
    ExpectedMarks(text, notes, 0, to, OffsetAt(text, i), OffsetAt(text, i) + |SplitLines(text)[i]|);
  }
}
