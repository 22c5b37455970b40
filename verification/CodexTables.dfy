/** The tables inside our markers, split by who wrote them. */
module CodexTables {
  import opened Wrappers
  import opened Text

  /** What the client asks of a TOML decoder: whether a line is a table header and whose name it
      holds, whether text decodes, whether it decodes to our table alone, and whether it defines
      our table. */
  datatype Toml = Toml(header: string -> Option<string>, decodes: string -> bool,
                       onlyOurs: string -> bool, definesOurs: string -> bool)

  datatype Section = Section(name: string, text: string)

  /** Where a section begins, and the line its header is on. */
  datatype Mark = Mark(start: nat, header: nat, name: string)

  const LINE_ENDS: set<char> := {'\r', '\n'}

  function LineText(line: string): string {
    TrimRight(line, LINE_ENDS)
  }

  /** A blank line or a comment. */
  predicate IsNote(line: string) {
    var t := TrimSpace(LineText(line));
    t == "" || t[0] == '#'
  }

  /** The first character that is no white space is at `k`. */
  predicate FirstAt(s: string, k: int) {
    0 <= k < |s| && s[k] !in SPACES && forall j :: 0 <= j < k ==> s[j] in SPACES
  }

  lemma TrimmedFirst(line: string, n: nat)
    requires n <= |line| && (forall j :: 0 <= j < n ==> line[j] in SPACES)
    requires n <= |LineText(line)| && LineText(line) <= line && TrimLeft(LineText(line), SPACES) == LineText(line)[n..]
    requires forall j :: |LineText(line)| <= j < |line| ==> line[j] in SPACES
    requires n < |LineText(line)| ==> LineText(line)[n] !in SPACES
    ensures var t := TrimSpace(LineText(line));
            if t == "" then forall j :: 0 <= j < |line| ==> line[j] in SPACES else FirstAt(line, n) && line[n] == t[0]
  {
    hide LineText, TrimLeft, TrimRight;
    var b := LineText(line)[n..];
    TrimRightTakes(b, SPACES);
    if n < |LineText(line)| {
      assert line[n] == b[0];
    }
  }

  lemma FirstOnce(s: string, n: int)
    requires FirstAt(s, n)
    ensures forall k :: FirstAt(s, k) <==> k == n
  {
  }

  lemma TrimmedTo(line: string) returns (n: nat)
    ensures var t := TrimSpace(LineText(line));
            if t == "" then forall k :: !FirstAt(line, k) else FirstAt(line, n) && line[n] == t[0]
  {
    var a := LineText(line);
    TrimRightTakes(line, LINE_ENDS);
    TrimLeftTakes(a, SPACES);
    hide TrimLeft, TrimRight, TrimSpace;
    assert forall c :: c in LINE_ENDS ==> c in SPACES;
    n := |a| - |TrimLeft(a, SPACES)|;
    TrimmedFirst(line, n);
  }

  /** That is, whatever white space it begins and ends with. */
  lemma IsNoteIff(line: string)
    ensures IsNote(line) <==> forall k :: FirstAt(line, k) ==> line[k] == '#'
  {
    var n := TrimmedTo(line);
    if FirstAt(line, n) {
      FirstOnce(line, n);
    }
    hide TrimSpace, LineText, FirstAt;
  }

  /** The first of the notes directly above line `i`. */
  function NotesAbove(lines: seq<string>, i: nat): (n: nat)
    requires i <= |lines|
    ensures n <= i && (n > 0 ==> !IsNote(lines[n - 1])) && forall k :: n <= k < i ==> IsNote(lines[k])
  {
    if i > 0 && IsNote(lines[i - 1]) then NotesAbove(lines, i - 1) else i
  }

  function HeaderAt(toml: Toml, lines: seq<string>, i: nat): Option<string>
    requires i < |lines|
  {
    toml.header(LineText(lines[i]))
  }

  /** A section's start: its notes, but never a line an earlier section already owns. */
  function StartOf(lines: seq<string>, i: nat, before: seq<Mark>): (n: nat)
    requires i <= |lines| && (before != [] ==> before[|before| - 1].header < i)
    ensures n <= i && (before != [] ==> before[|before| - 1].header < n)
  {
    var n := NotesAbove(lines, i);
    if before != [] && n <= before[|before| - 1].header then before[|before| - 1].header + 1 else n
  }

  /** The marks among the first `n` lines. */
  function Marks(toml: Toml, lines: seq<string>, n: nat): (ms: seq<Mark>)
    requires n <= |lines|
    ensures ms != [] ==> ms[|ms| - 1].header < n
  {
    if n == 0 then []
    else
      var before, h := Marks(toml, lines, n - 1), HeaderAt(toml, lines, n - 1);
      if h.None? then before else before + [Mark(StartOf(lines, n - 1, before), n - 1, h.value)]
  }

  /** Back over the notes directly above a header. */
  method FindNotes(lines: seq<string>, i: nat) returns (start: nat)
    requires i <= |lines|
    ensures start == NotesAbove(lines, i)
  {
    hide IsNote;
    start := i;
    while start > 0 && IsNote(lines[start - 1])
      invariant 0 <= start <= i && NotesAbove(lines, start) == NotesAbove(lines, i)
    {
      start := start - 1;
    }
  }

  method FindMarks(toml: Toml, lines: seq<string>) returns (marks: seq<Mark>)
    ensures marks == Marks(toml, lines, |lines|)
  {
    hide IsNote, HeaderAt, NotesAbove;
    marks := [];
    var i := 0;
    while i < |lines|
      invariant 0 <= i <= |lines| && marks == Marks(toml, lines, i)
    {
      var h := HeaderAt(toml, lines, i);
      if h.Some? {
        var start := FindNotes(lines, i);
        if marks != [] && start <= marks[|marks| - 1].header {
          start := marks[|marks| - 1].header + 1;
        }
        marks := marks + [Mark(start, i, h.value)];
      }
      i := i + 1;
    }
  }

  /** In order, each section after the header before it and up to its own. */
  predicate Ordered(marks: seq<Mark>, n: nat) {
    && (forall k :: 0 <= k < |marks| ==> marks[k].start <= marks[k].header < n)
    && (forall k :: 0 <= k < |marks| - 1 ==> marks[k].header < marks[k + 1].start)
  }

  lemma {:induction false} MarksOrdered(toml: Toml, lines: seq<string>, n: nat)
    requires n <= |lines|
    ensures Ordered(Marks(toml, lines, n), n)
  {
    hide IsNote, HeaderAt, NotesAbove;
    if n > 0 {
      MarksOrdered(toml, lines, n - 1);
    }
  }

  /** Where the section at `k` ends. */
  function EndOf(marks: seq<Mark>, k: nat, n: nat): nat
    requires k < |marks|
  {
    if k + 1 < |marks| then marks[k + 1].start else n
  }

  function SectionsFrom(lines: seq<string>, marks: seq<Mark>, k: nat): (ss: seq<Section>)
    requires k <= |marks| && Ordered(marks, |lines|)
    ensures |ss| == |marks| - k
    ensures forall j :: 0 <= j < |ss| ==>
              ss[j] == Section(marks[k + j].name, Concat(lines[marks[k + j].start..EndOf(marks, k + j, |lines|)]))
    decreases |marks| - k
  {
    if k == |marks| then []
    else
      var text := Concat(lines[marks[k].start..EndOf(marks, k, |lines|)]);
      [Section(marks[k].name, text)] + SectionsFrom(lines, marks, k + 1)
  }

  datatype Split = Split(preamble: string, sections: seq<Section>)

  function Cut(toml: Toml, region: string): Split {
    var lines := SplitLines(region);
    var marks := Marks(toml, lines, |lines|);
    MarksOrdered(toml, lines, |lines|);
    if marks == [] then Split(region, [])
    else Split(Concat(lines[..marks[0].start]), SectionsFrom(lines, marks, 0))
  }

  predicate AllDecode(toml: Toml, sections: seq<Section>) {
    forall k :: 0 <= k < |sections| ==> toml.decodes(sections[k].text)
  }

  /** None where the cut cannot be trusted. */
  function SplitMarkedBlock(toml: Toml, region: string): Option<Split> {
    var cut := Cut(toml, region);
    if toml.decodes(region) && AllDecode(toml, cut.sections) then Some(cut) else None
  }

  // ── nothing is lost in the cut ──

  function Texts(sections: seq<Section>): string {
    if sections == [] then "" else sections[0].text + Texts(sections[1..])
  }

  lemma {:induction false} SectionsCover(lines: seq<string>, marks: seq<Mark>, k: nat)
    requires k < |marks| && Ordered(marks, |lines|)
    ensures Texts(SectionsFrom(lines, marks, k)) == Concat(lines[marks[k].start..])
    decreases |marks| - k
  {
    hide Concat;
    var start, end := marks[k].start, EndOf(marks, k, |lines|);
    var rest := SectionsFrom(lines, marks, k + 1);
    assert SectionsFrom(lines, marks, k)[1..] == rest;
    assert lines[start..] == lines[start..end] + lines[end..];
    ConcatAppend(lines[start..end], lines[end..]);
    if k + 1 < |marks| {
      SectionsCover(lines, marks, k + 1);
    } else {
      NoMore(lines, end);
      assert rest == [];
    }
  }

  lemma NoMore(lines: seq<string>, end: nat)
    requires end == |lines|
    ensures Concat(lines[end..]) == ""
  {
    assert lines[end..] == [];
  }

  lemma NoText()
    ensures Texts([]) == ""
  {
  }

  lemma LinesRejoin(lines: seq<string>, i: nat)
    requires i <= |lines|
    ensures Concat(lines[..i]) + Concat(lines[i..]) == Concat(lines)
  {
    hide Concat;
    assert lines == lines[..i] + lines[i..];
    ConcatAppend(lines[..i], lines[i..]);
  }

  /** The preamble and the sections are the region, byte for byte. */
  lemma CutRejoins(toml: Toml, region: string)
    ensures Cut(toml, region).preamble + Texts(Cut(toml, region).sections) == region
  {
    hide Concat, SplitLines, Marks, SectionsFrom;
    var lines := SplitLines(region);
    var marks := Marks(toml, lines, |lines|);
    MarksOrdered(toml, lines, |lines|);
    if marks == [] {
      NoText();
      assert region + "" == region;
    } else {
      SectionsCover(lines, marks, 0);
      LinesRejoin(lines, marks[0].start);
    }
  }

  lemma {:induction false} MarksComplete(toml: Toml, lines: seq<string>, n: nat, i: nat)
    requires i < n <= |lines| && HeaderAt(toml, lines, i).Some?
    ensures exists k :: 0 <= k < |Marks(toml, lines, n)| && Marks(toml, lines, n)[k].header == i
  {
    var ms := Marks(toml, lines, n);
    if i == n - 1 {
      assert ms[|ms| - 1].header == i;
    } else {
      MarksComplete(toml, lines, n - 1, i);
      var k :| 0 <= k < |Marks(toml, lines, n - 1)| && Marks(toml, lines, n - 1)[k].header == i;
      assert ms[k] == Marks(toml, lines, n - 1)[k];
    }
  }

  lemma {:induction false} MarksSound(toml: Toml, lines: seq<string>, n: nat, k: nat)
    requires n <= |lines| && k < |Marks(toml, lines, n)|
    ensures var m := Marks(toml, lines, n)[k];
            && m.start <= m.header < n && HeaderAt(toml, lines, m.header) == Some(m.name)
            && forall j :: m.start <= j < m.header ==> IsNote(lines[j])
  {
    hide IsNote, HeaderAt;
    MarksOrdered(toml, lines, n);
    if k < |Marks(toml, lines, n - 1)| {
      MarksSound(toml, lines, n - 1, k);
    }
  }

  /** Within a section only its own header is one. */
  lemma OnlyHeader(toml: Toml, lines: seq<string>, i: nat, k: nat)
    requires i < |lines| && HeaderAt(toml, lines, i).Some?
    requires k < |Marks(toml, lines, |lines|)|
    requires Marks(toml, lines, |lines|)[k].start <= i < EndOf(Marks(toml, lines, |lines|), k, |lines|)
    ensures i == Marks(toml, lines, |lines|)[k].header
  {
    hide IsNote, Marks, HeaderAt;
    var marks := Marks(toml, lines, |lines|);
    MarksOrdered(toml, lines, |lines|);
    MarksComplete(toml, lines, |lines|, i);
    var m :| 0 <= m < |marks| && marks[m].header == i;
    MarksSound(toml, lines, |lines|, k);
    MarksSound(toml, lines, |lines|, m);
    Between(marks, |lines|, m, k);
    if k < m {
      NextStarts(marks, |lines|, k, m);
    }
  }

  lemma NextStarts(marks: seq<Mark>, n: nat, k: nat, m: nat)
    requires Ordered(marks, n) && k < m < |marks|
    ensures EndOf(marks, k, n) <= marks[m].start
  {
    if k + 1 < m {
      Between(marks, n, k + 1, m);
    }
  }

  /** Every section holds exactly one header, its own, with the notes above it and all up to the
      next section; and no header is left outside. */
  lemma OneHeaderEach(toml: Toml, region: string, i: nat)
    requires i < |SplitLines(region)|
    ensures var lines := SplitLines(region);
            var marks := Marks(toml, lines, |lines|);
            && (HeaderAt(toml, lines, i).Some? <==> exists k :: 0 <= k < |marks| && marks[k].header == i)
            && forall k :: 0 <= k < |marks| && marks[k].start <= i < EndOf(marks, k, |lines|) ==>
                 (HeaderAt(toml, lines, i).Some? <==> i == marks[k].header)
  {
    hide IsNote, Marks, HeaderAt, SplitLines, EndOf;
    var lines := SplitLines(region);
    var marks := Marks(toml, lines, |lines|);
    MarksOrdered(toml, lines, |lines|);
    forall k | 0 <= k < |marks|
      ensures HeaderAt(toml, lines, marks[k].header).Some?
    {
      MarksSound(toml, lines, |lines|, k);
    }
    if HeaderAt(toml, lines, i).Some? {
      MarksComplete(toml, lines, |lines|, i);
      forall k | 0 <= k < |marks| && marks[k].start <= i < EndOf(marks, k, |lines|)
        ensures i == marks[k].header
      {
        OnlyHeader(toml, lines, i, k);
      }
    }
  }

  lemma {:induction false} Between(marks: seq<Mark>, n: nat, j: nat, k: nat)
    requires Ordered(marks, n) && j < |marks| && k < |marks|
    ensures j < k ==> marks[j].header < marks[k].start
    decreases k
  {
    if j < k - 1 {
      Between(marks, n, j, k - 1);
    }
  }

  // ── whose each table is ──

  const OURS := "sandbox_workspace_write"

  datatype Contents = Contents(ours: seq<Section>, foreign: seq<Section>)

  function Sort(sections: seq<Section>): Contents {
    if sections == [] then Contents([], [])
    else
      var rest := Sort(sections[1..]);
      if sections[0].name == OURS then Contents([sections[0]] + rest.ours, rest.foreign)
      else Contents(rest.ours, [sections[0]] + rest.foreign)
  }

  predicate OnlyComments(text: string) {
    forall k :: 0 <= k < |SplitLines(text)| ==> IsNote(SplitLines(text)[k])
  }

  function SplitCodexBlock(toml: Toml, region: string): Option<Contents> {
    var split := SplitMarkedBlock(toml, region);
    if split.None? || !OnlyComments(split.value.preamble) then None
    else
      var c := Sort(split.value.sections);
      if c.ours != [] && !toml.onlyOurs(Texts(c.ours)) then None
      else if exists k :: 0 <= k < |c.foreign| && toml.definesOurs(c.foreign[k].text) then None
      else Some(c)
  }

  /** A block can be acted on exactly when it decodes, whole and table by table; nothing but notes
      stands before its first table; what bears our name decodes to our table alone, and nothing
      that does not bear it defines our table. */
  lemma ReadableIff(toml: Toml, region: string)
    ensures var cut := Cut(toml, region);
            SplitCodexBlock(toml, region).Some? <==>
            && toml.decodes(region) && (forall s :: s in cut.sections ==> toml.decodes(s.text))
            && (forall line :: line in SplitLines(cut.preamble) ==> forall k :: FirstAt(line, k) ==> line[k] == '#')
            && (Sort(cut.sections).ours != [] ==> toml.onlyOurs(Texts(Sort(cut.sections).ours)))
            && (forall s :: s in cut.sections && s.name != OURS ==> !toml.definesOurs(s.text))
  {
    hide Cut, SplitLines, IsNote, Texts, Sort;
    var cut := Cut(toml, region);
    forall line
      ensures IsNote(line) <==> forall k :: FirstAt(line, k) ==> line[k] == '#'
    {
      IsNoteIff(line);
    }
    SortTakesAll(cut.sections);
    var foreign := Sort(cut.sections).foreign;
    forall s | s in cut.sections && s.name != OURS
      ensures exists k :: 0 <= k < |foreign| && foreign[k] == s
    {
      assert s in foreign;
    }
    assert forall k :: 0 <= k < |foreign| ==> foreign[k] in foreign;
    assert forall k :: 0 <= k < |cut.sections| ==> cut.sections[k] in cut.sections;
    assert (forall line :: line in SplitLines(cut.preamble) ==> IsNote(line)) <==> OnlyComments(cut.preamble);
    assert (forall s :: s in cut.sections ==> toml.decodes(s.text)) <==> AllDecode(toml, cut.sections);
  }

  lemma {:induction false} SortTakesAll(sections: seq<Section>)
    ensures forall s :: s in Sort(sections).foreign <==> s in sections && s.name != OURS
    ensures forall s :: s in Sort(sections).ours <==> s in sections && s.name == OURS
  {
    if sections != [] {
      SortTakesAll(sections[1..]);
      assert sections == [sections[0]] + sections[1..];
    }
  }

  /** Two sequences shuffled into one, each keeping its order. */
  predicate Shuffled(a: seq<Section>, b: seq<Section>, both: seq<Section>)
    decreases |both|
  {
    if both == [] then a == [] && b == []
    else
      || (a != [] && a[0] == both[0] && Shuffled(a[1..], b, both[1..]))
      || (b != [] && b[0] == both[0] && Shuffled(a, b[1..], both[1..]))
  }

  lemma {:induction false} SortShuffles(sections: seq<Section>)
    ensures var c := Sort(sections);
            && Shuffled(c.ours, c.foreign, sections)
            && (forall k :: 0 <= k < |c.ours| ==> c.ours[k].name == OURS)
            && (forall k :: 0 <= k < |c.foreign| ==> c.foreign[k].name != OURS)
  {
    if sections != [] {
      SortShuffles(sections[1..]);
      var c, rest := Sort(sections), Sort(sections[1..]);
      assert sections[0].name == OURS ==> c.ours[1..] == rest.ours;
      assert sections[0].name != OURS ==> c.foreign[1..] == rest.foreign;
    }
  }

  /** A block that is acted on is comments, then our tables and the others' in the order they
      stood in: every table is in exactly one of the two, in its own bytes. */
  lemma BlockIsAccountedFor(toml: Toml, region: string)
    requires SplitCodexBlock(toml, region).Some?
    ensures var c, cut := SplitCodexBlock(toml, region).value, Cut(toml, region);
            && cut.preamble + Texts(cut.sections) == region && OnlyComments(cut.preamble)
            && Shuffled(c.ours, c.foreign, cut.sections)
            && (forall k :: 0 <= k < |c.ours| ==> c.ours[k].name == OURS)
            && (forall k :: 0 <= k < |c.foreign| ==> c.foreign[k].name != OURS && !toml.definesOurs(c.foreign[k].text))
            && (c.ours != [] ==> toml.onlyOurs(Texts(c.ours)))
  {
    CutRejoins(toml, region);
    SortShuffles(Cut(toml, region).sections);
  }
}
