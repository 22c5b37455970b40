/** What Cursor's shell hook auto-allows: the commands the skill renders, and nothing else. */
module RenderedForm {
  import opened Wrappers
  import opened Text

  // ── forms with holes ──

  const NUL: char := '\U{0000}'
  const BINARY := [NUL] + "BINARY" + [NUL]
  const CONFIG := [NUL] + "CONFIG" + [NUL]
  const BODY := [NUL] + "REQUEST BODY" + [NUL]
  const MARKERS: seq<string> := [BINARY, CONFIG, BODY]

  /** One piece of a form: a run of text, or the region a placeholder stands for. */
  datatype Part = Run(text: string) | Hole(marker: string)

  function PartText(p: Part): string {
    match p
    case Run(text) => text
    case Hole(marker) => marker
  }

  /** The form these parts were split from. */
  function FormText(parts: seq<Part>): string {
    if parts == [] then "" else PartText(parts[0]) + FormText(parts[1..])
  }

  /** The earliest of these markers in the text; of two at one place, the later in the list. */
  function Earliest(text: string, markers: seq<string>): (r: Option<(nat, string)>)
    ensures r.Some? ==> r.value.1 in markers && OccursAt(text, r.value.1, r.value.0)
    ensures r.Some? ==> forall m, k :: m in markers && OccursAt(text, m, k) ==> r.value.0 <= k
    ensures r.None? ==> forall m :: m in markers ==> !Occurs(text, m)
  {
    if markers == [] then None
    else
      var last := markers[|markers| - 1];
      var r, at := Earliest(text, markers[..|markers| - 1]), Index(text, last);
      assert markers == markers[..|markers| - 1] + [last];
      if at.None? || (r.Some? && at.value > r.value.0) then r else Some((at.value, last))
  }

  function SplitBy(text: string, markers: seq<string>): seq<Part>
    requires "" !in markers
    decreases |text|
  {
    if text == "" then []
    else
      match Earliest(text, markers)
      case None => [Run(text)]
      case Some(e) => [Run(text[..e.0]), Hole(e.1)] + SplitBy(text[e.0 + |e.1|..], markers)
  }

  lemma MarkersAreProper()
    ensures "" !in MARKERS
  {
  }

  function SplitForm(text: string): seq<Part> {
    MarkersAreProper();
    SplitBy(text, MARKERS)
  }

  method FindEarliest(text: string, markers: seq<string>) returns (r: Option<(nat, string)>)
    ensures r == Earliest(text, markers)
  {
    r := None;
    var i := 0;
    while i < |markers|
      invariant 0 <= i <= |markers| && r == Earliest(text, markers[..i])
    {
      var at := Index(text, markers[i]);
      assert markers[..i + 1][..i] == markers[..i];
      if !(at.None? || (r.Some? && at.value > r.value.0)) {
        r := Some((at.value, markers[i]));
      }
      i := i + 1;
    }
    assert markers[..|markers|] == markers;
  }

  lemma Appended(a: seq<Part>, b: seq<Part>, c: seq<Part>)
    ensures a + (b + c) == (a + b) + c
  {
  }

  method SplitFormText(form: string, markers: seq<string>) returns (parts: seq<Part>)
    requires "" !in markers
    ensures parts == SplitBy(form, markers)
  {
    parts := [];
    var text := form;
    while text != ""
      invariant parts + SplitBy(text, markers) == SplitBy(form, markers)
      decreases |text|
    {
      var next := FindEarliest(text, markers);
      if next.None? {
        parts := parts + [Run(text)];
        break;
      }
      var at, marker := next.value.0, next.value.1;
      SplitStep(text, markers, at, marker);
      Appended(parts, [Run(text[..at]), Hole(marker)], SplitBy(text[at + |marker|..], markers));
      parts := parts + [Run(text[..at]), Hole(marker)];
      text := text[at + |marker|..];
    }
  }

  // ── matching ──

  /** The text at each hole, the first occurrence of the run after it ending it. */
  function MatchParts(rest: string, parts: seq<Part>): Option<seq<string>>
    decreases |parts|
  {
    if parts == [] then if rest == "" then Some([]) else None
    else
      match parts[0]
      case Run(text) => if text <= rest then MatchParts(rest[|text|..], parts[1..]) else None
      case Hole(_) =>
        if |parts| == 1 then Some([rest])
        else
          var idx := Index(rest, NextRun(parts));
          if idx.None? then None
          else
            var more := MatchParts(rest[idx.value..], parts[1..]);
            if more.Some? then Some([rest[..idx.value]] + more.value) else None
  }

  /** The run after the first part; a hole after it counts as an empty one. */
  function NextRun(parts: seq<Part>): string
    requires |parts| > 1
  {
    if parts[1].Run? then parts[1].text else ""
  }

  function Holes(parts: seq<Part>): nat {
    if parts == [] then 0 else (if parts[0].Hole? then 1 else 0) + Holes(parts[1..])
  }

  /** The form with its holes filled. */
  function Fill(parts: seq<Part>, values: seq<string>): string
    requires |values| == Holes(parts)
  {
    if parts == [] then ""
    else if parts[0].Run? then parts[0].text + Fill(parts[1..], values)
    else values[0] + Fill(parts[1..], values[1..])
  }

  /** Each value is the shortest before the run that follows it. */
  predicate Shortest(parts: seq<Part>, values: seq<string>)
    requires |values| == Holes(parts)
  {
    if parts == [] then true
    else if parts[0].Run? then Shortest(parts[1..], values)
    else
      && (|parts| > 1 ==> Index(Fill(parts, values), NextRun(parts)) == Some(|values[0]|))
      && Shortest(parts[1..], values[1..])
  }

  /** Accepted exactly when the command is the form with its holes filled, every value the
      shortest one there is; and then those are the values. */
  lemma {:induction false} MatchIff(command: string, parts: seq<Part>, values: seq<string>)
    ensures MatchParts(command, parts) == Some(values) <==>
            |values| == Holes(parts) && Fill(parts, values) == command && Shortest(parts, values)
    decreases |parts|, 1
  {
    if parts != [] {
      match parts[0]
      case Run(_) =>
        RunIff(command, parts, values);
      case Hole(_) =>
        HoleIff(command, parts, values);
    }
  }

  lemma {:induction false} RunIff(command: string, parts: seq<Part>, values: seq<string>)
    requires parts != [] && parts[0].Run?
    ensures MatchParts(command, parts) == Some(values) <==>
            |values| == Holes(parts) && Fill(parts, values) == command && Shortest(parts, values)
    decreases |parts|, 0
  {
    var text := parts[0].text;
    if |values| == Holes(parts) {
      FrontGoes(text, Fill(parts[1..], values));
    }
    if text <= command {
      MatchIff(command[|text|..], parts[1..], values);
      assert command == text + command[|text|..];
    }
  }

  lemma FrontGoes(a: string, b: string)
    ensures a <= a + b && (a + b)[|a|..] == b && (a + b)[..|a|] == a
  {
  }

  lemma {:induction false} HoleIff(command: string, parts: seq<Part>, values: seq<string>)
    requires parts != [] && parts[0].Hole?
    ensures MatchParts(command, parts) == Some(values) <==>
            |values| == Holes(parts) && Fill(parts, values) == command && Shortest(parts, values)
    decreases |parts|, 0
  {
    hide Index, Occurs;
    if |parts| == 1 {
      assert parts[1..] == [] && Holes(parts[1..]) == 0;
      if |values| == 1 {
        assert values[1..] == [] && Fill(parts[1..], values[1..]) == "" && Shortest(parts[1..], values[1..]);
        assert values == [values[0]] && values[0] + "" == values[0];
      }
    } else {
      var idx := Index(command, NextRun(parts));
      if idx.Some? {
        var tail := command[idx.value..];
        assert command == command[..idx.value] + tail;
        if values != [] {
          MatchIff(tail, parts[1..], values[1..]);
          assert values == [values[0]] + values[1..];
        }
        if |values| == Holes(parts) && Fill(parts, values) == command && Shortest(parts, values) {
          assert command[..idx.value] == values[0];
        }
      }
    }
  }

  // ── splitting loses nothing ──

  /** Text, hole, text, hole, and so on, no run holding a marker. */
  ghost predicate Alternating(parts: seq<Part>, markers: seq<string>)
    decreases |parts|
  {
    if parts == [] then true
    else
      && parts[0].Run? && (forall m :: m in markers ==> !Occurs(parts[0].text, m))
      && if |parts| == 1 then parts[0].text != ""
         else parts[1].Hole? && parts[1].marker in markers && Alternating(parts[2..], markers)
  }

  lemma TwoParts(a: Part, b: Part, rest: seq<Part>)
    ensures FormText([a, b] + rest) == PartText(a) + (PartText(b) + FormText(rest))
    ensures ([a, b] + rest)[2..] == rest
  {
    assert ([a, b] + rest)[1..] == [b] + rest && ([b] + rest)[1..] == rest;
  }

  lemma OneRun(text: string)
    ensures FormText([Run(text)]) == text
  {
    assert [Run(text)][1..] == [] && text + "" == text;
  }

  lemma RunHoldsNone(text: string, markers: seq<string>)
    requires "" !in markers && Earliest(text, markers).Some?
    ensures forall m :: m in markers ==> !Occurs(text[..Earliest(text, markers).value.0], m)
  {
    var at := Earliest(text, markers).value.0;
    forall m, k | m in markers && OccursAt(text[..at], m, k)
      ensures false
    {
      assert text[..at][k..k + |m|] == text[k..k + |m|];
      assert OccursAt(text, m, k);
    }
  }

  lemma SplitStep(text: string, markers: seq<string>, at: nat, m: string)
    requires "" !in markers && text != "" && Earliest(text, markers) == Some((at, m))
    ensures SplitBy(text, markers) == [Run(text[..at]), Hole(m)] + SplitBy(text[at + |m|..], markers)
  {
  }

  lemma RejoinStep(text: string, markers: seq<string>, at: nat, m: string, rest: seq<Part>)
    requires OccursAt(text, m, at) && m in markers && FormText(rest) == text[at + |m|..] && Alternating(rest, markers)
    requires forall x :: x in markers ==> !Occurs(text[..at], x)
    ensures var parts := [Run(text[..at]), Hole(m)] + rest; FormText(parts) == text && Alternating(parts, markers)
  {
    hide FormText, Occurs;
    TwoParts(Run(text[..at]), Hole(m), rest);
    CutAt(text, m, at);
  }

  lemma CutAt(text: string, m: string, at: nat)
    requires OccursAt(text, m, at)
    ensures text == text[..at] + (m + text[at + |m|..])
  {
  }

  /** The parts are the form, in order and to the byte, and no run hides a placeholder. */
  lemma {:induction false} SplitRejoins(text: string, markers: seq<string>)
    requires "" !in markers
    ensures FormText(SplitBy(text, markers)) == text && Alternating(SplitBy(text, markers), markers)
    decreases |text|
  {
    if text != "" {
      var e := Earliest(text, markers);
      if e.Some? {
        var at, m := e.value.0, e.value.1;
        var rest := text[at + |m|..];
        SplitRejoins(rest, markers);
        SplitStep(text, markers, at, m);
        RunHoldsNone(text, markers);
        RejoinStep(text, markers, at, m, SplitBy(rest, markers));
      } else {
        OneRun(text);
      }
    }
  }

  /** A character no run has at both ends, and nowhere between: of two at one place, neither can
      be longer. */
  predicate IsMarker(m: string) {
    |m| > 2 && m[0] == NUL && m[|m| - 1] == NUL && forall k :: 0 < k < |m| - 1 ==> m[k] != NUL
  }

  predicate Clean(parts: seq<Part>) {
    forall k :: 0 <= k < |parts| && parts[k].Run? ==> NUL !in parts[k].text
  }

  lemma MarkerFirst(a: string, m: string, rest: string, markers: seq<string>)
    requires NUL !in a && m in markers && forall x :: x in markers ==> IsMarker(x)
    ensures Earliest(a + m + rest, markers) == Some((|a|, m))
  {
    var text, r := a + m + rest, Earliest(a + m + rest, markers);
    assert text[|a|..|a| + |m|] == m;
    assert OccursAt(text, m, |a|);
    var at, x := r.value.0, r.value.1;
    CharAt(text, x, at, 0);
    assert forall k :: 0 <= k < |a| ==> text[k] == a[k] && a[k] in a;
    MarkerEnds(text, at, m, x);
  }

  lemma MarkerEnds(text: string, at: nat, m: string, x: string)
    requires IsMarker(m) && IsMarker(x) && OccursAt(text, m, at) && OccursAt(text, x, at)
    ensures m == x
  {
    forall k | 0 <= k < |m|
      ensures text[at + k] == m[k]
    {
      CharAt(text, m, at, k);
    }
    forall k | 0 <= k < |x|
      ensures text[at + k] == x[k]
    {
      CharAt(text, x, at, k);
    }
    CharAt(text, m, at, |m| - 1);
    CharAt(text, x, at, |x| - 1);
  }

  lemma NoMarker(text: string, markers: seq<string>)
    requires NUL !in text && forall x :: x in markers ==> IsMarker(x)
    ensures Earliest(text, markers).None?
  {
    forall x | x in markers
      ensures !Occurs(text, x)
    {
      OccursHas(text, x, 0);
    }
  }

  lemma SplitFirstTwo(a: string, m: string, rest: seq<Part>, markers: seq<string>)
    requires NUL !in a && m in markers && "" !in markers && SplitBy(FormText(rest), markers) == rest
    requires forall x :: x in markers ==> IsMarker(x)
    ensures SplitBy(FormText([Run(a), Hole(m)] + rest), markers) == [Run(a), Hole(m)] + rest
  {
    hide IsMarker, OccursAt;
    var text := a + m + FormText(rest);
    TwoParts(Run(a), Hole(m), rest);
    assert a + (m + FormText(rest)) == text;
    MarkerFirst(a, m, FormText(rest), markers);
    SplitStep(text, markers, |a|, m);
    FrontGoes(a + m, FormText(rest));
    FrontGoes(a, m + FormText(rest));
  }

  lemma SplitLastRun(text: string, markers: seq<string>)
    requires text != "" && NUL !in text && "" !in markers && forall x :: x in markers ==> IsMarker(x)
    ensures SplitBy(FormText([Run(text)]), markers) == [Run(text)]
  {
    OneRun(text);
    NoMarker(text, markers);
  }

  lemma CleanRest(parts: seq<Part>)
    requires Clean(parts) && |parts| > 1
    ensures Clean(parts[2..])
  {
    forall k | 0 <= k < |parts[2..]| && parts[2..][k].Run?
      ensures NUL !in parts[2..][k].text
    {
      assert parts[2..][k] == parts[k + 2];
    }
  }

  /** And the other way: parts that were put together are the parts it splits into. */
  lemma {:induction false} SplitOfParts(parts: seq<Part>, markers: seq<string>)
    requires Alternating(parts, markers) && Clean(parts)
    requires forall x :: x in markers ==> IsMarker(x)
    requires "" !in markers
    ensures SplitBy(FormText(parts), markers) == parts
    decreases |parts|
  {
    hide FormText, SplitBy, Occurs, IsMarker;
    if parts == [] {
      SplitNothing(markers);
    } else if |parts| == 1 {
      SplitLastRun(parts[0].text, markers);
      assert parts == [Run(parts[0].text)];
    } else {
      CleanRest(parts);
      SplitOfParts(parts[2..], markers);
      SplitFirstTwo(parts[0].text, parts[1].marker, parts[2..], markers);
      assert parts == [Run(parts[0].text), Hole(parts[1].marker)] + parts[2..];
    }
  }

  lemma SplitNothing(markers: seq<string>)
    requires "" !in markers
    ensures SplitBy(FormText([]), markers) == []
  {
  }
}
