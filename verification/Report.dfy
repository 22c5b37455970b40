/** A search's answer as an agent reads it: the chosen candidate first, all of it inert, within
    the budget. */
module Report {
  import opened Utf8
  import opened Render
  import opened Terminal
  import opened Decimal
  import opened Dollars

  const TOTAL_CAP := 0x1_0000
  const ANSWER_CAP := 4000
  const SNIPPET_CAP := 400
  const CITATION_CAP := 8
  const PROVIDER_CAP := 64
  const TITLE_CAP := 200
  const URL_CAP := 500
  const ID_CAP := 128
  const SCHEME_CAP := 32

  const DASH: Scalar := 0x2014

  type Bytes = seq<Byte>

  /** A citation's link, as url.Parse found it. */
  datatype Link = Malformed | Web(url: Bytes) | OtherScheme(scheme: Bytes)
  datatype Citation = Citation(link: Link, title: Bytes, snippet: Bytes)
  datatype Candidate = Candidate(provider: Bytes, kind: Bytes, status: Bytes, answer: Bytes, error: Bytes,
      citations: seq<Citation>)
  datatype Usage = NoUsage | Usage(cost: Int64, pending: int)
  datatype Response = Response(request: Bytes, session: Bytes, chosen: int, candidates: seq<Candidate>,
                               providers: seq<Bytes>, usage: Usage)

  // ── the order ──

  function Others(chosen: int, n: nat): seq<nat> {
    if n == 0 then [] else Others(chosen, n - 1) + (if n - 1 == chosen then [] else [n - 1])
  }

  function First(chosen: int, n: nat): seq<nat> {
    if 0 <= chosen < n then [chosen] else []
  }

  predicate Within(order: seq<nat>, n: nat) {
    forall k :: 0 <= k < |order| ==> order[k] < n
  }

  method Ordered(chosen: int, n: nat) returns (order: seq<nat>)
    ensures order == First(chosen, n) + Others(chosen, n)
  {
    order := [];
    if 0 <= chosen < n {
      order := order + [chosen];
    }
    var i := 0;
    while i < n
      invariant i <= n && order == First(chosen, n) + Others(chosen, i)
    {
      if i != chosen {
        order := order + [i];
      }
      i := i + 1;
    }
  }

  lemma {:induction false} OthersAre(chosen: int, n: nat)
    ensures var s := Others(chosen, n);
            && (forall x :: x in s <==> 0 <= x < n && x != chosen)
            && Within(s, n)
            && (forall i, j :: 0 <= i < j < |s| ==> s[i] < s[j])
  {
    if n > 0 {
      OthersAre(chosen, n - 1);
    }
  }

  /** Every candidate once: the chosen one first, the rest as they came. */
  lemma OrderIsPermutation(chosen: int, n: nat)
    ensures var s := First(chosen, n) + Others(chosen, n);
            && (forall x :: x in s <==> 0 <= x < n)
            && Within(s, n)
            && (forall i, j :: 0 <= i < j < |s| ==> s[i] != s[j])
            && (0 <= chosen < n ==> s[0] == chosen && forall i, j :: 1 <= i < j < |s| ==> s[i] < s[j])
            && (!(0 <= chosen < n) ==> forall i, j :: 0 <= i < j < |s| ==> s[i] < s[j])
  {
    OthersAre(chosen, n);
    var f, o := First(chosen, n), Others(chosen, n);
    forall x
      ensures x in f + o <==> x in f || x in o
    {
    }
    forall i | 0 <= i < |o|
      ensures o[i] in o
    {
    }
  }

  // ── the text, had there been no budget ──

  function LinkText(link: Link): seq<Scalar> {
    if link.Malformed? then Scalars("(link omitted: malformed URL)")
    else if link.Web? then OneLine(link.url, URL_CAP)
    else Scalars("(link omitted: unsupported scheme ") + OneLine(link.scheme, SCHEME_CAP) + Scalars(")")
  }

  /** A field with what introduces and ends it, or nothing. */
  function Field(before: seq<Scalar>, field: seq<Scalar>, after: seq<Scalar>): seq<Scalar> {
    if field == [] then [] else before + field + after
  }

  function CitationText(n: nat, c: Citation): seq<Scalar> {
    Scalars("  ") + Scalars(Digits(n + 1)) + Scalars(". ") + LinkText(c.link) +
    Field(Scalars(" ") + [DASH] + Scalars(" "), OneLine(c.title, TITLE_CAP), []) + Scalars("\n") +
    Field(Scalars("     "), OneLine(c.snippet, SNIPPET_CAP), Scalars("\n"))
  }

  function MoreText(n: nat): seq<Scalar> {
    Scalars("  ") + [ELLIPSIS] + Scalars("(") + Scalars(Digits(n)) + Scalars(" more)\n")
  }

  /** From the `n`th citation on. */
  function CitationsText(cs: seq<Citation>, n: nat): seq<Scalar>
    requires n <= |cs|
    decreases |cs| - n
  {
    if n == |cs| then []
    else if n >= CITATION_CAP then MoreText(|cs| - CITATION_CAP)
    else CitationText(n, cs[n]) + CitationsText(cs, n + 1)
  }

  const OK: Bytes := [0x6F, 0x6B]

  function HeadText(c: Candidate, chosen: bool): seq<Scalar> {
    Scalars("\n[") + OneLine(c.provider, PROVIDER_CAP) + Scalars("]") + (if chosen then Scalars(" (chosen)") else []) +
    (if c.kind == [] then [] else Scalars(" ") + OneLine(c.kind, PROVIDER_CAP)) +
    (if c.status == [] || c.status == OK then [] else Scalars(" status=") + OneLine(c.status, PROVIDER_CAP)) +
    Scalars("\n")
  }

  function CandidateText(c: Candidate, chosen: bool): seq<Scalar> {
    HeadText(c, chosen) +
    (if c.error != [] then Scalars("  error: ") + OneLine(c.error, SNIPPET_CAP) + Scalars("\n")
     else (if c.answer == [] then [] else Scalars("  answer: ") + OneLine(c.answer, ANSWER_CAP) + Scalars("\n")) +
          CitationsText(c.citations, 0))
  }

  function CandidatesText(r: Response, order: seq<nat>): seq<Scalar>
    requires Within(order, |r.candidates|)
  {
    if order == [] then []
    else
      var last := order[|order| - 1];
      CandidatesText(r, order[..|order| - 1]) + CandidateText(r.candidates[last], last == r.chosen)
  }

  function ProvidersText(r: Response, n: nat): seq<Scalar>
    requires n <= |r.providers|
  {
    if n == 0 then []
    else
      var p := r.providers[n - 1];
      ProvidersText(r, n - 1) + Scalars(" ") + OneLine(p, PROVIDER_CAP) +
        (if p == ChosenProvider(r) then Scalars("*") else [])
  }

  function ChosenProvider(r: Response): Bytes {
    if 0 <= r.chosen < |r.candidates| then r.candidates[r.chosen].provider else []
  }

  function DecisionText(r: Response): seq<Scalar> {
    var providers := if r.providers == [] then [] else Scalars("providers:") + ProvidersText(r, |r.providers|);
    if r.usage.NoUsage? then providers
    else
      providers + (if providers == [] then [] else Scalars("  ")) + Scalars("cost: ") +
        Scalars(FormatCostDollars(r.usage.cost)) +
      (if r.usage.pending > 0 then Scalars("  ") + Scalars(Digits(r.usage.pending)) +
          Scalars(" arm(s) still running") else [])
  }

  function HeaderText(r: Response): seq<Scalar> {
    Scalars("search ") + OneLine(r.request, ID_CAP) +
    (if r.session == [] then [] else Scalars("  session ") + OneLine(r.session, ID_CAP)) +
    Scalars("  ") + Scalars(Digits(|r.candidates|)) + Scalars(" candidates\n")
  }

  function Order(r: Response): (s: seq<nat>)
    ensures Within(s, |r.candidates|)
  {
    OrderIsPermutation(r.chosen, |r.candidates|);
    First(r.chosen, |r.candidates|) + Others(r.chosen, |r.candidates|)
  }

  function ReportText(r: Response): seq<Scalar> {
    HeaderText(r) + CandidatesText(r, Order(r)) + Field(Scalars("\n"), DecisionText(r), Scalars("\n"))
  }

  // ── the program ──

  method PrintCitations(b: CappedBuilder, cs: seq<Citation>, ghost t: seq<Scalar>)
    requires b.Holds(t)
    modifies b
    ensures b.Holds(t + CitationsText(cs, 0))
  {
    hide LinkText, OneLine, Scalars, Digits, MoreText, Truncated, EncodeAll;
    ghost var u := t;
    var n := 0;
    assert u + CitationsText(cs, 0) == t + CitationsText(cs, 0);
    while n < |cs|
      invariant n <= |cs| && b.Holds(u)
      invariant u + CitationsText(cs, n) == t + CitationsText(cs, 0)
    {
      if n >= CITATION_CAP {
        b.Print(MoreText(|cs| - CITATION_CAP), u);
        return;
      }
      ghost var before := u;
      u := PrintCitation(b, n, cs[n], u);
      Assoc(before, CitationText(n, cs[n]), CitationsText(cs, n + 1));
      n := n + 1;
    }
    assert u + [] == u;
  }

  lemma Assoc<T>(a: seq<T>, b: seq<T>, c: seq<T>)
    ensures (a + b) + c == a + (b + c)
  {
  }

  method PrintCitation(b: CappedBuilder, n: nat, c: Citation, ghost t: seq<Scalar>) returns (ghost u: seq<Scalar>)
    requires b.Holds(t)
    modifies b
    ensures b.Holds(u) && u == t + CitationText(n, c)
  {
    hide LinkText, OneLine, Scalars, Digits, Truncated, EncodeAll;
    u := t;
    var line := Scalars("  ") + Scalars(Digits(n + 1)) + Scalars(". ") + LinkText(c.link);
    b.Print(line, u);
    u := u + line;
    var title := OneLine(c.title, TITLE_CAP);
    if title != [] {
      b.Print(Scalars(" ") + [DASH] + Scalars(" ") + title, u);
      u := u + (Scalars(" ") + [DASH] + Scalars(" ") + title);
    }
    b.Print(Scalars("\n"), u);
    u := u + Scalars("\n");
    var snippet := OneLine(c.snippet, SNIPPET_CAP);
    if snippet != [] {
      b.Print(Scalars("     ") + snippet + Scalars("\n"), u);
      u := u + (Scalars("     ") + snippet + Scalars("\n"));
    }
    CitationParts(t, line, Scalars(" ") + [DASH] + Scalars(" "), title, Scalars("\n"), Scalars("     "), snippet);
  }

  lemma CitationParts(t: seq<Scalar>, line: seq<Scalar>, dash: seq<Scalar>, title: seq<Scalar>, nl: seq<Scalar>,
      gap: seq<Scalar>, snippet: seq<Scalar>)
    ensures t + (line + Field(dash, title, []) + nl + Field(gap, snippet, nl)) ==
            (var a := t + line;
             var b := if title == [] then a else a + (dash + title);
             var c := b + nl;
             if snippet == [] then c else c + (gap + snippet + nl))
  {
  }

  method PrintHead(b: CappedBuilder, c: Candidate, chosen: bool, ghost t: seq<Scalar>) returns (ghost u: seq<Scalar>)
    requires b.Holds(t)
    modifies b
    ensures b.Holds(u) && u == t + HeadText(c, chosen)
  {
    hide OneLine, Scalars, Truncated, EncodeAll;
    u := t;
    var name := Scalars("\n[") + OneLine(c.provider, PROVIDER_CAP) + Scalars("]") +
      (if chosen then Scalars(" (chosen)") else []);
    b.Print(name, u);
    u := u + name;
    ghost var kind, status: seq<Scalar> := [], [];
    if c.kind != [] {
      b.Print(Scalars(" ") + OneLine(c.kind, PROVIDER_CAP), u);
      kind := Scalars(" ") + OneLine(c.kind, PROVIDER_CAP);
      u := u + kind;
    }
    if c.status != [] && c.status != OK {
      b.Print(Scalars(" status=") + OneLine(c.status, PROVIDER_CAP), u);
      status := Scalars(" status=") + OneLine(c.status, PROVIDER_CAP);
      u := u + status;
    }
    b.Print(Scalars("\n"), u);
    u := u + Scalars("\n");
    HeadParts(t, name, kind, status, Scalars("\n"));
  }

  lemma HeadParts(t: seq<Scalar>, name: seq<Scalar>, kind: seq<Scalar>, status: seq<Scalar>, nl: seq<Scalar>)
    ensures t + (name + kind + status + nl) ==
            (var a := t + name;
             var b := if kind == [] then a else a + kind;
             var c := if status == [] then b else b + status;
             c + nl)
  {
  }

  method PrintCandidate(b: CappedBuilder, c: Candidate, chosen: bool, ghost t: seq<Scalar>)
    requires b.Holds(t)
    modifies b
    ensures b.Holds(t + CandidateText(c, chosen))
  {
    hide OneLine, Scalars, Truncated, EncodeAll, HeadText, CitationsText;
    ghost var u := PrintHead(b, c, chosen, t);
    if c.error != [] {
      var e := Scalars("  error: ") + OneLine(c.error, SNIPPET_CAP) + Scalars("\n");
      b.Print(e, u);
      Assoc(t, HeadText(c, chosen), e);
      return;
    }
    ghost var a: seq<Scalar> := [];
    if c.answer != [] {
      var line := Scalars("  answer: ") + OneLine(c.answer, ANSWER_CAP) + Scalars("\n");
      b.Print(line, u);
      a := line;
      u := u + line;
    }
    assert u == t + HeadText(c, chosen) + a;
    PrintCitations(b, c.citations, u);
    CandidateParts(t, HeadText(c, chosen), a, CitationsText(c.citations, 0));
  }

  lemma CandidateParts(t: seq<Scalar>, head: seq<Scalar>, answer: seq<Scalar>, rest: seq<Scalar>)
    ensures t + head + answer + rest == t + (head + (answer + rest))
  {
  }

  method DecisionLine(r: Response) returns (line: seq<Scalar>)
    ensures line == DecisionText(r)
  {
    hide OneLine, Scalars, FormatCostDollars;
    line := [];
    if r.providers != [] {
      line := Scalars("providers:");
      var n := 0;
      while n < |r.providers|
        invariant n <= |r.providers| && line == Scalars("providers:") + ProvidersText(r, n)
      {
        var p := r.providers[n];
        line := line + Scalars(" ") + OneLine(p, PROVIDER_CAP);
        if p == ChosenProvider(r) {
          line := line + Scalars("*");
        }
        n := n + 1;
      }
    }
    if r.usage.Usage? {
      if line != [] {
        line := line + Scalars("  ");
      }
      line := line + Scalars("cost: ") + Scalars(FormatCostDollars(r.usage.cost));
      if r.usage.pending > 0 {
        line := line + (Scalars("  ") + Scalars(Digits(r.usage.pending)) + Scalars(" arm(s) still running"));
      }
    }
  }

  /** The candidates that are not reached once the budget is spent could not have been seen. */
  lemma BeyondBudget(t: seq<Scalar>, more: seq<Scalar>, max: nat)
    requires |EncodeAll(t)| > max
    ensures Bounded(EncodeAll(t + more), max) == Bounded(EncodeAll(t), max)
  {
    hide Encode, EncodeAll, CutRune;
    EncodeAllAppend(t, more);
    CutBefore(EncodeAll(t), EncodeAll(more), max);
    var k := CutRune(EncodeAll(t), max);
    assert (EncodeAll(t) + EncodeAll(more))[..k] == EncodeAll(t)[..k];
  }

  method PrintHeader(b: CappedBuilder, r: Response)
    requires b.Holds([])
    modifies b
    ensures b.Holds(HeaderText(r))
  {
    hide OneLine, Scalars, Truncated, EncodeAll, Digits;
    var t := Scalars("search ") + OneLine(r.request, ID_CAP);
    b.Print(t, []);
    assert [] + t == t;
    var s: seq<Scalar> := [];
    if r.session != [] {
      s := Scalars("  session ") + OneLine(r.session, ID_CAP);
      b.Print(s, t);
    }
    assert t + [] == t;
    var n := Scalars("  ") + Scalars(Digits(|r.candidates|)) + Scalars(" candidates\n");
    b.Print(n, t + s);
    HeaderParts(t + s, Scalars("  "), Scalars(Digits(|r.candidates|)), Scalars(" candidates\n"));
  }

  lemma HeaderParts(t: seq<Scalar>, a: seq<Scalar>, b: seq<Scalar>, c: seq<Scalar>)
    ensures t + (a + b + c) == t + a + b + c
  {
  }

  method PrintCandidates(b: CappedBuilder, r: Response, order: seq<nat>, ghost t: seq<Scalar>) returns (ghost k: nat)
    requires b.Holds(t) && Within(order, |r.candidates|)
    modifies b
    ensures k <= |order| && b.Holds(t + CandidatesText(r, order[..k])) && (k < |order| ==> b.full)
  {
    hide CandidateText;
    k := 0;
    var i := 0;
    assert t + CandidatesText(r, order[..0]) == t;
    while i < |order|
      invariant i == k <= |order| && b.Holds(t + CandidatesText(r, order[..k]))
    {
      if b.full {
        break;
      }
      var c := order[i];
      PrintCandidate(b, r.candidates[c], c == r.chosen, t + CandidatesText(r, order[..i]));
      assert order[..i + 1][..i] == order[..i];
      Assoc(t, CandidatesText(r, order[..i]), CandidateText(r.candidates[c], c == r.chosen));
      i, k := i + 1, k + 1;
    }
  }

  lemma {:induction false} CandidatesTextSplit(r: Response, a: seq<nat>, b: seq<nat>)
    requires Within(a, |r.candidates|) && Within(b, |r.candidates|)
    ensures CandidatesText(r, a) <= CandidatesText(r, a + b)
  {
    hide CandidateText;
    if b == [] {
      assert a + b == a;
    } else {
      var b' := b[..|b| - 1];
      assert (a + b)[..|a + b| - 1] == a + b';
      CandidatesTextSplit(r, a, b');
    }
  }

  /** What comes out is the whole report, held to the budget: stopping early loses nothing of it. */
  method RenderForModel(r: Response) returns (text: seq<Byte>)
    ensures text == Bounded(EncodeAll(ReportText(r)), Room(TOTAL_CAP))
  {
    hide HeaderText, CandidatesText, DecisionText, Scalars, EncodeAll, Bounded;
    var b := new CappedBuilder(TOTAL_CAP);
    NoText();
    PrintHeader(b, r);
    var order := Ordered(r.chosen, |r.candidates|);
    assert order == Order(r);
    ghost var k := PrintCandidates(b, r, order, HeaderText(r));
    ghost var part := CandidatesText(r, order[..k]);
    ghost var t := HeaderText(r) + part;
    ghost var spent := |EncodeAll(t)| > b.max;
    var line := DecisionLine(r);
    if line != [] {
      b.Print(Scalars("\n") + line + Scalars("\n"), t);
    }
    ghost var last := Field(Scalars("\n"), DecisionText(r), Scalars("\n"));
    assert t + [] == t;
    assert b.Holds(t + last);
    text := b.String();
    assert order[..k] + order[k..] == order;
    CandidatesTextSplit(r, order[..k], order[k..]);
    assert k == |order| ==> order[..k] == order;
    StoppedEarly(HeaderText(r), part, CandidatesText(r, order), last, b.max);
  }

  lemma StoppedEarly(head: seq<Scalar>, part: seq<Scalar>, all: seq<Scalar>, last: seq<Scalar>, max: nat)
    requires part <= all && (part == all || |EncodeAll(head + part)| > max)
    ensures Bounded(EncodeAll(head + part + last), max) == Bounded(EncodeAll(head + all + last), max)
  {
    hide EncodeAll, Bounded;
    if part != all {
      Regrouped(head, part, all, last);
      BeyondBudget(head + part, last, max);
      BeyondBudget(head + part, all[|part|..] + last, max);
    }
  }

  lemma NoText()
    ensures EncodeAll([]) == []
  {
  }

  lemma Regrouped(a: seq<Scalar>, b: seq<Scalar>, c: seq<Scalar>, last: seq<Scalar>)
    requires b <= c
    ensures a + c + last == (a + b) + (c[|b|..] + last)
  {
    assert c == b + c[|b|..];
  }
}
