/** What an agent can rely on in a search's answer, whatever the router sent. */
module ReportLaws {
  import opened Text
  import opened Utf8
  import opened Render
  import opened Terminal
  import opened Decimal
  import opened Dollars
  import opened Report

  /** Lines of inert text. */
  predicate Lines(t: seq<Scalar>) {
    forall k :: 0 <= k < |t| ==> t[k] == 0x0A || t[k] == REPLACEMENT || !UnsafeForTerminal(t[k])
  }

  lemma LinesJoin()
    ensures forall a: seq<Scalar>, b: seq<Scalar> {:trigger Lines(a + b)} :: Lines(a) && Lines(b) ==> Lines(a + b)
  {
    hide UnsafeForTerminal;
  }

  predicate Plain(s: string) {
    forall k :: 0 <= k < |s| ==> s[k] == '\n' || ' ' <= s[k] <= '~'
  }

  lemma PlainIsLines(s: string)
    requires Plain(s)
    ensures Lines(Scalars(s))
  {
  }

  lemma OneLineIsLines(bs: Bytes, max: nat)
    ensures Lines(OneLine(bs, max))
  {
    hide UnsafeForTerminal, OneLine;
    OneLineIsSafe(bs, max);
  }

  lemma FieldIsLines(before: seq<Scalar>, field: seq<Scalar>, after: seq<Scalar>)
    requires Lines(before) && Lines(field) && Lines(after)
    ensures Lines(Field(before, field, after))
  {
    hide Lines;
    LinesJoin();
  }

  lemma Marks()
    ensures Lines([]) && Lines([DASH]) && Lines([ELLIPSIS])
    ensures Lines(Scalars("\n")) && Lines(Scalars(" ")) && Lines(Scalars("  ")) && Lines(Scalars("     "))
    ensures Lines(Scalars(")")) && Lines(Scalars("(")) && Lines(Scalars("]")) && Lines(Scalars("*")) &&
            Lines(Scalars(". "))
  {
  }

  lemma {:induction false} NumberIsLines(n: nat)
    ensures Lines(Scalars(Digits(n)))
  {
    hide Digits;
    PlainIsLines(Digits(n));
  }

  lemma LinkIsLines(link: Link)
    ensures Lines(LinkText(link))
  {
    hide Lines, OneLine, Scalars;
    LinesJoin();
    Marks();
    if link.Malformed? {
      PlainIsLines("(link omitted: malformed URL)");
    } else if link.Web? {
      OneLineIsLines(link.url, URL_CAP);
    } else {
      PlainIsLines("(link omitted: unsupported scheme ");
      OneLineIsLines(link.scheme, SCHEME_CAP);
    }
  }

  lemma CitationIsLines(n: nat, c: Citation)
    ensures Lines(CitationText(n, c))
  {
    hide Lines, OneLine, Scalars, LinkText, Field, Digits;
    LinesJoin();
    Marks();
    NumberIsLines(n + 1);
    LinkIsLines(c.link);
    OneLineIsLines(c.title, TITLE_CAP);
    OneLineIsLines(c.snippet, SNIPPET_CAP);
    FieldIsLines(Scalars(" ") + [DASH] + Scalars(" "), OneLine(c.title, TITLE_CAP), []);
    FieldIsLines(Scalars("     "), OneLine(c.snippet, SNIPPET_CAP), Scalars("\n"));
  }

  lemma {:induction false} CitationsAreLines(cs: seq<Citation>, n: nat)
    requires n <= |cs|
    ensures Lines(CitationsText(cs, n))
    decreases |cs| - n
  {
    hide Lines, CitationText, Scalars, Digits;
    LinesJoin();
    Marks();
    if n < |cs| && n >= CITATION_CAP {
      NumberIsLines(|cs| - CITATION_CAP);
      PlainIsLines(" more)\n");
    } else if n < |cs| {
      CitationIsLines(n, cs[n]);
      CitationsAreLines(cs, n + 1);
    }
  }

  lemma HeadIsLines(c: Candidate, chosen: bool)
    ensures Lines(HeadText(c, chosen))
  {
    hide Lines, OneLine, Scalars;
    LinesJoin();
    Marks();
    PlainIsLines("\n[");
    PlainIsLines(" (chosen)");
    PlainIsLines(" status=");
    OneLineIsLines(c.provider, PROVIDER_CAP);
    OneLineIsLines(c.kind, PROVIDER_CAP);
    OneLineIsLines(c.status, PROVIDER_CAP);
  }

  lemma CandidateIsLines(c: Candidate, chosen: bool)
    ensures Lines(CandidateText(c, chosen))
  {
    hide Lines, OneLine, Scalars, HeadText, CitationsText;
    LinesJoin();
    Marks();
    HeadIsLines(c, chosen);
    PlainIsLines("  error: ");
    PlainIsLines("  answer: ");
    OneLineIsLines(c.error, SNIPPET_CAP);
    OneLineIsLines(c.answer, ANSWER_CAP);
    CitationsAreLines(c.citations, 0);
  }

  lemma {:induction false} CandidatesAreLines(r: Response, order: seq<nat>)
    requires Within(order, |r.candidates|)
    ensures Lines(CandidatesText(r, order))
  {
    hide Lines, CandidateText;
    LinesJoin();
    Marks();
    if order != [] {
      var last := order[|order| - 1];
      CandidatesAreLines(r, order[..|order| - 1]);
      CandidateIsLines(r.candidates[last], last == r.chosen);
    }
  }

  lemma {:induction false} ProvidersAreLines(r: Response, n: nat)
    requires n <= |r.providers|
    ensures Lines(ProvidersText(r, n))
  {
    hide Lines, OneLine, Scalars, ChosenProvider;
    LinesJoin();
    Marks();
    if n > 0 {
      ProvidersAreLines(r, n - 1);
      OneLineIsLines(r.providers[n - 1], PROVIDER_CAP);
    }
  }

  lemma PlainJoin(a: string, b: string)
    requires Plain(a) && Plain(b)
    ensures Plain(a + b)
  {
  }

  lemma PlainFront(s: string)
    requires Plain(s)
    ensures Plain(TrimSuffix(TrimRight(s, {'0'}), "."))
  {
    hide TrimRight;
    TrimRightTakes(s, {'0'});
  }

  lemma PlainSigned(n: int)
    ensures Plain(Signed(n)) && Plain(SignedPadded(n))
  {
    hide Digits, Padded;
  }

  lemma CostIsLines(micros: Int64)
    ensures Lines(Scalars(FormatCostDollars(micros)))
  {
    hide Lines, Scalars, TrimRight, TrimSuffix, Signed, SignedPadded, Quotient, Remainder, Plain;
    var m := if micros < 0 then Negated(micros) else micros;
    var whole, frac := Signed(Quotient(m)), SignedPadded(Remainder(m));
    PlainSigned(Quotient(m));
    PlainSigned(Remainder(m));
    PlainMarks();
    PlainJoin(whole, ".");
    PlainJoin(whole + ".", frac);
    PlainFront(whole + "." + frac);
    var s := TrimSuffix(TrimRight(whole + "." + frac, {'0'}), ".");
    PlainJoin("-", s);
    PlainJoin("$", if micros < 0 then "-" + s else s);
    PlainIsLines(FormatCostDollars(micros));
  }

  lemma PlainMarks()
    ensures Plain(".") && Plain("-") && Plain("$")
  {
  }

  lemma DecisionIsLines(r: Response)
    ensures Lines(DecisionText(r))
  {
    hide Lines, Scalars, ProvidersText, Digits, FormatCostDollars;
    LinesJoin();
    Marks();
    ProvidersAreLines(r, |r.providers|);
    PlainIsLines("providers:");
    PlainIsLines("cost: ");
    PlainIsLines(" arm(s) still running");
    if r.usage.Usage? {
      CostIsLines(r.usage.cost);
      if r.usage.pending > 0 {
        NumberIsLines(r.usage.pending);
      }
    }
  }

  lemma HeaderIsLines(r: Response)
    ensures Lines(HeaderText(r))
  {
    hide Lines, Scalars, OneLine, Digits;
    LinesJoin();
    Marks();
    PlainIsLines("search ");
    PlainIsLines("  session ");
    PlainIsLines(" candidates\n");
    OneLineIsLines(r.request, ID_CAP);
    OneLineIsLines(r.session, ID_CAP);
    NumberIsLines(|r.candidates|);
  }

  lemma ReportIsLines(r: Response)
    ensures Lines(ReportText(r))
  {
    hide Lines, Scalars, HeaderText, CandidatesText, DecisionText, Field;
    LinesJoin();
    Marks();
    HeaderIsLines(r);
    CandidatesAreLines(r, Order(r));
    DecisionIsLines(r);
    FieldIsLines(Scalars("\n"), DecisionText(r), Scalars("\n"));
  }

  lemma NoticeIsLines()
    ensures Lines(NOTICE_TEXT) && |NOTICE| <= TOTAL_CAP
  {
    hide Lines, Scalars;
    LinesJoin();
    Marks();
    PlainIsLines("(output cap reached; use -format json, ");
    PlainIsLines("or search --stdin, for the rest)\n");
    EncodedSize(NOTICE_TEXT);
  }

  lemma {:induction false} EncodedSize(t: seq<Scalar>)
    ensures |EncodeAll(t)| <= 4 * |t|
  {
    if t != [] {
      EncodedSize(t[1..]);
    }
  }

  /** Whatever the router sent: UTF-8 within the cap, with nothing in it that could steer a
      terminal; the whole report, or as much of its beginning as fits and the notice. */
  lemma RenderedIsSafe(r: Response)
    ensures var t := ReportText(r);
            var shown := if |EncodeAll(t)| <= Room(TOTAL_CAP) then t else t[..Fits(t, Room(TOTAL_CAP))] + NOTICE_TEXT;
            && Bounded(EncodeAll(t), Room(TOTAL_CAP)) == EncodeAll(shown)
            && |EncodeAll(shown)| <= TOTAL_CAP
            && Lines(shown)
  {
    hide Lines, ReportText, EncodeAll, Scalars, Fits;
    var t := ReportText(r);
    ReportIsLines(r);
    NoticeIsLines();
    BoundedText(t, Room(TOTAL_CAP));
    WithinBudget(TOTAL_CAP);
    LinesFront(t, Fits(t, Room(TOTAL_CAP)));
    LinesJoin();
  }

  // ── what it says ──

  // What became of a candidate.

  function ErrorLine(error: Bytes): seq<Scalar> {
    Scalars("  error: ") + OneLine(error, SNIPPET_CAP) + Scalars("\n")
  }

  function AnswerLine(answer: Bytes): seq<Scalar> {
    if answer == [] then [] else Scalars("  answer: ") + OneLine(answer, ANSWER_CAP) + Scalars("\n")
  }

  function Answered(c: Candidate): seq<Scalar> {
    AnswerLine(c.answer) + CitationsText(c.citations, 0)
  }

  /** The mark stands behind the provider's name, and is all that being chosen changes. */
  lemma ChosenIsMarked(c: Candidate)
    ensures var name := Scalars("\n[") + OneLine(c.provider, PROVIDER_CAP) + Scalars("]");
            var chosen, other := CandidateText(c, true), CandidateText(c, false);
            && name <= other
            && chosen == name + Scalars(" (chosen)") + other[|name|..]
  {
    hide OneLine, Scalars, CitationsText;
    var name := Scalars("\n[") + OneLine(c.provider, PROVIDER_CAP) + Scalars("]");
    var kind := if c.kind == [] then [] else Scalars(" ") + OneLine(c.kind, PROVIDER_CAP);
    var quiet := c.status == [] || c.status == OK;
    var status := if quiet then [] else Scalars(" status=") + OneLine(c.status, PROVIDER_CAP);
    var rest := if c.error != [] then ErrorLine(c.error) else Answered(c);
    assert CandidateText(c, true) == (name + Scalars(" (chosen)") + kind + status + Scalars("\n")) + rest;
    assert CandidateText(c, false) == (name + [] + kind + status + Scalars("\n")) + rest;
    MarkedParts(name, Scalars(" (chosen)"), kind, status, Scalars("\n"), rest);
  }

  lemma MarkedParts(name: seq<Scalar>, mark: seq<Scalar>, kind: seq<Scalar>, status: seq<Scalar>, nl: seq<Scalar>,
      rest: seq<Scalar>)
    ensures var other := (name + [] + kind + status + nl) + rest;
            name <= other && (name + mark + kind + status + nl) + rest == name + mark + other[|name|..]
  {
  }

  /** A candidate that failed shows its error and nothing else, whatever else it holds; one that
      did not shows its answer and then its citations. */
  lemma ErrorOrAnswer(c: Candidate, chosen: bool)
    ensures var head := CandidateText(c.(error := [], answer := [], citations := []), chosen);
            CandidateText(c, chosen) == head + if c.error != [] then ErrorLine(c.error) else Answered(c)
  {
    hide OneLine, Scalars, HeadText, CitationsText;
    SameHead(c, chosen);
    NoCitations();
    var head := HeadText(c, chosen);
    assert head + ([] + []) == head;
  }

  lemma SameHead(c: Candidate, chosen: bool)
    ensures HeadText(c.(error := [], answer := [], citations := []), chosen) == HeadText(c, chosen)
  {
    hide OneLine, Scalars;
  }

  lemma NoCitations()
    ensures CitationsText([], 0) == []
  {
  }

  /** The chosen candidate is the first one read, and the only one with the mark of being it. */
  lemma ChosenLeads(r: Response)
    requires 0 <= r.chosen < |r.candidates|
    ensures HeaderText(r) + CandidateText(r.candidates[r.chosen], true) <= ReportText(r)
  {
    hide CandidateText, HeaderText, DecisionText, Scalars;
    var first, others := [r.chosen as nat], Others(r.chosen, |r.candidates|);
    OrderIsPermutation(r.chosen, |r.candidates|);
    assert Order(r) == first + others;
    assert forall k :: 0 <= k < |others| ==> Order(r)[1 + k] == others[k];
    CandidatesTextSplit(r, first, others);
    assert first[..0] == [];
    assert CandidatesText(r, first) == CandidateText(r.candidates[r.chosen], true);
    FrontOf(HeaderText(r), CandidatesText(r, first), CandidatesText(r, Order(r)),
            Field(Scalars("\n"), DecisionText(r), Scalars("\n")));
  }

  /** Of the providers, the one that gave the chosen candidate has the star. */
  lemma ProviderStarred(r: Response, n: nat)
    requires 0 <= r.chosen < |r.candidates| && n < |r.providers|
    ensures var p := r.providers[n];
            ProvidersText(r, n + 1) == ProvidersText(r, n) + Scalars(" ") + OneLine(p, PROVIDER_CAP) +
            if p == r.candidates[r.chosen].provider then Scalars("*") else []
  {
    hide OneLine, Scalars;
  }

  lemma FrontOf(a: seq<Scalar>, b: seq<Scalar>, c: seq<Scalar>, d: seq<Scalar>)
    requires b <= c
    ensures a + b <= a + c + d
  {
  }

  lemma LinesFront(t: seq<Scalar>, k: nat)
    requires Lines(t) && k <= |t|
    ensures Lines(t[..k])
  {
    hide UnsafeForTerminal;
  }
}
