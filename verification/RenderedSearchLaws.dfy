/** A search rendered by the skill is matched back to the paths and the body it was made of. */
module RenderedSearchLaws {
  import opened Wrappers
  import opened Text
  import opened Ownership
  import opened Spellings
  import opened OwnershipLaws
  import opened RenderedForm
  import opened RenderedSearch

  // ── accepting is being the form ──

  /** Whatever is accepted is the form to the byte, its holes filled as shortly as they can be. */
  lemma AcceptedIsForm(command: string, form: string)
    ensures FormText(SplitForm(form)) == form && Alternating(SplitForm(form), MARKERS)
    ensures MatchRendered(command, form).Some? ==>
              exists values :: |values| == Holes(SplitForm(form)) && Fill(SplitForm(form), values) == command &&
                               Shortest(SplitForm(form), values)
  {
    MarkersAreProper();
    SplitRejoins(form, MARKERS);
    var parts := SplitForm(form);
    var r := MatchParts(command, parts);
    if r.Some? {
      MatchIff(command, parts, r.value);
    }
  }

  // ── the two shapes a form has ──

  function Opening(a: string, m: string, rest: seq<Part>): seq<Part> {
    [Run(a), Hole(m)] + rest
  }

  lemma OpeningText(a: string, m: string, rest: seq<Part>)
    ensures FormText(Opening(a, m, rest)) == a + (m + FormText(rest))
    ensures Holes(Opening(a, m, rest)) == 1 + Holes(rest)
  {
    TwoParts(Run(a), Hole(m), rest);
    assert Opening(a, m, rest)[1..] == [Hole(m)] + rest && ([Hole(m)] + rest)[1..] == rest;
  }

  lemma OpeningFill(a: string, m: string, rest: seq<Part>, v: string, values: seq<string>, got: Values)
    requires |values| == Holes(rest)
    ensures Holes(Opening(a, m, rest)) == |[v] + values|
    ensures Fill(Opening(a, m, rest), [v] + values) == a + (v + Fill(rest, values))
    ensures Collect(Opening(a, m, rest), [v] + values, got) == Collect(rest, values, Store(got, m, v))
  {
    OpeningText(a, m, rest);
    var parts := Opening(a, m, rest);
    assert parts[1..] == [Hole(m)] + rest && parts[1..][1..] == rest && ([v] + values)[1..] == values;
  }

  lemma OpeningShortest(a: string, m: string, rest: seq<Part>, v: string, values: seq<string>)
    requires |values| == Holes(rest) && rest != [] && rest[0].Run?
    requires Index(v + Fill(rest, values), rest[0].text) == Some(|v|) && Shortest(rest, values)
    ensures Holes(Opening(a, m, rest)) == |[v] + values| && Shortest(Opening(a, m, rest), [v] + values)
  {
    OpeningText(a, m, rest);
    var parts := Opening(a, m, rest);
    assert parts[1..] == [Hole(m)] + rest && parts[1..][1..] == rest && ([v] + values)[1..] == values;
    assert parts[1..][1] == rest[0];
  }

  lemma LastRun(a: string, got: Values)
    ensures Holes([Run(a)]) == 0 && FormText([Run(a)]) == a && Fill([Run(a)], []) == a
    ensures Shortest([Run(a)], []) && Collect([Run(a)], [], got) == got
  {
    assert [Run(a)][1..] == [] && a + "" == a;
  }

  lemma OpeningAlternates(a: string, m: string, rest: seq<Part>)
    requires NUL !in a && m in MARKERS && Alternating(rest, MARKERS) && Clean(rest)
    ensures Alternating(Opening(a, m, rest), MARKERS) && Clean(Opening(a, m, rest))
  {
    MarkersAre();
    NoMarker(a, MARKERS);
    assert Opening(a, m, rest)[2..] == rest;
    forall k | 0 <= k < |Opening(a, m, rest)| && Opening(a, m, rest)[k].Run?
      ensures NUL !in Opening(a, m, rest)[k].text
    {
      assert k >= 2 ==> Opening(a, m, rest)[k] == rest[k - 2];
    }
  }

  lemma LastAlternates(a: string)
    requires NUL !in a && a != ""
    ensures Alternating([Run(a)], MARKERS) && Clean([Run(a)])
  {
    MarkersAre();
    NoMarker(a, MARKERS);
  }

  lemma MarkersAre()
    ensures "" !in MARKERS && forall x :: x in MARKERS ==> IsMarker(x)
  {
    assert IsMarker(BINARY) && IsMarker(CONFIG) && IsMarker(BODY);
  }

  // ── the command inside the block ──

  /** The binary and the config as the shell's quoting writes them inside its quotes. */
  function Escaped(sh: Shell, s: string): string {
    ReplaceAll(s, "'", if sh.PowerShell? then POWERSHELL_ESCAPE else POSIX_ESCAPE)
  }

  const SEARCH := "' search"
  const WITH_CONFIG := "' search -config '"
  const STDIN := " --stdin"

  function CommandText(lead: string, bin: string, withConfig: bool, cfg: string): string {
    if withConfig then lead + "'" + (bin + (WITH_CONFIG + (cfg + ("'" + STDIN))))
    else lead + "'" + (bin + (SEARCH + STDIN))
  }

  function LeadOf(sh: Shell): string {
    if sh.PowerShell? then "& " else ""
  }

  lemma StdinArguments(env: Env, sp: Spelling, cfg: string)
    ensures Join(Arguments(env, sp, cfg, ["search"], ["--stdin"]), " ") ==
            if cfg == "" then "search" + (" " + "--stdin")
            else "search" + (" " + ("-config" + (" " + (Spell(env, sp, cfg) + (" " + "--stdin")))))
  {
    if cfg == "" {
      assert Arguments(env, sp, cfg, ["search"], ["--stdin"]) == ["search"] + ["--stdin"];
      JoinSplits("search", ["--stdin"]);
    } else {
      var c := Spell(env, sp, cfg);
      assert Arguments(env, sp, cfg, ["search"], ["--stdin"]) == ["search"] + (["-config"] + ([c] + ["--stdin"]));
      JoinSplits("search", ["-config"] + ([c] + ["--stdin"]));
      JoinSplits("-config", [c] + ["--stdin"]);
      JoinSplits(c, ["--stdin"]);
    }
  }

  lemma TextWithConfig(lead: string, bin: string, cfg: string)
    ensures lead + ("'" + bin + "'") + " " +
            ("search" + (" " + ("-config" + (" " + (("'" + cfg + "'") + (" " + "--stdin")))))) ==
            CommandText(lead, bin, true, cfg)
  {
    var tail := cfg + ("'" + STDIN);
    assert ("'" + cfg + "'") + (" " + "--stdin") == "'" + tail;
    assert "'" + " " + ("search" + (" " + ("-config" + (" " + ("'" + tail))))) == WITH_CONFIG + tail;
    assert lead + ("'" + bin + "'") + " " + ("search" + (" " + ("-config" + (" " + ("'" + tail))))) ==
           lead + "'" + (bin + ("'" + " " + ("search" + (" " + ("-config" + (" " + ("'" + tail)))))));
  }

  lemma TextWithout(lead: string, bin: string)
    ensures lead + ("'" + bin + "'") + " " + ("search" + (" " + "--stdin")) == CommandText(lead, bin, false, "")
  {
    assert "'" + " " + ("search" + (" " + "--stdin")) == SEARCH + STDIN;
    assert lead + ("'" + bin + "'") + " " + ("search" + (" " + "--stdin")) ==
           lead + "'" + (bin + ("'" + " " + ("search" + (" " + "--stdin"))));
  }

  lemma StdinIs(env: Env, sh: Shell, e: Entry)
    requires sh.Posix? || sh.PowerShell?
    ensures StdinCommand(e, sh) == Some(CommandText(LeadOf(sh), Escaped(sh, e.command), e.cfg != "",
              Escaped(sh, e.cfg)))
  {
    var sp := SpellingFor(sh);
    CommandForShellIs(env, e, sh, ["search"], ["--stdin"]);
    StdinArguments(env, sp, e.cfg);
    if e.cfg == "" {
      TextWithout(LeadOf(sh), Escaped(sh, e.command));
    } else {
      TextWithConfig(LeadOf(sh), Escaped(sh, e.command), Escaped(sh, e.cfg));
    }
  }

  // ── the forms, part by part ──

  function FormParts(sh: Shell, withConfig: bool): seq<Part> {
    if sh.PowerShell? then
      Opening(ENCODING + HERE_OPEN, BODY,
              Opening(HERE_CLOSE + "& '", BINARY,
                      if withConfig then Opening(WITH_CONFIG, CONFIG, [Run("'" + STDIN)]) else [Run(SEARCH + STDIN)]))
    else
      Opening("'", BINARY,
              if withConfig
              then Opening(WITH_CONFIG, CONFIG, Opening("'" + STDIN + HEREDOC, BODY, [Run(HEREDOC_END)]))
              else Opening(SEARCH + STDIN + HEREDOC, BODY, [Run(HEREDOC_END)]))
  }

  function FormValues(sh: Shell, withConfig: bool, bin: string, cfg: string, body: string): seq<string> {
    if sh.PowerShell? then [body] + ([bin] + (if withConfig then [cfg] + [] else []))
    else [bin] + (if withConfig then [cfg] + ([body] + []) else [body] + [])
  }

  function BlockText(sh: Shell, withConfig: bool, bin: string, cfg: string, body: string): string {
    var cmd := CommandText(LeadOf(sh), bin, withConfig, cfg);
    if sh.PowerShell? then ENCODING + HERE_OPEN + body + HERE_CLOSE + cmd else cmd + HEREDOC + body + HEREDOC_END
  }

  lemma PosixText(withConfig: bool, bin: string, cfg: string, body: string)
    ensures BlockText(Posix, withConfig, bin, cfg, body) ==
            "'" + (bin + (if withConfig then WITH_CONFIG + (cfg + ("'" + STDIN + HEREDOC + (body + HEREDOC_END)))
                          else SEARCH + STDIN + HEREDOC + (body + HEREDOC_END)))
  {
  }

  lemma PowerShellText(withConfig: bool, bin: string, cfg: string, body: string)
    ensures BlockText(PowerShell, withConfig, bin, cfg, body) ==
            ENCODING + HERE_OPEN + (body + (HERE_CLOSE + "& '" + (bin + (
              if withConfig then WITH_CONFIG + (cfg + ("'" + STDIN)) else SEARCH + STDIN))))
  {
  }

  /** The form filled is the block, and its holes are collected in their places. */
  lemma FormFills(sh: Shell, withConfig: bool, bin: string, cfg: string, body: string)
    requires (sh.Posix? || sh.PowerShell?) && (!withConfig ==> cfg == "")
    ensures var parts, values := FormParts(sh, withConfig), FormValues(sh, withConfig, bin, cfg, body);
            && |values| == Holes(parts) && Fill(parts, values) == BlockText(sh, withConfig, bin, cfg, body)
            && Collect(parts, values, NOTHING) == Values(bin, cfg, body)
  {
    hide Fill, Collect, Holes, BlockText;
    MarkersDistinct();
    if sh.PowerShell? {
      PowerShellText(withConfig, bin, cfg, body);
      var got := Store(Store(NOTHING, BODY, body), BINARY, bin);
      if withConfig {
        LastRun("'" + STDIN, Store(got, CONFIG, cfg));
        OpeningFill(WITH_CONFIG, CONFIG, [Run("'" + STDIN)], cfg, [], got);
        OpeningFill(HERE_CLOSE + "& '", BINARY, Opening(WITH_CONFIG, CONFIG, [Run("'" + STDIN)]), bin, [cfg] + [],
                    Store(NOTHING, BODY, body));
        OpeningFill(ENCODING + HERE_OPEN, BODY,
                    Opening(HERE_CLOSE + "& '", BINARY, Opening(WITH_CONFIG, CONFIG, [Run("'" + STDIN)])),
                    body, [bin] + ([cfg] + []), NOTHING);
      } else {
        LastRun(SEARCH + STDIN, got);
        OpeningFill(HERE_CLOSE + "& '", BINARY, [Run(SEARCH + STDIN)], bin, [], Store(NOTHING, BODY, body));
        OpeningFill(ENCODING + HERE_OPEN, BODY, Opening(HERE_CLOSE + "& '", BINARY, [Run(SEARCH + STDIN)]),
                    body, [bin] + [], NOTHING);
      }
    } else {
      PosixText(withConfig, bin, cfg, body);
      var got := Store(NOTHING, BINARY, bin);
      if withConfig {
        LastRun(HEREDOC_END, Store(Store(got, CONFIG, cfg), BODY, body));
        OpeningFill("'" + STDIN + HEREDOC, BODY, [Run(HEREDOC_END)], body, [], Store(got, CONFIG, cfg));
        OpeningFill(WITH_CONFIG, CONFIG, Opening("'" + STDIN + HEREDOC, BODY, [Run(HEREDOC_END)]), cfg, [body] + [],
            got);
        OpeningFill("'", BINARY, Opening(WITH_CONFIG, CONFIG, Opening("'" + STDIN + HEREDOC, BODY, [Run(HEREDOC_END)])),
                    bin, [cfg] + ([body] + []), NOTHING);
      } else {
        LastRun(HEREDOC_END, Store(got, BODY, body));
        OpeningFill(SEARCH + STDIN + HEREDOC, BODY, [Run(HEREDOC_END)], body, [], got);
        OpeningFill("'", BINARY, Opening(SEARCH + STDIN + HEREDOC, BODY, [Run(HEREDOC_END)]), bin, [body] + [],
            NOTHING);
      }
    }
  }

  lemma MarkersDistinct()
    ensures BINARY != CONFIG && BINARY != BODY && CONFIG != BODY
  {
    assert BINARY[1] != CONFIG[1] && BINARY[1] != BODY[1] && CONFIG[1] != BODY[1];
  }

  lemma {:induction false} FillWithMarkers(parts: seq<Part>)
    ensures |Markers(parts)| == Holes(parts) && Fill(parts, Markers(parts)) == FormText(parts)
  {
    if parts != [] {
      FillWithMarkers(parts[1..]);
      if parts[0].Hole? {
        assert Markers(parts)[1..] == Markers(parts[1..]);
      }
    }
  }

  function Markers(parts: seq<Part>): seq<string> {
    if parts == [] then []
    else if parts[0].Hole? then [parts[0].marker] + Markers(parts[1..])
    else Markers(parts[1..])
  }

  lemma OpeningMarkers(a: string, m: string, rest: seq<Part>)
    ensures Markers(Opening(a, m, rest)) == [m] + Markers(rest)
  {
    var parts := Opening(a, m, rest);
    assert parts[1..] == [Hole(m)] + rest && parts[1..][1..] == rest;
  }

  lemma LastMarkers(a: string)
    ensures Markers([Run(a)]) == []
  {
    assert [Run(a)][1..] == [];
  }

  lemma MarkersOfForm(sh: Shell, withConfig: bool)
    requires sh.Posix? || sh.PowerShell?
    ensures Markers(FormParts(sh, withConfig)) ==
            FormValues(sh, withConfig, BINARY, if withConfig then CONFIG else "", BODY)
  {
    hide Markers;
    if sh.PowerShell? {
      LastMarkers("'" + STDIN);
      LastMarkers(SEARCH + STDIN);
      OpeningMarkers(WITH_CONFIG, CONFIG, [Run("'" + STDIN)]);
      OpeningMarkers(HERE_CLOSE + "& '", BINARY,
                     if withConfig then Opening(WITH_CONFIG, CONFIG, [Run("'" + STDIN)]) else [Run(SEARCH + STDIN)]);
      OpeningMarkers(ENCODING + HERE_OPEN, BODY,
                     Opening(HERE_CLOSE + "& '", BINARY,
                             if withConfig then Opening(WITH_CONFIG, CONFIG,
                                 [Run("'" + STDIN)]) else [Run(SEARCH + STDIN)]));
    } else {
      var last := [Run(HEREDOC_END)];
      LastMarkers(HEREDOC_END);
      OpeningMarkers("'" + STDIN + HEREDOC, BODY, last);
      OpeningMarkers(SEARCH + STDIN + HEREDOC, BODY, last);
      OpeningMarkers(WITH_CONFIG, CONFIG, Opening("'" + STDIN + HEREDOC, BODY, last));
      OpeningMarkers("'", BINARY,
                     if withConfig then Opening(WITH_CONFIG, CONFIG, Opening("'" + STDIN + HEREDOC, BODY, last))
                     else Opening(SEARCH + STDIN + HEREDOC, BODY, last));
    }
  }

  lemma RunsAreClean()
    ensures NUL !in "'" + STDIN && NUL !in SEARCH + STDIN && NUL !in WITH_CONFIG && NUL !in HERE_CLOSE + "& '"
    ensures NUL !in ENCODING + HERE_OPEN && NUL !in HEREDOC_END && NUL !in "'" + STDIN + HEREDOC
    ensures NUL !in SEARCH + STDIN + HEREDOC
  {
    assert NUL !in ENCODING_NAME;
    assert NUL !in ENCODING && NUL !in HERE_OPEN;
    assert NUL !in STDIN && NUL !in SEARCH && NUL !in HEREDOC;
  }

  lemma FormAlternates(sh: Shell, withConfig: bool)
    requires sh.Posix? || sh.PowerShell?
    ensures Alternating(FormParts(sh, withConfig), MARKERS) && Clean(FormParts(sh, withConfig))
  {
    hide Alternating, Clean;
    RunsAreClean();
    if sh.PowerShell? {
      LastAlternates("'" + STDIN);
      LastAlternates(SEARCH + STDIN);
      OpeningAlternates(WITH_CONFIG, CONFIG, [Run("'" + STDIN)]);
      OpeningAlternates(HERE_CLOSE + "& '", BINARY,
                        if withConfig then Opening(WITH_CONFIG, CONFIG, [Run("'" + STDIN)]) else [Run(SEARCH + STDIN)]);
      OpeningAlternates(ENCODING + HERE_OPEN, BODY,
                        Opening(HERE_CLOSE + "& '", BINARY,
                                if withConfig then Opening(WITH_CONFIG, CONFIG,
                                    [Run("'" + STDIN)]) else [Run(SEARCH + STDIN)]));
    } else {
      var last := [Run(HEREDOC_END)];
      LastAlternates(HEREDOC_END);
      OpeningAlternates("'" + STDIN + HEREDOC, BODY, last);
      OpeningAlternates(SEARCH + STDIN + HEREDOC, BODY, last);
      OpeningAlternates(WITH_CONFIG, CONFIG, Opening("'" + STDIN + HEREDOC, BODY, last));
      OpeningAlternates("'", BINARY,
                        if withConfig then Opening(WITH_CONFIG, CONFIG, Opening("'" + STDIN + HEREDOC, BODY, last))
                        else Opening(SEARCH + STDIN + HEREDOC, BODY, last));
    }
  }

  // ── what the skill renders is what the hook reads ──

  lemma SearchIs(env: Env, sh: Shell, e: Entry, body: string)
    requires sh.Posix? || sh.PowerShell?
    ensures SearchBlock(sh, e, body) ==
            Some(BlockText(sh, e.cfg != "", Escaped(sh, e.command), Escaped(sh, e.cfg), body))
  {
    hide StdinCommand;
    StdinIs(env, sh, e);
  }

  lemma MarkersHaveNoQuote()
    ensures SINGLE !in BINARY && SINGLE !in CONFIG
  {
  }

  lemma FormIs(env: Env, sh: Shell, withConfig: bool)
    requires sh.Posix? || sh.PowerShell?
    ensures FormFor(sh, withConfig) == Some(BlockText(sh, withConfig, BINARY, if withConfig then CONFIG else "", BODY))
  {
    hide SearchBlock, BlockText;
    MarkersHaveNoQuote();
    SearchIs(env, sh, Entry(BINARY, if withConfig then CONFIG else ""), BODY);
    ReplaceNothing(BINARY, "'", if sh.PowerShell? then POWERSHELL_ESCAPE else POSIX_ESCAPE);
    ReplaceNothing(if withConfig then CONFIG else "", "'", if sh.PowerShell? then POWERSHELL_ESCAPE else POSIX_ESCAPE);
  }

  /** The form a shell's search has splits into these parts. */
  lemma FormSplits(env: Env, sh: Shell, withConfig: bool)
    requires sh.Posix? || sh.PowerShell?
    ensures FormFor(sh, withConfig).Some? && SplitForm(FormFor(sh, withConfig).value) == FormParts(sh, withConfig)
  {
    hide FormFor, FormParts, BlockText, Markers, Fill, FormText, SplitBy, Alternating, Clean, FormValues;
    var parts := FormParts(sh, withConfig);
    FormIs(env, sh, withConfig);
    MarkersOfForm(sh, withConfig);
    FillWithMarkers(parts);
    FormFills(sh, withConfig, BINARY, if withConfig then CONFIG else "", BODY);
    FormAlternates(sh, withConfig);
    MarkersAre();
    SplitOfParts(parts, MARKERS);
  }

  lemma PosixHasNoCall(withConfig: bool)
    ensures var form := BlockText(Posix, withConfig, BINARY, if withConfig then CONFIG else "", BODY); '&' !in form
  {
    var c := if withConfig then CONFIG else "";
    assert '&' !in BINARY && '&' !in c && '&' !in BODY;
    assert '&' !in SEARCH && '&' !in WITH_CONFIG && '&' !in STDIN && '&' !in HEREDOC && '&' !in HEREDOC_END;
    PosixText(withConfig, BINARY, c, BODY);
  }

  lemma PowerShellHasCall(withConfig: bool, bin: string, cfg: string, body: string)
    ensures Occurs(BlockText(PowerShell, withConfig, bin, cfg, body), "& '")
  {
    var cmd := CommandText("& ", bin, withConfig, cfg);
    var tail := if withConfig then bin + (WITH_CONFIG + (cfg + ("'" + STDIN))) else bin + (SEARCH + STDIN);
    assert cmd == "& '" + tail;
    assert OccursAt("& '", "& '", 0);
    OccursInFront("& '", tail, "& '");
    OccursBehind(ENCODING + HERE_OPEN + body + HERE_CLOSE, cmd, "& '");
  }

  lemma QuotingUndone(env: Env, sh: Shell, withConfig: bool, path: string)
    requires sh.Posix? || sh.PowerShell?
    ensures FormFor(sh, withConfig).Some? && UnquoteRendered(Escaped(sh, path), FormFor(sh, withConfig).value) == path
  {
    hide FormFor, BlockText;
    FormIs(env, sh, withConfig);
    var form := FormFor(sh, withConfig).value;
    if sh.PowerShell? {
      PowerShellHasCall(withConfig, BINARY, if withConfig then CONFIG else "", BODY);
      UnescapeEscape(path, SINGLE, POWERSHELL_ESCAPE);
    } else {
      PosixHasNoCall(withConfig);
      OccursHas(form, "& " + CONFIG, 0);
      OccursHas(form, "& " + BINARY, 0);
      OccursHas(form, "& '", 0);
      UnescapeEscape(path, SINGLE, POSIX_ESCAPE);
    }
  }

  lemma EscapedIsEmpty(sh: Shell, s: string)
    ensures Escaped(sh, s) == "" <==> s == ""
  {
  }

  /** Every search block the skill renders is accepted, and gives back the binary, the config and
      the body it was rendered from, unless a run of the form occurs early in one of them. */
  lemma SearchMatched(env: Env, sh: Shell, e: Entry, body: string)
    requires (sh.Posix? || sh.PowerShell?) && e.command != ""
    requires var values := FormValues(sh, e.cfg != "", Escaped(sh, e.command), Escaped(sh, e.cfg), body);
             |values| == Holes(FormParts(sh, e.cfg != "")) ==> Shortest(FormParts(sh, e.cfg != ""), values)
    ensures var form, command := FormFor(sh, e.cfg != ""), SearchBlock(sh, e, body);
            && form.Some? && command.Some?
            && MatchRendered(command.value, form.value) == Some(Values(e.command, Escaped(sh, e.cfg), body))
            && UnquoteRendered(Escaped(sh, e.cfg), form.value) == e.cfg
  {
    hide FormFor, FormParts, FormValues, BlockText, SearchBlock, Fill, Collect, Holes, Shortest, UnquoteRendered,
         SplitForm, Escaped;
    var withConfig, bin, cfg := e.cfg != "", Escaped(sh, e.command), Escaped(sh, e.cfg);
    var parts, values := FormParts(sh, withConfig), FormValues(sh, withConfig, bin, cfg, body);
    EscapedIsEmpty(sh, e.command);
    EscapedIsEmpty(sh, e.cfg);
    SearchIs(env, sh, e, body);
    FormSplits(env, sh, withConfig);
    FormFills(sh, withConfig, bin, cfg, body);
    MatchIff(SearchBlock(sh, e, body).value, parts, values);
    QuotingUndone(env, sh, withConfig, e.command);
    QuotingUndone(env, sh, withConfig, e.cfg);
  }

  // ── the same, in terms a caller can check ──

  lemma EndsWhereItShould(v: string, text: string, rest: string)
    requires Index(v + text, text) == Some(|v|)
    ensures Index(v + (text + rest), text) == Some(|v|)
  {
    hide Index;
    var s, t := v + (text + rest), v + text;
    assert s[|v|..|v| + |text|] == text;
    assert OccursAt(s, text, |v|);
    forall k | OccursAt(s, text, k) && k < |v|
      ensures OccursAt(t, text, k)
    {
      assert t[k..k + |text|] == s[k..k + |text|];
    }
  }

  lemma QuoteEndsIt(v: string, text: string)
    requires SINGLE !in v && text != "" && text[0] == SINGLE
    ensures Index(v + text, text) == Some(|v|)
  {
    var s := v + text;
    assert s[|v|..|v| + |text|] == text;
    assert OccursAt(s, text, |v|);
    forall k | OccursAt(s, text, k)
      ensures k >= |v|
    {
      CharAt(s, text, k, 0);
      assert forall j :: 0 <= j < |v| ==> s[j] == v[j] && v[j] in v;
    }
  }

  /** What ends the body in this shell: the line that closes it. */
  function BodyEnd(sh: Shell): string {
    if sh.PowerShell? then HERE_CLOSE + "& '" else HEREDOC_END
  }

  lemma LastIs(a: string)
    ensures Fill([Run(a)], []) == a && Holes([Run(a)]) == 0 && Shortest([Run(a)], [])
  {
    LastRun(a, NOTHING);
  }

  lemma PosixShortest(withConfig: bool, bin: string, cfg: string, body: string)
    requires SINGLE !in bin && SINGLE !in cfg && Index(body + HEREDOC_END, HEREDOC_END) == Some(|body|)
    ensures var parts, values := FormParts(Posix, withConfig), FormValues(Posix, withConfig, bin, cfg, body);
            |values| == Holes(parts) && Shortest(parts, values)
  {
    hide Fill, Shortest, Holes, Index;
    var last := [Run(HEREDOC_END)];
    LastIs(HEREDOC_END);
    if withConfig {
      var open := "'" + STDIN + HEREDOC;
      OpeningShortest(open, BODY, last, body, []);
      OpeningFill(open, BODY, last, body, [], NOTHING);
      QuoteEndsIt(cfg, open);
      EndsWhereItShould(cfg, open, body + HEREDOC_END);
      OpeningShortest(WITH_CONFIG, CONFIG, Opening(open, BODY, last), cfg, [body] + []);
      OpeningFill(WITH_CONFIG, CONFIG, Opening(open, BODY, last), cfg, [body] + [], NOTHING);
      QuoteEndsIt(bin, WITH_CONFIG);
      EndsWhereItShould(bin, WITH_CONFIG, cfg + (open + (body + HEREDOC_END)));
      OpeningShortest("'", BINARY, Opening(WITH_CONFIG, CONFIG, Opening(open, BODY, last)), bin, [cfg] + ([body] + []));
    } else {
      var open := SEARCH + STDIN + HEREDOC;
      OpeningShortest(open, BODY, last, body, []);
      OpeningFill(open, BODY, last, body, [], NOTHING);
      QuoteEndsIt(bin, open);
      EndsWhereItShould(bin, open, body + HEREDOC_END);
      OpeningShortest("'", BINARY, Opening(open, BODY, last), bin, [body] + []);
    }
  }

  lemma PowerShellShortest(withConfig: bool, bin: string, cfg: string, body: string)
    requires SINGLE !in bin && SINGLE !in cfg
    requires Index(body + (HERE_CLOSE + "& '"), HERE_CLOSE + "& '") == Some(|body|)
    ensures var parts, values := FormParts(PowerShell, withConfig), FormValues(PowerShell, withConfig, bin, cfg, body);
            |values| == Holes(parts) && Shortest(parts, values)
  {
    hide Fill, Shortest, Holes, Index;
    var call := HERE_CLOSE + "& '";
    if withConfig {
      var last := [Run("'" + STDIN)];
      LastIs("'" + STDIN);
      QuoteEndsIt(cfg, "'" + STDIN);
      OpeningShortest(WITH_CONFIG, CONFIG, last, cfg, []);
      OpeningFill(WITH_CONFIG, CONFIG, last, cfg, [], NOTHING);
      QuoteEndsIt(bin, WITH_CONFIG);
      EndsWhereItShould(bin, WITH_CONFIG, cfg + ("'" + STDIN));
      OpeningShortest(call, BINARY, Opening(WITH_CONFIG, CONFIG, last), bin, [cfg] + []);
      OpeningFill(call, BINARY, Opening(WITH_CONFIG, CONFIG, last), bin, [cfg] + [], NOTHING);
      EndsWhereItShould(body, call, bin + (WITH_CONFIG + (cfg + ("'" + STDIN))));
      OpeningShortest(ENCODING + HERE_OPEN, BODY, Opening(call, BINARY, Opening(WITH_CONFIG, CONFIG, last)),
                      body, [bin] + ([cfg] + []));
    } else {
      var last := [Run(SEARCH + STDIN)];
      LastIs(SEARCH + STDIN);
      QuoteEndsIt(bin, SEARCH + STDIN);
      OpeningShortest(call, BINARY, last, bin, []);
      OpeningFill(call, BINARY, last, bin, [], NOTHING);
      EndsWhereItShould(body, call, bin + (SEARCH + STDIN));
      OpeningShortest(ENCODING + HERE_OPEN, BODY, Opening(call, BINARY, last), body, [bin] + []);
    }
  }

  /** For paths without a quote and a body that does not close itself, the hook reads back exactly
      what the skill was rendered from. */
  lemma PlainSearchMatched(env: Env, sh: Shell, e: Entry, body: string)
    requires (sh.Posix? || sh.PowerShell?) && e.command != "" && SINGLE !in e.command && SINGLE !in e.cfg
    requires Index(body + BodyEnd(sh), BodyEnd(sh)) == Some(|body|)
    ensures var form, command := FormFor(sh, e.cfg != ""), SearchBlock(sh, e, body);
            && form.Some? && command.Some?
            && MatchRendered(command.value, form.value) == Some(Values(e.command, e.cfg, body))
  {
    hide FormFor, FormParts, FormValues, SearchBlock, Shortest, Holes, MatchRendered, Index, ReplaceAll,
         UnquoteRendered;
    var esc := if sh.PowerShell? then POWERSHELL_ESCAPE else POSIX_ESCAPE;
    ReplaceNothing(e.command, "'", esc);
    ReplaceNothing(e.cfg, "'", esc);
    if sh.PowerShell? {
      PowerShellShortest(e.cfg != "", e.command, e.cfg, body);
    } else {
      PosixShortest(e.cfg != "", e.command, e.cfg, body);
    }
    SearchMatched(env, sh, e, body);
  }

  // ── a body that closes itself is refused ──

  /** One run and one hole matched, the rest is what matters. */
  lemma OpeningMatch(a: string, m: string, rest: seq<Part>, v: string, t: string)
    requires rest != [] && rest[0].Run? && Index(v + t, rest[0].text) == Some(|v|)
    ensures var r := MatchParts(t, rest);
            MatchParts(a + (v + t), Opening(a, m, rest)) == if r.Some? then Some([v] + r.value) else None
  {
    var parts := Opening(a, m, rest);
    assert parts[1..] == [Hole(m)] + rest && parts[1..][1..] == rest && parts[1..][1] == rest[0];
    FrontGoes(a, v + t);
    FrontGoes(v, t);
  }

  lemma TextLeftOver(t: string, end: string)
    requires end <= t && |t| > |end|
    ensures MatchParts(t, [Run(end)]).None?
  {
    assert [Run(end)][1..] == [];
  }

  lemma ClosesAt(body: string, end: string)
    ensures Index(body + end, end).Some? && Index(body + end, end).value <= |body|
  {
    hide Index;
    assert (body + end)[|body|..|body| + |end|] == end;
    assert OccursAt(body + end, end, |body|);
  }

  /** The text up to the first run that follows a hole, and what is left to match. */
  lemma HoleMatch(a: string, m: string, rest: seq<Part>, t: string, j: nat)
    requires rest != [] && rest[0].Run? && Index(t, rest[0].text) == Some(j)
    ensures var r := MatchParts(t[j..], rest);
            MatchParts(a + t, Opening(a, m, rest)) == if r.Some? then Some([t[..j]] + r.value) else None
  {
    hide MatchParts, Index;
    assert t == t[..j] + t[j..];
    OpeningMatch(a, m, rest, t[..j], t[j..]);
  }

  lemma LateClosed(a: string, m: string, end: string, t: string, k: nat)
    requires OccursAt(t, end, k) && k + |end| < |t|
    ensures MatchParts(a + t, Opening(a, m, [Run(end)])).None?
  {
    hide MatchParts, Index;
    var j := Index(t, end).value;
    HoleMatch(a, m, [Run(end)], t, j);
    assert t[j..][..|end|] == t[j..j + |end|];
    TextLeftOver(t[j..], end);
  }

  lemma StillOccurs(a: string, x: string, p: string, k: nat)
    requires OccursAt(x, p, k)
    ensures OccursAt(a + x, p, |a| + k)
  {
    assert (a + x)[|a| + k..|a| + k + |p|] == x[k..k + |p|];
  }

  /** However early the run before the body is found, the body's own closing line leaves text over. */
  lemma SuffixRefused(a: string, m: string, open: string, end: string, front: string, body: string, k: nat)
    requires Index(body + end, end) == Some(k) && k < |body|
    ensures MatchParts(a + (front + (open + (body + end))), Opening(a, m, Opening(open, BODY, [Run(end)]))).None?
  {
    hide MatchParts, Index, OccursAt;
    var x := body + end;
    var t := front + (open + x);
    OpenOccurs(front, open, x);
    var j := Index(t, open).value;
    HoleMatch(a, m, Opening(open, BODY, [Run(end)]), t, j);
    OpenTail(front, open, x, j);
    var r := (front + open)[j + |open|..] + x;
    StillOccurs((front + open)[j + |open|..], x, end, k);
    LateClosed(open, BODY, end, r, |front| - j + k);
  }

  lemma OpenOccurs(front: string, open: string, x: string)
    ensures Index(front + (open + x), open).Some? && Index(front + (open + x), open).value <= |front|
  {
    hide Index;
    var t := front + (open + x);
    assert t[|front|..|front| + |open|] == open;
    assert OccursAt(t, open, |front|);
  }

  lemma OpenTail(front: string, open: string, x: string, j: nat)
    requires j <= |front| && OccursAt(front + (open + x), open, j)
    ensures (front + (open + x))[j..] == open + ((front + open)[j + |open|..] + x)
    ensures |(front + open)[j + |open|..]| == |front| - j
  {
    assert front + (open + x) == (front + open) + x;
    BehindAt(front + open, x, j, open);
  }

  lemma PosixRefused(withConfig: bool, bin: string, cfg: string, body: string, k: nat)
    requires Index(body + HEREDOC_END, HEREDOC_END) == Some(k) && k < |body|
    ensures MatchParts(BlockText(Posix, withConfig, bin, cfg, body), FormParts(Posix, withConfig)).None?
  {
    hide MatchParts, Index, BlockText;
    PosixText(withConfig, bin, cfg, body);
    if withConfig {
      var open := "'" + STDIN + HEREDOC;
      PosixConfigRefused(open, bin, cfg, body, k);
    } else {
      SuffixRefused("'", BINARY, SEARCH + STDIN + HEREDOC, HEREDOC_END, bin, body, k);
    }
  }

  /** The config's run is found where it is or earlier, and the rest of the command is still behind it. */
  lemma ConfigAt(bin: string, cfg: string, tail: string)
    ensures var t := bin + (WITH_CONFIG + (cfg + tail));
            var j := Index(t, WITH_CONFIG);
            && j.Some? && j.value + |WITH_CONFIG| <= |bin + WITH_CONFIG + cfg|
            && t[j.value..] == WITH_CONFIG + ((bin + WITH_CONFIG + cfg)[j.value + |WITH_CONFIG|..] + tail)
  {
    hide Index;
    var q := WITH_CONFIG;
    var t := bin + (q + (cfg + tail));
    var front := bin + q + cfg;
    assert t[|bin|..|bin| + |q|] == q;
    assert OccursAt(t, q, |bin|);
    var j := Index(t, q).value;
    Behind(bin, q, cfg, tail);
    BehindAt(front, tail, j, q);
  }

  lemma Behind(a: string, q: string, b: string, tail: string)
    ensures a + (q + (b + tail)) == (a + q + b) + tail
  {
  }

  lemma BehindAt(front: string, tail: string, j: nat, q: string)
    requires j + |q| <= |front| && OccursAt(front + tail, q, j)
    ensures (front + tail)[j..] == q + (front[j + |q|..] + tail)
  {
    assert front[j..j + |q|] == (front + tail)[j..j + |q|];
  }

  lemma PosixConfigRefused(open: string, bin: string, cfg: string, body: string, k: nat)
    requires Index(body + HEREDOC_END, HEREDOC_END) == Some(k) && k < |body|
    ensures MatchParts("'" + (bin + (WITH_CONFIG + (cfg + (open + (body + HEREDOC_END))))),
                       Opening("'", BINARY,
                               Opening(WITH_CONFIG, CONFIG, Opening(open, BODY, [Run(HEREDOC_END)])))).None?
  {
    hide MatchParts, Index;
    var tail := open + (body + HEREDOC_END);
    var t := bin + (WITH_CONFIG + (cfg + tail));
    ConfigAt(bin, cfg, tail);
    var j := Index(t, WITH_CONFIG).value;
    HoleMatch("'", BINARY, Opening(WITH_CONFIG, CONFIG, Opening(open, BODY, [Run(HEREDOC_END)])), t, j);
    SuffixRefused(WITH_CONFIG, CONFIG, open, HEREDOC_END, (bin + WITH_CONFIG + cfg)[j + |WITH_CONFIG|..], body, k);
  }

  /** A heredoc whose body holds its own closing line is refused, never silently cut short. */
  lemma SelfClosingRefused(env: Env, e: Entry, body: string)
    requires Index(body + HEREDOC_END, HEREDOC_END) != Some(|body|)
    ensures var form, command := FormFor(Posix, e.cfg != ""), SearchBlock(Posix, e, body);
            form.Some? && command.Some? && MatchRendered(command.value, form.value).None?
  {
    hide MatchParts, FormFor, FormParts, SearchBlock, BlockText, Index, ReplaceAll, SplitForm, MatchRendered, Occurs,
         OccursAt;
    SearchIs(env, Posix, e, body);
    FormSplits(env, Posix, e.cfg != "");
    ClosesAt(body, HEREDOC_END);
    PosixRefused(e.cfg != "", Escaped(Posix, e.command), Escaped(Posix, e.cfg), body,
                 Index(body + HEREDOC_END, HEREDOC_END).value);
    NotMatched(SearchBlock(Posix, e, body).value, FormFor(Posix, e.cfg != "").value);
  }

  lemma NotMatched(command: string, form: string)
    requires MatchParts(command, SplitForm(form)).None?
    ensures MatchRendered(command, form).None?
  {
  }
}
