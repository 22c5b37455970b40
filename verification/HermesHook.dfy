/** The hook command itself: what is written in the participant's file, when it can be read back
    as this installation's, and so exactly when uninstall undoes install. */
module HermesHook {
  import opened Wrappers
  import opened Text
  import opened Ownership
  import opened Spellings
  import opened OwnershipLaws
  import opened Hermes

  // ── the command is a rendered command ──

  function ArgSpelling(s: string, windows: bool): Spelling {
    if windows then CmdQ else if BareArg(s) then BareQ else PosixQ
  }

  const LOWER := "abcdefghijklmnopqrstuvwxyz"
  const UPPER := "ABCDEFGHIJKLMNOPQRSTUVWXYZ"
  const DIGIT := "0123456789"

  lemma InRun(run: string, c: char)
    requires run != "" && forall k :: 0 <= k < |run| ==> run[k] as int == run[0] as int + k
    ensures c in run <==> run[0] <= c <= run[|run| - 1]
  {
    if run[0] <= c <= run[|run| - 1] {
      assert run[c as int - run[0] as int] == c;
    }
  }

  /** An argument is left bare exactly when it is made of letters, digits and these. */
  lemma BareIff(s: string)
    ensures BareArg(s) <==> s != "" && forall c :: c in s ==> c in LOWER || c in UPPER || c in DIGIT || c in "_-./:=+@%"
  {
    forall c: char
      ensures BareArgChar(c) <==> c in LOWER || c in UPPER || c in DIGIT || c in "_-./:=+@%"
    {
      InRun(LOWER, c);
      InRun(UPPER, c);
      InRun(DIGIT, c);
    }
    hide BareArgChar;
    assert forall k :: 0 <= k < |s| ==> s[k] in s;
  }

  lemma BareIsPlain(s: string)
    requires BareArg(s)
    ensures Plain(s)
  {
    forall c | c in s
      ensures WordChar(c)
    {
    }
  }

  lemma ArgIsSpelled(env: Env, s: string, windows: bool)
    ensures QuoteArg(s, windows) ==
            if windows && DOUBLE in s then None else Some(Spell(env, ArgSpelling(s, windows), s))
  {
  }

  const HOOK: seq<string> := ["hook"]
  const HERMES: seq<string> := ["hermes", "pre_tool_call"]

  lemma ArgumentsText(env: Env, sc: Spelling, cfg: string)
    ensures " " + Join(Arguments(env, sc, cfg, HOOK, HERMES), " ") ==
            " hook" + (if cfg == "" then "" else " -config " + Spell(env, sc, cfg)) + " hermes pre_tool_call"
  {
    HermesJoined();
    if cfg == "" {
      assert Arguments(env, sc, cfg, HOOK, HERMES) == ["hook"] + HERMES;
      JoinSplits("hook", HERMES);
    } else {
      var c := Spell(env, sc, cfg);
      assert Arguments(env, sc, cfg, HOOK, HERMES) == ["hook"] + (["-config"] + ([c] + HERMES));
      ConfigJoined(c);
      Regroup5(c);
    }
  }

  lemma HermesJoined()
    ensures Join(HERMES, " ") == "hermes" + (" " + "pre_tool_call")
  {
    assert HERMES == ["hermes"] + ["pre_tool_call"];
    JoinSplits("hermes", ["pre_tool_call"]);
  }

  lemma ConfigJoined(c: string)
    ensures Join(["hook"] + (["-config"] + ([c] + HERMES)), " ") ==
            "hook" + (" " + ("-config" + (" " + (c + (" " + Join(HERMES, " "))))))
  {
    JoinSplits("hook", ["-config"] + ([c] + HERMES));
    JoinSplits("-config", [c] + HERMES);
    JoinSplits(c, HERMES);
  }

  lemma Regroup5(c: string)
    ensures " " + ("hook" + (" " + ("-config" + (" " + (c + (" " + ("hermes" + (" " + "pre_tool_call")))))))) ==
            " hook" + (" -config " + c) + " hermes pre_tool_call"
  {
  }

  lemma HookIsRendered(env: Env, e: Entry, windows: bool)
    ensures HookCommand(e, windows) ==
            if windows && (DOUBLE in e.command || DOUBLE in e.cfg) then None
            else Some(Rendered(env, ArgSpelling(e.command, windows), e.command, ArgSpelling(e.cfg, windows), e.cfg,
                HOOK, HERMES))
  {
    ArgIsSpelled(env, e.command, windows);
    ArgIsSpelled(env, e.cfg, windows);
    ArgumentsText(env, ArgSpelling(e.cfg, windows), e.cfg);
    var w, c := Spell(env, ArgSpelling(e.command, windows), e.command), Spell(env, ArgSpelling(e.cfg, windows), e.cfg);
    RegroupHook(w, if e.cfg == "" then "" else " -config " + c,
                Join(Arguments(env, ArgSpelling(e.cfg, windows), e.cfg, HOOK, HERMES), " "));
  }

  lemma RegroupHook(w: string, c: string, rest: string)
    requires " " + rest == " hook" + c + " hermes pre_tool_call"
    ensures w + " hook" + c + " hermes pre_tool_call" == "" + w + " " + rest
  {
    assert "" + w + " " + rest == w + (" " + rest);
    assert w + " hook" + c + " hermes pre_tool_call" == w + (" hook" + c + " hermes pre_tool_call");
  }

  // ── and it is recognised, but for one family of Windows paths ──

  /** A double-quoted config that ends in an odd run of backslashes swallows its closing quote. */
  predicate Swallows(e: Entry, windows: bool) {
    windows && e.cfg != "" && TrailingBackslashes(e.cfg) % 2 == 1
  }

  lemma HookIsWritable(e: Entry, windows: bool)
    requires (windows ==> DOUBLE !in e.cfg) && !Swallows(e, windows)
    ensures Writable(ArgSpelling(e.command, windows), ArgSpelling(e.cfg, windows), e.cfg, HOOK, HERMES)
  {
    ClosesParity(e.cfg);
    if !windows && BareArg(e.cfg) {
      BareIsPlain(e.cfg);
    }
    assert Plain("hook") && Plain("hermes") && Plain("pre_tool_call");
  }

  lemma HookIsOurs(env: Env, e: Entry, windows: bool)
    requires HookCommand(e, windows).Some? && !Swallows(e, windows)
    ensures CommandIsOurHook(env, Ref([e.command], e.cfg), HookCommand(e, windows).value)
  {
    var sb, sc := ArgSpelling(e.command, windows), ArgSpelling(e.cfg, windows);
    var rest := Join(Arguments(env, sc, e.cfg, HOOK, HERMES), " ");
    HookIsRendered(env, e, windows);
    HookIsWritable(e, windows);
    RenderedIsOurs(env, sb, e.command, sc, e.cfg, HOOK, HERMES);
    RestStarts(env, sc, e.cfg, HOOK, HERMES);
    BinaryIsStripped(env, sb, e.command, rest);
    ArgumentsScan(env, sb, sc, e.cfg, HOOK, HERMES);
  }

  lemma TwoWordsThen(u: string)
    ensures Words("hook" + (" " + ("-config" + (" " + u)))) == ["hook"] + (["-config"] + Words(u))
  {
    PlainIsWhole("hook");
    PlainIsWhole("-config");
    WordsOfSpaced("hook", "-config" + (" " + u));
    WordsOfSpaced("-config", u);
  }

  lemma SwallowedRest(env: Env, cfg: string)
    requires cfg != ""
    ensures Join(Arguments(env, CmdQ, cfg, HOOK, HERMES), " ") ==
            "hook" + (" " + ("-config" + (" " + ([DOUBLE] + cfg + [DOUBLE] + " hermes pre_tool_call"))))
  {
    var c := [DOUBLE] + cfg + [DOUBLE];
    assert Arguments(env, CmdQ, cfg, HOOK, HERMES) == ["hook"] + (["-config"] + ([c] + HERMES));
    hide Join, Arguments;
    HermesJoined();
    ConfigJoined(c);
    assert " " + ("hermes" + (" " + "pre_tool_call")) == " hermes pre_tool_call";
  }

  lemma HookIsSwallowed(env: Env, e: Entry)
    requires HookCommand(e, true).Some? && Swallows(e, true)
    ensures !CommandIsOurHook(env, Ref([e.command], e.cfg), HookCommand(e, true).value)
  {
    hide Words, AfterBinary, BinaryPrefixes, Join;
    HookIsRendered(env, e, true);
    ClosesParity(e.cfg);
    var rest := Join(Arguments(env, CmdQ, e.cfg, HOOK, HERMES), " ");
    BinaryIsStripped(env, CmdQ, e.command, rest);
    SwallowedRest(env, e.cfg);
    // The rest of the line is one word with the config, so the count of words is wrong.
    SwallowedWords(e.cfg, " hermes pre_tool_call");
    TwoWordsThen([DOUBLE] + e.cfg + [DOUBLE] + " hermes pre_tool_call");
    var words := Words(rest);
    assert |words| == 3 && words[1] == "-config" && words[1][0] != "hermes"[0];
  }

  /** The command install writes is recognised by the same installation exactly when its config
      does not swallow the quote after it. */
  lemma HookRecognised(env: Env, e: Entry, windows: bool)
    requires HookCommand(e, windows).Some?
    ensures CommandIsOurHook(env, Ref([e.command], e.cfg), HookCommand(e, windows).value) <==> !Swallows(e, windows)
  {
    if Swallows(e, windows) {
      HookIsSwallowed(env, e);
    } else {
      HookIsOurs(env, e, windows);
    }
  }
}
