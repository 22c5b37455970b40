/** Install then uninstall, end to end: exactly when the participant gets their bytes back. */
module HermesUndo {
  import opened Text
  import opened Ownership
  import opened Spellings
  import opened Hermes
  import opened HermesBlock
  import opened HermesInstall
  import opened HermesRoundTrip
  import opened HermesHook

  // ── marker text in a path is marker text in the file, and the other way ──

  /** Text that begins and ends with characters of its own and has none that quoting adds. */
  predicate MarkerLike(p: string) {
    && |p| > 2 && p[0] == '#' && p[|p| - 1] in {'<', '>'}
    && Without(p, {'h', SINGLE, DOUBLE, BACKSLASH, '\n'})
  }

  lemma NameIsPlain()
    ensures Without(MARKER_NAME, {'h', SINGLE, DOUBLE, BACKSLASH, '\n'})
  {
    ClientIsPlain();
    VerbIsPlain();
    assert MARKER_NAME == CLIENT_NAME + " agents install" + "";
    forall c | c in {'h', SINGLE, DOUBLE, BACKSLASH, '\n'}
      ensures c !in MARKER_NAME
    {
      NotIn(CLIENT_NAME, " agents install", "", c);
    }
  }

  lemma ClientIsPlain()
    ensures Without(CLIENT_NAME, {'h', SINGLE, DOUBLE, BACKSLASH, '\n'})
  {
  }

  lemma VerbIsPlain()
    ensures Without(" agents install", {'h', SINGLE, DOUBLE, BACKSLASH, '\n'})
  {
  }

  lemma AroundName(open: string, close: string)
    requires (open == "# >>> " && close == " >>>") || (open == "# <<< " && close == " <<<")
    ensures MarkerLike(open + MARKER_NAME + close)
  {
    NameIsPlain();
    Edges(open, MARKER_NAME, close);
    forall c | c in {'h', SINGLE, DOUBLE, BACKSLASH, '\n'}
      ensures c !in open + MARKER_NAME + close
    {
      NotIn(open, MARKER_NAME, close, c);
    }
  }

  lemma MarkersAreLike()
    ensures MarkerLike(BEGIN) && MarkerLike(END)
  {
    AroundName("# >>> ", " >>>");
    AroundName("# <<< ", " <<<");
  }

  /** Text between that `p` has no character of cannot be crossed. */
  lemma OccursAcross(a: string, c: char, b: string, p: string)
    requires c !in p && p != ""
    ensures Occurs(a + [c] + b, p) <==> Occurs(a, p) || Occurs(b, p)
  {
    if Occurs(a, p) {
      OccursInFront(a, [c] + b, p);
      assert a + ([c] + b) == a + [c] + b;
    }
    if Occurs(b, p) {
      OccursBehind(a + [c], b, p);
    }
    if Occurs(a + [c] + b, p) {
      OccursAround(a, c, b, p);
    }
  }

  lemma {:induction false} OccursPastEscape(esc: string, b: string, p: string)
    requires p != "" && forall k :: 0 <= k < |esc| ==> esc[k] !in p
    ensures Occurs(esc + b, p) <==> Occurs(b, p)
  {
    if esc == "" {
      assert esc + b == b;
    } else {
      OccursPastEscape(esc[1..], b, p);
      assert esc + b == "" + [esc[0]] + (esc[1..] + b);
      OccursAcross("", esc[0], esc[1..] + b, p);
    }
  }

  function FirstAt(s: string, q: char): (n: nat)
    ensures n <= |s| && q !in s[..n] && (n < |s| ==> s[n] == q)
  {
    if s == "" || s[0] == q then 0 else 1 + FirstAt(s[1..], q)
  }

  lemma {:induction false} ReplaceUpTo(a: string, q: char, b: string, esc: string)
    requires q !in a
    ensures ReplaceAll(a + [q] + b, [q], esc) == a + esc + ReplaceAll(b, [q], esc)
  {
    if a == "" {
      assert a + [q] + b == [q] + b && a + esc == esc;
      ReplaceOne(q, b, q, esc);
    } else {
      assert a + [q] + b == [a[0]] + (a[1..] + [q] + b);
      ReplaceOne(a[0], a[1..] + [q] + b, q, esc);
      ReplaceUpTo(a[1..], q, b, esc);
      assert a == [a[0]] + a[1..];
      assert [a[0]] + (a[1..] + esc + ReplaceAll(b, [q], esc)) == a + esc + ReplaceAll(b, [q], esc);
    }
  }

  /** Quoting neither makes nor breaks an occurrence of text without the characters it adds. */
  lemma {:induction false} OccursThrough(s: string, q: char, esc: string, p: string)
    requires p != "" && q !in p && esc != "" && forall k :: 0 <= k < |esc| ==> esc[k] !in p
    ensures Occurs(ReplaceAll(s, [q], esc), p) <==> Occurs(s, p)
    decreases |s|
  {
    var n := FirstAt(s, q);
    if n == |s| {
      assert s[..n] == s;
      ReplaceNothing(s, [q], esc);
    } else {
      var a, b := s[..n], s[n + 1..];
      assert s == a + [q] + b;
      ReplaceUpTo(a, q, b, esc);
      OccursThrough(b, q, esc, p);
      var r := ReplaceAll(b, [q], esc);
      assert a + esc + r == a + [esc[0]] + (esc[1..] + r);
      OccursAcross(a, esc[0], esc[1..] + r, p);
      OccursPastEscape(esc[1..], r, p);
      OccursAcross(a, q, b, p);
    }
  }

  lemma QuotedHas(q: char, body: string, p: string)
    requires MarkerLike(p) && q in {SINGLE, DOUBLE}
    ensures Occurs([q] + body + [q], p) <==> Occurs(body, p)
  {
    assert [q] + body + [q] == [q] + (body + [q]);
    OccursAfter([q], body + [q], p);
    OccursBefore(body, [q], p);
  }

  lemma ArgHas(env: Env, s: string, windows: bool, p: string)
    requires MarkerLike(p)
    ensures Occurs(Spell(env, ArgSpelling(s, windows), s), p) <==> Occurs(s, p)
  {
    if windows {
      QuotedHas(DOUBLE, s, p);
    } else if !BareArg(s) {
      QuotedHas(SINGLE, ReplaceAll(s, "'", POSIX_ESCAPE), p);
      OccursThrough(s, SINGLE, POSIX_ESCAPE, p);
    }
  }

  lemma HookHas(env: Env, e: Entry, windows: bool, p: string)
    requires MarkerLike(p) && HookCommand(e, windows).Some?
    ensures Occurs(HookCommand(e, windows).value, p) <==> Occurs(e.command, p) || (e.cfg != "" && Occurs(e.cfg, p))
  {
    ArgIsSpelled(env, e.command, windows);
    ArgIsSpelled(env, e.cfg, windows);
    ArgHas(env, e.command, windows, p);
    ArgHas(env, e.cfg, windows, p);
    var b, c := Spell(env, ArgSpelling(e.command, windows), e.command), Spell(env, ArgSpelling(e.cfg, windows), e.cfg);
    if e.cfg == "" {
      BetweenWords(b, "", " hook hermes pre_tool_call", p);
    } else {
      BetweenWords(b, c, " hook -config ", p);
    }
  }

  lemma BesideConfig(b: string, c: string, p: string)
    requires MarkerLike(p)
    ensures Occurs((b + " ") + ['h'] + ("ook -config " + (c + " hermes pre_tool_call")), p) <==>
            Occurs(b, p) || Occurs(c, p)
  {
    OccursAcross(b + " ", 'h', "ook -config " + (c + " hermes pre_tool_call"), p);
    OccursBefore(b, " ", p);
    OccursAfter("ook -config ", c + " hermes pre_tool_call", p);
    OccursBefore(c, " hermes pre_tool_call", p);
  }

  lemma HookWords(b: string, c: string)
    ensures b + " hook" + (" -config " + c) + " hermes pre_tool_call" ==
            (b + " ") + ['h'] + ("ook -config " + (c + " hermes pre_tool_call"))
    ensures b + " hook" + "" + " hermes pre_tool_call" == b + " hook hermes pre_tool_call"
  {
  }

  lemma BetweenWords(b: string, c: string, literal: string, p: string)
    requires MarkerLike(p)
    requires (literal == " hook hermes pre_tool_call" && c == "") || literal == " hook -config "
    ensures c == "" && literal != " hook -config " ==>
              (Occurs(b + " hook" + "" + " hermes pre_tool_call", p) <==> Occurs(b, p))
    ensures literal == " hook -config " ==>
              (Occurs(b + " hook" + (" -config " + c) + " hermes pre_tool_call", p) <==> Occurs(b, p) || Occurs(c, p))
  {
    HookWords(b, c);
    if literal == " hook -config " {
      BesideConfig(b, c, p);
    } else {
      OccursBefore(b, " hook hermes pre_tool_call", p);
    }
  }

  /** The command's own line, as it stands in the file. */
  function CommandText(cmd: string): string {
    COMMAND_PREFIX + YamlQuote(cmd)
  }

  lemma CommandTextHas(cmd: string, p: string)
    requires MarkerLike(p)
    ensures Occurs(CommandText(cmd), p) <==> Occurs(cmd, p)
  {
    assert '#' !in COMMAND_PREFIX;
    OccursAfter(COMMAND_PREFIX, YamlQuote(cmd), p);
    QuotedHas(SINGLE, ReplaceAll(cmd, "'", "''"), p);
    OccursThrough(cmd, SINGLE, "''", p);
  }

  /** Marker text in either path. */
  predicate NamesMarker(e: Entry) {
    Mentions(e.command) || Mentions(e.cfg)
  }

  lemma CommandTextMentions(env: Env, e: Entry, windows: bool)
    requires HookCommand(e, windows).Some?
    ensures Mentions(CommandText(HookCommand(e, windows).value)) <==> NamesMarker(e)
  {
    MarkersAreLike();
    HookHas(env, e, windows, BEGIN);
    HookHas(env, e, windows, END);
    CommandTextHas(HookCommand(e, windows).value, BEGIN);
    CommandTextHas(HookCommand(e, windows).value, END);
  }

  // ── the rendered command is one line of the block ──

  lemma {:induction false} ReplaceHasNo(s: string, q: char, esc: string, c: char)
    requires c !in s && c !in esc
    ensures c !in ReplaceAll(s, [q], esc)
  {
    if s != "" {
      assert s == [s[0]] + s[1..];
      ReplaceOne(s[0], s[1..], q, esc);
      assert c !in s[1..];
      ReplaceHasNo(s[1..], q, esc, c);
    }
  }

  lemma ArgHasNoFeed(env: Env, s: string, windows: bool)
    requires '\n' !in s
    ensures '\n' !in Spell(env, ArgSpelling(s, windows), s)
  {
    ReplaceHasNo(s, SINGLE, POSIX_ESCAPE, '\n');
  }

  lemma HookHasNoFeed(env: Env, e: Entry, windows: bool)
    requires '\n' !in e.command && '\n' !in e.cfg && HookCommand(e, windows).Some?
    ensures '\n' !in HookCommand(e, windows).value
  {
    ArgIsSpelled(env, e.command, windows);
    ArgIsSpelled(env, e.cfg, windows);
    ArgHasNoFeed(env, e.command, windows);
    ArgHasNoFeed(env, e.cfg, windows);
    assert Without(" hook", {'\n'}) && Without(" -config ", {'\n'}) && Without(" hermes pre_tool_call", {'\n'});
  }

  lemma TextHasNoFeed(cmd: string)
    requires '\n' !in cmd
    ensures '\n' !in CommandText(cmd)
  {
    ReplaceHasNo(cmd, SINGLE, "''", '\n');
    assert Without(COMMAND_PREFIX, {'\n'});
  }

  lemma UnfoldedFolds(cmd: string)
    requires '\n' !in cmd && !Mentions(CommandText(cmd))
    ensures FoldsTo([CommandText(cmd) + "\n"], cmd)
  {
    hide DecodeScalar, YamlQuote;
    var raw, q := CommandText(cmd) + "\n", YamlQuote(cmd);
    TextHasNoFeed(cmd);
    NoLineFeed(CommandText(cmd));
    CommandTextReads(cmd);
    assert ReadLines([raw]) == [ReadLine(raw)] && ReadLines([raw])[1..] == [];
    assert Spaced(Pieces([])) == "" && q + "" == q;
    QuotedIsTrimmed(cmd);
    QuotedScalar(cmd);
    assert CommandText(cmd)[|COMMAND_PREFIX|..] == q;
  }

  lemma CommandTextReads(cmd: string)
    ensures ReadLine(CommandText(cmd) + "\n") == Line(CommandText(cmd) + "\n", CommandText(cmd), 4, false)
  {
    var body := "- command: " + YamlQuote(cmd);
    assert CommandText(cmd) == "    " + body;
    ContentLine("    ", body);
  }

  // ── install, then uninstall ──

  predicate EndsInCarriage(existing: string) {
    existing != "" && existing[|existing| - 1] == '\r'
  }

  lemma UncarriedIff(existing: string)
    ensures Uncarried(existing) == existing <==> !EndsInCarriage(existing)
  {
    if EndsInCarriage(existing) {
      assert existing[|existing| - 1..] == "\r";
    }
  }

  lemma AppendGrows(existing: string, cmd: string)
    ensures |AppendBlock(existing, Body(cmd))| > |existing|
  {
  }

  /** A path with marker text in it hides the whole block: no line of it may be touched then. */
  lemma HiddenBlock(lines: seq<Line>, i: nat)
    requires i < |lines| && Mentions(lines[i].text) && lines[i].text != BEGIN && lines[i].text != END
    ensures Marked(lines).None?
  {
  }

  lemma TextIsNoMarker(cmd: string)
    ensures CommandText(cmd) != BEGIN && CommandText(cmd) != END
  {
    assert CommandText(cmd)[0] == COMMAND_PREFIX[0];
  }

  lemma CommandRawAt(existing: string, commands: seq<string>)
    requires |commands| == 1
    ensures var raws := Front(existing) + Block(commands, NoEnding(existing));
            commands[0] in raws
  {
    var raws := Front(existing) + Block(commands, NoEnding(existing));
    var i := |Front(existing)| + 1 + |Fore(NoEnding(existing))|;
    assert raws[i] == commands[0];
  }

  lemma InstalledLines(existing: string, commands: seq<string>)
    requires AllEnded(commands)
    ensures Lines(Installed(existing, commands)) == ReadLines(Front(existing) + Block(commands, NoEnding(existing)))
  {
    FrontEnded(existing);
    BlockEnded(commands, NoEnding(existing));
    AllEndedAppend(Front(existing), Block(commands, NoEnding(existing)));
    LinesOfConcat(Front(existing) + Block(commands, NoEnding(existing)));
  }

  lemma HiddenAmong(raws: seq<string>, raw: string)
    requires raw in raws && IsStray(ReadLine(raw).text, BEGIN, END)
    ensures Marked(ReadLines(raws)).None?
  {
    var i :| 0 <= i < |raws| && raws[i] == raw;
    HiddenBlock(ReadLines(raws), i);
  }

  lemma AbsentIfUnmarked(env: Env, ref: Ref, b: string)
    requires Marked(Lines(b)).None?
    ensures RemoveOurBlock(env, ref, b) == Absent
  {
  }

  lemma HiddenInstall(env: Env, ref: Ref, existing: string, cmd: string)
    requires '\n' !in cmd && Mentions(CommandText(cmd))
    ensures RemoveOurBlock(env, ref, AppendBlock(existing, Body(cmd))) == Absent
  {
    var commands := [CommandText(cmd) + "\n"];
    AppendIsInstalled(existing, cmd);
    TextHasNoFeed(cmd);
    NoLineFeed(CommandText(cmd));
    InstalledLines(existing, commands);
    CommandTextReads(cmd);
    TextIsNoMarker(cmd);
    CommandRawAt(existing, commands);
    HiddenAmong(Front(existing) + Block(commands, NoEnding(existing)), commands[0]);
    AbsentIfUnmarked(env, ref, Installed(existing, commands));
  }

  /** For every configuration a block may be appended to and every pair of paths the platform can
      quote: install then uninstall gives the bytes back exactly when the file did not end in a
      bare carriage return, no path holds marker text, and the config of a Windows command does
      not end in an odd run of backslashes. */
  lemma InstallUninstall(env: Env, e: Entry, windows: bool, existing: string)
    requires HookCommand(e, windows).Some? && '\n' !in e.command && '\n' !in e.cfg
    requires !Mentions(existing)
    ensures var file := AppendBlock(existing, Body(HookCommand(e, windows).value));
            After(file, RemoveOurBlock(env, Ref([e.command], e.cfg), file)) == existing <==>
            !EndsInCarriage(existing) && !NamesMarker(e) && !Swallows(e, windows)
  {
    var cmd, ref := HookCommand(e, windows).value, Ref([e.command], e.cfg);
    HookHasNoFeed(env, e, windows);
    CommandTextMentions(env, e, windows);
    AppendGrows(existing, cmd);
    if NamesMarker(e) {
      HiddenInstall(env, ref, existing, cmd);
    } else {
      UnfoldedFolds(cmd);
      AppendIsInstalled(existing, cmd);
      FoldedRoundTrip(env, ref, existing, [CommandText(cmd) + "\n"], cmd);
      HookRecognised(env, e, windows);
      UncarriedIff(existing);
    }
  }
}
