/** An integration is recognised by the installation that rendered it, and by no other. */
module OwnershipLaws {
  import opened Wrappers
  import opened Text
  import opened Strconv
  import opened Ownership
  import opened Spellings

  // ── the shape every renderer shares ──

  function Lead(sb: Spelling): string {
    if sb.PowerShellQ? then "& " else ""
  }

  function Arguments(env: Env, sc: Spelling, cfg: string, before: seq<string>, after: seq<string>): seq<string> {
    before + (if cfg == "" then [] else ["-config", Spell(env, sc, cfg)]) + after
  }

  /** The binary spelled one way, the config another, and literal words around them. */
  function Rendered(env: Env, sb: Spelling, bin: string, sc: Spelling, cfg: string,
                    before: seq<string>, after: seq<string>): string {
    Lead(sb) + Spell(env, sb, bin) + " " + Join(Arguments(env, sc, cfg, before, after), " ")
  }

  /** Literal words of this client: no flag that could be mistaken for `-config`. */
  predicate Wordy(words: seq<string>) {
    forall k :: 0 <= k < |words| ==> Plain(words[k]) && words[k] != "-config"
  }

  /** What a renderer can write: a config its spelling can carry, and, after a bare binary,
      a subcommand whose first letter no quoting adds. */
  predicate Writable(sb: Spelling, sc: Spelling, cfg: string, before: seq<string>, after: seq<string>) {
    && Wordy(before) && Wordy(after) && before != []
    && (cfg != "" ==> CanSpell(sc, cfg))
    && (sb.BareQ? ==> before[0][0] in {'h', 's'})
  }

  // ── the binary in front ──

  lemma PrefixTaken(p: string, rest: string)
    ensures p <= p + rest && (p + rest)[|p|..] == rest
  {
  }

  /** `%q` agrees with plain double quotes only where it escapes nothing. */
  lemma QuoteUnescaped(bin: string, rest: string, printable: Printable)
    requires bin + ([DOUBLE] + " ") <= EscapeAll(bin, printable) + ([DOUBLE] + " " + rest)
    ensures EscapeAll(bin, printable) == bin
  {
    if EscapeAll(bin, printable) != bin {
      FirstEscape(bin, [DOUBLE] + " ", [DOUBLE] + " " + rest, printable);
    }
  }

  lemma PrefixAgrees(s: string, t: string, k: nat)
    requires s <= t && k < |s|
    ensures s[k] == t[k]
  {
  }

  lemma DropHead(c: string, x: string, tail: string, e: string, rest: string)
    requires (c + x) + tail <= (c + e) + rest
    ensures x + tail <= e + rest
  {
    assert (c + x) + tail == c + (x + tail) && (c + e) + rest == c + (e + rest);
    PrefixTail(c, x + tail, e + rest);
  }

  lemma PrefixTail(c: string, s: string, t: string)
    requires c + s <= c + t
    ensures s <= t
  {
    assert (c + s)[|c|..] == s && (c + t)[|c|..] == t;
  }

  /** Up to the first escape both agree; from there the escaped text is all backslashes
      as far as it is compared, and the plain one has to end. */
  lemma {:induction false} FirstEscape(bin: string, tail: string, rest: string, printable: Printable)
    requires EscapeAll(bin, printable) != bin && tail != "" && tail[0] == DOUBLE
    requires bin + tail <= EscapeAll(bin, printable) + rest
    ensures false
  {
    var c, e := EscapeChar(bin[0], printable), EscapeAll(bin[1..], printable);
    if c == [bin[0]] {
      assert bin == c + bin[1..];
      DropHead(c, bin[1..], tail, e, rest);
      FirstEscape(bin[1..], tail, rest, printable);
    } else {
      PrefixAgrees(bin + tail, EscapeAll(bin, printable) + rest, 0);
      OnlyBackslashes(bin, 1, tail, rest, printable);
    }
  }

  lemma {:induction false} OnlyBackslashes(bin: string, n: nat, tail: string, rest: string, printable: Printable)
    requires 1 <= n <= |bin| && forall k :: 0 <= k < n ==> bin[k] == BACKSLASH
    requires tail != "" && tail[0] == DOUBLE && bin + tail <= EscapeAll(bin, printable) + rest
    ensures false
    decreases |bin| - n
  {
    EscapedBackslashes(bin, n, printable);
    PrefixAgrees(bin + tail, EscapeAll(bin, printable) + rest, n);
    assert (EscapeAll(bin, printable) + rest)[n] == BACKSLASH;
    if n < |bin| {
      OnlyBackslashes(bin, n + 1, tail, rest, printable);
    }
  }

  lemma {:induction false} EscapedBackslashes(bin: string, n: nat, printable: Printable)
    requires n <= |bin| && forall k :: 0 <= k < n ==> bin[k] == BACKSLASH
    ensures |EscapeAll(bin, printable)| >= 2 * n
    ensures forall k :: 0 <= k < 2 * n ==> EscapeAll(bin, printable)[k] == BACKSLASH
  {
    if n > 0 {
      EscapedBackslashes(bin[1..], n - 1, printable);
      assert EscapeChar(bin[0], printable) == [BACKSLASH, BACKSLASH];
    }
  }

  /** No quoting of a bare binary is the beginning of its own bare command: the letter its
      subcommand begins with comes too early for that. */
  lemma NotAPrefix(h: char, bin: string, rest: string, head: string, e: string, tail: string)
    requires rest != "" && rest[0] == h && h != ' ' && h !in head && h !in tail && head != ""
    requires |bin| <= |e| && |head| + |tail| >= 2
    requires forall k :: 0 <= k < |e| && e[k] == h ==> exists m :: 0 <= m <= k && m < |bin| && bin[m] == h
    ensures !(head + e + tail <= bin + " " + rest)
  {
    var p, command := head + e + tail, bin + " " + rest;
    var n := if h in bin then FirstIndex(bin, h) else |bin| + 1;
    assert command[n] == h;
    assert p[n] == (if n < |head| then head[n] else if n < |head| + |e| then e[n - |head|] else tail[n - |head| - |e|]);
    assert p[n] != h;
  }

  function FirstIndex(s: string, h: char): (n: nat)
    requires h in s
    ensures n < |s| && s[n] == h && forall k :: 0 <= k < n ==> s[k] != h
  {
    if s[0] == h then 0 else 1 + FirstIndex(s[1..], h)
  }

  lemma {:induction false} ReplaceKeepsOrder(s: string, esc: string, h: char)
    requires h != SINGLE && h !in esc && esc != ""
    ensures |s| <= |ReplaceAll(s, "'", esc)|
    ensures forall k :: 0 <= k < |ReplaceAll(s, "'", esc)| && ReplaceAll(s, "'", esc)[k] == h ==>
                          exists m :: 0 <= m <= k && m < |s| && s[m] == h
  {
    if s != "" {
      assert s == [s[0]] + s[1..];
      ReplaceOne(s[0], s[1..], SINGLE, esc);
      ReplaceKeepsOrder(s[1..], esc, h);
      var c := if s[0] == SINGLE then esc else [s[0]];
      var e := ReplaceAll(s[1..], "'", esc);
      forall k | 0 <= k < |c + e| && (c + e)[k] == h
        ensures exists m :: 0 <= m <= k && m < |s| && s[m] == h
      {
        if k < |c| {
          assert s[0] == h;
        } else {
          var m :| 0 <= m <= k - |c| && m < |s[1..]| && s[1..][m] == h;
          assert s[m + 1] == h;
        }
      }
    }
  }

  lemma {:induction false} EscapeKeepsOrder(s: string, h: char, printable: Printable)
    requires h == 'h' || h == 's'
    ensures |s| <= |EscapeAll(s, printable)|
    ensures forall k :: 0 <= k < |EscapeAll(s, printable)| && EscapeAll(s, printable)[k] == h ==>
                          exists m :: 0 <= m <= k && m < |s| && s[m] == h
  {
    if s != "" {
      EscapeKeepsOrder(s[1..], h, printable);
      var c, e := EscapeChar(s[0], printable), EscapeAll(s[1..], printable);
      forall k | 0 <= k < |c + e| && (c + e)[k] == h
        ensures exists m :: 0 <= m <= k && m < |s| && s[m] == h
      {
        if k < |c| {
          assert s[0] == h;
        } else {
          var m :| 0 <= m <= k - |c| && m < |s[1..]| && s[1..][m] == h;
          assert s[m + 1] == h;
        }
      }
    }
  }

  lemma {:induction false} AfterPrefixAt(ps: seq<string>, command: string, n: nat)
    requires n < |ps| && ps[n] <= command
    requires forall k :: 0 <= k < n && ps[k] <= command ==> ps[k] == ps[n]
    ensures AfterPrefix(ps, command) == Some(command[|ps[n]|..])
  {
    if n > 0 && !(ps[0] <= command) {
      AfterPrefixAt(ps[1..], command, n - 1);
    }
  }

  /** The binary is stripped exactly, whatever it is spelled like and whatever it is. */
  lemma BinaryIsStripped(env: Env, sb: Spelling, bin: string, rest: string)
    requires sb.BareQ? ==> rest != "" && rest[0] in {'h', 's'}
    ensures AfterBinary(env, [bin], Lead(sb) + Spell(env, sb, bin) + " " + rest) == Some(rest)
  {
    var p := Lead(sb) + Spell(env, sb, bin) + " ";
    var command := p + rest;
    var ps := BinaryPrefixes(env, bin);
    var n := Place(sb);
    PrefixAt(env, sb, bin);
    PrefixTaken(p, rest);
    forall k | 0 <= k < n && ps[k] <= command
      ensures ps[k] == ps[n]
    {
      OtherPrefix(env, sb, bin, rest, k);
    }
    AfterPrefixAt(ps, command, n);
    assert AfterBinary(env, [bin], command) == AfterPrefix(ps, command);
  }

  lemma BareIsNoQuoted(env: Env, bin: string, rest: string, k: nat)
    requires rest != "" && rest[0] in {'h', 's'} && k < 4
    ensures !(BinaryPrefixes(env, bin)[k] <= bin + " " + rest)
  {
    var h, p := rest[0], BinaryPrefixes(env, bin)[k];
    if k == 0 {
      ReplaceKeepsOrder(bin, POSIX_ESCAPE, h);
      assert p == "'" + ReplaceAll(bin, "'", POSIX_ESCAPE) + "' ";
      NotAPrefix(h, bin, rest, "'", ReplaceAll(bin, "'", POSIX_ESCAPE), "' ");
    } else if k == 1 {
      ReplaceKeepsOrder(bin, POWERSHELL_ESCAPE, h);
      assert p == "& '" + ReplaceAll(bin, "'", POWERSHELL_ESCAPE) + "' ";
      NotAPrefix(h, bin, rest, "& '", ReplaceAll(bin, "'", POWERSHELL_ESCAPE), "' ");
    } else if k == 2 {
      assert p == [DOUBLE] + bin + [DOUBLE, ' '];
      NotAPrefix(h, bin, rest, [DOUBLE], bin, [DOUBLE, ' ']);
    } else {
      EscapeKeepsOrder(bin, h, env.printable);
      assert p == [DOUBLE] + EscapeAll(bin, env.printable) + [DOUBLE, ' '];
      NotAPrefix(h, bin, rest, [DOUBLE], EscapeAll(bin, env.printable), [DOUBLE, ' ']);
    }
  }

  lemma StartsOtherwise(p: string, s: string)
    requires p != "" && s != "" && p[0] != s[0]
    ensures !(p <= s)
  {
  }

  lemma Regroup(q: string, a: string, rest: string)
    ensures (q + a + q) + " " + rest == q + (a + (q + " " + rest))
  {
  }

  lemma QuotedAlikeIsQuotedSame(env: Env, bin: string, rest: string)
    ensures BinaryPrefixes(env, bin)[2] <= Quote(bin, env.printable) + " " + rest ==>
              BinaryPrefixes(env, bin)[2] == BinaryPrefixes(env, bin)[3]
  {
    if BinaryPrefixes(env, bin)[2] <= Quote(bin, env.printable) + " " + rest {
      QuotedAlike(env, bin, rest);
    }
  }

  lemma QuotedAlike(env: Env, bin: string, rest: string)
    requires BinaryPrefixes(env, bin)[2] <= Quote(bin, env.printable) + " " + rest
    ensures BinaryPrefixes(env, bin)[2] == BinaryPrefixes(env, bin)[3]
  {
    var e := EscapeAll(bin, env.printable);
    Regroup([DOUBLE], bin, "");
    Regroup([DOUBLE], e, rest);
    assert BinaryPrefixes(env, bin)[2] + "" == BinaryPrefixes(env, bin)[2];
    assert [DOUBLE] + " " + "" == [DOUBLE] + " ";
    PrefixTail([DOUBLE], bin + ([DOUBLE] + " "), e + ([DOUBLE] + " " + rest));
    QuoteUnescaped(bin, rest, env.printable);
  }

  function Place(sb: Spelling): (n: nat)
    ensures n < 5
  {
    match sb
    case PosixQ => 0
    case PowerShellQ => 1
    case CmdQ => 2
    case GoQ => 3
    case BareQ => 4
  }

  lemma PrefixAt(env: Env, sb: Spelling, bin: string)
    ensures BinaryPrefixes(env, bin)[Place(sb)] == Lead(sb) + Spell(env, sb, bin) + " "
  {
    assert "" + Spell(env, sb, bin) == Spell(env, sb, bin);
  }

  /** An earlier spelling of the binary in front of a command is the command's own. */
  lemma OtherPrefix(env: Env, sb: Spelling, bin: string, rest: string, k: nat)
    requires sb.BareQ? ==> rest != "" && rest[0] in {'h', 's'}
    requires k < Place(sb)
    ensures BinaryPrefixes(env, bin)[k] <= Lead(sb) + Spell(env, sb, bin) + " " + rest ==>
              BinaryPrefixes(env, bin)[k] == BinaryPrefixes(env, bin)[Place(sb)]
  {
    if sb.BareQ? {
      assert Lead(sb) + Spell(env, sb, bin) + " " + rest == bin + " " + rest;
      BareIsNoQuoted(env, bin, rest, k);
    } else if sb.GoQ? && k == 2 {
      assert Lead(sb) + Spell(env, sb, bin) + " " + rest == Quote(bin, env.printable) + " " + rest;
      QuotedAlikeIsQuotedSame(env, bin, rest);
    } else {
      var p, command := BinaryPrefixes(env, bin)[k], Lead(sb) + Spell(env, sb, bin) + " " + rest;
      StartsOtherwise(p, command);
    }
  }

  // ── the config behind it ──

  lemma {:induction false} ConfigWordFound(before: seq<string>, w: string, after: seq<string>)
    requires "-config" !in before
    ensures ConfigWord(before + ["-config", w] + after) == Some(w)
  {
    if before != [] {
      assert (before + ["-config", w] + after)[1..] == before[1..] + ["-config", w] + after;
      ConfigWordFound(before[1..], w, after);
    }
  }

  lemma {:induction false} ConfigWordAbsent(words: seq<string>)
    requires "-config" !in words
    ensures ConfigWord(words).None?
  {
    if |words| >= 2 {
      ConfigWordAbsent(words[1..]);
    }
  }

  lemma PlainIsWhole(w: string)
    requires Plain(w)
    ensures Whole(w)
  {
    assert w[0] in w;
    forall rest | rest == "" || rest[0] == ' '
      ensures WordLen(w + rest, None) == |w|
    {
      PlainScans(w, rest);
    }
  }

  /** What follows the binary is scanned back into the words it was joined from. */
  lemma ArgumentsScan(env: Env, sb: Spelling, sc: Spelling, cfg: string, before: seq<string>, after: seq<string>)
    requires Writable(sb, sc, cfg, before, after)
    ensures Words(Join(Arguments(env, sc, cfg, before, after), " ")) == Arguments(env, sc, cfg, before, after)
  {
    var ws := Arguments(env, sc, cfg, before, after);
    forall k | 0 <= k < |ws|
      ensures Whole(ws[k])
    {
      if k < |before| {
        PlainIsWhole(before[k]);
      } else if cfg == "" {
        PlainIsWhole(after[k - |before|]);
      } else if k == |before| {
        PlainIsWhole("-config");
      } else if k == |before| + 1 {
        SpelledIsWhole(env, sc, cfg);
      } else {
        PlainIsWhole(after[k - |before| - 2]);
      }
    }
    WordsOfJoin(ws);
  }

  lemma ConfigRead(env: Env, sb: Spelling, sc: Spelling, cfg: string, before: seq<string>, after: seq<string>)
    requires Writable(sb, sc, cfg, before, after)
    ensures ConfigWord(Words(Join(Arguments(env, sc, cfg, before, after), " "))) ==
            if cfg == "" then None else Some(Spell(env, sc, cfg))
  {
    ArgumentsScan(env, sb, sc, cfg, before, after);
    ConfigAmong(env, sc, cfg, before, after);
  }

  lemma ConfigAmong(env: Env, sc: Spelling, cfg: string, before: seq<string>, after: seq<string>)
    requires Wordy(before) && Wordy(after)
    ensures ConfigWord(Arguments(env, sc, cfg, before, after)) ==
            if cfg == "" then None else Some(Spell(env, sc, cfg))
  {
    NoFlag(before);
    NoFlag(after);
    if cfg == "" {
      ConfigWordAbsent(before + after);
      assert before + [] + after == before + after;
    } else {
      ConfigWordFound(before, Spell(env, sc, cfg), after);
    }
  }

  lemma NoFlag(words: seq<string>)
    requires Wordy(words)
    ensures "-config" !in words
  {
  }

  lemma RestStarts(env: Env, sc: Spelling, cfg: string, before: seq<string>, after: seq<string>)
    requires before != [] && before[0] != ""
    ensures var rest := Join(Arguments(env, sc, cfg, before, after), " ");
            rest != "" && rest[0] == before[0][0]
  {
    var ws := Arguments(env, sc, cfg, before, after);
    assert ws[0] == before[0];
  }

  /** Complete: whatever a renderer writes for a binary and a config is recognised as theirs. */
  lemma RenderedIsOurs(env: Env, sb: Spelling, bin: string, sc: Spelling, cfg: string,
                       before: seq<string>, after: seq<string>)
    requires Writable(sb, sc, cfg, before, after)
    ensures CommandIsOurs(env, Ref([bin], cfg), Rendered(env, sb, bin, sc, cfg, before, after))
  {
    var rest := Join(Arguments(env, sc, cfg, before, after), " ");
    assert before[0][0] in before[0];
    RestStarts(env, sc, cfg, before, after);
    BinaryIsStripped(env, sb, bin, rest);
    ConfigRead(env, sb, sc, cfg, before, after);
    if cfg != "" {
      ReadsBack(env, sc, cfg);
    }
  }

  // ── what each renderer writes has that shape ──

  function SpellingFor(sh: Shell): Spelling
    requires !sh.Argv?
  {
    match sh
    case Posix => PosixQ
    case PowerShell => PowerShellQ
    case Cmd => CmdQ
  }

  lemma FrontOf<T>(w: T, x: seq<T>, y: seq<T>)
    ensures [w] + (x + y) == ([w] + x) + y
  {
  }

  lemma {:induction false} TokensAppend(sh: Shell, a: seq<Token>, b: seq<Token>)
    ensures RenderTokens(sh, a + b) ==
            (var x, y := RenderTokens(sh, a), RenderTokens(sh, b);
             if x.Some? && y.Some? then Some(x.value + y.value) else None)
  {
    hide RenderToken;
    var y := RenderTokens(sh, b);
    if a == [] {
      assert a + b == b && (y.Some? ==> [] + y.value == y.value);
    } else {
      assert (a + b)[1..] == a[1..] + b && (a + b)[0] == a[0];
      TokensAppend(sh, a[1..], b);
      var w, x := RenderToken(sh, a[0]), RenderTokens(sh, a[1..]);
      if w.Some? && x.Some? && y.Some? {
        FrontOf(w.value, x.value, y.value);
      }
    }
  }

  lemma {:induction false} LiteralsRender(sh: Shell, words: seq<string>)
    ensures RenderTokens(sh, Literals(words)) == Some(words)
  {
    if words != [] {
      assert Literals(words)[1..] == Literals(words[1..]);
      LiteralsRender(sh, words[1..]);
      assert [words[0]] + words[1..] == words;
    }
  }

  lemma PathRenders(env: Env, sh: Shell, path: string)
    requires !sh.Argv?
    ensures RenderToken(sh, Path(path)) ==
            if sh.Cmd? && DOUBLE in path then None else Some(Spell(env, SpellingFor(sh), path))
  {
  }

  lemma OneToken(sh: Shell, tok: Token)
    ensures RenderTokens(sh, [tok]) == (var w := RenderToken(sh, tok); if w.Some? then Some([w.value]) else None)
  {
    var w := RenderToken(sh, tok);
    assert [tok][1..] == [] && RenderTokens(sh, []) == Some([]);
    assert w.Some? ==> [w.value] + [] == [w.value];
  }

  lemma ConfigRenders(env: Env, sh: Shell, e: Entry)
    requires !sh.Argv?
    ensures RenderTokens(sh, ConfigTokens(e)) ==
            if sh.Cmd? && DOUBLE in e.cfg then None
            else Some(if e.cfg == "" then [] else ["-config", Spell(env, SpellingFor(sh), e.cfg)])
  {
    if e.cfg != "" {
      PathRenders(env, sh, e.cfg);
      assert ConfigTokens(e) == [Literal("-config")] + [Path(e.cfg)];
      TokensAppend(sh, [Literal("-config")], [Path(e.cfg)]);
      OneToken(sh, Literal("-config"));
      OneToken(sh, Path(e.cfg));
      var w := Spell(env, SpellingFor(sh), e.cfg);
      assert ["-config"] + [w] == ["-config", w];
    }
  }

  /** The command a shell is given is the binary and the config in that shell's own spelling,
      and there is none exactly when cmd would have to carry a double quote. */
  lemma CommandForShellIs(env: Env, e: Entry, sh: Shell, before: seq<string>, after: seq<string>)
    requires before != []
    ensures CommandForShell(e, sh, before, after) ==
            if sh.Argv? || (sh.Cmd? && (DOUBLE in e.command || DOUBLE in e.cfg)) then None
            else Some(Rendered(env, SpellingFor(sh), e.command, SpellingFor(sh), e.cfg, before, after))
  {
    var front, mid, back := [Path(e.command)], Literals(before) + ConfigTokens(e), Literals(after);
    assert [Path(e.command)] + Literals(before) + ConfigTokens(e) + Literals(after) == front + (mid + back);
    TokensAppend(sh, front, mid + back);
    TokensAppend(sh, mid, back);
    TokensAppend(sh, Literals(before), ConfigTokens(e));
    LiteralsRender(sh, before);
    LiteralsRender(sh, after);
    if !sh.Argv? {
      ConfigRenders(env, sh, e);
      PathRenders(env, sh, e.command);
      CommandJoined(env, SpellingFor(sh), e, before, after);
    }
  }

  lemma CommandJoined(env: Env, sp: Spelling, e: Entry, before: seq<string>, after: seq<string>)
    requires before != []
    ensures Lead(sp) + Join([Spell(env, sp, e.command)] + Arguments(env, sp, e.cfg, before, after), " ") ==
            Rendered(env, sp, e.command, sp, e.cfg, before, after)
  {
    var w, ws := Spell(env, sp, e.command), Arguments(env, sp, e.cfg, before, after);
    JoinSplits(w, ws);
    Regrouped(Lead(sp), w, Join(ws, " "));
  }

  lemma Regrouped(a: string, w: string, rest: string)
    ensures a + (w + (" " + rest)) == a + w + " " + rest
  {
  }

  /** A double-quoted config that ends in an odd run of backslashes, with words behind it. */
  predicate SwallowsRest(sh: Shell, cfg: string, after: seq<string>) {
    sh.Cmd? && cfg != "" && TrailingBackslashes(cfg) % 2 == 1 && after != []
  }

  /** The config word as the scanner then takes it, to the end of the line. */
  function Swollen(cfg: string, after: seq<string>): string {
    [DOUBLE] + cfg + [DOUBLE] + (if after == [] then "" else " " + Join(after, " "))
  }

  lemma {:induction false} FrontWords(before: seq<string>, ws: seq<string>)
    requires ws != [] && forall k :: 0 <= k < |before| ==> Whole(before[k])
    ensures Words(Join(before + ws, " ")) == before + Words(Join(ws, " "))
  {
    hide Whole, Words, Join;
    if before == [] {
      assert before + ws == ws;
    } else {
      assert before + ws == [before[0]] + (before[1..] + ws) && before == [before[0]] + before[1..];
      JoinSplits(before[0], before[1..] + ws);
      WordsOfSpaced(before[0], Join(before[1..] + ws, " "));
      FrontWords(before[1..], ws);
    }
  }

  lemma {:induction false} JoinOfPlain(ws: seq<string>)
    requires forall k :: 0 <= k < |ws| ==> Plain(ws[k])
    ensures ws != [] ==> Join(ws, " ") != ""
    ensures var s := Join(ws, " "); s != "" ==> s[|s| - 1] != DOUBLE
    ensures var s := Join(ws, " "); forall k :: 0 <= k < |s| ==> s[k] != DOUBLE && s[k] != BACKSLASH
  {
    if ws != [] {
      forall k | 0 <= k < |ws[0]|
        ensures WordChar(ws[0][k])
      {
        assert ws[0][k] in ws[0];
      }
      JoinOfPlain(ws[1..]);
    }
  }

  lemma SwollenWord(env: Env, cfg: string, before: seq<string>, after: seq<string>)
    requires cfg != "" && DOUBLE !in cfg && !Closes(cfg) && Wordy(before) && Wordy(after)
    ensures Words(Join(Arguments(env, CmdQ, cfg, before, after), " ")) == before + ["-config", Swollen(cfg, after)]
  {
    hide Words, Join, Closes, Whole;
    var c := Spell(env, CmdQ, cfg);
    forall k | 0 <= k < |before|
      ensures Whole(before[k])
    {
      PlainIsWhole(before[k]);
    }
    assert Arguments(env, CmdQ, cfg, before, after) == before + (["-config"] + ([c] + after));
    FrontWords(before, ["-config"] + ([c] + after));
    JoinSplits("-config", [c] + after);
    PlainIsWhole("-config");
    WordsOfSpaced("-config", Join([c] + after, " "));
    JoinOfPlain(after);
    SwollenJoin(c, after);
    SwallowedWords(cfg, if after == [] then "" else " " + Join(after, " "));
    assert ["-config"] + [Swollen(cfg, after)] == ["-config", Swollen(cfg, after)];
  }

  lemma SwollenJoin(c: string, after: seq<string>)
    ensures Join([c] + after, " ") == c + (if after == [] then "" else " " + Join(after, " "))
  {
    if after == [] {
      assert [c] + after == [c];
    } else {
      JoinSplits(c, after);
    }
  }

  /** With words behind it, it is not read as a path in quotes any more. */
  lemma SwollenReads(cfg: string, after: seq<string>)
    requires Wordy(after)
    ensures after == [] ==> cfg in UnquoteWord(Swollen(cfg, after))
    ensures after != [] ==> UnquoteWord(Swollen(cfg, after)) == [Swollen(cfg, after)]
  {
    hide Join;
    JoinOfPlain(after);
    var w := Swollen(cfg, after);
    if after == [] {
      assert w[1..|w| - 1] == cfg;
      assert UnquoteWord(w)[0] == cfg;
    } else {
      assert w[|w| - 1] == Join(after, " ")[|Join(after, " ")| - 1];
    }
  }

  lemma SwollenIsOurs(env: Env, e: Entry, before: seq<string>, after: seq<string>)
    requires before != [] && Wordy(before) && Wordy(after)
    requires e.cfg != "" && DOUBLE !in e.cfg && TrailingBackslashes(e.cfg) % 2 == 1
    ensures CommandIsOurs(env, Ref([e.command], e.cfg), Rendered(env, CmdQ, e.command, CmdQ, e.cfg, before, after)) <==>
            (after == [] || SamePath(env, Swollen(e.cfg, after), e.cfg))
  {
    hide Words, Join, Rendered, AfterBinary, UnquoteWord, Swollen, Closes;
    var rest := Join(Arguments(env, CmdQ, e.cfg, before, after), " ");
    BinaryIsStripped(env, CmdQ, e.command, rest);
    RenderedIs(env, CmdQ, e.command, CmdQ, e.cfg, before, after);
    ClosesParity(e.cfg);
    SwollenWord(env, e.cfg, before, after);
    NoFlag(before);
    ConfigWordFound(before, Swollen(e.cfg, after), []);
    assert before + ["-config", Swollen(e.cfg, after)] + [] == before + ["-config", Swollen(e.cfg, after)];
    SwollenReads(e.cfg, after);
  }

  lemma RenderedIs(env: Env, sb: Spelling, bin: string, sc: Spelling, cfg: string, before: seq<string>,
      after: seq<string>)
    ensures Rendered(env, sb, bin, sc, cfg, before, after) ==
            Lead(sb) + Spell(env, sb, bin) + " " + Join(Arguments(env, sc, cfg, before, after), " ")
  {
  }

  /** What a shell is given, the installation that rendered it recognises, if and only if the config
      does not swallow the quote after it, as it does in cmd where it ends in an odd run of backslashes
      and words follow; or else that whole rest of the line is, to the platform, the same path. */
  lemma CommandForShellIsOurs(env: Env, e: Entry, sh: Shell, before: seq<string>, after: seq<string>)
    requires before != [] && Wordy(before) && Wordy(after)
    requires CommandForShell(e, sh, before, after).Some?
    ensures CommandIsOurs(env, Ref([e.command], e.cfg), CommandForShell(e, sh, before, after).value) <==>
            (SwallowsRest(sh, e.cfg, after) ==> SamePath(env, Swollen(e.cfg, after), e.cfg))
  {
    hide CommandIsOurs, CommandForShell, Rendered, Closes, SamePath;
    CommandForShellIs(env, e, sh, before, after);
    ClosesParity(e.cfg);
    if sh.Cmd? && e.cfg != "" && TrailingBackslashes(e.cfg) % 2 == 1 {
      SwollenIsOurs(env, e, before, after);
    } else {
      RenderedIsOurs(env, SpellingFor(sh), e.command, SpellingFor(sh), e.cfg, before, after);
    }
  }

  function RuleAround(command: string): string {
    "Bash(" + command + ":*)"
  }

  /** The rules written for Claude Code, by the spelling of their binary and of their config. */
  const RULE_SPELLINGS: seq<(Spelling, Spelling)> := [(PosixQ, PosixQ), (GoQ, GoQ), (BareQ, GoQ)]

  function RuleTail(env: Env, sc: Spelling, cfg: string): string {
    " search" + (if cfg == "" then "" else " -config " + Spell(env, sc, cfg))
  }

  lemma RuleIs(env: Env, e: Entry, k: nat)
    requires k < 3
    ensures ClaudeAllowRules(env, e)[k] ==
            RuleAround(Rendered(env, RULE_SPELLINGS[k].0, e.command, RULE_SPELLINGS[k].1, e.cfg, ["search"], []))
  {
    var sp, sc := RULE_SPELLINGS[k].0, RULE_SPELLINGS[k].1;
    assert ClaudeAllowRules(env, e)[k] == "Bash(" + Spell(env, sp, e.command) + RuleTail(env, sc, e.cfg) + ":*)";
    RuleCommand(env, sp, sc, e);
    RuleText(Spell(env, sp, e.command), RuleTail(env, sc, e.cfg));
  }

  lemma RuleCommand(env: Env, sp: Spelling, sc: Spelling, e: Entry)
    requires !sp.PowerShellQ?
    ensures Rendered(env, sp, e.command, sc, e.cfg, ["search"], []) ==
            Spell(env, sp, e.command) + RuleTail(env, sc, e.cfg)
  {
    var w, rest := Spell(env, sp, e.command), Join(Arguments(env, sc, e.cfg, ["search"], []), " ");
    RuleArguments(env, sc, e);
    assert Rendered(env, sp, e.command, sc, e.cfg, ["search"], []) == "" + w + " " + rest == w + (" " + rest);
  }

  lemma RuleArguments(env: Env, sc: Spelling, e: Entry)
    ensures " " + Join(Arguments(env, sc, e.cfg, ["search"], []), " ") == RuleTail(env, sc, e.cfg)
  {
    hide Spell;
    var ws := Arguments(env, sc, e.cfg, ["search"], []);
    if e.cfg == "" {
      assert ws == ["search"];
    } else {
      var c := Spell(env, sc, e.cfg);
      assert ws == ["search"] + (["-config"] + [c]);
      JoinSplits("search", ["-config"] + [c]);
      JoinSplits("-config", [c]);
      TailText(c);
    }
  }

  lemma TailText(c: string)
    ensures " " + ("search" + (" " + ("-config" + (" " + c)))) == " search" + (" -config " + c)
  {
  }

  lemma RuleText(w: string, tail: string)
    ensures "Bash(" + w + tail + ":*)" == RuleAround(w + tail)
  {
  }

  lemma RuleUnwraps(command: string)
    ensures "Bash(" <= RuleAround(command)
    ensures TrimSuffix(TrimSuffix(RuleAround(command)[5..], ")"), ":*") == command
  {
    var inner := RuleAround(command)[5..];
    assert RuleAround(command) == "Bash(" + (command + ":*" + ")");
    assert inner == command + ":*" + ")";
    assert inner[|inner| - 1..] == ")" && inner[..|inner| - 1] == command + ":*";
    var t := command + ":*";
    assert t[|t| - 2..] == ":*" && t[..|t| - 2] == command;
  }

  /** Every rule written for this installation is recognised as this installation's. */
  lemma RulesAreOurs(env: Env, e: Entry)
    ensures forall k :: 0 <= k < |ClaudeAllowRules(env, e)| ==>
              RuleIsOurs(env, Ref([e.command], e.cfg), ClaudeAllowRules(env, e)[k])
  {
    forall k | 0 <= k < 3
      ensures RuleIsOurs(env, Ref([e.command], e.cfg), ClaudeAllowRules(env, e)[k])
    {
      var sp, sc := RULE_SPELLINGS[k].0, RULE_SPELLINGS[k].1;
      RuleIs(env, e, k);
      RenderedIsOurs(env, sp, e.command, sc, e.cfg, ["search"], []);
      RuleUnwraps(Rendered(env, sp, e.command, sc, e.cfg, ["search"], []));
    }
  }
}
