/** Among plain paths, recognition is exact: the binary and the config decide it, nothing else. */
module OwnershipExact {
  import opened Wrappers
  import opened Text
  import opened Strconv
  import opened Ownership
  import opened Spellings
  import opened OwnershipLaws

  predicate SameConfig(env: Env, a: string, b: string) {
    if a == "" then b == "" else b != "" && SamePath(env, a, b)
  }

  // ── two spellings of plain paths that look alike name the same path ──

  lemma {:induction false} NoBackslashNoEscape(s: string, printable: Printable)
    requires forall k :: 0 <= k < |EscapeAll(s, printable)| ==> EscapeAll(s, printable)[k] != BACKSLASH
    ensures EscapeAll(s, printable) == s
  {
    if s != "" {
      var c, e := EscapeChar(s[0], printable), EscapeAll(s[1..], printable);
      assert EscapeAll(s, printable)[0] == c[0];
      assert forall k :: 0 <= k < |e| ==> e[k] == EscapeAll(s, printable)[|c| + k];
      NoBackslashNoEscape(s[1..], printable);
    }
  }

  lemma PlainHas(s: string, k: nat)
    requires Plain(s) && k < |s|
    ensures WordChar(s[k])
  {
    assert s[k] in s;
  }

  lemma PlainInQuotes(env: Env, s: string)
    requires Plain(s)
    ensures PosixQuote(s) == PowerShellQuote(s) == [SINGLE] + s + [SINGLE]
  {
    assert SINGLE !in s;
    ReplaceNothing(s, "'", POSIX_ESCAPE);
    ReplaceNothing(s, "'", POWERSHELL_ESCAPE);
  }

  lemma SpellsQuotedSame(env: Env, x: string, bin: string)
    requires Plain(x) && [DOUBLE] + x + [DOUBLE] == Quote(bin, env.printable)
    ensures x == bin
  {
    var e := EscapeAll(bin, env.printable);
    assert ([DOUBLE] + x + [DOUBLE])[1..|x| + 1] == x && Quote(bin, env.printable)[1..|e| + 1] == e;
    forall k | 0 <= k < |e|
      ensures e[k] != BACKSLASH
    {
      PlainHas(x, k);
    }
    NoBackslashNoEscape(bin, env.printable);
  }

  lemma QuotesAgree(env: Env, a: string, b: string)
    requires Quote(a, env.printable) == Quote(b, env.printable)
    ensures a == b
  {
    UnquoteQuote(a, env.printable);
    UnquoteQuote(b, env.printable);
  }

  predicate Single(sp: Spelling) {
    sp.PosixQ? || sp.PowerShellQ?
  }

  lemma SpellsStart(env: Env, sp: Spelling, x: string)
    requires Plain(x)
    ensures var w := Spell(env, sp, x);
            w != "" && w[0] == if Single(sp) then SINGLE else if sp.BareQ? then x[0] else DOUBLE
  {
  }

  lemma SpellsSame(env: Env, sp: Spelling, x: string, sq: Spelling, bin: string)
    requires Plain(x) && Plain(bin) && Spell(env, sp, x) == Spell(env, sq, bin)
    ensures x == bin
  {
    SpellsStart(env, sp, x);
    SpellsStart(env, sq, bin);
    PlainHas(x, 0);
    PlainHas(bin, 0);
    if Single(sp) {
      PlainInQuotes(env, x);
      PlainInQuotes(env, bin);
      assert ([SINGLE] + x + [SINGLE])[1..|x| + 1] == x && ([SINGLE] + bin + [SINGLE])[1..|bin| + 1] == bin;
    } else if sp.CmdQ? && sq.CmdQ? {
      assert ([DOUBLE] + x + [DOUBLE])[1..|x| + 1] == x && ([DOUBLE] + bin + [DOUBLE])[1..|bin| + 1] == bin;
    } else if sp.CmdQ? {
      SpellsQuotedSame(env, x, bin);
    } else if sp.GoQ? && sq.CmdQ? {
      SpellsQuotedSame(env, bin, x);
    } else if sp.GoQ? {
      QuotesAgree(env, x, bin);
    }
  }

  // ── the first word of a command decides which binary it runs ──

  lemma PlainCanSpell(sp: Spelling, s: string)
    requires Plain(s)
    ensures CanSpell(sp, s)
  {
    if sp.CmdQ? {
      PlainCloses(s);
    }
  }

  lemma {:induction false} PlainCloses(s: string)
    requires forall k :: 0 <= k < |s| ==> WordChar(s[k])
    ensures Closes(s) && DOUBLE !in s
  {
    if s != "" {
      PlainCloses(s[1..]);
    }
  }

  lemma FirstWordDecides(env: Env, sp: Spelling, x: string, sq: Spelling, bin: string, rest: string)
    requires Plain(x) && Plain(bin)
    requires Spell(env, sp, x) + " " <= Spell(env, sq, bin) + " " + rest
    ensures x == bin
  {
    var w, v := Spell(env, sp, x), Spell(env, sq, bin);
    var command := v + " " + rest;
    var tail := command[|w| + 1..];
    PlainCanSpell(sp, x);
    PlainCanSpell(sq, bin);
    SpelledScans(env, sp, x, " " + tail);
    SpelledScans(env, sq, bin, " " + rest);
    assert command == v + (" " + rest) && command == w + (" " + tail);
    assert w == command[..|w|] && v == command[..|v|];
    SpellsSame(env, sp, x, sq, bin);
  }

  function SpellingAt(k: nat): Spelling
    requires k < 5
    ensures Place(SpellingAt(k)) == k
  {
    [PosixQ, PowerShellQ, CmdQ, GoQ, BareQ][k]
  }

  /** The one name a plain path can have that a PowerShell command begins with. */
  const CALL := "&"

  lemma PrefixNames(env: Env, x: string, k: nat, sb: Spelling, bin: string, rest: string)
    requires Plain(x) && Plain(bin) && k < 5 && rest != "" && WordChar(rest[0])
    requires BinaryPrefixes(env, x)[k] <= Lead(sb) + Spell(env, sb, bin) + " " + rest
    ensures x == bin || (x == CALL && sb.PowerShellQ? && k == 4)
  {
    var sp := SpellingAt(k);
    PrefixAt(env, sp, x);
    if Lead(sp) == Lead(sb) {
      LeadDrops(Lead(sp), Spell(env, sp, x), Spell(env, sb, bin), rest);
      FirstWordDecides(env, sp, x, sb, bin, rest);
    } else if sp.PowerShellQ? {
      LeadQuote(PowerShellQuote(x), ReplaceAll(x, "'", POWERSHELL_ESCAPE));
      CalledBare(env, sb, bin, rest);
    } else {
      CalledByName(env, x, sp, bin, rest);
    }
  }

  lemma LeadDrops(lead: string, w: string, v: string, rest: string)
    requires lead + w + " " <= lead + v + " " + rest
    ensures w + " " <= v + " " + rest
  {
    assert lead + w + " " == lead + (w + " ") && lead + v + " " + rest == lead + (v + " " + rest);
    PrefixTail(lead, w + " ", v + " " + rest);
  }

  lemma LeadQuote(w: string, body: string)
    requires w == "'" + body + "'"
    ensures "& '" <= "& " + w + " "
  {
    assert "& " + w + " " == "& '" + (body + "'" + " ");
  }

  lemma CalledByName(env: Env, x: string, sp: Spelling, bin: string, rest: string)
    requires Plain(x) && !sp.PowerShellQ?
    requires Lead(sp) + Spell(env, sp, x) + " " <= Lead(PowerShellQ) + Spell(env, PowerShellQ, bin) + " " + rest
    ensures x == CALL && sp.BareQ?
  {
    var w := Spell(env, sp, x);
    assert Lead(sp) + w + " " == w + " ";
    SpellsStart(env, sp, x);
    var command := Lead(PowerShellQ) + Spell(env, PowerShellQ, bin) + " " + rest;
    assert (w + " ")[0] == w[0] && (w + " ")[1] == if |w| > 1 then w[1] else ' ';
    assert command[0] == '&' && command[1] == ' ';
    if |x| > 1 {
      PlainHas(x, 1);
    }
  }

  /** A bare command cannot be taken for a PowerShell one, even of a binary named `&`. */
  lemma CalledBare(env: Env, sb: Spelling, bin: string, rest: string)
    requires Plain(bin) && !sb.PowerShellQ? && rest != "" && WordChar(rest[0])
    ensures !("& '" <= Lead(sb) + Spell(env, sb, bin) + " " + rest)
  {
    var command := Lead(sb) + Spell(env, sb, bin) + " " + rest;
    SpellsStart(env, sb, bin);
    var p := "& '";
    assert p <= command ==> p[0] == command[0] && p[1] == command[1] && p[2] == command[2];
    if sb.BareQ? {
      assert command == bin + " " + rest;
      if |bin| > 1 {
        PlainHas(bin, 1);
        assert command[1] != ' ';
      } else {
        assert command[2] != SINGLE;
      }
    }
  }

  lemma {:induction false} NoPrefix(ps: seq<string>, command: string)
    requires forall k :: 0 <= k < |ps| ==> !(ps[k] <= command)
    ensures AfterPrefix(ps, command).None?
  {
    if ps != [] {
      NoPrefix(ps[1..], command);
    }
  }

  lemma CalledAway(env: Env, bin: string, rest: string)
    requires Plain(bin) && bin != CALL && rest != "" && WordChar(rest[0])
    ensures AfterPrefix(BinaryPrefixes(env, CALL), Lead(PowerShellQ) + PowerShellQuote(bin) + " " + rest)
            == Some(PowerShellQuote(bin) + " " + rest)
  {
    var command := Lead(PowerShellQ) + PowerShellQuote(bin) + " " + rest;
    var ps := BinaryPrefixes(env, CALL);
    forall k | 0 <= k < 4
      ensures !(ps[k] <= command)
    {
      if ps[k] <= command {
        assert Plain(CALL);
        PrefixNames(env, CALL, k, PowerShellQ, bin, rest);
      }
    }
    assert ps[4] == "& " && command == "& " + (PowerShellQuote(bin) + " " + rest);
    AfterPrefixAt(ps, command, 4);
  }

  ghost predicate Names(sb: Spelling, bin: string, bins: seq<string>) {
    bin in bins || (sb.PowerShellQ? && CALL in bins)
  }

  lemma {:induction false} StrippedByAny(env: Env, bins: seq<string>, sb: Spelling, bin: string, rest: string)
    requires Plain(bin) && (forall k :: 0 <= k < |bins| ==> Plain(bins[k])) && rest != "" && WordChar(rest[0])
    requires sb.BareQ? ==> rest[0] in {'h', 's'}
    ensures var r := AfterBinary(env, bins, Lead(sb) + Spell(env, sb, bin) + " " + rest);
            if Names(sb, bin, bins) then r == Some(rest) ||
              (sb.PowerShellQ? && r == Some(Spell(env, sb, bin) + " " + rest))
            else r.None?
  {
    if bins != [] {
      var command := Lead(sb) + Spell(env, sb, bin) + " " + rest;
      var x := bins[0];
      StrippedByAny(env, bins[1..], sb, bin, rest);
      assert bins == [x] + bins[1..];
      if x == bin {
        BinaryIsStripped(env, sb, bin, rest);
        assert AfterBinary(env, [bin], command) == AfterPrefix(BinaryPrefixes(env, bin), command);
      } else if x == CALL && sb.PowerShellQ? {
        CalledAway(env, bin, rest);
      } else {
        forall k | 0 <= k < 5
          ensures !(BinaryPrefixes(env, x)[k] <= command)
        {
          if BinaryPrefixes(env, x)[k] <= command {
            PrefixNames(env, x, k, sb, bin, rest);
          }
        }
        NoPrefix(BinaryPrefixes(env, x), command);
      }
    }
  }

  // ── and the config word decides the rest ──

  /** One of the paths this config reads as, spelled so, is the other; or there is no config in either. */
  ghost predicate ReadAs(env: Env, sc: Spelling, cfg: string, cfg2: string) {
    if cfg == "" then cfg2 == ""
    else cfg2 != "" && exists cand :: cand in UnquoteWord(Spell(env, sc, cfg)) && SamePath(env, cand, cfg2)
  }

  /** Written by `%q`, a path also reads as its escaped spelling, taken for the path itself. */
  predicate EscapesTo(env: Env, sc: Spelling, cfg: string, cfg2: string) {
    sc.GoQ? && cfg != "" && cfg2 != "" && SamePath(env, EscapeAll(cfg, env.printable), cfg2)
  }

  lemma ReadsOnly(env: Env, sc: Spelling, cfg: string, cand: string)
    requires Plain(cfg)
    ensures cand in UnquoteWord(Spell(env, sc, cfg)) <==>
            cand == cfg || (sc.GoQ? && cand == EscapeAll(cfg, env.printable))
  {
    var w := Spell(env, sc, cfg);
    PlainHas(cfg, 0);
    if sc.BareQ? {
      assert UnquoteWord(w) == [cfg];
    } else if Single(sc) {
      PlainInQuotes(env, cfg);
      assert w[1..|w| - 1] == cfg;
      assert SINGLE !in cfg;
      ReplaceNothing(cfg, POSIX_ESCAPE, "'");
      ReplaceNothing(cfg, POWERSHELL_ESCAPE, "'");
      assert UnquoteWord(w) == [cfg, cfg];
    } else if sc.GoQ? {
      UnquoteQuote(cfg, env.printable);
      var raw := EscapeAll(cfg, env.printable);
      assert w[1..|w| - 1] == raw && w[|w| - 1] == DOUBLE;
      assert UnquoteWord(w) == if raw == cfg then [raw] else [raw, cfg];
    } else {
      assert w == [DOUBLE] + cfg + [DOUBLE] && w[1..|w| - 1] == cfg;
      PlainUnescapes(cfg);
      assert UnquoteWord(w) == [cfg];
    }
  }

  lemma {:induction false} PlainUnescapes(s: string)
    requires forall k :: 0 <= k < |s| ==> WordChar(s[k])
    ensures UnescapeAll(s).None? || UnescapeAll(s) == Some(s)
  {
    if s != "" {
      assert s == [s[0]] + s[1..];
      PlainUnescapes(s[1..]);
    }
  }

  lemma ConfigWordAfter(w: string, words: seq<string>)
    requires w != "-config"
    ensures ConfigWord([w] + words) == ConfigWord(words)
  {
    assert ([w] + words)[1..] == words;
  }

  lemma PlainReads(env: Env, sc: Spelling, cfg: string, cfg2: string)
    requires cfg == "" || Plain(cfg)
    ensures ReadAs(env, sc, cfg, cfg2) <==> SameConfig(env, cfg, cfg2) || EscapesTo(env, sc, cfg, cfg2)
  {
    if cfg != "" {
      ReadsOnly(env, sc, cfg, cfg);
      ReadsOnly(env, sc, cfg, EscapeAll(cfg, env.printable));
      forall cand | cand in UnquoteWord(Spell(env, sc, cfg))
        ensures cand == cfg || (sc.GoQ? && cand == EscapeAll(cfg, env.printable))
      {
        ReadsOnly(env, sc, cfg, cand);
      }
    }
  }

  lemma NamesExactly(env: Env, cfg2: string, rest: string, sc: Spelling, cfg: string)
    requires ConfigWord(Words(rest)) == if cfg == "" then None else Some(Spell(env, sc, cfg))
    ensures NamesOurConfig(env, cfg2, rest) <==> ReadAs(env, sc, cfg, cfg2)
  {
    hide UnquoteWord, Spell, Words, ConfigWord;
  }

  /** A word of the command in front of its arguments leaves the config it names alone. */
  lemma WithWordInFront(env: Env, sb: Spelling, bin: string, rest: string)
    requires Plain(bin) && sb.PowerShellQ?
    ensures ConfigWord(Words(Spell(env, sb, bin) + " " + rest)) == ConfigWord(Words(rest))
  {
    SpelledIsWhole(env, sb, bin);
    SpellsStart(env, sb, bin);
    var w := Spell(env, sb, bin);
    assert w + " " + rest == w + (" " + rest);
    WordsOfSpaced(w, rest);
    assert w[0] != "-config"[0];
    ConfigWordAfter(w, Words(rest));
  }

  /** Any config at all: a rendered command is an installation's if and only if it runs one of its
      binaries, all plain paths, and its config word reads as that installation's. */
  lemma OursByReading(env: Env, bins: seq<string>, cfg2: string, sb: Spelling, bin: string,
                      sc: Spelling, cfg: string, before: seq<string>, after: seq<string>)
    requires Writable(sb, sc, cfg, before, after)
    requires Plain(bin) && forall k :: 0 <= k < |bins| ==> Plain(bins[k])
    ensures CommandIsOurs(env, Ref(bins, cfg2), Rendered(env, sb, bin, sc, cfg, before, after)) <==>
            Names(sb, bin, bins) && ReadAs(env, sc, cfg, cfg2)
  {
    hide ReadAs;
    var rest := Join(Arguments(env, sc, cfg, before, after), " ");
    PlainHas(before[0], 0);
    RestStarts(env, sc, cfg, before, after);
    StrippedByAny(env, bins, sb, bin, rest);
    ConfigRead(env, sb, sc, cfg, before, after);
    NamesExactly(env, cfg2, rest, sc, cfg);
    if sb.PowerShellQ? {
      WithWordInFront(env, sb, bin, rest);
      NamesExactly(env, cfg2, Spell(env, sb, bin) + " " + rest, sc, cfg);
    }
  }

  /** And where the binary is the installation's own, whatever characters are in it. */
  lemma OwnByReading(env: Env, cfg2: string, sb: Spelling, bin: string,
                     sc: Spelling, cfg: string, before: seq<string>, after: seq<string>)
    requires Writable(sb, sc, cfg, before, after)
    ensures CommandIsOurs(env, Ref([bin], cfg2), Rendered(env, sb, bin, sc, cfg, before, after)) <==>
            ReadAs(env, sc, cfg, cfg2)
  {
    hide ReadAs;
    var rest := Join(Arguments(env, sc, cfg, before, after), " ");
    assert before[0][0] in before[0];
    RestStarts(env, sc, cfg, before, after);
    BinaryIsStripped(env, sb, bin, rest);
    ConfigRead(env, sb, sc, cfg, before, after);
    NamesExactly(env, cfg2, rest, sc, cfg);
  }

  /** Separating, exactly: among plain paths a rendered command is an installation's if and only
      if it runs one of its binaries and names its config, or names none where it has none. There
      are two exceptions: a binary called `&` also answers for PowerShell's call operator, and a
      config whose path is the other's as `%q` escapes it reads as both. */
  lemma OursExactly(env: Env, bins: seq<string>, cfg2: string, sb: Spelling, bin: string,
                    sc: Spelling, cfg: string, before: seq<string>, after: seq<string>)
    requires Writable(sb, sc, cfg, before, after)
    requires Plain(bin) && forall k :: 0 <= k < |bins| ==> Plain(bins[k])
    requires cfg == "" || Plain(cfg)
    ensures CommandIsOurs(env, Ref(bins, cfg2), Rendered(env, sb, bin, sc, cfg, before, after)) <==>
            Names(sb, bin, bins) && (SameConfig(env, cfg, cfg2) || EscapesTo(env, sc, cfg, cfg2))
  {
    hide CommandIsOurs, Rendered, ReadAs;
    OursByReading(env, bins, cfg2, sb, bin, sc, cfg, before, after);
    PlainReads(env, sc, cfg, cfg2);
  }
}
