/** Every spelling the client writes a path in, scanned and read back. */
module Spellings {
  import opened Wrappers
  import opened Text
  import opened Strconv
  import opened Ownership

  datatype Spelling = PosixQ | PowerShellQ | CmdQ | GoQ | BareQ

  function Spell(env: Env, sp: Spelling, s: string): string {
    match sp
    case PosixQ => PosixQuote(s)
    case PowerShellQ => PowerShellQuote(s)
    case CmdQ => [DOUBLE] + s + [DOUBLE]
    case GoQ => Quote(s, env.printable)
    case BareQ => s
  }

  predicate WordChar(c: char) {
    c != ' ' && c != BACKSLASH && !IsQuote(c)
  }

  /** A word that needs no quoting. */
  predicate Plain(s: string) {
    s != "" && forall c :: c in s ==> WordChar(c)
  }

  /** The scanner, inside double quotes, is not left in the middle of an escape. */
  predicate Closes(s: string)
    decreases |s|
  {
    if s == "" then true
    else if s[0] == BACKSLASH then |s| > 1 && Closes(s[2..])
    else Closes(s[1..])
  }

  predicate CanSpell(sp: Spelling, s: string) {
    match sp
    case CmdQ => DOUBLE !in s && Closes(s)
    case BareQ => Plain(s)
    case _ => true
  }

  /** Followed by a space or nothing, the scanner takes exactly `w` as one word. */
  ghost predicate Whole(w: string) {
    && w != "" && w[0] != ' '
    && forall rest {:trigger WordLen(w + rest, None)} ::
         (rest == "" || rest[0] == ' ') ==> WordLen(w + rest, None) == |w|
  }

  // ── one spelled word is one scanned word ──

  lemma ScansOne(c: char, t: string, q: Option<char>)
    requires c == BACKSLASH && t != "" ==> q != Some(DOUBLE) && (q.None? ==> !IsQuote(t[0]))
    requires c == ' ' ==> q.Some?
    ensures WordLen([c] + t, q) ==
            1 + WordLen(t, if q.Some? then (if c == q.value then None else q) else if IsQuote(c) then Some(c) else None)
  {
    assert ([c] + t)[1..] == t;
  }

  lemma ScansTwo(c: char, d: char, t: string, q: Option<char>)
    requires c == BACKSLASH && (q == Some(DOUBLE) || (q.None? && IsQuote(d)))
    ensures WordLen([c, d] + t, q) == 2 + WordLen(t, q)
  {
    assert ([c, d] + t)[2..] == t;
  }

  predicate Ends(rest: string) {
    rest == "" || rest[0] == ' '
  }

  lemma {:induction false} PlainScans(s: string, rest: string)
    requires (forall k :: 0 <= k < |s| ==> WordChar(s[k])) && Ends(rest)
    ensures WordLen(s + rest, None) == |s|
  {
    if s == "" {
      assert s + rest == rest;
    } else {
      assert s + rest == [s[0]] + (s[1..] + rest);
      ScansOne(s[0], s[1..] + rest, None);
      PlainScans(s[1..], rest);
    }
  }

  lemma PosixEscapeScans(t: string)
    ensures WordLen(POSIX_ESCAPE + t, Some(SINGLE)) == 4 + WordLen(t, Some(SINGLE))
  {
    assert POSIX_ESCAPE + t == [SINGLE] + ([BACKSLASH, SINGLE] + ([SINGLE] + t));
    ScansOne(SINGLE, [BACKSLASH, SINGLE] + ([SINGLE] + t), Some(SINGLE));
    ScansTwo(BACKSLASH, SINGLE, [SINGLE] + t, None);
    ScansOne(SINGLE, t, None);
  }

  lemma {:induction false} PosixScans(s: string, rest: string)
    requires Ends(rest)
    ensures WordLen(ReplaceAll(s, "'", POSIX_ESCAPE) + ([SINGLE] + rest), Some(SINGLE))
            == |ReplaceAll(s, "'", POSIX_ESCAPE)| + 1
  {
    if s == "" {
      assert "" + ([SINGLE] + rest) == [SINGLE] + rest;
      ScansOne(SINGLE, rest, Some(SINGLE));
    } else {
      var e := ReplaceAll(s[1..], "'", POSIX_ESCAPE);
      var t := e + ([SINGLE] + rest);
      PosixScans(s[1..], rest);
      assert s == [s[0]] + s[1..];
      ReplaceOne(s[0], s[1..], SINGLE, POSIX_ESCAPE);
      if s[0] == SINGLE {
        assert (POSIX_ESCAPE + e) + ([SINGLE] + rest) == POSIX_ESCAPE + t;
        PosixEscapeScans(t);
      } else {
        assert ([s[0]] + e) + ([SINGLE] + rest) == [s[0]] + t;
        ScansOne(s[0], t, Some(SINGLE));
      }
    }
  }

  lemma {:induction false} PowerShellScans(s: string, rest: string)
    requires Ends(rest)
    ensures WordLen(ReplaceAll(s, "'", POWERSHELL_ESCAPE) + ([SINGLE] + rest), Some(SINGLE))
            == |ReplaceAll(s, "'", POWERSHELL_ESCAPE)| + 1
  {
    if s == "" {
      assert "" + ([SINGLE] + rest) == [SINGLE] + rest;
      ScansOne(SINGLE, rest, Some(SINGLE));
    } else {
      var e := ReplaceAll(s[1..], "'", POWERSHELL_ESCAPE);
      var t := e + ([SINGLE] + rest);
      PowerShellScans(s[1..], rest);
      assert s == [s[0]] + s[1..];
      ReplaceOne(s[0], s[1..], SINGLE, POWERSHELL_ESCAPE);
      if s[0] == SINGLE {
        assert (POWERSHELL_ESCAPE + e) + ([SINGLE] + rest) == [SINGLE] + ([SINGLE] + t);
        ScansOne(SINGLE, [SINGLE] + t, Some(SINGLE));
        ScansOne(SINGLE, t, None);
      } else {
        assert ([s[0]] + e) + ([SINGLE] + rest) == [s[0]] + t;
        ScansOne(s[0], t, Some(SINGLE));
      }
    }
  }

  lemma {:induction false} CmdScans(s: string, rest: string)
    requires DOUBLE !in s && Closes(s) && Ends(rest)
    ensures WordLen(s + ([DOUBLE] + rest), Some(DOUBLE)) == |s| + 1
    decreases |s|
  {
    if s == "" {
      assert s + ([DOUBLE] + rest) == [DOUBLE] + rest;
      ScansOne(DOUBLE, rest, Some(DOUBLE));
    } else if s[0] == BACKSLASH {
      var t := s[2..] + ([DOUBLE] + rest);
      assert s + ([DOUBLE] + rest) == [s[0], s[1]] + t;
      CmdScans(s[2..], rest);
      ScansTwo(s[0], s[1], t, Some(DOUBLE));
    } else {
      var t := s[1..] + ([DOUBLE] + rest);
      assert s + ([DOUBLE] + rest) == [s[0]] + t;
      CmdScans(s[1..], rest);
      ScansOne(s[0], t, Some(DOUBLE));
    }
  }

  lemma {:induction false} HexScans(h: string, t: string)
    requires forall k :: 0 <= k < |h| ==> h[k] != DOUBLE && h[k] != BACKSLASH
    ensures WordLen(h + t, Some(DOUBLE)) == |h| + WordLen(t, Some(DOUBLE))
  {
    if h == "" {
      assert h + t == t;
    } else {
      assert h + t == [h[0]] + (h[1..] + t);
      ScansOne(h[0], h[1..] + t, Some(DOUBLE));
      HexScans(h[1..], t);
    }
  }

  lemma EscapeScans(c: char, t: string, printable: Printable)
    ensures WordLen(EscapeChar(c, printable) + t, Some(DOUBLE)) ==
            |EscapeChar(c, printable)| + WordLen(t, Some(DOUBLE))
  {
    var e := EscapeChar(c, printable);
    if e[0] == BACKSLASH {
      assert e + t == [e[0], e[1]] + (e[2..] + t);
      ScansTwo(e[0], e[1], e[2..] + t, Some(DOUBLE));
      HexScans(e[2..], t);
    } else {
      ScansOne(c, t, Some(DOUBLE));
    }
  }

  lemma {:induction false} GoScans(s: string, rest: string, printable: Printable)
    requires Ends(rest)
    ensures WordLen(EscapeAll(s, printable) + ([DOUBLE] + rest), Some(DOUBLE)) == |EscapeAll(s, printable)| + 1
  {
    if s == "" {
      assert "" + ([DOUBLE] + rest) == [DOUBLE] + rest;
      ScansOne(DOUBLE, rest, Some(DOUBLE));
    } else {
      var c, e := EscapeChar(s[0], printable), EscapeAll(s[1..], printable);
      GoScans(s[1..], rest, printable);
      assert (c + e) + ([DOUBLE] + rest) == c + (e + ([DOUBLE] + rest));
      EscapeScans(s[0], e + ([DOUBLE] + rest), printable);
    }
  }

  /** An opening quote, `body`, and the same quote again, met as the scanner meets it. */
  lemma QuotedScans(q: char, body: string, rest: string)
    requires IsQuote(q) && WordLen(body + ([q] + rest), Some(q)) == |body| + 1
    ensures WordLen(([q] + body + [q]) + rest, None) == |[q] + body + [q]|
  {
    assert ([q] + body + [q]) + rest == [q] + (body + ([q] + rest));
    ScansOne(q, body + ([q] + rest), None);
  }

  lemma SpelledScans(env: Env, sp: Spelling, s: string, rest: string)
    requires CanSpell(sp, s) && Ends(rest)
    ensures WordLen(Spell(env, sp, s) + rest, None) == |Spell(env, sp, s)|
  {
    match sp
    case PosixQ =>
      PosixScans(s, rest);
      QuotedScans(SINGLE, ReplaceAll(s, "'", POSIX_ESCAPE), rest);
    case PowerShellQ =>
      PowerShellScans(s, rest);
      QuotedScans(SINGLE, ReplaceAll(s, "'", POWERSHELL_ESCAPE), rest);
    case CmdQ =>
      CmdScans(s, rest);
      QuotedScans(DOUBLE, s, rest);
    case GoQ =>
      GoScans(s, rest, env.printable);
      QuotedScans(DOUBLE, EscapeAll(s, env.printable), rest);
    case BareQ =>
      PlainScans(s, rest);
  }

  lemma SpelledIsWhole(env: Env, sp: Spelling, s: string)
    requires CanSpell(sp, s)
    ensures Whole(Spell(env, sp, s))
  {
    var w := Spell(env, sp, s);
    forall rest | rest == "" || rest[0] == ' '
      ensures WordLen(w + rest, None) == |w|
    {
      SpelledScans(env, sp, s, rest);
    }
  }

  /** The first word of a line, by the scanner. */
  lemma WordsOfWhole(w: string, tail: string)
    requires Whole(w) && Ends(tail)
    ensures Words(w + tail) == [w] + Words(tail)
  {
    var u := w + tail;
    assert u[0] == w[0];
    FirstWord(u, u);
    assert u[..|w|] == w && u[|w|..] == tail;
  }

  lemma SpaceSkipped(t: string)
    ensures Words(" " + t) == Words(t)
  {
    assert (" " + t)[1..] == t;
  }

  lemma WordsOfSpaced(w: string, rest: string)
    requires Whole(w)
    ensures Words(w + (" " + rest)) == [w] + Words(rest)
  {
    WordsOfWhole(w, " " + rest);
    SpaceSkipped(rest);
  }

  lemma JoinSplits(w: string, ws: seq<string>)
    requires ws != []
    ensures Join([w] + ws, " ") == w + (" " + Join(ws, " "))
  {
    assert ([w] + ws)[1..] == ws;
  }

  /** The words of a joined command are the words that were joined. */
  lemma {:induction false} WordsOfJoin(ws: seq<string>)
    requires forall k :: 0 <= k < |ws| ==> Whole(ws[k])
    ensures Words(Join(ws, " ")) == ws
  {
    if |ws| == 1 {
      assert ws[0] + "" == ws[0];
      WordsOfWhole(ws[0], "");
    } else if |ws| > 1 {
      WordsOfJoin(ws[1..]);
      JoinSplits(ws[0], ws[1..]);
      assert ws == [ws[0]] + ws[1..];
      WordsOfSpaced(ws[0], Join(ws[1..], " "));
    }
  }

  // ── what was spelled is what is read ──

  lemma ReadsBack(env: Env, sp: Spelling, s: string)
    requires CanSpell(sp, s)
    ensures s in UnquoteWord(Spell(env, sp, s))
  {
    var w := Spell(env, sp, s);
    match sp
    case PosixQ =>
      assert w[1..|w| - 1] == ReplaceAll(s, "'", POSIX_ESCAPE);
      UnescapeEscape(s, SINGLE, POSIX_ESCAPE);
      assert UnquoteWord(w)[0] == s;
    case PowerShellQ =>
      assert w[1..|w| - 1] == ReplaceAll(s, "'", POWERSHELL_ESCAPE);
      UnescapeEscape(s, SINGLE, POWERSHELL_ESCAPE);
      assert UnquoteWord(w)[1] == s;
    case CmdQ =>
      assert w[1..|w| - 1] == s;
      assert UnquoteWord(w)[0] == s;
    case GoQ =>
      UnquoteQuote(s, env.printable);
      var r := UnquoteWord(w);
      assert |w| >= 2 && w[0] == DOUBLE && w[|w| - 1] == DOUBLE;
      assert r[|r| - 1] == s;
    case BareQ =>
      assert w[0] in s;
  }

  /** The scanner is thrown off by exactly the paths with an odd run of backslashes at the end. */
  function TrailingBackslashes(s: string): nat {
    if s != "" && s[|s| - 1] == BACKSLASH then 1 + TrailingBackslashes(s[..|s| - 1]) else 0
  }

  lemma {:induction false} ClosesParity(s: string)
    ensures Closes(s) <==> TrailingBackslashes(s) % 2 == 0
    decreases |s|
  {
    if s != "" {
      TrailingOfTail(s);
      if s[0] == BACKSLASH && |s| > 1 {
        TrailingOfTail(s[1..]);
        assert s[1..][1..] == s[2..];
        ClosesParity(s[2..]);
      } else if |s| > 1 {
        ClosesParity(s[1..]);
      }
    }
  }

  lemma {:induction false} TrailingOfTail(s: string)
    requires s != ""
    ensures TrailingBackslashes(s) == (if s[0] == BACKSLASH && TrailingBackslashes(s[1..]) == |s| - 1 then |s|
                                       else TrailingBackslashes(s[1..]))
    ensures TrailingBackslashes(s[1..]) <= |s| - 1
  {
    if |s| > 1 {
      var t := s[..|s| - 1];
      TrailingOfTail(t);
      assert t[1..] == s[1..][..|s| - 2];
    }
  }

  // ── a double-quoted path that swallows its closing quote ──

  lemma {:induction false} RestScans(rest: string)
    requires forall k :: 0 <= k < |rest| ==> rest[k] != DOUBLE && rest[k] != BACKSLASH
    ensures WordLen(rest, Some(DOUBLE)) == |rest|
  {
    HexScans(rest, "");
    assert rest + "" == rest;
  }

  lemma {:induction false} OpenScans(s: string, rest: string)
    requires DOUBLE !in s && !Closes(s)
    requires forall k :: 0 <= k < |rest| ==> rest[k] != DOUBLE && rest[k] != BACKSLASH
    ensures WordLen(s + ([DOUBLE] + rest), Some(DOUBLE)) == |s| + 1 + |rest|
    decreases |s|
  {
    if s[0] == BACKSLASH && |s| == 1 {
      assert s + ([DOUBLE] + rest) == [BACKSLASH, DOUBLE] + rest;
      ScansTwo(BACKSLASH, DOUBLE, rest, Some(DOUBLE));
      RestScans(rest);
    } else if s[0] == BACKSLASH {
      assert s + ([DOUBLE] + rest) == [s[0], s[1]] + (s[2..] + ([DOUBLE] + rest));
      ScansTwo(s[0], s[1], s[2..] + ([DOUBLE] + rest), Some(DOUBLE));
      OpenScans(s[2..], rest);
    } else {
      assert s + ([DOUBLE] + rest) == [s[0]] + (s[1..] + ([DOUBLE] + rest));
      ScansOne(s[0], s[1..] + ([DOUBLE] + rest), Some(DOUBLE));
      OpenScans(s[1..], rest);
    }
  }

  lemma OneWordLine(u: string)
    requires u != "" && u[0] != ' ' && WordLen(u, None) == |u|
    ensures Words(u) == [u]
  {
    FirstWord(u, u);
    assert u[..|u|] == u && u[|u|..] == "";
  }

  /** The rest of the line becomes one word with the config. */
  lemma SwallowedWords(cfg: string, tail: string)
    requires DOUBLE !in cfg && !Closes(cfg)
    requires forall k :: 0 <= k < |tail| ==> tail[k] != DOUBLE && tail[k] != BACKSLASH
    ensures Words([DOUBLE] + cfg + [DOUBLE] + tail) == [[DOUBLE] + cfg + [DOUBLE] + tail]
  {
    OpenScans(cfg, tail);
    ScansOne(DOUBLE, cfg + ([DOUBLE] + tail), None);
    Opened(cfg, tail);
    OneWordLine([DOUBLE] + cfg + [DOUBLE] + tail);
  }

  lemma Opened(cfg: string, tail: string)
    ensures [DOUBLE] + cfg + [DOUBLE] + tail == [DOUBLE] + (cfg + ([DOUBLE] + tail))
  {
  }
}
