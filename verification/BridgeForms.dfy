/** What counts as a bridge at the front of a command, or around it, form by form. */
module BridgeForms {
  import opened Wrappers
  import opened Text
  import opened Ownership
  import opened Bridge
  import opened BridgeLaws

  predicate AllIn(s: string, i: int, j: int, cut: set<char>) {
    0 <= i <= j <= |s| && forall k :: i <= k < j ==> s[k] in cut
  }

  predicate NoneIn(s: string, i: int, j: int, stop: set<char>) {
    0 <= i <= j <= |s| && forall k :: i <= k < j ==> s[k] !in stop
  }

  /** All the white space there is. */
  predicate UpTo(s: string, i: int, n: int) {
    AllIn(s, i, n, WHITE) && (n < |s| ==> s[n] !in WHITE)
  }

  // ── POSIX ──

  /** The name and an equals sign, a value without white space, and white space. */
  predicate PosixShape(s: string, v: int, n: int) {
    FoldedAt(s, 0, NAME + "=") && NoneIn(s, |NAME| + 1, v, WHITE) && v < n && UpTo(s, v, n)
  }

  lemma PosixIff(s: string, n: nat)
    ensures PosixAssignment(s) == Some(n) <==> exists v :: PosixShape(s, v, n)
  {
    hide FoldedAt, Until, While;
    if FoldedAt(s, 0, NAME + "=") {
      if v: nat :| PosixShape(s, v, n) {
        UntilAt(s, |NAME| + 1, v, WHITE);
        WhileAt(s, v, n, WHITE);
      }
      if PosixAssignment(s) == Some(n) {
        assert PosixShape(s, Until(s, |NAME| + 1, WHITE), n);
      }
    }
  }

  // ── cmd ──

  /** What ends the command at `v`, up to `e`. */
  predicate CmdEnd(s: string, v: int, e: int) {
    && 0 <= v < |s|
    && ((s[v] == '\n' && e == v + 1) || (s[v] == '&' && AllIn(s, v, e, {'&'}) && (e < |s| ==> s[e] != '&')))
  }

  /** `set`, the name and an equals sign, a value, what ends the command, and white space. */
  predicate CmdShape(s: string, m: int, v: int, e: int, n: int) {
    && FoldedAt(s, 0, "set") && 3 < m && UpTo(s, 3, m) && FoldedAt(s, m, NAME + "=")
    && NoneIn(s, m + |NAME| + 1, v, {'&', '\n'}) && CmdEnd(s, v, e) && UpTo(s, e, n)
  }

  lemma CmdIff(s: string, n: nat)
    ensures CmdAssignment(s) == Some(n) <==> exists m, v, e :: CmdShape(s, m, v, e, n)
  {
    hide CmdAssignment, FoldedAt;
    if m: nat, v: nat, e: nat :| CmdShape(s, m, v, e, n) {
      CmdTakes(s, m, v, e, n);
    }
    if CmdAssignment(s) == Some(n) {
      CmdReads(s, n);
    }
  }

  lemma CmdTakes(s: string, m: nat, v: nat, e: nat, n: nat)
    requires CmdShape(s, m, v, e, n)
    ensures CmdAssignment(s) == Some(n)
  {
    hide FoldedAt, Until, While;
    WhileAt(s, 3, m, WHITE);
    UntilAt(s, m + |NAME| + 1, v, {'&', '\n'});
    if s[v] == '&' {
      WhileAt(s, v, e, {'&'});
    }
    WhileAt(s, e, n, WHITE);
  }

  lemma CmdReads(s: string, n: nat)
    requires CmdAssignment(s) == Some(n)
    ensures exists m, v, e :: CmdShape(s, m, v, e, n)
  {
    hide FoldedAt, Until, While;
    var m := While(s, 3, WHITE);
    var v := Until(s, m + |NAME| + 1, {'&', '\n'});
    var e := if s[v] == '\n' then v + 1 else While(s, v, {'&'});
    assert CmdEnd(s, v, e);
    assert CmdShape(s, m, v, e, n);
  }

  // ── PowerShell ──

  /** White space, a semicolon or a line feed at `t`, and white space. */
  predicate EndsStatement(s: string, i: int, t: int, n: int) {
    AllIn(s, i, t, WHITE) && t < n && UpTo(s, t + 1, n) && s[t] in {';', '\n'}
  }

  lemma StatementEndIff(s: string, i: nat, n: nat)
    requires i <= |s|
    ensures StatementEnd(s, i) == Some(n) <==>
            && (exists t :: EndsStatement(s, i, t, n))
            && (forall t, m :: EndsStatement(s, i, t, m) ==> m <= n)
  {
    hide While;
    var w := While(s, i, WHITE);
    forall t, m | EndsStatement(s, i, t, m)
      ensures 0 <= t <= w && t < |s| && (t == w <==> s[t] == ';') && (t < w ==> m == w)
      ensures t == w ==> m == While(s, w + 1, WHITE)
    {
      if t < w {
        WhileAt(s, t + 1, m, WHITE);
        WhileAt(s, t + 1, w, WHITE);
      } else {
        WhileAt(s, t + 1, m, WHITE);
      }
    }
    if w < |s| && s[w] == ';' {
      assert EndsStatement(s, i, w, While(s, w + 1, WHITE));
    }
    if k: nat :| i <= k < w && s[k] == '\n' {
      assert EndsStatement(s, i, k, w);
    }
  }

  predicate Quoted(s: string, v: int, u: int, q: char) {
    0 <= v && v + 2 <= u <= |s| && s[v] == q && s[u - 1] == q && NoneIn(s, v + 1, u - 1, {q})
  }

  predicate IsValue(s: string, v: int, u: int) {
    Quoted(s, v, u, SINGLE) || Quoted(s, v, u, DOUBLE) || NoneIn(s, v, u, WHITE + {';'})
  }

  /** The name, an equals sign with white space around it, a value, and the end of the statement. */
  predicate PowerShellShape(s: string, eq: int, v: int, u: int, t: int, n: int) {
    && FoldedAt(s, 0, ENV + NAME) && AllIn(s, |ENV + NAME|, eq, WHITE) && eq < |s| && s[eq] == '='
    && AllIn(s, eq + 1, v, WHITE) && IsValue(s, v, u) && EndsStatement(s, u, t, n)
  }

  lemma QuotedIff(s: string, v: nat, q: char, n: nat)
    requires v <= |s|
    ensures QuotedValue(s, v, q) == Some(n) <==> exists u: nat ::
              u <= |s| && Quoted(s, v, u, q) && StatementEnd(s, u) == Some(n)
  {
    hide Until, StatementEnd;
    if u: nat :| u <= |s| && Quoted(s, v, u, q) && StatementEnd(s, u) == Some(n) {
      UntilAt(s, v + 1, u - 1, {q});
    }
    if QuotedValue(s, v, q) == Some(n) {
      assert Quoted(s, v, Until(s, v + 1, {q}) + 1, q);
    }
  }

  lemma ValueSound(s: string, v: nat, n: nat)
    requires v <= |s| && Value(s, v) == Some(n)
    ensures exists u: nat :: u <= |s| && IsValue(s, v, u) && StatementEnd(s, u) == Some(n)
  {
    hide StatementEnd, QuotedValue, Quoted;
    QuotedIff(s, v, SINGLE, n);
    QuotedIff(s, v, DOUBLE, n);
    if QuotedValue(s, v, SINGLE) == Some(n) {
      var u: nat :| u <= |s| && Quoted(s, v, u, SINGLE) && StatementEnd(s, u) == Some(n);
      assert IsValue(s, v, u);
    } else if QuotedValue(s, v, DOUBLE) == Some(n) {
      var u: nat :| u <= |s| && Quoted(s, v, u, DOUBLE) && StatementEnd(s, u) == Some(n);
      assert IsValue(s, v, u);
    } else {
      assert IsValue(s, v, Until(s, v, WHITE + {';'}));
    }
  }

  lemma StatementEnds(s: string, i: nat, t: int, n: int)
    requires i <= |s| && EndsStatement(s, i, t, n)
    ensures StatementEnd(s, i).Some?
  {
    hide While;
    if s[t] == ';' {
      WhileAt(s, i, t, WHITE);
    } else {
      assert s[t] in WHITE;
      assert While(s, i, WHITE) > t;
    }
  }

  lemma ValueComplete(s: string, v: nat, u: nat, t: int, n: int)
    requires u <= |s| && IsValue(s, v, u) && EndsStatement(s, u, t, n)
    ensures v <= |s| && Value(s, v).Some?
  {
    StatementEnds(s, u, t, n);
    hide StatementEnd, QuotedValue;
    var end := StatementEnd(s, u).value;
    QuotedIff(s, v, SINGLE, end);
    QuotedIff(s, v, DOUBLE, end);
    if !Quoted(s, v, u, SINGLE) && !Quoted(s, v, u, DOUBLE) {
      assert s[u] in WHITE + {';'};
      UntilAt(s, v, u, WHITE + {';'});
    }
  }

  /** It is one exactly where there is such a reading, and then it ends where one does. */
  lemma PowerShellIff(s: string)
    ensures PowerShellAssignment(s).Some? <==> exists eq, v, u, t, n :: PowerShellShape(s, eq, v, u, t, n)
    ensures PowerShellAssignment(s).Some? ==>
              exists eq, v, u, t :: PowerShellShape(s, eq, v, u, t, PowerShellAssignment(s).value)
  {
    if eq: nat, v: nat, u: nat, t, n :| PowerShellShape(s, eq, v, u, t, n) {
      PowerShellTakes(s, eq, v, u, t, n);
    }
    if PowerShellAssignment(s).Some? {
      PowerShellReads(s);
    }
  }

  lemma PowerShellTakes(s: string, eq: nat, v: nat, u: nat, t: int, n: int)
    requires PowerShellShape(s, eq, v, u, t, n)
    ensures PowerShellAssignment(s).Some?
  {
    hide FoldedAt, While, Value, IsValue;
    WhileAt(s, |ENV + NAME|, eq, WHITE);
    var w := While(s, eq + 1, WHITE);
    if v == w {
      ValueComplete(s, v, u, t, n);
    } else {
      SpaceIsNoValue(s, v, u);
      if t == w {
        assert NoneIn(s, w, w, WHITE + {';'}) && EndsStatement(s, w, t, n);
        NothingIsValue(s, w);
        ValueComplete(s, w, w, t, n);
      } else {
        assert t < w && s[t] in WHITE;
        assert s[t] == '\n';
      }
    }
  }

  lemma SpaceIsNoValue(s: string, v: nat, u: int)
    requires v < |s| && s[v] in WHITE && IsValue(s, v, u)
    ensures u == v
  {
  }

  lemma NothingIsValue(s: string, v: nat)
    requires v <= |s|
    ensures IsValue(s, v, v)
  {
  }

  lemma PowerShellReads(s: string)
    requires PowerShellAssignment(s).Some?
    ensures exists eq, v, u, t :: PowerShellShape(s, eq, v, u, t, PowerShellAssignment(s).value)
  {
    hide FoldedAt, While, Value, IsValue, EndsStatement;
    var n := PowerShellAssignment(s).value;
    var eq := While(s, |ENV + NAME|, WHITE);
    var v := While(s, eq + 1, WHITE);
    if Value(s, v) == Some(n) {
      ValueSound(s, v, n);
      var u: nat :| u <= |s| && IsValue(s, v, u) && StatementEnd(s, u) == Some(n);
      StatementEndIff(s, u, n);
      var t :| EndsStatement(s, u, t, n);
      assert PowerShellShape(s, eq, v, u, t, n);
    } else {
      var k :| eq + 1 <= k < v && s[k] == '\n';
      NothingIsValue(s, eq + 1);
      EndsAtLine(s, eq + 1, k, v);
      assert PowerShellShape(s, eq, eq + 1, eq + 1, k, v);
    }
  }

  lemma EndsAtLine(s: string, i: nat, k: nat, n: nat)
    requires i <= k < n && UpTo(s, i, n) && s[k] == '\n'
    ensures EndsStatement(s, i, k, n)
  {
  }

  // ── the wrapper ──

  /** The command between the wrapper's two ends, the second with no brace but its own two. */
  lemma UnwrappedIff(s: string, inner: string)
    ensures Unwrapped(s) == Some(inner) <==>
            exists tail :: s == TRY + inner + FINALLY + (tail + "}") && '}' !in tail
  {
    hide ClosesAt, LastClose;
    if tail :| s == TRY + inner + FINALLY + (tail + "}") && '}' !in tail {
      WrappedCloses(inner, tail);
      UnwrapsAt(s, |TRY + inner|);
      Between(TRY, inner, FINALLY + (tail + "}"));
      assert s == TRY + inner + (FINALLY + (tail + "}"));
    }
    if Unwrapped(s) == Some(inner) {
      var k := |TRY + inner|;
      assert s[..|TRY|] == TRY && s[|TRY|..k] == inner;
      ClosedParts(s, k);
    }
  }

  lemma ClosedParts(s: string, k: nat)
    requires ClosesAt(s, k) && |TRY| <= k && TRY <= s
    ensures exists tail :: s == TRY + s[|TRY|..k] + FINALLY + (tail + "}") && '}' !in tail
  {
    var f := k + |FINALLY|;
    var tail := s[f..|s| - 1];
    assert s == s[..|TRY|] + s[|TRY|..k] + s[k..f] + (tail + [s[|s| - 1]]);
    assert '}' !in tail;
  }

  lemma WrappedCloses(inner: string, tail: string)
    requires '}' !in tail
    ensures var s := TRY + inner + FINALLY + (tail + "}");
            ClosesAt(s, |TRY + inner|) && forall j: nat :: ClosesAt(s, j) ==> j == |TRY + inner|
  {
    var s, k := TRY + inner + FINALLY + (tail + "}"), |TRY + inner|;
    FinallyIs();
    assert s[k..k + |FINALLY|] == FINALLY;
    assert forall j :: k + |FINALLY| <= j < |s| - 1 ==> s[j] == tail[j - k - |FINALLY|];
    forall j: nat | ClosesAt(s, j)
      ensures j == k
    {
      CharAt(s, FINALLY, j, 1);
      CharAt(s, FINALLY, k, 1);
      if j < k && k < j + |FINALLY| {
        OverlapChar(s, FINALLY, j, k);
      } else if k < j < k + |FINALLY| {
        OverlapChar(s, FINALLY, k, j);
      }
    }
  }
}
