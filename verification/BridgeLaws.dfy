/** Stripping ends and takes everything it recognises; rewriting what was rewritten is rewriting
    the original. */
module BridgeLaws {
  import opened Wrappers
  import opened Text
  import opened Ownership
  import opened Bridge

  /** Nothing more to take: the result of stripping is a fixed point. */
  lemma {:induction false} StripIsFixed(cmd: string)
    ensures Step(Strip(cmd)).None? && Strip(Strip(cmd)) == Strip(cmd) && |Strip(cmd)| <= |cmd|
    decreases |cmd|
  {
    hide Step;
    var next := Step(cmd);
    if next.Some? {
      StripIsFixed(next.value);
    }
  }

  /** And what is left was there before, in one piece. */
  lemma {:induction false} StripIsPart(cmd: string)
    ensures Occurs(cmd, Strip(cmd))
    decreases |cmd|
  {
    hide Assignment, Unwrapped;
    var next := Step(cmd);
    if next.None? {
      assert cmd[0..0 + |cmd|] == cmd;
      assert OccursAt(cmd, cmd, 0);
    } else {
      StripIsPart(next.value);
      StepIsPart(cmd, next.value);
      PartOfPart(cmd, next.value, Strip(cmd));
    }
  }

  lemma StepIsPart(cmd: string, next: string)
    requires Step(cmd) == Some(next)
    ensures Occurs(cmd, next)
  {
    hide Assignment, LastClose, ClosesAt;
    var a := Assignment(cmd);
    if a.Some? {
      assert OccursAt(cmd, next, a.value);
    } else {
      assert OccursAt(cmd, next, |TRY|);
    }
  }

  lemma PartOfPart(a: string, b: string, c: string)
    requires Occurs(a, b) && Occurs(b, c)
    ensures Occurs(a, c)
  {
    var i :| OccursAt(a, b, i);
    var j :| OccursAt(b, c, j);
    SliceOfSlice(a, i, i + |b|, j, j + |c|);
    assert OccursAt(a, c, i + j);
  }

  lemma SliceOfSlice(a: string, i: int, n: int, j: int, m: int)
    requires 0 <= i <= n <= |a| && 0 <= j <= m <= n - i
    ensures a[i..n][j..m] == a[i + j..i + m]
  {
    forall k | 0 <= k < m - j
      ensures a[i..n][j..m][k] == a[i + j..i + m][k]
    {
      assert a[i..n][j + k] == a[i + j + k];
    }
  }

  lemma PartCarriesLess(a: string, b: string)
    requires Occurs(a, b) && CarriesUnremovable(b)
    ensures CarriesUnremovable(a)
  {
    if Occurs(b, NAME + "=") {
      PartOfPart(a, b, NAME + "=");
    } else {
      PartOfPart(a, b, NAME + " =");
    }
  }

  // ── one rewrite is recognised whole ──

  lemma {:induction false} UntilAt(s: string, i: nat, n: nat, stop: set<char>)
    requires i <= n <= |s| && (n < |s| ==> s[n] in stop) && forall k :: i <= k < n ==> s[k] !in stop
    ensures Until(s, i, stop) == n
    decreases n - i
  {
    if i < n {
      UntilAt(s, i + 1, n, stop);
    }
  }

  lemma {:induction false} WhileAt(s: string, i: nat, n: nat, cut: set<char>)
    requires i <= n <= |s| && (n < |s| ==> s[n] !in cut) && forall k :: i <= k < n ==> s[k] in cut
    ensures While(s, i, cut) == n
    decreases n - i
  {
    if i < n {
      WhileAt(s, i + 1, n, cut);
    }
  }

  lemma FoldedAtStart(text: string, rest: string)
    ensures FoldedAt(text + rest, 0, text)
  {
    assert (text + rest)[0..0 + |text|] == text;
  }

  predicate NoWhite(s: string) {
    forall k :: 0 <= k < |s| ==> s[k] !in WHITE
  }

  /** The white space a command begins with. */
  function Leading(s: string): (n: nat)
    ensures n <= |s|
  {
    While(s, 0, WHITE)
  }

  lemma {:induction false} WhileShift(a: string, s: string, i: nat, cut: set<char>)
    requires i <= |s|
    ensures While(a + s, |a| + i, cut) == |a| + While(s, i, cut)
    decreases |s| - i
  {
    if i < |s| && s[i] in cut {
      assert (a + s)[|a| + i] == s[i];
      WhileShift(a, s, i + 1, cut);
    }
  }

  lemma PosixTaken(bridge: string, cmd: string)
    requires NoWhite(bridge)
    ensures Step(PosixForm(bridge, cmd)) == Some(cmd[Leading(cmd)..])
  {
    hide Step, PosixAssignment, While, Until, FoldedAt;
    var key := NAME + "=";
    var s, v := PosixForm(bridge, cmd), |key| + |bridge|;
    assert s == key + (bridge + (" " + cmd));
    FoldedAtStart(key, bridge + (" " + cmd));
    PosixValue(key, bridge, cmd);
    PosixSpaces(key + bridge, cmd);
    PosixAt(s, v, v + 1 + Leading(cmd));
    StepAt(s, v + 1 + Leading(cmd));
  }

  lemma PosixAt(s: string, v: nat, end: nat)
    requires FoldedAt(s, 0, NAME + "=") && Until(s, |NAME| + 1, WHITE) == v && While(s, v, WHITE) == end && end > v
    ensures PosixAssignment(s) == Some(end)
  {
    hide FoldedAt, Until, While;
  }

  lemma StepAt(s: string, end: nat)
    requires PosixAssignment(s) == Some(end)
    ensures Step(s) == Some(s[end..])
  {
    hide PosixAssignment, PowerShellAssignment, CmdAssignment, Unwrapped;
  }

  lemma WhileStep(s: string, i: nat, cut: set<char>)
    requires i < |s| && s[i] in cut
    ensures While(s, i, cut) == While(s, i + 1, cut)
  {
  }

  lemma PosixSpaces(front: string, cmd: string)
    ensures While(front + " " + cmd, |front|, WHITE) == |front| + 1 + Leading(cmd)
    ensures (front + " " + cmd)[|front| + 1 + Leading(cmd)..] == cmd[Leading(cmd)..]
  {
    hide While;
    var a := front + " ";
    WhileShift(a, cmd, 0, WHITE);
    assert (a + cmd)[|front|] == ' ' && |a| + 0 == |front| + 1;
    WhileStep(a + cmd, |front|, WHITE);
  }

  lemma PosixValue(key: string, bridge: string, cmd: string)
    requires NoWhite(bridge)
    ensures Until(key + bridge + " " + cmd, |key|, WHITE) == |key| + |bridge|
  {
    var s := key + bridge + " " + cmd;
    forall k | |key| <= k < |key| + |bridge|
      ensures s[k] !in WHITE
    {
      assert s[k] == bridge[k - |key|];
    }
    assert s[|key| + |bridge|] == ' ';
    UntilAt(s, |key|, |key| + |bridge|, WHITE);
  }

  lemma FoldedFirst(s: string, text: string)
    requires text != ""
    ensures FoldedAt(s, 0, text) ==> s != "" && Fold(s[0]) == Fold(text[0])
  {
    if FoldedAt(s, 0, text) {
      assert s[0..0 + |text|][0] == s[0];
    }
  }

  lemma NoPosix(s: string)
    requires s != "" && s[0] == '$'
    ensures PosixAssignment(s).None?
  {
    FoldedFirst(s, NAME + "=");
  }

  const OPEN := " = '"

  lemma AssignedQuoted(s: string, eq: nat, v: nat, end: nat)
    requires FoldedAt(s, 0, ENV + NAME) && |ENV + NAME| <= eq < v <= |s|
    requires While(s, |ENV + NAME|, WHITE) == eq && s[eq] == '=' && While(s, eq + 1, WHITE) == v
    requires QuotedValue(s, v, SINGLE) == Some(end)
    ensures PowerShellAssignment(s) == Some(end)
  {
    hide FoldedAt, While, QuotedValue, StatementEnd;
  }

  lemma OpenWhite(s: string, at: nat)
    requires at + 4 <= |s| && s[at] == ' ' && s[at + 1] == '=' && s[at + 2] == ' ' && s[at + 3] == SINGLE
    ensures While(s, at, WHITE) == at + 1 && While(s, at + 2, WHITE) == at + 3
  {
    hide While;
    WhileAt(s, at, at + 1, WHITE);
    WhileAt(s, at + 2, at + 3, WHITE);
  }

  lemma OpenedParts(key: string, open: string, bridge: string, tail: string)
    requires |open| == 4 && open[3] == SINGLE
    ensures var s := key + open + bridge + "'; " + tail;
            && s == key + (open + (bridge + ("'; " + tail)))
            && s == (key + open[..3]) + "'" + bridge + "'; " + tail
            && (forall k :: 0 <= k < 4 ==> s[|key| + k] == open[k])
  {
    assert open == open[..3] + "'";
  }

  lemma PowerShellAssigned(bridge: string, tail: string)
    requires SINGLE !in bridge && tail != "" && tail[0] !in WHITE
    ensures var s := ENV + NAME + OPEN + bridge + "'; " + tail;
            PowerShellAssignment(s).Some? && s[PowerShellAssignment(s).value..] == tail && s[0] == '$'
  {
    hide FoldedAt, PowerShellAssignment, QuotedValue, While;
    var key := ENV + NAME;
    var s := key + OPEN + bridge + "'; " + tail;
    OpenedParts(key, OPEN, bridge, tail);
    FoldedAtStart(key, OPEN + (bridge + ("'; " + tail)));
    OpenWhite(s, |key|);
    QuotedTaken(key + OPEN[..3], bridge, tail);
    AssignedQuoted(s, |key| + 1, |key| + 3, |key| + 3 + |bridge| + 4);
  }

  lemma PowerShellTaken(bridge: string, cmd: string)
    requires SINGLE !in bridge
    ensures Step(PowerShellForm(bridge, cmd)) == Some(TRY + cmd + FINALLY + REMOVAL)
  {
    hide PowerShellAssignment, CmdAssignment, Unwrapped, PosixAssignment, Fold, FoldedAt;
    var tail := TRY + cmd + FINALLY + REMOVAL;
    assert tail[0] == TRY[0];
    PowerShellAssigned(bridge, tail);
    assert ENV + NAME + OPEN + bridge + "'; " + tail == PowerShellForm(bridge, cmd);
    NoPosix(PowerShellForm(bridge, cmd));
  }

  /** A quoted value and its semicolon, at the end of `front`. */
  lemma QuotedTaken(front: string, bridge: string, tail: string)
    requires SINGLE !in bridge && tail != "" && tail[0] !in WHITE
    ensures var s := front + "'" + bridge + "'; " + tail;
            QuotedValue(s, |front|, SINGLE) == Some(|front| + |bridge| + 4) && s[|front| + |bridge| + 4..] == tail
  {
    var s := front + "'" + bridge + "'; " + tail;
    var close := |front| + 1 + |bridge|;
    forall k | |front| + 1 <= k < close
      ensures s[k] != SINGLE
    {
      assert s[k] == bridge[k - |front| - 1] && bridge[k - |front| - 1] in bridge;
    }
    assert s[close] == SINGLE && s[close + 1] == ';' && s[close + 2] == ' ' && s[close + 3] == tail[0];
    UntilAt(s, |front| + 1, close, {SINGLE});
    WhileAt(s, close + 1, close + 1, WHITE);
    WhileAt(s, close + 2, close + 3, WHITE);
  }

  // ── the wrapper comes off ──

  lemma FoldedSecond(s: string, text: string)
    requires |text| > 1
    ensures FoldedAt(s, 0, text) ==> |s| > 1 && Fold(s[1]) == Fold(text[1])
  {
    if FoldedAt(s, 0, text) {
      assert s[0..0 + |text|][1] == s[1];
    }
  }

  lemma TryIsNoAssignment(s: string)
    requires |s| > 1 && s[0] == 't' && s[1] == 'r'
    ensures Assignment(s).None?
  {
    hide FoldedAt, While, Until, Value;
    FoldedSecond(s, NAME + "=");
    FoldedFirst(s, ENV + NAME);
    FoldedFirst(s, "set");
  }

  lemma FinallyIs()
    ensures |FINALLY| > 2 && FINALLY[0] == '\n' && FINALLY[1] == '}'
    ensures forall k :: 0 < k < |FINALLY| ==> FINALLY[k] != '\n'
  {
    var a := "\n} finally { Remove-Item Env:";
    assert forall k :: 0 < k < |a| ==> a[k] != '\n';
    assert forall k :: 0 <= k < |NAME| ==> NAME[k] != '\n';
  }

  lemma RemovalIs()
    ensures REMOVAL != "" && REMOVAL[|REMOVAL| - 1] == '}'
    ensures forall k :: 0 <= k < |REMOVAL| - 1 ==> REMOVAL[k] != '}' && REMOVAL[k] != '\n'
  {
  }

  lemma EndsIn(front: string, f: string, r: string)
    requires |f| > 2 && f[1] == '}' && forall k :: 0 < k < |f| ==> f[k] != '\n'
    requires r != "" && r[|r| - 1] == '}' && forall k :: 0 <= k < |r| - 1 ==> r[k] != '}' && r[k] != '\n'
    ensures var s, k := front + f + r, |front|;
            && s[k..k + |f|] == f && s[k + 1] == '}' && s[|s| - 1] == '}'
            && (forall m :: k < m < |s| ==> s[m] != '\n')
            && (forall m :: k + |f| <= m < |s| - 1 ==> s[m] != '}')
  {
    var s, k := front + f + r, |front|;
    forall m | k <= m < |s|
      ensures s[m] == if m < k + |f| then f[m - k] else r[m - k - |f|]
    {
    }
  }

  lemma ClosesHere(front: string)
    ensures var s := front + FINALLY + REMOVAL;
            && ClosesAt(s, |front|) && s[|front| + 1] == '}' && |front| + 1 < |s| - 1
            && forall m :: |front| < m < |s| ==> s[m] != '\n'
  {
    FinallyIs();
    RemovalIs();
    EndsIn(front, FINALLY, REMOVAL);
  }

  lemma OverlapChar(s: string, p: string, j: nat, k: nat)
    requires OccursAt(s, p, j) && OccursAt(s, p, k) && j <= k < j + |p|
    ensures p[k - j] == p[0]
  {
    CharAt(s, p, j, k - j);
    CharAt(s, p, k, 0);
  }

  /** The wrapper closes in one place only, whatever the command inside it holds. */
  lemma ClosesOnce(front: string, j: nat)
    ensures var s := front + FINALLY + REMOVAL; ClosesAt(s, |front|) && (ClosesAt(s, j) ==> j == |front|)
  {
    var s, k := front + FINALLY + REMOVAL, |front|;
    FinallyIs();
    ClosesHere(front);
    if ClosesAt(s, j) {
      CharAt(s, FINALLY, j, 0);
      if j <= k < j + |FINALLY| {
        OverlapChar(s, FINALLY, j, k);
      }
    }
  }

  lemma UnwrapsAt(s: string, k: nat)
    requires TRY <= s && |TRY| <= k <= |s| && ClosesAt(s, k) && forall j: nat :: ClosesAt(s, j) ==> j == k
    ensures Unwrapped(s) == Some(s[|TRY|..k])
  {
    hide ClosesAt, LastClose;
    var r := LastClose(s, |s|);
    assert r == Some(k);
  }

  lemma Between(a: string, b: string, c: string)
    requires |a| > 1
    ensures (a + b + c)[0] == a[0] && (a + b + c)[1] == a[1] && (a + b + c)[|a|..|a + b|] == b
  {
  }

  lemma WrapperTaken(cmd: string)
    ensures Step(TRY + cmd + FINALLY + REMOVAL) == Some(cmd)
  {
    hide ClosesAt, Assignment, Unwrapped, Step;
    var s, k := TRY + cmd + FINALLY + REMOVAL, |TRY + cmd|;
    assert s == TRY + cmd + (FINALLY + REMOVAL);
    Between(TRY, cmd, FINALLY + REMOVAL);
    TryIsNoAssignment(s);
    forall j: nat
      ensures ClosesAt(s, k) && (ClosesAt(s, j) ==> j == k)
    {
      ClosesOnce(TRY + cmd, j);
    }
    UnwrapsAt(s, k);
    StepUnwraps(s, cmd);
  }

  lemma StepUnwraps(s: string, inner: string)
    requires Assignment(s).None? && Unwrapped(s) == Some(inner)
    ensures Step(s) == Some(inner)
  {
    hide Assignment, Unwrapped;
  }

  // ── rewriting again ──

  /** A value the shell's syntax carries as it is. */
  predicate Carried(sh: Shell, bridge: string) {
    if sh.PowerShell? then SINGLE !in bridge else NoWhite(bridge)
  }

  predicate Base64Url(bridge: string) {
    forall k :: 0 <= k < |bridge| ==>
      'a' <= bridge[k] <= 'z' || 'A' <= bridge[k] <= 'Z' || '0' <= bridge[k] <= '9' || bridge[k] == '-' ||
        bridge[k] == '_'
  }

  lemma Base64UrlIsCarried(sh: Shell, bridge: string)
    requires Base64Url(bridge)
    ensures Carried(sh, bridge)
  {
  }

  lemma StripSteps(cmd: string, next: string)
    requires Step(cmd) == Some(next)
    ensures Strip(cmd) == Strip(next)
  {
    hide Step;
  }

  /** Stripping what was put on gives back what it was put on, but for white space in front of
      a POSIX command. */
  lemma StripUndoes(sh: Shell, bridge: string, cmd: string)
    requires Carried(sh, bridge) && (sh.Posix? || sh.PowerShell?)
    ensures Strip(if sh.PowerShell? then PowerShellForm(bridge, cmd) else PosixForm(bridge, cmd)) ==
            Strip(if sh.PowerShell? then cmd else cmd[Leading(cmd)..])
  {
    hide Step, Strip, PowerShellForm, PosixForm;
    if sh.PowerShell? {
      PowerShellTaken(bridge, cmd);
      StripSteps(PowerShellForm(bridge, cmd), TRY + cmd + FINALLY + REMOVAL);
      WrapperTaken(cmd);
      StripSteps(TRY + cmd + FINALLY + REMOVAL, cmd);
    } else {
      PosixTaken(bridge, cmd);
      StripSteps(PosixForm(bridge, cmd), cmd[Leading(cmd)..]);
    }
  }

  lemma SpacedAway(bridge: string, stripped: string)
    requires !CarriesUnremovable(stripped) && Leading(stripped) > 0
    ensures var inner := Strip(stripped[Leading(stripped)..]);
            !CarriesUnremovable(inner) && PosixForm(bridge, inner) != PosixForm(bridge, stripped)
  {
    hide Strip, CarriesUnremovable, Leading;
    var tail := stripped[Leading(stripped)..];
    StripIsFixed(tail);
    StripIsPart(tail);
    assert OccursAt(stripped, tail, Leading(stripped));
    PartOfPart(stripped, tail, Strip(tail));
    if CarriesUnremovable(Strip(tail)) {
      PartCarriesLess(stripped, Strip(tail));
    }
    assert |PosixForm(bridge, Strip(tail))| < |PosixForm(bridge, stripped)|;
  }

  /** A command already carrying a bridge is rewritten exactly as the original would be: in
      PowerShell always, in POSIX exactly when the stripped command does not begin with white
      space. */
  lemma RewriteAgain(sh: Shell, first: string, second: string, cmd: string)
    requires Carried(sh, first) && WithBridge(sh, first, cmd).Some?
    ensures WithBridge(sh, second, WithBridge(sh, first, cmd).value) == WithBridge(sh, second, cmd) <==>
            sh.PowerShell? || Leading(Strip(cmd)) == 0
  {
    hide Strip, Leading, CarriesUnremovable, PowerShellForm, PosixForm, Step;
    var stripped := Strip(cmd);
    StripIsFixed(cmd);
    StripUndoes(sh, first, stripped);
    if sh.Posix? {
      if Leading(stripped) == 0 {
        assert stripped[0..] == stripped;
      } else {
        SpacedAway(second, stripped);
      }
    }
  }
}
