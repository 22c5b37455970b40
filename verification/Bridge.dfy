/** The trace bridge on a command: put on in the shell's syntax, and taken off again. */
module Bridge {
  import opened Wrappers
  import opened Text
  import opened Ownership

  const NAME := "TOKENDROP_TRACE_BRIDGE"

  /** A regular expression's `\s`. */
  const WHITE: set<char> := {'\t', '\n', '\U{0C}', '\r', ' '}

  // ── recognising one assignment at the front ──

  /** How many characters from `i` on are outside `stop`. */
  function Until(s: string, i: nat, stop: set<char>): (n: nat)
    requires i <= |s|
    ensures i <= n <= |s| && (n < |s| ==> s[n] in stop) && forall k :: i <= k < n ==> s[k] !in stop
    decreases |s| - i
  {
    if i == |s| || s[i] in stop then i else Until(s, i + 1, stop)
  }

  function While(s: string, i: nat, cut: set<char>): (n: nat)
    requires i <= |s|
    ensures i <= n <= |s| && (n < |s| ==> s[n] !in cut) && forall k :: i <= k < n ==> s[k] in cut
    decreases |s| - i
  {
    if i < |s| && s[i] in cut then While(s, i + 1, cut) else i
  }

  /** This text at `i`, in either case. */
  predicate FoldedAt(s: string, i: nat, text: string) {
    i + |text| <= |s| && EqualFold(s[i..i + |text|], text)
  }

  /** POSIX: NAME=value as a leading word. */
  function PosixAssignment(s: string): (r: Option<nat>)
    ensures r.Some? ==> 0 < r.value <= |s|
  {
    if !FoldedAt(s, 0, NAME + "=") then None
    else
      var v := Until(s, |NAME| + 1, WHITE);
      var end := While(s, v, WHITE);
      if end > v then Some(end) else None
  }

  /** What must follow a PowerShell value: a semicolon or a line feed, with white space around. */
  function StatementEnd(s: string, i: nat): (r: Option<nat>)
    requires i <= |s|
    ensures r.Some? ==> i < r.value <= |s|
  {
    var w := While(s, i, WHITE);
    if w < |s| && s[w] == ';' then Some(While(s, w + 1, WHITE))
    else if exists k :: i <= k < w && s[k] == '\n' then Some(w)
    else None
  }

  /** A whole quoted value and what follows it. */
  function QuotedValue(s: string, i: nat, q: char): (r: Option<nat>)
    requires i <= |s|
    ensures r.Some? ==> i < r.value <= |s|
  {
    if i < |s| && s[i] == q then
      var close := Until(s, i + 1, {q});
      if close < |s| then StatementEnd(s, close + 1) else None
    else None
  }

  function FirstOf(a: Option<nat>, b: Option<nat>): Option<nat> {
    if a.Some? then a else b
  }

  /** The value at `i`, tried as the expression tries it: quoted, then as a bare word. */
  function Value(s: string, i: nat): (r: Option<nat>)
    requires i <= |s|
    ensures r.Some? ==> i < r.value <= |s|
  {
    FirstOf(FirstOf(QuotedValue(s, i, SINGLE), QuotedValue(s, i, DOUBLE)),
            StatementEnd(s, Until(s, i, WHITE + {';'})))
  }

  const ENV := "$env:"

  /** PowerShell: $env:NAME = value as its own statement; the value may also be nothing at all
      before a line feed. */
  function PowerShellAssignment(s: string): (r: Option<nat>)
    ensures r.Some? ==> 0 < r.value <= |s|
  {
    if !FoldedAt(s, 0, ENV + NAME) then None
    else
      var eq := While(s, |ENV + NAME|, WHITE);
      if eq == |s| || s[eq] != '=' then None
      else
        var v := While(s, eq + 1, WHITE);
        FirstOf(Value(s, v), if exists k :: eq + 1 <= k < v && s[k] == '\n' then Some(v) else None)
  }

  /** cmd: set NAME=value as its own command. */
  function CmdAssignment(s: string): (r: Option<nat>)
    ensures r.Some? ==> 0 < r.value <= |s|
  {
    if !FoldedAt(s, 0, "set") then None
    else
      var n := While(s, 3, WHITE);
      if n == 3 || !FoldedAt(s, n, NAME + "=") then None
      else
        var v := Until(s, n + |NAME| + 1, {'&', '\n'});
        if v == |s| then None
        else Some(While(s, if s[v] == '\n' then v + 1 else While(s, v, {'&'}), WHITE))
  }

  /** Where a standalone assignment at the front ends. */
  function Assignment(s: string): (r: Option<nat>)
    ensures r.Some? ==> 0 < r.value <= |s|
  {
    FirstOf(FirstOf(PosixAssignment(s), PowerShellAssignment(s)), CmdAssignment(s))
  }

  // ── and this adapter's own PowerShell wrapper ──

  const TRY := "try { "
  const FINALLY := "\n} finally { Remove-Item Env:" + NAME

  /** The wrapper's end at `k`: its fixed text, and no brace after it but the last character. */
  predicate ClosesAt(s: string, k: nat) {
    && k + |FINALLY| < |s| && s[k..k + |FINALLY|] == FINALLY && s[|s| - 1] == '}'
    && forall j :: k + |FINALLY| <= j < |s| - 1 ==> s[j] != '}'
  }

  /** The last place the wrapper can close at, looking back from `k`. */
  function LastClose(s: string, k: nat): (r: Option<nat>)
    requires k <= |s|
    ensures r.Some? ==> |TRY| <= r.value <= k && ClosesAt(s, r.value)
    ensures r.None? ==> forall j :: |TRY| <= j <= k ==> !ClosesAt(s, j)
  {
    if k < |TRY| then None else if ClosesAt(s, k) then Some(k) else if k == 0 then None else LastClose(s, k - 1)
  }

  function Unwrapped(s: string): (r: Option<string>)
    ensures r.Some? ==> |r.value| < |s|
  {
    if !(TRY <= s) then None
    else
      var k := LastClose(s, |s|);
      if k.None? then None else Some(s[|TRY|..k.value])
  }

  // ── stripping ──

  /** One step: an assignment off the front, or the wrapper off both ends. */
  function Step(cmd: string): (r: Option<string>)
    ensures r.Some? ==> |r.value| < |cmd|
  {
    var a := Assignment(cmd);
    if a.Some? then Some(cmd[a.value..]) else Unwrapped(cmd)
  }

  function Strip(cmd: string): string
    decreases |cmd|
  {
    var next := Step(cmd);
    if next.Some? then Strip(next.value) else cmd
  }

  method StripAssignments(command: string) returns (cmd: string)
    ensures cmd == Strip(command)
  {
    cmd := command;
    while true
      invariant Strip(cmd) == Strip(command)
      decreases |cmd|
    {
      var loc := Assignment(cmd);
      if loc.Some? {
        cmd := cmd[loc.value..];
        continue;
      }
      var inner := Unwrapped(cmd);
      if inner.Some? {
        cmd := inner.value;
        continue;
      }
      return;
    }
  }

  predicate CarriesUnremovable(cmd: string) {
    Contains(cmd, NAME + "=") || Contains(cmd, NAME + " =")
  }

  const REMOVAL := " -ErrorAction SilentlyContinue }"

  function PowerShellForm(bridge: string, cmd: string): string {
    ENV + NAME + " = '" + bridge + "'; " + TRY + cmd + FINALLY + REMOVAL
  }

  function PosixForm(bridge: string, cmd: string): string {
    NAME + "=" + bridge + " " + cmd
  }

  /** The command with this bridge on it, or None: leave it exactly as it is. */
  function WithBridge(sh: Shell, bridge: string, cmd: string): Option<string> {
    var stripped := Strip(cmd);
    if CarriesUnremovable(stripped) then None
    else
      match sh
      case PowerShell => Some(PowerShellForm(bridge, stripped))
      case Posix => Some(PosixForm(bridge, stripped))
      case _ => None
  }
}
