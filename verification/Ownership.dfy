/** Whose integration a rendered command is: this installation's binary, and this
    installation's config. */
module Ownership {
  import opened Wrappers
  import opened Text
  import opened Strconv

  /** What the client asks of its platform: which characters `%q` prints as they are, and the
      normal form two spellings of one path share. */
  datatype Env = Env(printable: Printable, norm: string -> string)

  datatype Ref = Ref(bins: seq<string>, cfg: string)

  predicate SamePath(env: Env, a: string, b: string) {
    env.norm(a) == env.norm(b)
  }

  // ── the quoters ──

  const POSIX_ESCAPE := "'\\''"
  const POWERSHELL_ESCAPE := "''"

  function PosixQuote(s: string): string {
    "'" + ReplaceAll(s, "'", POSIX_ESCAPE) + "'"
  }

  function PowerShellQuote(s: string): string {
    "'" + ReplaceAll(s, "'", POWERSHELL_ESCAPE) + "'"
  }

  /** cmd strips double quotes whole and cannot carry one inside. */
  function CmdQuote(s: string): Option<string> {
    if DOUBLE in s then None else Some([DOUBLE] + s + [DOUBLE])
  }

  // ── the recognisers ──

  function BinaryPrefixes(env: Env, bin: string): seq<string> {
    [PosixQuote(bin) + " ",
     "& " + PowerShellQuote(bin) + " ",
     [DOUBLE] + bin + [DOUBLE] + " ",
     Quote(bin, env.printable) + " ",
     bin + " "]
  }

  function AfterPrefix(prefixes: seq<string>, command: string): Option<string> {
    if prefixes == [] then None
    else if prefixes[0] <= command then Some(command[|prefixes[0]|..])
    else AfterPrefix(prefixes[1..], command)
  }

  function AfterBinary(env: Env, bins: seq<string>, command: string): Option<string> {
    if bins == [] then None
    else
      var rest := AfterPrefix(BinaryPrefixes(env, bins[0]), command);
      if rest.Some? then rest else AfterBinary(env, bins[1..], command)
  }

  predicate IsQuote(c: char) {
    c == SINGLE || c == DOUBLE
  }

  /** How far the word at the start of `s` reaches, inside the quote `q` or outside any. */
  function WordLen(s: string, q: Option<char>): (n: nat)
    ensures n <= |s|
    ensures s != "" && (s[0] != ' ' || q.Some?) ==> n > 0
    decreases |s|
  {
    if s == "" then 0
    else if q == Some(DOUBLE) && s[0] == BACKSLASH && |s| > 1 then 2 + WordLen(s[2..], q)
    else if q.None? then
      if s[0] == ' ' then 0
      else if s[0] == BACKSLASH && |s| > 1 && IsQuote(s[1]) then 2 + WordLen(s[2..], q)
      else 1 + WordLen(s[1..], if IsQuote(s[0]) then Some(s[0]) else None)
    else 1 + WordLen(s[1..], if s[0] == q.value then None else q)
  }

  /** The words of a rendered command, quoted words kept whole. */
  function Words(s: string): seq<string>
    decreases |s|
  {
    var t := TrimLeft(s, {' '});
    if t == "" then []
    else
      var n := WordLen(t, None);
      [t[..n]] + Words(t[n..])
  }

  lemma WordStep(s: string, i: nat, q: Option<char>)
    requires i < |s|
    ensures WordLen(s[i..], q) ==
            if q == Some(DOUBLE) && s[i] == BACKSLASH && i + 1 < |s| then 2 + WordLen(s[i + 2..], q)
            else if q.None? then
              if s[i] == ' ' then 0
              else if s[i] == BACKSLASH && i + 1 < |s| && IsQuote(s[i + 1]) then 2 + WordLen(s[i + 2..], q)
              else 1 + WordLen(s[i + 1..], if IsQuote(s[i]) then Some(s[i]) else None)
            else 1 + WordLen(s[i + 1..], if s[i] == q.value then None else q)
  {
    assert s[i..][1..] == s[i + 1..];
    if i + 1 < |s| {
      assert s[i..][2..] == s[i + 2..];
    }
  }

  /** A word ends at the first space that is outside quotes. */
  method ScanWord(s: string, start: nat) returns (i: nat)
    requires start < |s|
    ensures start <= i <= |s| && i - start == WordLen(s[start..], None)
  {
    i := start;
    var quote: Option<char> := None;
    while i < |s|
      invariant start <= i <= |s|
      invariant (i - start) + WordLen(s[i..], quote) == WordLen(s[start..], None)
      decreases |s| - i
    {
      WordStep(s, i, quote);
      var c := s[i];
      if quote == Some(DOUBLE) && c == BACKSLASH && i + 1 < |s| {
        i := i + 2;
        continue;
      }
      if quote.None? {
        if c == ' ' {
          break;
        }
        if c == BACKSLASH && i + 1 < |s| && IsQuote(s[i + 1]) {
          i := i + 2;
          continue;
        }
        if IsQuote(c) {
          quote := Some(c);
        }
      } else if c == quote.value {
        quote := None;
      }
      i := i + 1;
    }
  }

  method SkipSpaces(s: string, start: nat) returns (i: nat)
    requires start <= |s|
    ensures start <= i <= |s| && TrimLeft(s[start..], {' '}) == s[i..]
  {
    i := start;
    while i < |s| && s[i] == ' '
      invariant start <= i <= |s|
      invariant TrimLeft(s[i..], {' '}) == TrimLeft(s[start..], {' '})
    {
      assert s[i..][1..] == s[i + 1..];
      i := i + 1;
    }
  }

  lemma AppendAssociates(a: seq<string>, b: seq<string>, c: seq<string>)
    ensures a + (b + c) == (a + b) + c
  {
  }

  lemma FirstWord(u: string, t: string)
    requires TrimLeft(u, {' '}) == t && t != ""
    ensures WordLen(t, None) > 0
    ensures Words(u) == [t[..WordLen(t, None)]] + Words(t[WordLen(t, None)..])
  {
  }

  lemma SliceAgain(s: string, start: nat, end: nat)
    requires start <= end <= |s|
    ensures s[start..][..end - start] == s[start..end] && s[start..][end - start..] == s[end..]
  {
  }

  lemma WordsStep(s: string, i: nat, start: nat, end: nat)
    requires i <= start <= end <= |s| && start < |s|
    requires TrimLeft(s[i..], {' '}) == s[start..] && end - start == WordLen(s[start..], None)
    ensures Words(s[i..]) == [s[start..end]] + Words(s[end..]) && start < end
  {
    var t := s[start..];
    FirstWord(s[i..], t);
    SliceAgain(s, start, end);
  }

  lemma NoWords(s: string, i: nat)
    requires i <= |s| && TrimLeft(s[i..], {' '}) == s[|s|..]
    ensures Words(s[i..]) == [] == Words(s[|s|..])
  {
  }

  method RenderedWords(s: string) returns (words: seq<string>)
    ensures words == Words(s)
  {
    words := [];
    var i := 0;
    assert s[0..] == s;
    while i < |s|
      invariant 0 <= i <= |s|
      invariant words + Words(s[i..]) == Words(s)
    {
      var start := SkipSpaces(s, i);
      if start >= |s| {
        NoWords(s, i);
        i := |s|;
      } else {
        var end := ScanWord(s, start);
        WordsStep(s, i, start, end);
        AppendAssociates(words, [s[start..end]], Words(s[end..]));
        words := words + [s[start..end]];
        i := end;
      }
    }
    assert Words(s[|s|..]) == [];
  }

  /** Every path a rendered word may name. */
  function UnquoteWord(word: string): seq<string> {
    if |word| < 2 then [word]
    else if word[0] == SINGLE then
      if word[|word| - 1] != SINGLE then [word]
      else
        var raw := word[1..|word| - 1];
        [ReplaceAll(raw, POSIX_ESCAPE, "'"), ReplaceAll(raw, POWERSHELL_ESCAPE, "'")]
    else if word[0] == DOUBLE then
      if word[|word| - 1] != DOUBLE then [word]
      else
        var raw, u := word[1..|word| - 1], Unquote(word);
        if u.Some? && u.value != raw then [raw, u.value] else [raw]
    else [word]
  }

  /** The word after the first `-config` that has one. */
  function ConfigWord(words: seq<string>): Option<string> {
    if |words| < 2 then None
    else if words[0] == "-config" then Some(words[1])
    else ConfigWord(words[1..])
  }

  predicate NamesOurConfig(env: Env, cfg: string, rest: string) {
    match ConfigWord(Words(rest))
    case None => cfg == ""
    case Some(w) => cfg != "" && exists cand :: cand in UnquoteWord(w) && SamePath(env, cand, cfg)
  }

  predicate CommandIsOurs(env: Env, ref: Ref, command: string) {
    var rest := AfterBinary(env, ref.bins, command);
    rest.Some? && NamesOurConfig(env, ref.cfg, rest.value)
  }

  // ── the renderers ──

  datatype Shell = Posix | PowerShell | Cmd | Argv

  datatype Token = Literal(text: string) | Path(text: string)

  function RenderToken(sh: Shell, tok: Token): Option<string> {
    match tok
    case Literal(text) => Some(text)
    case Path(text) =>
      match sh
      case Posix => Some(PosixQuote(text))
      case PowerShell => Some(PowerShellQuote(text))
      case Cmd => CmdQuote(text)
      case Argv => None
  }

  function RenderTokens(sh: Shell, tokens: seq<Token>): Option<seq<string>> {
    if tokens == [] then Some([])
    else
      var w, rest := RenderToken(sh, tokens[0]), RenderTokens(sh, tokens[1..]);
      if w.Some? && rest.Some? then Some([w.value] + rest.value) else None
  }

  /** One command for one shell; None is the renderer's error. */
  function RenderShellCommand(sh: Shell, tokens: seq<Token>): Option<string> {
    var words := RenderTokens(sh, tokens);
    if tokens == [] || words.None? then None
    else Some((if sh.PowerShell? then "& " else "") + Join(words.value, " "))
  }

  datatype Entry = Entry(command: string, cfg: string)

  function ConfigTokens(e: Entry): seq<Token> {
    if e.cfg == "" then [] else [Literal("-config"), Path(e.cfg)]
  }

  function Literals(words: seq<string>): seq<Token> {
    seq(|words|, i requires 0 <= i < |words| => Literal(words[i]))
  }

  /** hookCommandForShell, stdinCommandForShell, searchCommandForShell and
      preferCommandForShell differ only in the literal words around the config. */
  function CommandForShell(e: Entry, sh: Shell, before: seq<string>, after: seq<string>): Option<string> {
    RenderShellCommand(sh, [Path(e.command)] + Literals(before) + ConfigTokens(e) + Literals(after))
  }

  /** The permission rules written for Claude Code, most specific spelling first. */
  function ClaudeAllowRules(env: Env, e: Entry): seq<string> {
    var suffix := " search" + (if e.cfg == "" then "" else " -config " + Quote(e.cfg, env.printable));
    var posix := " search" + (if e.cfg == "" then "" else " -config " + PosixQuote(e.cfg));
    ["Bash(" + PosixQuote(e.command) + posix + ":*)",
     "Bash(" + Quote(e.command, env.printable) + suffix + ":*)",
     "Bash(" + e.command + suffix + ":*)"]
  }

  predicate RuleIsOurs(env: Env, ref: Ref, rule: string) {
    "Bash(" <= rule &&
    CommandIsOurs(env, ref, TrimSuffix(TrimSuffix(rule[5..], ")"), ":*"))
  }
}
