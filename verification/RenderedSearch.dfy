/** The search commands the skill renders are accepted, with exactly the paths and the body they
    were rendered from. */
module RenderedSearch {
  import opened Wrappers
  import opened Text
  import opened Ownership
  import opened RenderedForm

  // ── what a match yields ──

  datatype Values = Values(bin: string, cfg: string, body: string)

  const NOTHING := Values("", "", "")

  function Store(got: Values, marker: string, value: string): Values {
    if marker == BINARY then got.(bin := value)
    else if marker == CONFIG then got.(cfg := value)
    else if marker == BODY then got.(body := value)
    else got
  }

  function Collect(parts: seq<Part>, values: seq<string>, got: Values): Values
    requires |values| == Holes(parts)
  {
    if parts == [] then got
    else if parts[0].Run? then Collect(parts[1..], values, got)
    else Collect(parts[1..], values[1..], Store(got, parts[0].marker, values[0]))
  }

  /** The form's own text says which shell's quoting to undo. */
  function UnquoteRendered(raw: string, form: string): string {
    if Contains(form, "& " + CONFIG) || Contains(form, "& " + BINARY) || Contains(form, "& '")
    then ReplaceAll(raw, POWERSHELL_ESCAPE, "'")
    else ReplaceAll(raw, POSIX_ESCAPE, "'")
  }

  lemma {:induction false} MatchedHoles(rest: string, parts: seq<Part>)
    ensures MatchParts(rest, parts).Some? ==> |MatchParts(rest, parts).value| == Holes(parts)
  {
    var r := MatchParts(rest, parts);
    if r.Some? {
      MatchIff(rest, parts, r.value);
    }
  }

  function MatchRendered(command: string, form: string): Option<Values> {
    var parts := SplitForm(form);
    var values := MatchParts(command, parts);
    if values.None? then None
    else
      MatchedHoles(command, parts);
      var got := Collect(parts, values.value, NOTHING);
      if got.bin == "" then None else Some(got.(bin := UnquoteRendered(got.bin, form)))
  }

  /** Matching from the middle, with what was found so far. */
  function MatchFrom(rest: string, parts: seq<Part>, got: Values): Option<Values>
    decreases |parts|
  {
    if parts == [] then if rest == "" then Some(got) else None
    else
      match parts[0]
      case Run(text) => if text <= rest then MatchFrom(rest[|text|..], parts[1..], got) else None
      case Hole(marker) =>
        if |parts| == 1 then Some(Store(got, marker, rest))
        else
          var idx := Index(rest, NextRun(parts));
          if idx.None? then None
          else MatchFrom(rest[idx.value..], parts[1..], Store(got, marker, rest[..idx.value]))
  }

  lemma {:induction false} MatchFromIs(rest: string, parts: seq<Part>, got: Values)
    ensures var values := MatchParts(rest, parts);
            MatchFrom(rest, parts, got) ==
            if values.None? then None
            else (MatchedHoles(rest, parts); Some(Collect(parts, values.value, got)))
    decreases |parts|
  {
    MatchedHoles(rest, parts);
    if parts != [] {
      match parts[0]
      case Run(text) =>
        if text <= rest {
          MatchFromIs(rest[|text|..], parts[1..], got);
        }
      case Hole(marker) =>
        if |parts| == 1 {
          assert parts[1..] == [];
        } else {
          var idx := Index(rest, NextRun(parts));
          if idx.Some? {
            MatchFromIs(rest[idx.value..], parts[1..], Store(got, marker, rest[..idx.value]));
            var more := MatchParts(rest[idx.value..], parts[1..]);
            assert more.Some? ==> ([rest[..idx.value]] + more.value)[1..] == more.value;
          }
        }
    }
  }

  lemma FromStep(rest: string, parts: seq<Part>, i: nat, got: Values)
    requires i < |parts|
    ensures MatchFrom(rest, parts[i..], got) ==
            if parts[i].Run? then
              if parts[i].text <= rest then MatchFrom(rest[|parts[i].text|..], parts[i + 1..], got) else None
            else if i + 1 == |parts| then Some(Store(got, parts[i].marker, rest))
            else
              var idx := Index(rest, NextRun(parts[i..]));
              if idx.None? then None
              else MatchFrom(rest[idx.value..], parts[i + 1..], Store(got, parts[i].marker, rest[..idx.value]))
  {
    assert parts[i..][1..] == parts[i + 1..];
  }

  method MatchAll(command: string, parts: seq<Part>) returns (r: Option<Values>)
    ensures r == MatchFrom(command, parts, NOTHING)
  {
    var got, rest := NOTHING, command;
    var i := 0;
    assert parts[0..] == parts;
    while i < |parts|
      invariant 0 <= i <= |parts|
      invariant MatchFrom(rest, parts[i..], got) == MatchFrom(command, parts, NOTHING)
    {
      FromStep(rest, parts, i, got);
      if parts[i].Run? {
        if !(parts[i].text <= rest) {
          return None;
        }
        rest := rest[|parts[i].text|..];
      } else {
        var value := rest;
        if i + 1 < |parts| {
          var idx := Index(rest, NextRun(parts[i..]));
          if idx.None? {
            return None;
          }
          value, rest := rest[..idx.value], rest[idx.value..];
        } else {
          return Some(Store(got, parts[i].marker, rest));
        }
        got := Store(got, parts[i].marker, value);
      }
      i := i + 1;
    }
    assert parts[|parts|..] == [];
    r := if rest == "" then Some(got) else None;
  }

  method MatchForm(command: string, form: string) returns (r: Option<Values>)
    ensures r == MatchRendered(command, form)
  {
    MarkersAreProper();
    var parts := SplitFormText(form, MARKERS);
    var got := MatchAll(command, parts);
    MatchFromIs(command, parts, NOTHING);
    if got.None? || got.value.bin == "" {
      return None;
    }
    r := Some(got.value.(bin := UnquoteRendered(got.value.bin, form)));
  }

  // ── the search the skill teaches ──

  const HEREDOC := " <<'JSON'\n"
  const HEREDOC_END := "\nJSON"
  const ENCODING_NAME := "[System.Text.UTF8Encoding]"
  const ENCODING := "$OutputEncoding = " + ENCODING_NAME + "::new($false)"
  const HERE_OPEN := "\n@'\n"
  const HERE_CLOSE := "\n'@ | "

  function StdinCommand(e: Entry, sh: Shell): Option<string> {
    CommandForShell(e, sh, ["search"], ["--stdin"])
  }

  /** The whole block a skill teaches, the body carried in the shell's own grammar. */
  function SearchBlock(sh: Shell, e: Entry, body: string): Option<string> {
    var cmd := StdinCommand(e, sh);
    if cmd.None? then None
    else
      match sh
      case Posix => Some(cmd.value + HEREDOC + body + HEREDOC_END)
      case PowerShell => Some(ENCODING + HERE_OPEN + body + HERE_CLOSE + cmd.value)
      case _ => None
  }

  /** The same block with its paths and body left open. */
  function FormFor(sh: Shell, withConfig: bool): Option<string> {
    SearchBlock(sh, Entry(BINARY, if withConfig then CONFIG else ""), BODY)
  }
}
