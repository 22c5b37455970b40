/** The identity a Cursor session's searches carry in front of them, and taking it off again. */
module CursorIdentity {
  import opened Wrappers
  import opened Text
  import opened Ownership
  import opened RenderedSearch

  datatype Identity = Identity(lineage: string, session: string)

  /** A control character is carried by neither shell; PowerShell ends a literal at a typographic
      quote too. */
  predicate QuotableFor(sh: Shell, value: string) {
    forall k :: 0 <= k < |value| ==>
      value[k] >= ' ' && value[k] != '\U{7F}' && !(sh.PowerShell? && '\U{2018}' <= value[k] <= '\U{201B}')
  }

  /** U+2018 to U+201B. */
  const TYPOGRAPHIC: set<char> := {'\U{2018}', '\U{2019}', '\U{201A}', '\U{201B}'}

  lemma QuotableIff(sh: Shell, value: string)
    ensures QuotableFor(sh, value) <==>
            && (forall c :: c in value ==> (c as int) >= 0x20 && (c as int) != 0x7F)
            && (sh.PowerShell? ==> forall c :: c in value ==> c !in TYPOGRAPHIC)
  {
    forall c: char
      ensures c >= ' ' <==> (c as int) >= 0x20
      ensures c in TYPOGRAPHIC <==> '\U{2018}' <= c <= '\U{201B}'
    {
    }
    assert forall k :: 0 <= k < |value| ==> value[k] in value;
  }

  const HARNESS_NAME := "TOKENDROP_HARNESS"
  const LINEAGE_NAME := "TOKENDROP_LINEAGE"
  const SESSION_NAME := "TOKENDROP_SESSION"

  function Assign(sh: Shell, name: string, value: string): Option<string> {
    if !QuotableFor(sh, value) then None
    else if sh.Posix? then Some(name + "=" + PosixQuote(value) + " ")
    else if sh.PowerShell? then Some("$env:" + name + "=" + PowerShellQuote(value) + "; ")
    else None
  }

  lemma {:induction false} NothingEscaped(v: string, esc: string)
    requires SINGLE !in v
    ensures ReplaceAll(v, "'", esc) == v
  {
    if v != "" {
      NothingEscaped(v[1..], esc);
      ReplaceOne(v[0], v[1..], SINGLE, esc);
      assert v == [v[0]] + v[1..];
    }
  }

  /** One variable set, its value between single quotes. */
  function Told(sh: Shell, name: string, v: string): string {
    if sh.Posix? then name + "='" + v + "' " else "$env:" + name + "='" + v + "'; "
  }

  lemma AssignSays(sh: Shell, name: string, v: string)
    ensures Assign(sh, name, v).Some? <==> (sh.Posix? || sh.PowerShell?) && QuotableFor(sh, v)
    ensures Assign(sh, name, v).Some? && SINGLE !in v ==> Assign(sh, name, v).value == Told(sh, name, v)
  {
    if SINGLE !in v && Assign(sh, name, v).Some? {
      if sh.Posix? {
        NothingEscaped(v, POSIX_ESCAPE);
        QuotedSays(name, v, " ");
      } else {
        NothingEscaped(v, POWERSHELL_ESCAPE);
        QuotedSays("$env:" + name, v, "; ");
      }
    }
  }

  lemma QuotedSays(name: string, v: string, end: string)
    ensures name + "=" + ("'" + v + "'") + end == name + "='" + v + ("'" + end)
  {
  }

  /** All three assignments or none. */
  function Prefix(sh: Shell, id: Identity): Option<string> {
    var h, l, s := Assign(sh, HARNESS_NAME, "cursor"), Assign(sh, LINEAGE_NAME, id.lineage),
      Assign(sh, SESSION_NAME, id.session);
    if h.None? || l.None? || s.None? then None else Some(h.value + (l.value + s.value))
  }

  /** What the shell is told, for values that need no quoting of their own; and there is a prefix
      exactly where the shell can carry both values. */
  lemma PrefixSays(sh: Shell, id: Identity)
    ensures Prefix(sh, id).Some? <==>
            (sh.Posix? || sh.PowerShell?) && QuotableFor(sh, id.lineage) && QuotableFor(sh, id.session)
    ensures Prefix(sh, id).Some? && SINGLE !in id.lineage && SINGLE !in id.session ==>
            Prefix(sh, id).value ==
            Told(sh, "TOKENDROP_HARNESS", "cursor") +
            (Told(sh, "TOKENDROP_LINEAGE", id.lineage) + Told(sh, "TOKENDROP_SESSION", id.session))
  {
    AssignSays(sh, HARNESS_NAME, "cursor");
    AssignSays(sh, LINEAGE_NAME, id.lineage);
    AssignSays(sh, SESSION_NAME, id.session);
    hide Assign, Told;
  }

  const HEAD := ENCODING + "\n"

  function WithIdentity(sh: Shell, prefix: string, command: string): Option<string> {
    if sh.Posix? then Some(prefix + command)
    else if sh.PowerShell? && HEAD <= command then Some(HEAD + prefix + command[|HEAD|..])
    else None
  }

  function WithoutIdentity(sh: Shell, prefix: string, command: string): Option<string> {
    if sh.Posix? && prefix <= command then Some(command[|prefix|..])
    else if sh.PowerShell? && HEAD + prefix <= command then Some(HEAD + command[|HEAD + prefix|..])
    else None
  }

  lemma Front(a: string, b: string)
    ensures a <= a + b && (a + b)[|a|..] == b && (a + b)[..|a|] == a
  {
  }

  lemma HeadKept(h: string, p: string, command: string, carried: string)
    ensures (h <= command && carried == h + p + command[|h|..]) <==>
            (h + p <= carried && command == h + carried[|h + p|..])
  {
    if h <= command && carried == h + p + command[|h|..] {
      Front(h + p, command[|h|..]);
      assert command == h + command[|h|..];
    }
    if h + p <= carried && command == h + carried[|h + p|..] {
      Front(h, carried[|h + p|..]);
      assert carried == h + p + carried[|h + p|..];
    }
  }

  /** The one is the other's inverse, both ways. */
  lemma IdentityIsUndone(sh: Shell, prefix: string, command: string, carried: string)
    ensures WithIdentity(sh, prefix, command) == Some(carried) <==>
            WithoutIdentity(sh, prefix, carried) == Some(command)
  {
    Front(prefix, command);
    assert prefix <= carried ==> carried == prefix + carried[|prefix|..];
    HeadKept(HEAD, prefix, command, carried);
  }

  // ── no prefix is taken for another's ──

  function One(c: char, esc: string): string {
    if c == SINGLE then esc else [c]
  }

  lemma Unfolded(v: string, esc: string)
    ensures v == "" ==> ReplaceAll(v, "'", esc) == ""
    ensures v != "" ==> ReplaceAll(v, "'", esc) == One(v[0], esc) + ReplaceAll(v[1..], "'", esc)
  {
    if v != "" {
      ReplaceOne(v[0], v[1..], SINGLE, esc);
      assert v == [v[0]] + v[1..];
    }
  }

  /** A text that stands where a value has ended begins no further piece of one. */
  lemma EndsHere(esc: string, after: char, v: string, a: string, b: string)
    requires |esc| >= 2 && esc[0] == SINGLE && esc[1] != after
    requires |b| >= 2 && b[0] == SINGLE && b[1] == after
    requires |a| >= 2 && a[0] == SINGLE
    ensures ReplaceAll(v, "'", esc) + a == b ==> v == ""
  {
    Unfolded(v, esc);
    if v != "" {
      var s := ReplaceAll(v[1..], "'", esc) + a;
      assert ReplaceAll(v, "'", esc) + a == One(v[0], esc) + s;
      assert v[0] == SINGLE ==> (One(v[0], esc) + s)[1] == esc[1];
      assert v[0] != SINGLE ==> (One(v[0], esc) + s)[0] == v[0];
    }
  }

  lemma SameFirst(c: char, d: char, esc: string, p: string, q: string)
    requires |esc| >= 2 && esc[0] == SINGLE && One(c, esc) + p == One(d, esc) + q
    ensures c == d && p == q
  {
    assert (One(c, esc) + p)[0] == One(c, esc)[0] && (One(d, esc) + q)[0] == One(d, esc)[0];
    assert (One(c, esc) + p)[|One(c, esc)|..] == p && (One(d, esc) + q)[|One(c, esc)|..] == q;
  }

  lemma Peeled(v: string, esc: string, a: string)
    requires v != ""
    ensures ReplaceAll(v, "'", esc) + a == One(v[0], esc) + (ReplaceAll(v[1..], "'", esc) + a)
  {
    hide ReplaceAll, One;
    Unfolded(v, esc);
  }

  lemma BothEnd(esc: string, after: char, v: string, w: string, a: string, b: string)
    requires |esc| >= 2 && esc[0] == SINGLE && esc[1] != after && (v == "" || w == "")
    requires |a| >= 2 && a[0] == SINGLE && a[1] == after && |b| >= 2 && b[0] == SINGLE && b[1] == after
    requires ReplaceAll(v, "'", esc) + a == ReplaceAll(w, "'", esc) + b
    ensures v == w && a == b
  {
    hide ReplaceAll;
    Unfolded(v, esc);
    Unfolded(w, esc);
    assert "" + a == a && "" + b == b;
    EndsHere(esc, after, v, a, b);
    EndsHere(esc, after, w, b, a);
  }

  function Closing(after: char, x: string): (s: string)
    ensures |s| >= 2 && s[0] == SINGLE && s[1] == after && s[2..] == x
  {
    "'" + [after] + x
  }

  /** Quotes doubled or escaped, and then the closing one: where a value ends can be seen. */
  lemma {:induction false} ValueEnds(esc: string, after: char, v: string, w: string, x: string, y: string)
    requires |esc| >= 2 && esc[0] == SINGLE && esc[1] != after
    requires ReplaceAll(v, "'", esc) + Closing(after, x) == ReplaceAll(w, "'", esc) + Closing(after, y)
    ensures v == w && x == y
    decreases |v|
  {
    hide ReplaceAll, One, Closing;
    var a, b := Closing(after, x), Closing(after, y);
    if v == "" || w == "" {
      BothEnd(esc, after, v, w, a, b);
    } else {
      Peeled(v, esc, a);
      Peeled(w, esc, b);
      SameFirst(v[0], w[0], esc, ReplaceAll(v[1..], "'", esc) + a, ReplaceAll(w[1..], "'", esc) + b);
      ValueEnds(esc, after, v[1..], w[1..], x, y);
      assert v == [v[0]] + v[1..] && w == [w[0]] + w[1..];
    }
  }

  lemma AssignedOnce(sh: Shell, name: string, v: string, w: string, x: string, y: string)
    requires Assign(sh, name, v).Some? && Assign(sh, name, w).Some?
    requires Assign(sh, name, v).value + x == Assign(sh, name, w).value + y
    ensures v == w && x == y
  {
    hide ReplaceAll, QuotableFor;
    var head := (if sh.Posix? then name else "$env:" + name) + "=" + "'";
    var esc := if sh.Posix? then POSIX_ESCAPE else POWERSHELL_ESCAPE;
    var after := if sh.Posix? then ' ' else ';';
    var s, t := if sh.Posix? then x else " " + x, if sh.Posix? then y else " " + y;
    AssignParts(sh, name, v, x);
    AssignParts(sh, name, w, y);
    var p, q := ReplaceAll(v, "'", esc) + Closing(after, s), ReplaceAll(w, "'", esc) + Closing(after, t);
    Front(head, p);
    Front(head, q);
    assert p == q;
    ValueEnds(esc, after, v, w, s, t);
    assert !sh.Posix? ==> s[1..] == x && t[1..] == y;
  }

  lemma AssignParts(sh: Shell, name: string, v: string, x: string)
    requires Assign(sh, name, v).Some?
    ensures Assign(sh, name, v).value + x ==
            (if sh.Posix? then name else "$env:" + name) + "=" + "'" +
            (ReplaceAll(v, "'", if sh.Posix? then POSIX_ESCAPE else POWERSHELL_ESCAPE) +
             Closing(if sh.Posix? then ' ' else ';', if sh.Posix? then x else " " + x))
  {
    hide ReplaceAll, QuotableFor;
    if sh.PowerShell? {
      assert "; " == [';'] + " ";
    }
  }

  /** A command carried for one session gives up its prefix to that session and to no other. */
  lemma OnlyItsOwn(sh: Shell, id: Identity, other: Identity, command: string)
    requires Prefix(sh, id).Some? && Prefix(sh, other).Some? && WithIdentity(sh, Prefix(sh, id).value, command).Some?
    ensures var carried := WithIdentity(sh, Prefix(sh, id).value, command).value;
            WithoutIdentity(sh, Prefix(sh, other).value, carried) == (if other == id then Some(command) else None)
  {
    hide Assign, QuotableFor;
    var p, q := Prefix(sh, id).value, Prefix(sh, other).value;
    var carried := WithIdentity(sh, p, command).value;
    IdentityIsUndone(sh, p, command, carried);
    var off := WithoutIdentity(sh, q, carried);
    if off.Some? {
      IdentityIsUndone(sh, q, off.value, carried);
      var x, y := if sh.Posix? then command else command[|HEAD|..],
        if sh.Posix? then off.value else off.value[|HEAD|..];
      SameRest(sh, p, x, q, y, carried);
      PrefixesApart(sh, id, other, x, y);
    }
  }

  lemma SameRest(sh: Shell, p: string, x: string, q: string, y: string, carried: string)
    requires carried == (if sh.Posix? then p + x else HEAD + p + x)
    requires carried == (if sh.Posix? then q + y else HEAD + q + y)
    ensures p + x == q + y
  {
    Behind(HEAD, p, x);
    Behind(HEAD, q, y);
  }

  lemma Behind(h: string, p: string, x: string)
    ensures (h + p + x)[|h|..] == p + x
  {
  }

  lemma PrefixesApart(sh: Shell, id: Identity, other: Identity, x: string, y: string)
    requires Prefix(sh, id).Some? && Prefix(sh, other).Some?
    requires Prefix(sh, id).value + x == Prefix(sh, other).value + y
    ensures id == other && x == y
  {
    hide Assign, QuotableFor;
    var h := Assign(sh, HARNESS_NAME, "cursor").value;
    var l, s := Assign(sh, LINEAGE_NAME, id.lineage).value, Assign(sh, SESSION_NAME, id.session).value;
    var m, t := Assign(sh, LINEAGE_NAME, other.lineage).value, Assign(sh, SESSION_NAME, other.session).value;
    Regrouped(h, l, s, x);
    Regrouped(h, m, t, y);
    AssignedOnce(sh, HARNESS_NAME, "cursor", "cursor", l + (s + x), m + (t + y));
    AssignedOnce(sh, LINEAGE_NAME, id.lineage, other.lineage, s + x, t + y);
    AssignedOnce(sh, SESSION_NAME, id.session, other.session, x, y);
  }

  lemma Regrouped(h: string, l: string, s: string, x: string)
    ensures h + (l + s) + x == h + (l + (s + x))
  {
  }
}
