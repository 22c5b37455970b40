/** Permission rules and hook entries, merged into a participant's file and taken out again. */
module Merge {
  import opened Wrappers
  import opened Ownership

  // ── lists ──

  /** What is not ours, in order. */
  function Foreign<T>(list: seq<T>, ours: T -> bool): seq<T> {
    if list == [] then []
    else (if ours(list[0]) then [] else [list[0]]) + Foreign(list[1..], ours)
  }

  function Mine<T>(list: seq<T>, ours: T -> bool): seq<T> {
    if list == [] then []
    else (if ours(list[0]) then [list[0]] else []) + Mine(list[1..], ours)
  }

  lemma {:induction false} ForeignAppend<T>(a: seq<T>, b: seq<T>, ours: T -> bool)
    ensures Foreign(a + b, ours) == Foreign(a, ours) + Foreign(b, ours)
  {
    if a == [] {
      assert a + b == b;
    } else {
      assert (a + b)[0] == a[0] && (a + b)[1..] == a[1..] + b;
      ForeignAppend(a[1..], b, ours);
      var first := if ours(a[0]) then [] else [a[0]];
      assert first + (Foreign(a[1..], ours) + Foreign(b, ours)) == (first + Foreign(a[1..], ours)) + Foreign(b, ours);
    }
  }

  lemma {:induction false} MineAppend<T>(a: seq<T>, b: seq<T>, ours: T -> bool)
    ensures Mine(a + b, ours) == Mine(a, ours) + Mine(b, ours)
  {
    if a == [] {
      assert a + b == b;
    } else {
      assert (a + b)[0] == a[0] && (a + b)[1..] == a[1..] + b;
      MineAppend(a[1..], b, ours);
      var first := if ours(a[0]) then [a[0]] else [];
      assert first + (Mine(a[1..], ours) + Mine(b, ours)) == (first + Mine(a[1..], ours)) + Mine(b, ours);
    }
  }

  lemma PartsAppend<T>(a: seq<T>, b: seq<T>, ours: T -> bool)
    ensures Foreign(a + b, ours) == Foreign(a, ours) + Foreign(b, ours)
    ensures Mine(a + b, ours) == Mine(a, ours) + Mine(b, ours)
  {
    ForeignAppend(a, b, ours);
    MineAppend(a, b, ours);
  }

  lemma {:induction false} AllMine<T>(list: seq<T>, ours: T -> bool)
    requires forall k :: 0 <= k < |list| ==> ours(list[k])
    ensures Foreign(list, ours) == [] && Mine(list, ours) == list
  {
    if list != [] {
      AllMine(list[1..], ours);
      assert list == [list[0]] + list[1..];
    }
  }

  lemma {:induction false} ForeignIsForeign<T>(list: seq<T>, ours: T -> bool)
    ensures Foreign(Foreign(list, ours), ours) == Foreign(list, ours) && Mine(Foreign(list, ours), ours) == []
  {
    if list != [] {
      ForeignIsForeign(list[1..], ours);
      PartsAppend(if ours(list[0]) then [] else [list[0]], Foreign(list[1..], ours), ours);
    }
  }

  // ── the JSON an entry is made of ──

  /** As much of a JSON value as ownership reads: text, an object with its command and the hooks
      under it, or anything else. */
  datatype Json = Str(text: string) | Object(command: Option<string>, hooks: seq<Json>,
      rest: string) | Other(raw: string)

  predicate RunsOurs(env: Env, ref: Ref, j: Json) {
    j.Object? && j.command.Some? && CommandIsOurs(env, ref, j.command.value)
  }

  predicate EntryIsOurs(env: Env, ref: Ref, j: Json) {
    RunsOurs(env, ref, j) || (j.Object? && exists k :: 0 <= k < |j.hooks| && RunsOurs(env, ref, j.hooks[k]))
  }

  predicate RuleValueIsOurs(env: Env, ref: Ref, j: Json) {
    j.Str? && RuleIsOurs(env, ref, j.text)
  }

  function Rules(texts: seq<string>): (r: seq<Json>)
    ensures |r| == |texts| && forall k :: 0 <= k < |texts| ==> r[k] == Str(texts[k])
  {
    seq(|texts|, k requires 0 <= k < |texts| => Str(texts[k]))
  }

  // ── merging one list ──

  /** A set of ours that is already the wanted one is left where it lies. */
  function MergeRules(list: seq<Json>, want: seq<Json>, ours: Json -> bool): seq<Json> {
    if multiset(Mine(list, ours)) == multiset(want) then list else Foreign(list, ours) + want
  }

  /** Exactly our entry, exactly once, stays; anything else of ours is replaced by it. */
  function MergeEntry(list: seq<Json>, want: Json, ours: Json -> bool): seq<Json> {
    if Mine(list, ours) == [want] then list else Foreign(list, ours) + [want]
  }

  method SplitList(list: seq<Json>, ours: Json -> bool) returns (kept: seq<Json>, mine: seq<Json>)
    ensures kept == Foreign(list, ours) && mine == Mine(list, ours)
  {
    kept, mine := [], [];
    var i := 0;
    assert list[..0] == [];
    while i < |list|
      invariant 0 <= i <= |list| && kept == Foreign(list[..i], ours) && mine == Mine(list[..i], ours)
    {
      assert list[..i + 1] == list[..i] + [list[i]];
      PartsAppend(list[..i], [list[i]], ours);
      assert [list[i]][1..] == [];
      if ours(list[i]) {
        mine := mine + [list[i]];
      } else {
        kept := kept + [list[i]];
      }
      i := i + 1;
    }
    assert list[..|list|] == list;
  }

  /** sameRuleSet: the same rules the same number of times, in any order. */
  method SameRuleSet(got: seq<Json>, want: seq<Json>) returns (same: bool)
    ensures same <==> multiset(got) == multiset(want)
  {
    if |got| != |want| {
      assert |multiset(got)| == |got| && |multiset(want)| == |want|;
      return false;
    }
    var seen := multiset(got);
    var i := 0;
    while i < |want|
      invariant 0 <= i <= |want| && seen + multiset(want[..i]) == multiset(got)
    {
      assert want[..i + 1] == want[..i] + [want[i]];
      if want[i] !in seen {
        assert want == want[..i + 1] + want[i + 1..];
        assert multiset(want)[want[i]] >= multiset(want[..i + 1])[want[i]] > multiset(got)[want[i]];
        return false;
      }
      seen := seen - multiset{want[i]};
      i := i + 1;
    }
    assert want[..|want|] == want;
    assert |seen| + |multiset(want)| == |multiset(got)|;
    assert |seen| == 0;
    same := true;
  }

  // ── what a merge of one list comes to ──

  /** Ours are then exactly the wanted set, everyone else's are as they were and in order, and a
      second merge changes nothing. */
  lemma RulesMerged(list: seq<Json>, want: seq<Json>, ours: Json -> bool)
    requires forall k :: 0 <= k < |want| ==> ours(want[k])
    ensures var r := MergeRules(list, want, ours);
            && multiset(Mine(r, ours)) == multiset(want) && Foreign(r, ours) == Foreign(list, ours)
            && MergeRules(r, want, ours) == r
  {
    PartsAppend(Foreign(list, ours), want, ours);
    AllMine(want, ours);
    ForeignIsForeign(list, ours);
    assert [] + want == want && Foreign(list, ours) + [] == Foreign(list, ours);
  }

  lemma EntryMerged(list: seq<Json>, want: Json, ours: Json -> bool)
    requires ours(want)
    ensures var r := MergeEntry(list, want, ours);
            && Mine(r, ours) == [want] && Foreign(r, ours) == Foreign(list, ours)
            && MergeEntry(r, want, ours) == r
  {
    PartsAppend(Foreign(list, ours), [want], ours);
    AllMine([want], ours);
    ForeignIsForeign(list, ours);
    assert [] + [want] == [want] && Foreign(list, ours) + [] == Foreign(list, ours);
  }

  // ── a whole file ──

  /** What a key holds: the list it should be, or something else. */
  datatype Value = List(list: seq<Json>) | NoList(raw: string)

  /** A key that should hold an object: not there, one, or something else. */
  datatype Member = Missing | Members(members: map<string, Value>) | NoObject(raw: string)

  /** A host's file, as far as this client reads it: its version, its permissions, its events, and
      which other keys it has. */
  datatype Doc = Doc(version: Option<string>, permissions: Member, hooks: Member, otherKeys: set<string>)

  const EMPTY := Doc(None, Missing, Missing, {})

  const ALLOW := "allow"

  datatype Spec = Spec(version: Option<string>, order: seq<string>, entries: map<string, Json>, allow: seq<Json>)

  /** An entry for each event asked for; and each of them, and each rule, recognised as ours. */
  predicate Complete(spec: Spec, entryOurs: Json -> bool, ruleOurs: Json -> bool) {
    && (forall k :: 0 <= k < |spec.order| ==> spec.order[k] in spec.entries && entryOurs(spec.entries[spec.order[k]]))
    && (forall k :: 0 <= k < |spec.allow| ==> ruleOurs(spec.allow[k]))
  }

  /** child: the object there is, or a new one in place of anything else. */
  function Child(m: Member): map<string, Value> {
    if m.Members? then m.members else map[]
  }

  function ListAt(members: map<string, Value>, key: string): seq<Json> {
    if key in members && members[key].List? then members[key].list else []
  }

  function MergeEvent(hooks: map<string, Value>, ev: string, want: Json, ours: Json -> bool): map<string, Value> {
    if Mine(ListAt(hooks, ev), ours) == [want] then hooks
    else hooks[ev := List(MergeEntry(ListAt(hooks, ev), want, ours))]
  }

  function MergeEvents(hooks: map<string, Value>, order: seq<string>, entries: map<string, Json>,
      ours: Json -> bool): map<string, Value>
    requires forall k :: 0 <= k < |order| ==> order[k] in entries
    decreases |order|
  {
    if order == [] then hooks
    else MergeEvents(MergeEvent(hooks, order[0], entries[order[0]], ours), order[1..], entries, ours)
  }

  function Allowed(doc: Doc): seq<Json> {
    ListAt(Child(doc.permissions), ALLOW)
  }

  function MergePermissions(m: Member, want: seq<Json>, ours: Json -> bool): Member {
    if want == [] then m else Members(Child(m)[ALLOW := List(MergeRules(ListAt(Child(m), ALLOW), want, ours))])
  }

  function MergeDoc(doc: Doc, spec: Spec, entryOurs: Json -> bool, ruleOurs: Json -> bool): Doc
    requires Complete(spec, entryOurs, ruleOurs)
  {
    Doc(if doc.version.None? then spec.version else doc.version,
        MergePermissions(doc.permissions, spec.allow, ruleOurs),
        Members(MergeEvents(Child(doc.hooks), spec.order, spec.entries, entryOurs)),
        doc.otherKeys)
  }

  /** The event does not hold exactly our entry. */
  predicate Stale(hooks: map<string, Value>, ev: string, want: Json, ours: Json -> bool) {
    Mine(ListAt(hooks, ev), ours) != [want]
  }

  predicate StaleRules(doc: Doc, want: seq<Json>, ours: Json -> bool) {
    want != [] && multiset(Mine(Allowed(doc), ours)) != multiset(want)
  }

  /** Something is to be merged: without that the file is not written, whatever else it holds. */
  predicate Changes(doc: Doc, spec: Spec, entryOurs: Json -> bool, ruleOurs: Json -> bool)
    requires Complete(spec, entryOurs, ruleOurs)
  {
    || (exists k :: 0 <= k < |spec.order| &&
         Stale(Child(doc.hooks), spec.order[k], spec.entries[spec.order[k]], entryOurs))
    || StaleRules(doc, spec.allow, ruleOurs)
  }

  datatype File = NoFile | Has(doc: Doc)

  function Decoded(f: File): Doc {
    if f.NoFile? then EMPTY else f.doc
  }

  /** planHooksMerge. */
  function MergeFile(f: File, spec: Spec, entryOurs: Json -> bool, ruleOurs: Json -> bool): File
    requires Complete(spec, entryOurs, ruleOurs)
  {
    if Changes(Decoded(f), spec, entryOurs, ruleOurs) then Has(MergeDoc(Decoded(f), spec, entryOurs, ruleOurs)) else f
  }

  lemma EventMerged(hooks: map<string, Value>, at: string, want: Json, ours: Json -> bool, ev: string)
    requires ours(want)
    ensures var r := MergeEvent(hooks, at, want, ours);
            && Foreign(ListAt(r, ev), ours) == Foreign(ListAt(hooks, ev), ours)
            && (ev != at ==> (ev in r <==> ev in hooks) && (ev in hooks ==> r[ev] == hooks[ev]))
            && at in r && r[at].List? && Mine(r[at].list, ours) == [want]
  {
    EntryMerged(ListAt(hooks, at), want, ours);
    NoneOfNothing(ours);
    hide Foreign, Mine, MergeEntry;
  }

  lemma NoneOfNothing(ours: Json -> bool)
    ensures Mine([], ours) == [] && Foreign([], ours) == []
  {
  }

  lemma {:induction false} EventsMerged(hooks: map<string, Value>, order: seq<string>, entries: map<string, Json>,
                                        ours: Json -> bool, ev: string)
    requires forall k :: 0 <= k < |order| ==> order[k] in entries && ours(entries[order[k]])
    ensures var r := MergeEvents(hooks, order, entries, ours);
            && Foreign(ListAt(r, ev), ours) == Foreign(ListAt(hooks, ev), ours)
            && (ev !in order ==> (ev in r <==> ev in hooks) && (ev in hooks ==> r[ev] == hooks[ev]))
            && (ev in order ==> ev in r && r[ev].List? && Mine(r[ev].list, ours) == [entries[ev]])
            && (ev in order ==> Mine(ListAt(r, ev), ours) == [entries[ev]])
    decreases |order|
  {
    hide Foreign, Mine, MergeEvent, ListAt;
    if order != [] {
      var first := order[0];
      var next := MergeEvent(hooks, first, entries[first], ours);
      EventMerged(hooks, first, entries[first], ours, ev);
      EventsMerged(next, order[1..], entries, ours, ev);
      assert order == [first] + order[1..];
      ListIs(MergeEvents(hooks, order, entries, ours), ev);
    }
  }

  lemma ListIs(hooks: map<string, Value>, ev: string)
    ensures ev in hooks && hooks[ev].List? ==> ListAt(hooks, ev) == hooks[ev].list
  {
  }

  lemma {:induction false} MergeEventsAgain(hooks: map<string, Value>, order: seq<string>, entries: map<string, Json>,
                                            ours: Json -> bool)
    requires forall k :: 0 <= k < |order| ==> order[k] in entries
    requires forall k :: 0 <= k < |order| ==> order[k] in hooks && hooks[order[k]].List? &&
                                              Mine(hooks[order[k]].list, ours) == [entries[order[k]]]
    ensures MergeEvents(hooks, order, entries, ours) == hooks
    decreases |order|
  {
    if order != [] {
      MergeEventsAgain(hooks, order[1..], entries, ours);
    }
  }

  /** After a merge, each event asked for holds exactly our entry of ours; nobody else's entry or
      rule has moved; our rules are exactly those wanted; and there is nothing left to merge. */
  lemma DocMerged(doc: Doc, spec: Spec, entryOurs: Json -> bool, ruleOurs: Json -> bool)
    requires Complete(spec, entryOurs, ruleOurs)
    ensures var r := MergeDoc(doc, spec, entryOurs, ruleOurs);
            var before, after := Child(doc.hooks), Child(r.hooks);
            && (forall ev :: ev in spec.order ==> Mine(ListAt(after, ev), entryOurs) == [spec.entries[ev]])
            && (forall ev :: Foreign(ListAt(after, ev), entryOurs) == Foreign(ListAt(before, ev), entryOurs))
            && (forall ev :: ev !in spec.order ==>
                 (ev in after <==> ev in before) && (ev in before ==> after[ev] == before[ev]))
            && (spec.allow != [] ==> multiset(Mine(Allowed(r), ruleOurs)) == multiset(spec.allow))
            && Foreign(Allowed(r), ruleOurs) == Foreign(Allowed(doc), ruleOurs)
            && !Changes(r, spec, entryOurs, ruleOurs) && MergeDoc(r, spec, entryOurs, ruleOurs) == r
  {
    hide Foreign, Mine, ListAt, MergeRules;
    var r := MergeDoc(doc, spec, entryOurs, ruleOurs);
    var before, after := Child(doc.hooks), Child(r.hooks);
    forall ev
      ensures Foreign(ListAt(after, ev), entryOurs) == Foreign(ListAt(before, ev), entryOurs)
      ensures ev !in spec.order ==> (ev in after <==> ev in before) && (ev in before ==> after[ev] == before[ev])
      ensures ev in spec.order ==>
                ev in after && after[ev].List? && Mine(after[ev].list, entryOurs) == [spec.entries[ev]]
      ensures ev in spec.order ==> Mine(ListAt(after, ev), entryOurs) == [spec.entries[ev]]
    {
      EventsMerged(before, spec.order, spec.entries, entryOurs, ev);
    }
    PermissionsMerged(doc.permissions, spec.allow, ruleOurs);
    MergeEventsAgain(after, spec.order, spec.entries, entryOurs);
  }

  lemma AllowMerged(m: Member, want: seq<Json>, ours: Json -> bool)
    ensures ListAt(Child(MergePermissions(m, want, ours)), ALLOW) ==
            if want == [] then ListAt(Child(m), ALLOW) else MergeRules(ListAt(Child(m), ALLOW), want, ours)
  {
    hide MergeRules;
  }

  lemma PermissionsMerged(m: Member, want: seq<Json>, ours: Json -> bool)
    requires forall k :: 0 <= k < |want| ==> ours(want[k])
    ensures var r := MergePermissions(m, want, ours);
            var before, after := ListAt(Child(m), ALLOW), ListAt(Child(r), ALLOW);
            && (want != [] ==> multiset(Mine(after, ours)) == multiset(want))
            && Foreign(after, ours) == Foreign(before, ours)
            && MergePermissions(r, want, ours) == r
  {
    hide Foreign, Mine, MergeRules;
    RulesMerged(ListAt(Child(m), ALLOW), want, ours);
    AllowMerged(m, want, ours);
  }

  /** Each event asked for holds exactly our entry of ours, and our rules are those asked for. */
  ghost predicate AsWanted(doc: Doc, spec: Spec, entryOurs: Json -> bool, ruleOurs: Json -> bool)
    requires Complete(spec, entryOurs, ruleOurs)
  {
    && (forall ev :: ev in spec.order ==> Mine(ListAt(Child(doc.hooks), ev), entryOurs) == [spec.entries[ev]])
    && (spec.allow != [] ==> multiset(Mine(Allowed(doc), ruleOurs)) == multiset(spec.allow))
  }

  lemma AsWantedIff(doc: Doc, spec: Spec, entryOurs: Json -> bool, ruleOurs: Json -> bool)
    requires Complete(spec, entryOurs, ruleOurs)
    ensures AsWanted(doc, spec, entryOurs, ruleOurs) <==> !Changes(doc, spec, entryOurs, ruleOurs)
  {
    hide Mine, ListAt;
  }

  /** After a merge the file is as wanted, whatever it held; it is left alone exactly where it was so
      already; a second merge does not write it; and nobody else's entry or rule has moved. */
  lemma FileMerged(f: File, spec: Spec, entryOurs: Json -> bool, ruleOurs: Json -> bool)
    requires Complete(spec, entryOurs, ruleOurs)
    ensures var r := MergeFile(f, spec, entryOurs, ruleOurs);
            && AsWanted(Decoded(r), spec, entryOurs, ruleOurs)
            && (r == f <==> AsWanted(Decoded(f), spec, entryOurs, ruleOurs))
            && MergeFile(r, spec, entryOurs, ruleOurs) == r
            && (forall ev :: Foreign(ListAt(Child(Decoded(r).hooks), ev), entryOurs) ==
                             Foreign(ListAt(Child(Decoded(f).hooks), ev), entryOurs))
            && Foreign(Allowed(Decoded(r)), ruleOurs) == Foreign(Allowed(Decoded(f)), ruleOurs)
            && Decoded(r).otherKeys == Decoded(f).otherKeys
  {
    hide Foreign, Mine, ListAt, MergeRules, Changes, AsWanted, MergePermissions, MergeEvents;
    DocMerged(Decoded(f), spec, entryOurs, ruleOurs);
    AsWantedIff(Decoded(f), spec, entryOurs, ruleOurs);
    AsWantedIff(MergeDoc(Decoded(f), spec, entryOurs, ruleOurs), spec, entryOurs, ruleOurs);
  }
}
