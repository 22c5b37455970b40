/** Taking our entries and rules out of a file again, and when that undoes a merge. */
module MergeUndo {
  import opened Wrappers
  import opened Merge

  // ── planHooksRemove ──

  /** A list without ours, and without it altogether where nothing is left. */
  function StripKey(members: map<string, Value>, key: string, ours: Json -> bool): map<string, Value> {
    if key !in members || !members[key].List? then members
    else
      var kept := Foreign(members[key].list, ours);
      if kept == [] then members - {key} else members[key := List(kept)]
  }

  function StripPermissions(m: Member, ours: Json -> bool): Member {
    if !m.Members? then m
    else
      var next := StripKey(m.members, ALLOW, ours);
      if next == map[] then Missing else Members(next)
  }

  function RemoveEvents(hooks: map<string, Value>, ours: Json -> bool): map<string, Value> {
    map ev | ev in hooks && (hooks[ev].List? ==> Foreign(hooks[ev].list, ours) != [])
      :: if hooks[ev].List? then List(Foreign(hooks[ev].list, ours)) else hooks[ev]
  }

  function StripHooks(m: Member, ours: Json -> bool): Member {
    if m.Members? then Members(RemoveEvents(m.members, ours)) else m
  }

  function Strip(doc: Doc, entryOurs: Json -> bool, ruleOurs: Json -> bool): Doc {
    doc.(permissions := StripPermissions(doc.permissions, ruleOurs), hooks := StripHooks(doc.hooks, entryOurs))
  }

  predicate HasOurs(doc: Doc, entryOurs: Json -> bool, ruleOurs: Json -> bool) {
    Mine(Allowed(doc), ruleOurs) != [] ||
      exists ev :: ev in Child(doc.hooks) && Mine(ListAt(Child(doc.hooks), ev), entryOurs) != []
  }

  /** hooksFileIsNowOnlyOurs: no other key, and no event. */
  predicate OnlyOurs(doc: Doc) {
    doc.permissions.Missing? && doc.otherKeys == {} && (doc.hooks.Missing? || doc.hooks == Members(map[]))
  }

  /** A file with nothing of ours in it is not touched; one with nothing else in it goes. */
  function RemoveFile(f: File, entryOurs: Json -> bool, ruleOurs: Json -> bool): File {
    if f.NoFile? || !HasOurs(f.doc, entryOurs, ruleOurs) then f
    else
      var next := Strip(f.doc, entryOurs, ruleOurs);
      if OnlyOurs(next) then NoFile else Has(next)
  }

  // ── what a merge cannot be undone for ──

  /** What the merge goes into is of the shape it expects: nothing is replaced by a new object or
      a new list, and no version is added. */
  predicate Shaped(doc: Doc, spec: Spec) {
    && (spec.version.Some? ==> doc.version.Some?)
    && doc.hooks.Members? && EventsShaped(doc, spec)
    && PermissionsShaped(doc, spec)
  }

  predicate EventsShaped(doc: Doc, spec: Spec) {
    forall ev :: ev in spec.order && ev in Child(doc.hooks) ==> Child(doc.hooks)[ev].List?
  }

  predicate PermissionsShaped(doc: Doc, spec: Spec) {
    spec.allow != [] ==>
      !doc.permissions.NoObject? && (ALLOW in Child(doc.permissions) ==> Child(doc.permissions)[ALLOW].List?)
  }

  /** No list or permissions object is already empty: a removal would take it. */
  predicate Tidy(doc: Doc) {
    && (forall ev :: ev in Child(doc.hooks) ==> Child(doc.hooks)[ev] != List([]))
    && (doc.permissions.Members? ==>
          doc.permissions.members != map[] &&
            (ALLOW in doc.permissions.members ==> doc.permissions.members[ALLOW] != List([])))
  }

  /** This key holds a list of ours, if anything. */
  predicate AllOurs(v: Value, ours: Json -> bool) {
    v.List? && forall k :: 0 <= k < |v.list| ==> ours(v.list[k])
  }

  /** Nothing in the document is somebody else's: no other key, no event that is not a list of ours,
      and no permissions but a list of our rules. */
  predicate NothingOfOthers(doc: Doc, entryOurs: Json -> bool, ruleOurs: Json -> bool) {
    && doc.otherKeys == {}
    && !doc.hooks.NoObject? && (forall ev :: ev in Child(doc.hooks) ==> AllOurs(Child(doc.hooks)[ev], entryOurs))
    && !doc.permissions.NoObject?
    && (forall k :: k in Child(doc.permissions) ==> k == ALLOW && AllOurs(Child(doc.permissions)[k], ruleOurs))
  }

  /** The files removal leaves the same whether or not there was a merge before it. */
  predicate Undone(f: File, spec: Spec, entryOurs: Json -> bool, ruleOurs: Json -> bool)
    requires Complete(spec, entryOurs, ruleOurs)
  {
    || f.NoFile?
    || !Changes(f.doc, spec, entryOurs, ruleOurs)
    || (if HasOurs(f.doc, entryOurs, ruleOurs)
        then Shaped(f.doc, spec) || NothingOfOthers(f.doc, entryOurs, ruleOurs)
        else Shaped(f.doc, spec) && Tidy(f.doc) && !OnlyOurs(f.doc))
  }

  // ── one member at a time ──

  lemma RemovedAt(hooks: map<string, Value>, ours: Json -> bool, ev: string)
    ensures var r := RemoveEvents(hooks, ours);
            && (ev in r <==> ev in hooks && (hooks[ev].List? ==> Foreign(hooks[ev].list, ours) != []))
            && (ev in r ==> r[ev] == if hooks[ev].List? then List(Foreign(hooks[ev].list, ours)) else hooks[ev])
  {
  }

  lemma SameAfterRemoval(a: map<string, Value>, b: map<string, Value>, ours: Json -> bool, ev: string)
    requires ev in b && b[ev].List? && Foreign(ListAt(a, ev), ours) == Foreign(ListAt(b, ev), ours)
    ensures var x, y := RemoveEvents(a, ours), RemoveEvents(b, ours);
            (ev in x <==> ev in y) && (ev in x ==> x[ev] == y[ev]) <==> (ev in a ==> a[ev].List?)
  {
    RemovedAt(a, ours, ev);
    RemovedAt(b, ours, ev);
  }

  lemma EventsUndone(doc: Doc, spec: Spec, entryOurs: Json -> bool, ruleOurs: Json -> bool)
    requires Complete(spec, entryOurs, ruleOurs)
    ensures var merged := MergeDoc(doc, spec, entryOurs, ruleOurs);
            RemoveEvents(Child(merged.hooks), entryOurs) == RemoveEvents(Child(doc.hooks), entryOurs) <==>
              EventsShaped(doc, spec)
  {
    hide RemoveEvents, Foreign, Mine, ListAt, MergeEvents;
    var before, after := Child(doc.hooks), MergeEvents(Child(doc.hooks), spec.order, spec.entries, entryOurs);
    var x, y := RemoveEvents(before, entryOurs), RemoveEvents(after, entryOurs);
    forall ev
      ensures (ev in x <==> ev in y) && (ev in x ==> x[ev] == y[ev]) <==>
              (ev in spec.order && ev in before ==> before[ev].List?)
    {
      EventsMerged(before, spec.order, spec.entries, entryOurs, ev);
      if ev in spec.order {
        SameAfterRemoval(before, after, entryOurs, ev);
      } else {
        RemovedAt(before, entryOurs, ev);
        RemovedAt(after, entryOurs, ev);
      }
    }
    if EventsShaped(doc, spec) {
      assert x == y;
    } else {
      var ev :| ev in spec.order && ev in before && !before[ev].List?;
      assert x != y;
    }
  }

  lemma StrippedKey(members: map<string, Value>, key: string, ours: Json -> bool, k: string)
    ensures var r := StripKey(members, key, ours);
            && (k != key ==> (k in r <==> k in members) && (k in r ==> r[k] == members[k]))
            && (key in r <==> key in members && (members[key].List? ==> Foreign(members[key].list, ours) != []))
            && (key in r ==> r[key] == if members[key].List? then List(Foreign(members[key].list,
                 ours)) else members[key])
  {
  }

  lemma PermissionsUndone(m: Member, want: seq<Json>, ours: Json -> bool)
    requires want != [] && forall k :: 0 <= k < |want| ==> ours(want[k])
    ensures StripPermissions(MergePermissions(m, want, ours), ours) == StripPermissions(m, ours) <==>
            !m.NoObject? && (ALLOW in Child(m) ==> Child(m)[ALLOW].List?)
  {
    hide Foreign, Mine, MergeRules, StripKey, ListAt;
    PermissionsMerged(m, want, ours);
    var before, after := Child(m), Child(MergePermissions(m, want, ours));
    var x, y := StripKey(before, ALLOW, ours), StripKey(after, ALLOW, ours);
    NoneLeft(ours);
    KeyAt(before);
    KeyAt(after);
    forall k
      ensures k != ALLOW ==> (k in x <==> k in y) && (k in x ==> x[k] == y[k])
      ensures k in x ==> k in before
    {
      StrippedKey(before, ALLOW, ours, k);
      StrippedKey(after, ALLOW, ours, k);
    }
    StrippedKey(before, ALLOW, ours, ALLOW);
    StrippedKey(after, ALLOW, ours, ALLOW);
    if ALLOW in before && !before[ALLOW].List? {
      assert x != y && x != map[];
    } else {
      assert x == y && (before == map[] ==> x == map[]);
    }
  }

  lemma NoneLeft(ours: Json -> bool)
    ensures Foreign([], ours) == []
  {
  }

  lemma KeyAt(members: map<string, Value>)
    ensures ListAt(members, ALLOW) == if ALLOW in members && members[ALLOW].List? then members[ALLOW].list else []
  {
  }

  /** The document without ours, had there been a merge: the same, precisely when it was of the
      shape the merge expects. */
  lemma StripUndoes(doc: Doc, spec: Spec, entryOurs: Json -> bool, ruleOurs: Json -> bool)
    requires Complete(spec, entryOurs, ruleOurs)
    ensures var merged := MergeDoc(doc, spec, entryOurs, ruleOurs);
            Strip(merged, entryOurs, ruleOurs) == Strip(doc, entryOurs, ruleOurs) <==> Shaped(doc, spec)
  {
    hide RemoveEvents, MergeEvents, Foreign, Mine, StripPermissions;
    EventsUndone(doc, spec, entryOurs, ruleOurs);
    if spec.allow != [] {
      PermissionsUndone(doc.permissions, spec.allow, ruleOurs);
    }
  }

  /** What a merge leaves behind in any case, if nothing but containers was missing: the version it
      added and the object it made for the events. */
  lemma StripLeaves(doc: Doc, spec: Spec, entryOurs: Json -> bool, ruleOurs: Json -> bool)
    requires Complete(spec, entryOurs, ruleOurs)
    ensures var merged := MergeDoc(doc, spec, entryOurs, ruleOurs);
            Strip(merged, entryOurs, ruleOurs) ==
            Strip(doc, entryOurs, ruleOurs).(version := merged.version,
                hooks := Members(RemoveEvents(Child(doc.hooks), entryOurs))) <==>
            EventsShaped(doc, spec) && PermissionsShaped(doc, spec)
  {
    hide RemoveEvents, MergeEvents, Foreign, Mine, StripPermissions;
    EventsUndone(doc, spec, entryOurs, ruleOurs);
    if spec.allow != [] {
      PermissionsUndone(doc.permissions, spec.allow, ruleOurs);
    }
  }

  // ── whole files ──

  lemma NoMine(list: seq<Json>, ours: Json -> bool)
    requires Mine(list, ours) == []
    ensures Foreign(list, ours) == list
    decreases |list|
  {
    if list != [] {
      NoMine(list[1..], ours);
    }
  }

  lemma MineIn(list: seq<Json>, ours: Json -> bool)
    ensures Mine(list, ours) == [] ==> Foreign(list, ours) == list
  {
    if Mine(list, ours) == [] {
      NoMine(list, ours);
    }
  }

  lemma EventsTidy(hooks: map<string, Value>, ours: Json -> bool)
    requires forall ev :: ev in hooks ==> Mine(ListAt(hooks, ev), ours) == []
    ensures RemoveEvents(hooks, ours) == hooks <==> forall ev :: ev in hooks ==> hooks[ev] != List([])
  {
    hide Foreign, Mine, RemoveEvents;
    var r := RemoveEvents(hooks, ours);
    NoneLeft(ours);
    forall ev
      ensures (ev in r <==> ev in hooks) && (ev in r ==> r[ev] == hooks[ev]) <==>
              (ev in hooks ==> hooks[ev] != List([]))
    {
      RemovedAt(hooks, ours, ev);
      if ev in hooks && hooks[ev].List? {
        MineIn(hooks[ev].list, ours);
      }
    }
    if forall ev :: ev in hooks ==> hooks[ev] != List([]) {
      assert r == hooks;
    }
  }

  lemma PermissionsTidy(m: Member, ours: Json -> bool)
    requires Mine(ListAt(Child(m), ALLOW), ours) == []
    ensures StripPermissions(m, ours) == m <==>
            (m.Members? ==> m.members != map[] && (ALLOW in m.members ==> m.members[ALLOW] != List([])))
  {
    hide Foreign, Mine, StripKey;
    if m.Members? {
      var r := StripKey(m.members, ALLOW, ours);
      NoneLeft(ours);
      MineIn(ListAt(m.members, ALLOW), ours);
      forall k
        ensures k != ALLOW ==> (k in r <==> k in m.members) && (k in r ==> r[k] == m.members[k])
      {
        StrippedKey(m.members, ALLOW, ours, k);
      }
      StrippedKey(m.members, ALLOW, ours, ALLOW);
      if ALLOW in m.members && m.members[ALLOW] == List([]) {
        assert r != m.members;
      } else {
        assert r == m.members;
      }
    }
  }

  /** Where nothing is ours, taking it out changes nothing exactly where nothing is empty. */
  lemma NothingToStrip(doc: Doc, entryOurs: Json -> bool, ruleOurs: Json -> bool)
    requires !HasOurs(doc, entryOurs, ruleOurs)
    ensures Strip(doc, entryOurs, ruleOurs) == doc <==> Tidy(doc)
  {
    hide RemoveEvents, StripPermissions, Mine, Foreign;
    EventsTidy(Child(doc.hooks), entryOurs);
    PermissionsTidy(doc.permissions, ruleOurs);
  }

  lemma MergedHasOurs(doc: Doc, spec: Spec, entryOurs: Json -> bool, ruleOurs: Json -> bool)
    requires Complete(spec, entryOurs, ruleOurs) && (spec.order != [] || spec.allow != [])
    ensures HasOurs(MergeDoc(doc, spec, entryOurs, ruleOurs), entryOurs, ruleOurs)
  {
    hide Mine, Foreign, MergeEvents, MergeRules;
    var r := MergeDoc(doc, spec, entryOurs, ruleOurs);
    if spec.order != [] {
      var ev := spec.order[0];
      EventsMerged(Child(doc.hooks), spec.order, spec.entries, entryOurs, ev);
      assert ev in Child(r.hooks);
    } else {
      DocMerged(doc, spec, entryOurs, ruleOurs);
      assert multiset(spec.allow) != multiset{} by {
        assert spec.allow[0] in multiset(spec.allow);
      }
      EmptyBag(Mine(Allowed(r), ruleOurs));
    }
  }

  lemma EmptyBag(list: seq<Json>)
    ensures list == [] ==> multiset(list) == multiset{}
  {
  }

  lemma {:induction false} NoForeign(list: seq<Json>, ours: Json -> bool)
    ensures Foreign(list, ours) == [] <==> forall k :: 0 <= k < |list| ==> ours(list[k])
  {
    if list != [] {
      NoForeign(list[1..], ours);
      assert list == [list[0]] + list[1..];
    }
  }

  lemma EventsGo(hooks: map<string, Value>, ours: Json -> bool)
    ensures RemoveEvents(hooks, ours) == map[] <==> forall ev :: ev in hooks ==> AllOurs(hooks[ev], ours)
  {
    hide Foreign, RemoveEvents;
    var r := RemoveEvents(hooks, ours);
    forall ev
      ensures ev !in r <==> (ev in hooks ==> AllOurs(hooks[ev], ours))
    {
      RemovedAt(hooks, ours, ev);
      if ev in hooks && hooks[ev].List? {
        NoForeign(hooks[ev].list, ours);
      }
    }
    NoneIn(r);
  }

  lemma NoneIn(m: map<string, Value>)
    ensures m == map[] <==> forall k :: k !in m
  {
    assert m == map[] <==> m.Keys == {};
  }

  lemma PermissionsGo(m: Member, ours: Json -> bool)
    ensures StripPermissions(m, ours).Missing? <==>
            !m.NoObject? && forall k :: k in Child(m) ==> k == ALLOW && AllOurs(Child(m)[k], ours)
  {
    hide Foreign, StripKey, AllOurs;
    if m.Members? {
      var r := StripKey(m.members, ALLOW, ours);
      forall k
        ensures k !in r <==> (k in m.members ==> k == ALLOW && AllOurs(m.members[k], ours))
      {
        KeyGoes(m.members, k, ours);
      }
      NoneIn(r);
      assert Child(m) == m.members;
      if r == map[] {
        assert forall k :: k in m.members ==> k !in r;
      } else {
        var k :| k in r;
        assert k in m.members && !(k == ALLOW && AllOurs(m.members[k], ours));
      }
    }
  }

  lemma KeyGoes(members: map<string, Value>, k: string, ours: Json -> bool)
    ensures k !in StripKey(members, ALLOW, ours) <==> (k in members ==> k == ALLOW && AllOurs(members[k], ours))
  {
    hide Foreign, StripKey;
    StrippedKey(members, ALLOW, ours, k);
    if k == ALLOW && k in members && members[k].List? {
      NoForeign(members[k].list, ours);
    }
  }

  /** Only ours is left exactly where nothing was somebody else's. */
  lemma OnlyOursIsLeft(doc: Doc, entryOurs: Json -> bool, ruleOurs: Json -> bool)
    ensures OnlyOurs(Strip(doc, entryOurs, ruleOurs)) <==> NothingOfOthers(doc, entryOurs, ruleOurs)
  {
    hide Foreign, RemoveEvents, StripPermissions, AllOurs;
    EventsGo(Child(doc.hooks), entryOurs);
    PermissionsGo(doc.permissions, ruleOurs);
  }

  /** A file removal would have taken whole, it takes whole after a merge. */
  lemma StillOnlyOurs(doc: Doc, spec: Spec, entryOurs: Json -> bool, ruleOurs: Json -> bool)
    requires Complete(spec, entryOurs, ruleOurs) && OnlyOurs(Strip(doc, entryOurs, ruleOurs))
    ensures OnlyOurs(Strip(MergeDoc(doc, spec, entryOurs, ruleOurs), entryOurs, ruleOurs))
  {
    hide RemoveEvents, MergeEvents, Foreign, Mine, StripPermissions;
    var before := Child(doc.hooks);
    EventsUndone(doc, spec, entryOurs, ruleOurs);
    forall ev | ev in before
      ensures before[ev].List?
    {
      RemovedAt(before, entryOurs, ev);
    }
    NoEvents(entryOurs);
    if spec.allow != [] {
      AllStripped(doc.permissions, ruleOurs);
      PermissionsUndone(doc.permissions, spec.allow, ruleOurs);
    }
  }

  lemma NoEvents(ours: Json -> bool)
    ensures RemoveEvents(map[], ours) == map[]
  {
  }

  lemma AllStripped(m: Member, ours: Json -> bool)
    requires StripPermissions(m, ours).Missing?
    ensures !m.NoObject? && (ALLOW in Child(m) ==> Child(m)[ALLOW].List?)
  {
    hide Foreign;
    if m.Members? {
      StrippedKey(m.members, ALLOW, ours, ALLOW);
    }
  }

  lemma ChangesNeedSpec(doc: Doc, spec: Spec, entryOurs: Json -> bool, ruleOurs: Json -> bool)
    requires Complete(spec, entryOurs, ruleOurs) && Changes(doc, spec, entryOurs, ruleOurs)
    ensures spec.order != [] || spec.allow != []
  {
  }

  /** For every file: removal after a merge leaves exactly what removal without it would have left if
      and only if there was no file, or nothing to merge, or the merge replaced and added nothing of
      its own making, or the file held nothing of others; and a file that had nothing of ours must
      besides have had nothing empty, and something of somebody else's. */
  lemma RemovalUndoesMerge(f: File, spec: Spec, entryOurs: Json -> bool, ruleOurs: Json -> bool)
    requires Complete(spec, entryOurs, ruleOurs)
    ensures RemoveFile(MergeFile(f, spec, entryOurs, ruleOurs), entryOurs, ruleOurs) ==
            RemoveFile(f, entryOurs, ruleOurs) <==>
            Undone(f, spec, entryOurs, ruleOurs)
  {
    hide Changes, MergeDoc, Strip, HasOurs, Shaped, Tidy, NothingOfOthers, OnlyOurs;
    var doc := Decoded(f);
    OnlyOursIsLeft(doc, entryOurs, ruleOurs);
    if Changes(doc, spec, entryOurs, ruleOurs) {
      ChangesNeedSpec(doc, spec, entryOurs, ruleOurs);
      MergedHasOurs(doc, spec, entryOurs, ruleOurs);
      StripUndoes(doc, spec, entryOurs, ruleOurs);
      if OnlyOurs(Strip(doc, entryOurs, ruleOurs)) {
        StillOnlyOurs(doc, spec, entryOurs, ruleOurs);
      }
      if f.NoFile? {
        EmptyStrips(entryOurs, ruleOurs);
      } else if !HasOurs(doc, entryOurs, ruleOurs) {
        NothingToStrip(doc, entryOurs, ruleOurs);
        ShapedStrips(doc, spec, entryOurs, ruleOurs);
      }
    }
  }

  lemma EmptyStrips(entryOurs: Json -> bool, ruleOurs: Json -> bool)
    ensures OnlyOurs(Strip(EMPTY, entryOurs, ruleOurs))
  {
  }

  /** A document with nothing of ours that comes back as it was is one that was already tidy. */
  lemma ShapedStrips(doc: Doc, spec: Spec, entryOurs: Json -> bool, ruleOurs: Json -> bool)
    requires Complete(spec, entryOurs, ruleOurs) && !HasOurs(doc, entryOurs, ruleOurs)
    ensures Strip(MergeDoc(doc, spec, entryOurs, ruleOurs), entryOurs, ruleOurs) == doc ==> Tidy(doc)
  {
    hide Mine, Foreign, MergeEvents, MergeRules;
    var s := Strip(MergeDoc(doc, spec, entryOurs, ruleOurs), entryOurs, ruleOurs);
    var after := Child(MergeDoc(doc, spec, entryOurs, ruleOurs).hooks);
    if s == doc {
      forall ev | ev in Child(doc.hooks)
        ensures Child(doc.hooks)[ev] != List([])
      {
        RemovedAt(after, entryOurs, ev);
      }
    }
  }

  // ── what a removal leaves ──

  lemma {:induction false} NoneMineLeft(list: seq<Json>, ours: Json -> bool)
    ensures Mine(Foreign(list, ours), ours) == [] && Foreign(Foreign(list, ours), ours) == Foreign(list, ours)
  {
    ForeignIsForeign(list, ours);
  }

  /** No entry of ours and every one of the others', event by event. */
  lemma EventStripped(hooks: map<string, Value>, ours: Json -> bool, ev: string)
    ensures var r := RemoveEvents(hooks, ours);
            && Mine(ListAt(r, ev), ours) == [] && Foreign(ListAt(r, ev), ours) == Foreign(ListAt(hooks, ev), ours)
            && (ev in hooks && hooks[ev].NoList? ==> ev in r && r[ev] == hooks[ev])
  {
    hide Mine, Foreign, RemoveEvents;
    RemovedAt(hooks, ours, ev);
    NoneMineLeft(ListAt(hooks, ev), ours);
    NoneOfNothing(ours);
  }

  lemma RulesStripped(m: Member, ours: Json -> bool)
    ensures var r := StripPermissions(m, ours);
            && Mine(ListAt(Child(r), ALLOW), ours) == []
            && Foreign(ListAt(Child(r), ALLOW), ours) == Foreign(ListAt(Child(m), ALLOW), ours)
  {
    hide Mine, Foreign, StripKey;
    NoneOfNothing(ours);
    if m.Members? {
      StrippedKey(m.members, ALLOW, ours, ALLOW);
      NoneMineLeft(ListAt(m.members, ALLOW), ours);
    }
  }

  /** A removal leaves nothing of ours and everything of everybody else's, entry by entry and rule by
      rule; it writes nothing exactly where nothing was ours, and takes the file exactly where something
      was and nothing was anybody else's. */
  lemma FileStripped(f: File, entryOurs: Json -> bool, ruleOurs: Json -> bool)
    ensures var r := RemoveFile(f, entryOurs, ruleOurs);
            var had := Mine(Allowed(Decoded(f)), ruleOurs) != [] ||
                       exists ev :: Mine(ListAt(Child(Decoded(f).hooks), ev), entryOurs) != [];
            && Mine(Allowed(Decoded(r)), ruleOurs) == []
            && (forall ev :: Mine(ListAt(Child(Decoded(r).hooks), ev), entryOurs) == [])
            && (r.NoFile? <==> f.NoFile? || (had && NothingOfOthers(f.doc, entryOurs, ruleOurs)))
            && (r == f <==> f.NoFile? || !had)
            && (r.Has? ==>
                 && (forall ev :: Foreign(ListAt(Child(r.doc.hooks), ev), entryOurs) ==
                                  Foreign(ListAt(Child(f.doc.hooks), ev), entryOurs))
                 && Foreign(Allowed(r.doc), ruleOurs) == Foreign(Allowed(f.doc), ruleOurs)
                 && r.doc.otherKeys == f.doc.otherKeys && r.doc.version == f.doc.version)
  {
    hide Mine, Foreign, ListAt, RemoveEvents, StripPermissions, OnlyOurs, NothingOfOthers;
    NoneOfNothing(entryOurs);
    NoneOfNothing(ruleOurs);
    EmptyLists();
    HadIs(Decoded(f), entryOurs, ruleOurs);
    if f.Has? {
      OnlyOursIsLeft(f.doc, entryOurs, ruleOurs);
      RulesStripped(f.doc.permissions, ruleOurs);
      forall ev
        ensures var r := RemoveEvents(Child(f.doc.hooks), entryOurs);
                && Mine(ListAt(r, ev), entryOurs) == []
                && Foreign(ListAt(r, ev), entryOurs) == Foreign(ListAt(Child(f.doc.hooks), ev), entryOurs)
      {
        EventStripped(Child(f.doc.hooks), entryOurs, ev);
      }
      NothingThere(f.doc.hooks, entryOurs);
    }
  }

  lemma EmptyLists()
    ensures forall ev :: ListAt(map[], ev) == []
  {
  }

  lemma NothingThere(m: Member, ours: Json -> bool)
    ensures Child(StripHooks(m, ours)) == RemoveEvents(Child(m), ours)
  {
    NoEvents(ours);
  }

  lemma HadIs(doc: Doc, entryOurs: Json -> bool, ruleOurs: Json -> bool)
    ensures HasOurs(doc, entryOurs, ruleOurs) <==>
            Mine(Allowed(doc), ruleOurs) != [] || exists ev :: Mine(ListAt(Child(doc.hooks), ev), entryOurs) != []
  {
    hide Mine;
    NoneOfNothing(entryOurs);
    if ev :| Mine(ListAt(Child(doc.hooks), ev), entryOurs) != [] {
      assert ev in Child(doc.hooks);
    }
  }

  // ── files a merge is not undone for ──

  /** An allow that is not a list is overwritten, and does not come back. */
  lemma AllowNotAList(raw: string, rule: Json, entryOurs: Json -> bool, ruleOurs: Json -> bool)
    requires ruleOurs(rule)
    ensures var f := Has(Doc(None, Members(map[ALLOW := NoList(raw)]), Members(map[]), {}));
            var spec := Spec(None, [], map[], [rule]);
            && Complete(spec, entryOurs, ruleOurs)
            && RemoveFile(f, entryOurs, ruleOurs) == f
            && RemoveFile(MergeFile(f, spec, entryOurs, ruleOurs), entryOurs, ruleOurs) == NoFile
  {
    hide Mine, Foreign, MergeRules, StripPermissions, MergePermissions, StripHooks;
    var doc := Doc(None, Members(map[ALLOW := NoList(raw)]), Members(map[]), {});
    var spec := Spec(None, [], map[], [rule]);
    NoneOfNothing(ruleOurs);
    assert !HasOurs(doc, entryOurs, ruleOurs);
    assert rule in multiset([rule]);
    assert StaleRules(doc, spec.allow, ruleOurs);
    MergedHasOurs(doc, spec, entryOurs, ruleOurs);
    OneRuleStripped(doc.permissions, rule, ruleOurs);
    NoEventsMerged(entryOurs);
  }

  lemma OneRuleStripped(m: Member, rule: Json, ours: Json -> bool)
    requires ours(rule) && m.Members? && m.members.Keys == {ALLOW} && m.members[ALLOW].NoList?
    ensures StripPermissions(MergePermissions(m, [rule], ours), ours) == Missing
  {
    hide Mine, Foreign, MergeRules;
    NoneOfNothing(ours);
    PermissionsMerged(m, [rule], ours);
  }

  lemma NoEventsMerged(ours: Json -> bool)
    ensures StripHooks(Members(MergeEvents(map[], [], map[], ours)), ours) == Members(map[])
  {
  }

  /** An event that is an empty list goes with ours, and so does the file if that is all it had. */
  lemma EmptyEvent(ev: string, want: Json, entryOurs: Json -> bool, ruleOurs: Json -> bool)
    requires entryOurs(want)
    ensures var f := Has(Doc(None, Missing, Members(map[ev := List([])]), {}));
            var spec := Spec(None, [ev], map[ev := want], []);
            && Complete(spec, entryOurs, ruleOurs)
            && RemoveFile(f, entryOurs, ruleOurs) == f
            && RemoveFile(MergeFile(f, spec, entryOurs, ruleOurs), entryOurs, ruleOurs) == NoFile
  {
    hide Mine, Foreign, MergeEvents, RemoveEvents;
    var doc := Doc(None, Missing, Members(map[ev := List([])]), {});
    var spec := Spec(None, [ev], map[ev := want], []);
    NoneOfNothing(entryOurs);
    NoneOfNothing(ruleOurs);
    assert !HasOurs(doc, entryOurs, ruleOurs);
    assert Stale(doc.hooks.members, spec.order[0], want, entryOurs);
    MergedHasOurs(doc, spec, entryOurs, ruleOurs);
    EventsUndone(doc, spec, entryOurs, ruleOurs);
    RemovedAt(doc.hooks.members, entryOurs, ev);
    assert RemoveEvents(doc.hooks.members, entryOurs) == map[] by {
      OneEventGoes(ev, entryOurs);
    }
  }

  lemma OneEventGoes(ev: string, ours: Json -> bool)
    ensures RemoveEvents(map[ev := List([])], ours) == map[]
  {
  }
}
