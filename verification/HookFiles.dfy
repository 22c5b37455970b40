/** A host's hook file, as it is edited: decoded, changed in place, and written only if something
    changed. */
module HookFiles {
  import opened Wrappers
  import opened Merge
  import opened MergeUndo

  lemma {:induction false} MergeEventsSplit(hooks: map<string, Value>, order: seq<string>, i: nat, entries: map<string,
      Json>,
                                            ours: Json -> bool)
    requires (forall k :: 0 <= k < |order| ==> order[k] in entries) && i < |order|
    ensures MergeEvents(hooks, order[..i + 1], entries, ours) ==
            MergeEvent(MergeEvents(hooks, order[..i], entries, ours), order[i], entries[order[i]], ours)
    decreases i
  {
    hide MergeEvent;
    if i == 0 {
      assert order[..1] == [order[0]] && order[..0] == [] && [order[0]][1..] == [];
    } else {
      var next := MergeEvent(hooks, order[0], entries[order[0]], ours);
      MergeEventsSplit(next, order[1..], i - 1, entries, ours);
      assert order[..i + 1][1..] == order[1..][..i] && order[..i][1..] == order[1..][..i - 1];
      assert order[..i + 1][0] == order[0] && order[..i][0] == order[0] && order[1..][i - 1] == order[i];
    }
  }

  lemma EventsNone(hooks: map<string, Value>, entries: map<string, Json>, ours: Json -> bool)
    ensures MergeEvents(hooks, [], entries, ours) == hooks
  {
  }

  /** Before the event at `i` is reached it is as it was, unless it has been merged already. */
  lemma StillStale(hooks: map<string, Value>, order: seq<string>, i: nat, entries: map<string, Json>,
      ours: Json -> bool)
    requires (forall k :: 0 <= k < |order| ==> order[k] in entries && ours(entries[order[k]])) && i < |order|
    ensures var now := MergeEvents(hooks, order[..i], entries, ours);
            var ev := order[i];
            Stale(now, ev, entries[ev], ours) <==> Stale(hooks, ev, entries[ev], ours) && ev !in order[..i]
  {
    hide Mine, Foreign, MergeEvents;
    var ev := order[i];
    EventsMerged(hooks, order[..i], entries, ours, ev);
  }

  ghost predicate StaleBefore(hooks: map<string, Value>, order: seq<string>, i: nat, entries: map<string, Json>,
      ours: Json -> bool)
    requires (forall k :: 0 <= k < |order| ==> order[k] in entries) && i <= |order|
  {
    exists k :: 0 <= k < i && Stale(hooks, order[k], entries[order[k]], ours)
  }

  /** An event seen before was stale then or is not now. */
  lemma OneMoreEvent(hooks: map<string, Value>, order: seq<string>, i: nat, entries: map<string, Json>,
      ours: Json -> bool)
    requires (forall k :: 0 <= k < |order| ==> order[k] in entries && ours(entries[order[k]])) && i < |order|
    ensures var now := MergeEvents(hooks, order[..i], entries, ours);
            StaleBefore(hooks, order, i + 1, entries, ours) <==>
            StaleBefore(hooks, order, i, entries, ours) || Stale(now, order[i], entries[order[i]], ours)
  {
    hide Stale, MergeEvents;
    StillStale(hooks, order, i, entries, ours);
    if order[i] in order[..i] {
      var k :| 0 <= k < i && order[..i][k] == order[i];
      assert order[k] == order[i];
    }
  }

  ghost predicate SomeOurs(events: map<string, Value>, left: set<string>, ours: Json -> bool) {
    exists ev :: ev in events && ev !in left && Mine(ListAt(events, ev), ours) != []
  }

  class HookFile {
    var file: File
    var version: Option<string>
    var permissions: Member
    var hooks: Member

    constructor (f: File)
      ensures file == f
    {
      file, version, permissions, hooks := f, None, Missing, Missing;
    }

    /** The decoded file, as far as it has been changed. */
    function D(): Doc
      reads this
    {
      Doc(version, permissions, hooks, Decoded(file).otherKeys)
    }

    method Decode()
      modifies this`version, this`permissions, this`hooks
      ensures D() == Decoded(file)
    {
      var doc := Decoded(file);
      version, permissions, hooks := doc.version, doc.permissions, doc.hooks;
    }

    /** mergeAllowRules. */
    method MergeAllowRules(want: seq<Json>, ours: Json -> bool) returns (changed: bool)
      requires want != [] && forall k :: 0 <= k < |want| ==> ours(want[k])
      modifies this`permissions
      ensures permissions == MergePermissions(old(permissions), want, ours)
      ensures changed <==> multiset(Mine(ListAt(Child(old(permissions)), ALLOW), ours)) != multiset(want)
      ensures changed <==> StaleRules(old(D()), want, ours)
    {
      var members := Child(permissions);
      var list := ListAt(members, ALLOW);
      var kept, mine := SplitList(list, ours);
      var same := SameRuleSet(mine, want);
      changed := !same;
      permissions := Members(members[ALLOW := List(if same then list else kept + want)]);
    }

    /** One event: our entry left where it is, or everything of ours replaced by it. */
    method MergeOneEvent(ev: string, want: Json, ours: Json -> bool) returns (changed: bool)
      requires hooks.Members? && ours(want)
      modifies this`hooks
      ensures hooks == Members(MergeEvent(old(hooks).members, ev, want, ours))
      ensures changed <==> Mine(ListAt(old(hooks).members, ev), ours) != [want]
      ensures changed <==> Stale(old(hooks).members, ev, want, ours)
      ensures Mine(ListAt(hooks.members, ev), ours) == [want]
    {
      var list := ListAt(hooks.members, ev);
      EntryMerged(list, want, ours);
      var kept, mine := SplitList(list, ours);
      changed := mine != [want];
      if changed {
        hooks := Members(hooks.members[ev := List(kept + [want])]);
      }
    }

    /** planHooksMerge: the file is written with our entries and rules in it, or not at all. */
    method PlanMerge(spec: Spec, entryOurs: Json -> bool, ruleOurs: Json -> bool) returns (changed: bool)
      requires Complete(spec, entryOurs, ruleOurs)
      modifies this
      ensures file == MergeFile(old(file), spec, entryOurs, ruleOurs)
      ensures AsWanted(Decoded(file), spec, entryOurs, ruleOurs)
      ensures changed <==> !AsWanted(Decoded(old(file)), spec, entryOurs, ruleOurs)
      ensures changed <==> file != old(file)
    {
      hide AsWanted, MergeEvent, MergeEvents, Mine, Foreign, MergeRules, Stale, StaleRules, MergePermissions;
      Decode();
      if version.None? {
        version := spec.version;
      }
      ghost var start := Child(hooks);
      hooks := Members(Child(hooks));
      EventsNone(start, spec.entries, entryOurs);
      changed := false;
      var i := 0;
      assert spec.order[..0] == [];
      while i < |spec.order|
        invariant 0 <= i <= |spec.order|
        invariant hooks == Members(MergeEvents(start, spec.order[..i], spec.entries, entryOurs))
        invariant changed <==> StaleBefore(start, spec.order, i, spec.entries, entryOurs)
        modifies this`hooks
      {
        MergeEventsSplit(start, spec.order, i, spec.entries, entryOurs);
        OneMoreEvent(start, spec.order, i, spec.entries, entryOurs);
        var eventChanged := MergeOneEvent(spec.order[i], spec.entries[spec.order[i]], entryOurs);
        changed := changed || eventChanged;
        i := i + 1;
      }
      assert spec.order[..|spec.order|] == spec.order;
      ghost var doc := Decoded(file);
      SameRules(doc, D(), spec.allow, ruleOurs);
      if spec.allow != [] {
        var rulesChanged := MergeAllowRules(spec.allow, ruleOurs);
        changed := changed || rulesChanged;
      }
      NoRules(doc, spec.allow, ruleOurs);
      if changed {
        file := Has(D());
      }
      hide Changes, MergeFile, MergeDoc, Decoded, StaleBefore;
      Planned(old(file), spec, entryOurs, ruleOurs);
    }

    /** planHooksRemove: our entries and rules out, and the lists left empty; nothing is written
        where nothing was ours, and a file left with nothing else in it goes. */
    method PlanRemove(entryOurs: Json -> bool, ruleOurs: Json -> bool) returns (changed: bool)
      modifies this
      ensures file == RemoveFile(old(file), entryOurs, ruleOurs)
      ensures changed <==> old(file).Has? && HasOurs(old(file).doc, entryOurs, ruleOurs)
    {
      hide RemoveEvents, Mine, Foreign;
      if file.NoFile? {
        return false;
      }
      Decode();
      var rulesGone := StripRules(ruleOurs);
      var eventsGone := StripEvents(entryOurs);
      changed := rulesGone || eventsGone;
      if changed {
        file := if OnlyOurs(D()) then NoFile else Has(D());
      }
    }

    method StripRules(ours: Json -> bool) returns (changed: bool)
      modifies this`permissions
      ensures permissions == StripPermissions(old(permissions), ours)
      ensures changed <==> Mine(ListAt(Child(old(permissions)), ALLOW), ours) != []
    {
      hide Mine, Foreign;
      changed := false;
      NoneOfNothing(ours);
      if permissions.Members? {
        var members := permissions.members;
        if ALLOW in members && members[ALLOW].List? {
          var kept, mine := SplitList(members[ALLOW].list, ours);
          changed := mine != [];
          members := if kept == [] then members - {ALLOW} else members[ALLOW := List(kept)];
        }
        permissions := if members == map[] then Missing else Members(members);
      }
    }

    method StripEvents(ours: Json -> bool) returns (changed: bool)
      modifies this`hooks
      ensures hooks == StripHooks(old(hooks), ours)
      ensures changed <==> SomeOurs(Child(old(hooks)), {}, ours)
    {
      hide Mine, Foreign, RemoveEvents;
      changed := false;
      if !hooks.Members? {
        return;
      }
      var events := hooks.members;
      var left, next: map<string, Value> := events.Keys, map[];
      NoneOfNothing(ours);
      while left != {}
        invariant left <= events.Keys && next.Keys !! left && next.Keys <= events.Keys
        invariant forall ev :: ev in events && ev !in left ==>
                    (ev in next <==> ev in RemoveEvents(events, ours)) &&
                      (ev in next ==> next[ev] == RemoveEvents(events, ours)[ev])
        invariant changed <==> SomeOurs(events, left, ours)
        modifies {}
      {
        var ev :| ev in left;
        RemovedAt(events, ours, ev);
        ghost var was, before := changed, left;
        left := left - {ev};
        if events[ev].List? {
          var kept, mine := SplitList(events[ev].list, ours);
          changed := changed || mine != [];
          if kept != [] {
            next := next[ev := List(kept)];
          }
        } else {
          next := next[ev := events[ev]];
        }
        assert changed <==> was || Mine(ListAt(events, ev), ours) != [];
        OneMoreOurs(events, before, ev, ours);
      }
      RemovedKeys(events, ours);
      assert next == RemoveEvents(events, ours);
      hooks := Members(next);
    }
  }

  lemma Planned(f: File, spec: Spec, entryOurs: Json -> bool, ruleOurs: Json -> bool)
    requires Complete(spec, entryOurs, ruleOurs)
    ensures var r := MergeFile(f, spec, entryOurs, ruleOurs);
            AsWanted(Decoded(r), spec, entryOurs, ruleOurs) &&
            (r == f <==> AsWanted(Decoded(f), spec, entryOurs, ruleOurs))
    ensures Changes(Decoded(f), spec, entryOurs, ruleOurs) <==> !AsWanted(Decoded(f), spec, entryOurs, ruleOurs)
  {
    hide AsWanted, Changes;
    FileMerged(f, spec, entryOurs, ruleOurs);
    AsWantedIff(Decoded(f), spec, entryOurs, ruleOurs);
  }

  lemma OneMoreOurs(events: map<string, Value>, left: set<string>, ev: string, ours: Json -> bool)
    requires ev in left && ev in events
    ensures SomeOurs(events, left - {ev}, ours) <==>
            SomeOurs(events, left, ours) || Mine(ListAt(events, ev), ours) != []
  {
    hide Mine, ListAt;
    if SomeOurs(events, left - {ev}, ours) {
      var e :| e in events && e !in left - {ev} && Mine(ListAt(events, e), ours) != [];
      assert e == ev || e !in left;
    }
    if SomeOurs(events, left, ours) {
      var e :| e in events && e !in left && Mine(ListAt(events, e), ours) != [];
      assert e !in left - {ev};
    }
    if Mine(ListAt(events, ev), ours) != [] {
      assert ev !in left - {ev};
    }
  }

  lemma RemovedKeys(hooks: map<string, Value>, ours: Json -> bool)
    ensures RemoveEvents(hooks, ours).Keys <= hooks.Keys
  {
  }

  lemma SameRules(doc: Doc, now: Doc, want: seq<Json>, ours: Json -> bool)
    requires now.permissions == doc.permissions
    ensures StaleRules(now, want, ours) == StaleRules(doc, want, ours)
  {
  }

  lemma NoRules(doc: Doc, want: seq<Json>, ours: Json -> bool)
    ensures want == [] ==>
              !StaleRules(doc, want, ours) && MergePermissions(doc.permissions, want, ours) == doc.permissions
  {
  }
}
