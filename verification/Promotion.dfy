/** Intake records become spooled observations, with a crash or a failed call allowed between any
    two steps. */
module Promotion {
  import opened Wrappers
  import opened Intake

  lemma Least(s: set<Name>) returns (least: Name)
    requires s != {}
    ensures least in s && forall m :: m in s ==> least <= m
  {
    var n :| n in s;
    var rest := s - {n};
    if rest == {} {
      least := n;
      assert forall m :: m in s ==> m == n || m in rest;
    } else {
      var k := Least(rest);
      least := if k < n then k else n;
      assert forall m :: m in s ==> m == n || m in rest;
    }
  }

  /** How a call ended; the machine may stop inside it. */
  datatype Ended = Done | Failed | Stopped

  datatype Item = Item(name: Name, rec: Rec)

  /** The spool will never take this: other evidence holds the identity, or it can name no file. */
  predicate Refused(spooled: set<Evidence>, e: Evidence) {
    !Storable(e.id) || Conflicts(spooled, e)
  }

  /** Nothing of this record is left to do, but what the spool refuses. */
  ghost predicate Through(w: World, n: Name) {
    n !in w.visible || w.visible[n].request == "" ||
    Refused(w.spooled, Evidence(w.visible[n].id, w.visible[n].request))
  }

  /** A record stays because the spool refuses it. */
  ghost predicate Stuck(w: World, n: Name) {
    n in w.visible && w.visible[n].request != "" &&
    Refused(w.spooled, Evidence(w.visible[n].id, w.visible[n].request))
  }

  /** The same record, named if it had no name. */
  predicate OnlyNamed(before: Rec, after: Rec) {
    after == before || (before.id == "" && after == before.(id := after.id))
  }

  /** Nothing new is in the directory, what is there is as it was but for a missing identity, and
      what is no record is as it was. */
  ghost predicate Untouched(a: World, b: World) {
    forall n :: n in b.visible ==> n in a.visible && OnlyNamed(a.visible[n], b.visible[n])
  }

  /** The records promotion took out of the directory. */
  ghost function TakenOut(a: World, b: World): set<Name> {
    set n | n in a.visible && Eligible(a.visible[n]) && n !in b.visible
  }

  ghost predicate Listed(items: seq<Item>, n: Name) {
    exists j :: 0 <= j < |items| && items[j].name == n
  }

  class Store {
    var visible: map<Name, Rec>
    var outcomes: map<Name, set<Option<Rec>>>
    var spooled: set<Evidence>
    var safe: set<Evidence>
    ghost var log: seq<Tried>
    ghost var custody: set<Evidence>
    ghost var served: map<Name, string>

    /** While this holds nothing fails and the machine does not stop. */
    var calm: bool

    ghost function W(): World
      reads this
    {
      World(visible, outcomes, spooled, safe, log, custody, served)
    }

    constructor (calm: bool)
      ensures Kept(W()) && this.calm == calm && log == [] && visible == map[]
    {
      this.calm := calm;
      visible, outcomes := map[], map[];
      spooled, safe := {}, {};
      log, custody, served := [], {}, map[];
    }

    // ── the machine ──

    /** What becomes of one call. */
    method Fate() returns (r: Ended)
      ensures calm ==> r.Done?
    {
      var fails: bool, stops: bool := *, *;
      r := if calm then Done else if fails then Failed else if stops then Stopped else Done;
    }

    method SurvivingDisk() returns (disk: map<Name, Rec>)
      requires Valid(W())
      ensures forall n :: (if n in disk then Some(disk[n]) else None) in Outcomes(W(), n)
    {
      var names := outcomes.Keys;
      disk := map[];
      while names != {}
        invariant names <= outcomes.Keys && disk.Keys !! names
        invariant forall n :: n in disk ==> n in outcomes && Some(disk[n]) in outcomes[n]
        invariant forall n :: n in outcomes && n !in names && n !in disk ==> None in outcomes[n]
      {
        var n :| n in names;
        assert View(W(), n) in Outcomes(W(), n);
        var o :| o in outcomes[n];
        if o.Some? {
          disk := disk[n := o.value];
        }
        names := names - {n};
      }
    }

    method SurvivingSpool() returns (spool: set<Evidence>)
      requires safe <= spooled
      ensures safe <= spool <= spooled
    {
      spool := safe;
      var doubtful := spooled - safe;
      while doubtful != {}
        invariant safe <= spool <= spooled && doubtful <= spooled
      {
        var e :| e in doubtful;
        doubtful := doubtful - {e};
        if * {
          spool := spool + {e};
        }
      }
    }

    method SettleEntries()
      requires Kept(W())
      modifies this`outcomes, this`served
      ensures W() == Settle(old(W())) && Kept(W()) && Grows(old(W()), W())
    {
      SettleKeeps(W());
      hide Kept, Grows, Known, Certain;
      served, outcomes := Known(served, visible), Certain(visible);
    }

    /** The machine stops: every name comes back as one of its outcomes, and what the spool had not
        synced may be gone. */
    method Crash()
      requires Kept(W())
      modifies this`visible, this`outcomes, this`spooled, this`safe, this`served
      ensures Kept(W()) && Grows(old(W()), W())
      ensures Survives(old(W()), visible, spooled) && W() == Reboot(old(W()), visible, spooled)
    {
      var disk := SurvivingDisk();
      var spool := SurvivingSpool();
      WakeKeeps(W(), disk, spool);
      RebootKeeps(W(), disk, spool);
      hide Kept, Grows, Survives, Settle;
      visible, spooled, safe := disk, spool, spool;
      assert W() == Wake(old(W()), disk, spool);
      SettleEntries();
    }

    // ── the calls promotion makes ──

    method Sync() returns (r: Ended)
      requires Kept(W())
      modifies this`outcomes, this`served
      ensures Kept(W()) && Grows(old(W()), W()) && (calm ==> r.Done?)
      ensures W() == if r.Done? then Settle(old(W())) else old(W())
    {
      r := Fate();
      if r.Done? {
        SettleEntries();
      }
    }

    method ChangeEntry(n: Name, entry: Option<Rec>)
      requires Kept(W()) && Fits(W(), n, entry)
      modifies this`visible, this`outcomes
      ensures W() == Change(old(W()), n, entry) && Kept(W()) && Grows(old(W()), W())
    {
      ChangeKeeps(W(), n, entry);
      outcomes := outcomes[n := (if n in outcomes then outcomes[n] else {None}) + {entry}];
      visible := if entry.Some? then visible[n := entry.value] else visible - {n};
    }

    /** fsx.WriteFileAtomic: the complete file is renamed into place, then the directory synced. */
    method Publish(n: Name, rec: Rec) returns (r: Ended)
      requires Kept(W()) && Fits(W(), n, Some(rec))
      modifies this`visible, this`outcomes, this`served
      ensures Kept(W()) && Grows(old(W()), W()) && (calm ==> r.Done?)
      ensures W() in {old(W()), Change(old(W()), n, Some(rec)), Settle(Change(old(W()), n, Some(rec)))}
      ensures r.Done? ==> W() == Settle(Change(old(W()), n, Some(rec)))
    {
      r := Fate();
      if r.Done? {
        ChangeEntry(n, Some(rec));
        r := Sync();
      }
    }

    /** os.Remove: gone at once, but not for certain until the directory is synced. */
    method Remove(n: Name) returns (r: Ended)
      requires Kept(W()) && Fits(W(), n, None)
      modifies this`visible, this`outcomes
      ensures Kept(W()) && Grows(old(W()), W()) && (calm ==> r.Done?)
      ensures W() in {old(W()), Change(old(W()), n, None)} && (r.Failed? ==> W() == old(W()))
      ensures r.Done? ==> W() == Change(old(W()), n, None)
    {
      r := Fate();
      if r.Done? {
        ChangeEntry(n, None);
        var after := Fate();
        r := if after.Stopped? then Stopped else Done;
      }
    }

    method Mint() returns (id: string)
      ensures (calm ==> id != "") && (id != "" ==> Storable(id))
    {
      id := *;
      if !Storable(id) {
        id := if calm then "0" else "";
      }
    }

    /** The spool's own file, written exclusively, and its directory synced. */
    method SpoolIn(e: Evidence) returns (r: Ended)
      requires Kept(W()) && !Conflicts(spooled, e)
      modifies this`spooled, this`safe, this`custody
      ensures Kept(W()) && Grows(old(W()), W()) && (spooled == old(spooled) || spooled == old(spooled) + {e})
      ensures (r.Done? ==> e in custody) && (calm ==> r.Done?)
    {
      r := Fate();
      if !r.Done? {
        return;
      }
      var already := e in spooled;
      r := Fate();
      if r.Done? {
        TakeKeeps(W(), e);
        hide Kept, Grows;
        custody := custody + {e};
        spooled := spooled + {e};
        safe := spooled;
        assert W() == Take(old(W()), e);
      } else if !already {
        SpooledKeeps(W(), e);
        hide Kept, Grows;
        spooled := spooled + {e};
      }
    }

    /** Spool.Enqueue: evidence under a known identity is compared and never rewritten; success
        means the evidence is durable. */
    method Enqueue(n: Name, e: Evidence) returns (r: Ended)
      requires Kept(W()) && n in served && served[n] == e.request && e.id != "" && OnlyHolds(W(), n, e.id)
      requires forall i :: 0 <= i < |log| && log[i].name == n ==> log[i].id == e.id
      modifies this`spooled, this`safe, this`log, this`custody
      ensures Kept(W()) && Grows(old(W()), W()) && old(spooled) <= spooled
      ensures log == old(log) + [Tried(n, e.id)] && (r.Done? ==> Held(W(), n) && e in custody)
      ensures spooled == old(spooled) || spooled == old(spooled) + {e}
      ensures Refused(old(spooled), e) ==>
              r.Failed? && spooled == old(spooled) && safe == old(safe) && custody == old(custody)
      ensures calm ==> r.Done? || (r.Failed? && Refused(spooled, e))
      ensures calm && e in old(spooled) && Storable(e.id) ==> r.Done? && spooled == old(spooled)
    {
      TryKeeps(W(), n, e.id);
      if e in spooled {
        KnownIsTaken(W(), e);
      }
      hide Kept, Grows, Conflicts, Storable;
      log := log + [Tried(n, e.id)];
      assert W() == Try(old(W()), n, e.id);
      if !Storable(e.id) || Conflicts(spooled, e) {
        return Failed;
      }
      label tried:
      r := SpoolIn(e);
      GrowsOn(old(W()), old@tried(W()), W());
      if r.Done? {
        assert log[|log| - 1] == Tried(n, e.id);
        assert Evidence(e.id, served[n]) == e;
      }
    }

    // ── writing and reading intake ──

    /** writeIntake: one served request, under a name of its own and an identity of its own. */
    method Arrive(n: Name, rec: Rec) returns (r: Ended)
      requires Kept(W()) && n !in outcomes && n !in served && forall i :: 0 <= i < |log| ==> log[i].name != n
      modifies this`visible, this`outcomes, this`served
      ensures Kept(W()) && Grows(old(W()), W())
      ensures calm && rec.request != "" ==> r.Done?
      ensures r.Done? ==> n in visible && visible[n].id != "" && visible[n].request == rec.request &&
                          (rec.id != "" ==> visible[n].id == rec.id) && Outcomes(W(), n) == {Some(visible[n])}
    {
      if rec.request == "" {
        return Failed;
      }
      var id := rec.id;
      if id == "" {
        id := Mint();
        if id == "" {
          return Failed;
        }
      }
      r := Publish(n, rec.(id := id));
      if r.Done? {
        PublishedHolds(old(W()), n, rec.(id := id));
      }
    }

    /** The records waiting, oldest first; a file that cannot be read as a record is left out. */
    method ReadIntake() returns (items: seq<Item>)
      ensures Waiting(W(), items, 0) && InNameOrder(items)
      ensures forall n :: Listed(items, n) <==> n in visible && visible[n].request != ""
    {
      var left := visible.Keys;
      items := [];
      assert forall n :: !Listed(items, n);
      hide Listed;
      while left != {}
        invariant left <= visible.Keys
        invariant forall k :: 0 <= k < |items| ==> items[k].name in visible && visible[items[k].name] == items[k].rec
        invariant forall j, k :: 0 <= j < k < |items| ==> items[j].name < items[k].name
        invariant forall k, n :: 0 <= k < |items| && n in left ==> items[k].name < n
        invariant forall n :: Listed(items, n) <==> n in visible && n !in left && visible[n].request != ""
      {
        ghost var least := Least(left);
        var n :| n in left && forall m :: m in left ==> n <= m;
        left := left - {n};
        if visible[n].request != "" {
          OneMoreItem(items, Item(n, visible[n]));
          items := items + [Item(n, visible[n])];
        }
      }
    }

    /** Confirms that the identity is on disk, enqueues, and only then removes the file. */
    method PromoteNamed(n: Name, rec: Rec) returns (r: Ended)
      requires Kept(W()) && n in visible && visible[n] == rec && Eligible(rec) && rec.id != ""
      modifies this`visible, this`outcomes, this`spooled, this`safe, this`log, this`custody, this`served
      ensures Kept(W()) && Grows(old(W()), W()) && old(spooled) <= spooled
      ensures visible == old(visible) || visible == old(visible) - {n}
      ensures log == old(log) || log == old(log) + [Tried(n, rec.id)]
      ensures (r.Done? ==> n !in visible && Held(W(), n)) && (r.Failed? ==> n in visible)
      ensures calm ==> r.Done? || (r.Failed? && n in visible && Refused(spooled, Evidence(rec.id, rec.request)))
    {
      hide Kept, Grows, Held, Refused;
      SettleKeeps(W());
      r := Sync();
      if !r.Done? {
        return;
      }
      label synced:
      OneOutcome(W(), n, rec);
      r := Enqueue(n, Evidence(rec.id, rec.request));
      GrowsOn(old(W()), old@synced(W()), W());
      if !r.Done? {
        return;
      }
      label taken:
      r := Remove(n);
      GrowsOn(old(W()), old@taken(W()), W());
      HeldStays(old@taken(W()), W(), n);
    }

    /** A record without an identity gets one, written to its file and synced. */
    method GiveIdentity(n: Name, rec: Rec) returns (r: Ended, named: Rec)
      requires Kept(W()) && n in visible && visible[n] == rec && Eligible(rec)
      modifies this`visible, this`outcomes, this`served
      ensures Kept(W()) && Grows(old(W()), W())
      ensures forall m :: m != n ==> View(W(), m) == View(old(W()), m)
      ensures n in visible && OnlyNamed(rec, visible[n])
      ensures r.Done? ==> visible[n] == named && Eligible(named) && named.id != "" && named.request == rec.request
      ensures calm ==> r.Done?
    {
      GrowsAtFirst(W());
      hide Kept, Grows, Held;
      named := rec;
      if rec.id != "" {
        return Done, named;
      }
      var id := Mint();
      if id == "" {
        return Failed, named;
      }
      named := rec.(id := id);
      NeverTried(W(), n, id);
      r := Publish(n, named);
      if r.Done? {
        PublishedHolds(old(W()), n, named);
      }
    }

    /** One record: an identity made durable before it is used, and the promotion. */
    method PromoteOne(item: Item) returns (r: Ended)
      requires Kept(W()) && item.name in visible && visible[item.name] == item.rec
      modifies this`visible, this`outcomes, this`spooled, this`safe, this`log, this`custody, this`served
      ensures Kept(W()) && Grows(old(W()), W()) && old(spooled) <= spooled
      ensures StepOf(old(W()), W(), item)
      ensures r.Done? ==> item.name !in visible && (Eligible(item.rec) ==> Held(W(), item.name))
      ensures r.Failed? ==> item.name in visible
      ensures calm ==> r.Done? || (r.Failed? && item.name in visible &&
                                   Refused(spooled, Evidence(visible[item.name].id, item.rec.request)))
    {
      hide Kept, Grows, Held, Refused;
      if !Eligible(item.rec) {
        NotServed(W(), item.name);
        r := Remove(item.name);
        return;
      }
      var named;
      r, named := GiveIdentity(item.name, item.rec);
      if !r.Done? {
        return;
      }
      label named:
      r := PromoteNamed(item.name, named);
      GrowsOn(old(W()), old@named(W()), W());
    }

    /** The pass goes on by one record. */
    method PromoteNext(ghost start: World, items: seq<Item>, k: nat, ghost gone: set<Name>, ghost failed: bool)
      returns (r: Ended, counts: bool, ghost more: set<Name>)
      requires Kept(W()) && Grows(start, W()) && k < |items| && Tally(start, W(), items, k, gone, failed)
      requires calm ==> Cleared(W(), items, k)
      modifies this`visible, this`outcomes, this`spooled, this`safe, this`log, this`custody, this`served
      ensures Kept(W()) && Grows(start, W()) && (calm ==> !r.Stopped? && Cleared(W(), items, k + 1))
      ensures forall n: nat :: Counts(gone, n) ==> Counts(more, n + if counts then 1 else 0)
      ensures if r.Stopped? then !counts && CutShort(start, W(), gone)
              else Tally(start, W(), items, k + 1, more, failed || r.Failed?)
    {
      NextWaits(start, W(), items, k, gone, failed);
      hide *;
      r := PromoteOne(items[k]);
      GrowsOn(start, old(W()), W());
      counts := r.Done? && Eligible(items[k].rec);
      more := if counts then gone + {items[k].name} else gone;
      if counts {
        OneMoreCounted(gone, items[k].name);
      }
      if r.Stopped? {
        TallyAtStop(start, old(W()), W(), items, k, gone, failed);
      } else {
        OneMoreTally(start, old(W()), W(), items, k, gone, failed, r.Done?);
      }
      if calm {
        OneMoreCleared(old(W()), W(), items, k);
      }
    }

    /** promoteIntake: every record read, oldest first; one that fails is passed over. What a pass
        counts is what it took out of the directory for the spool, and it reports a failure exactly
        when a record it read is still there. */
    method Promote() returns (promoted: nat, failed: bool, stopped: bool, ghost gone: set<Name>)
      requires Kept(W())
      modifies this`visible, this`outcomes, this`spooled, this`safe, this`log, this`custody, this`served
      ensures Kept(W()) && Grows(old(W()), W())
      ensures Counts(gone, promoted) && Taken(old(W()), W(), gone)
      ensures if stopped then exists n :: TakenOut(old(W()), W()) <= gone + {n} else gone == TakenOut(old(W()), W())
      ensures !stopped ==> (failed <==> exists n :: n in old(visible) && old(visible)[n].request != "" && n in visible)
      ensures Untouched(old(W()), W()) && InOrder(log, |old(log)|)
      ensures calm ==> !stopped && forall n :: Through(W(), n)
      ensures calm ==> (failed <==> exists n :: Stuck(W(), n))
    {
      hide Kept, Grows, Held, Through, Stuck, Eligible, Tally, Listed, TakenOut, Untouched, Taken, CutShort, Counts,
        Cleared, InOrder, InNameOrder, Waiting, View;
      GrowsAtFirst(W());
      promoted, failed, stopped, gone := 0, false, false, {};
      var items := ReadIntake();
      var k := 0;
      TallyAtFirst(W(), items, gone);
      while k < |items|
        invariant 0 <= k <= |items| && Kept(W()) && Grows(old(W()), W()) && Counts(gone, promoted) && !stopped
        invariant Tally(old(W()), W(), items, k, gone, failed) && (calm ==> Cleared(W(), items, k))
      {
        ghost var more;
        var r, counts;
        r, counts, more := PromoteNext(old(W()), items, k, gone, failed);
        if r.Stopped? {
          WhatIsCutShort(old(W()), W(), gone);
          stopped := true;
          return;
        }
        promoted, failed, gone := promoted + (if counts then 1 else 0), failed || r.Failed?, more;
        k := k + 1;
      }
      TallyAtEnd(old(W()), W(), items, gone, failed);
      if calm {
        AllThrough(old(W()), W(), items);
        CalmFailure(old(W()), W());
      }
    }

    /** However many passes are cut short, failed or crashed, one that is let finish leaves every
        record that was ever sure to be on disk with the spool. */
    method Recover(passes: nat)
      requires Kept(W())
      modifies this
      ensures Kept(W()) && Grows(old(W()), W())
      ensures forall n :: n in served ==>
                Held(W(), n) || (n in visible && Refused(spooled, Evidence(visible[n].id, visible[n].request)))
    {
      calm := false;
      var i := 0;
      while i < passes
        invariant Kept(W()) && Grows(old(W()), W())
      {
        label pass:
        var _, _, stopped, _ := Promote();
        GrowsOn(old(W()), old@pass(W()), W());
        if stopped {
          label stop:
          Crash();
          GrowsOn(old(W()), old@stop(W()), W());
        }
        i := i + 1;
      }
      calm := true;
      label last:
      var _, _, _, _ := Promote();
      GrowsOn(old(W()), old@last(W()), W());
      ServedAreHeld(W());
      forall n | n in served
        ensures Held(W(), n) || (n in visible && Refused(spooled, Evidence(visible[n].id, visible[n].request)))
      {
        assert Through(W(), n);
      }
    }
  }

  lemma OneMoreItem(items: seq<Item>, item: Item)
    ensures Listed(items + [item], item.name) && forall n :: Listed(items, n) ==> Listed(items + [item], n)
  {
    var more := items + [item];
    assert more[|items|] == item && forall k :: 0 <= k < |items| ==> more[k] == items[k];
  }

  /** The records from `k` on are still as they were read. */
  ghost predicate Waiting(w: World, items: seq<Item>, k: nat) {
    forall j :: k <= j < |items| ==> items[j].name in w.visible && w.visible[items[j].name] == items[j].rec
  }

  lemma OthersWait(a: World, b: World, items: seq<Item>, k: nat)
    requires k < |items| && Waiting(a, items, k) && forall i, j :: 0 <= i < j < |items| ==>
             items[i].name < items[j].name
    requires forall n :: n != items[k].name ==> View(b, n) == View(a, n)
    ensures Waiting(b, items, k + 1) && b.visible.Keys <= a.visible.Keys + {items[k].name}
  {
    forall j | k + 1 <= j < |items|
      ensures items[j].name in b.visible && b.visible[items[j].name] == items[j].rec
    {
      assert View(b, items[j].name) == View(a, items[j].name);
    }
    forall n | n in b.visible && n != items[k].name
      ensures n in a.visible
    {
      assert View(b, n) == View(a, n);
    }
  }

  /** One of the first `k` records is still there. */
  ghost predicate PassedOver(w: World, items: seq<Item>, k: nat) {
    exists j :: 0 <= j < k && j < |items| && items[j].name in w.visible
  }

  lemma OneMorePassed(a: World, b: World, items: seq<Item>, k: nat)
    requires k < |items| && forall i, j :: 0 <= i < j < |items| ==> items[i].name < items[j].name
    requires forall n :: n != items[k].name ==> View(b, n) == View(a, n)
    ensures PassedOver(b, items, k + 1) <==> PassedOver(a, items, k) || items[k].name in b.visible
  {
    forall j | 0 <= j < k
      ensures items[j].name in b.visible <==> items[j].name in a.visible
    {
      assert View(b, items[j].name) == View(a, items[j].name);
    }
  }

  lemma PassedOverAll(a: World, b: World, items: seq<Item>)
    requires forall n :: Listed(items, n) <==> n in a.visible && a.visible[n].request != ""
    ensures PassedOver(b, items, |items|) <==>
            exists n :: n in a.visible && a.visible[n].request != "" && n in b.visible
  {
    assert forall j :: 0 <= j < |items| ==> Listed(items, items[j].name);
    if n :| n in a.visible && a.visible[n].request != "" && n in b.visible {
      assert Listed(items, n);
    }
  }

  /** One step takes out at most its own record. */
  lemma OneMoreOut(a: World, b: World, c: World, n: Name)
    requires n in a.visible && n in b.visible && forall m :: m != n ==> View(c, m) == View(b, m)
    ensures TakenOut(a, c) == TakenOut(a, b) + if Eligible(a.visible[n]) && n !in c.visible then {n} else {}
  {
    hide Eligible;
    forall m | m != n
      ensures m in c.visible <==> m in b.visible
    {
      assert View(c, m) == View(b, m);
    }
  }

  lemma StillUntouched(a: World, b: World, c: World, n: Name)
    requires Untouched(a, b) && n in a.visible && forall m :: m != n ==> View(c, m) == View(b, m)
    requires n in c.visible ==> OnlyNamed(a.visible[n], c.visible[n])
    ensures Untouched(a, c)
  {
    hide OnlyNamed;
    forall m | m in c.visible && m != n
      ensures m in a.visible && OnlyNamed(a.visible[m], c.visible[m])
    {
      assert View(c, m) == View(b, m);
    }
  }

  /** With nothing failing, what was passed over is in conflict. */
  lemma CalmFailure(a: World, b: World)
    requires Untouched(a, b) && forall n :: Through(b, n)
    ensures (exists n :: n in a.visible && a.visible[n].request != "" && n in b.visible) <==> exists n :: Stuck(b, n)
  {
    hide Refused;
    if n :| n in a.visible && a.visible[n].request != "" && n in b.visible {
      assert Through(b, n);
      assert Stuck(b, n);
    }
  }

  lemma GrowsAtFirst(w: World)
    ensures Grows(w, w)
  {
  }

  lemma ThroughStays(a: World, b: World, n: Name)
    requires Through(a, n) && View(b, n) == View(a, n) && a.spooled <= b.spooled
    ensures Through(b, n)
  {
  }

  lemma OneMoreCleared(a: World, b: World, items: seq<Item>, k: nat)
    requires k < |items| && InNameOrder(items) && Cleared(a, items, k) && StepOf(a, b, items[k])
    requires Through(b, items[k].name) && a.spooled <= b.spooled
    ensures Cleared(b, items, k + 1)
  {
    hide Through;
    forall j | 0 <= j < k
      ensures Through(b, items[j].name)
    {
      ThroughStays(a, b, items[j].name);
    }
  }

  lemma AllThrough(a: World, b: World, items: seq<Item>)
    requires Cleared(b, items, |items|)
    requires forall n :: n in a.visible && a.visible[n].request != "" ==> Listed(items, n)
    requires forall n :: !Listed(items, n) ==> View(b, n) == View(a, n)
    ensures forall n :: Through(b, n)
  {
    forall n
      ensures Through(b, n)
    {
      if !Listed(items, n) {
        assert View(b, n) == View(a, n);
      }
    }
  }

  /** Records that were there, are not any more, and are with the spool. */
  ghost predicate Taken(a: World, b: World, gone: set<Name>) {
    forall n :: n in gone ==> n in a.visible && n !in b.visible && Held(b, n)
  }

  /** The enqueues tried since `from` went by age. */
  ghost predicate InOrder(log: seq<Tried>, from: nat) {
    forall i, j :: from <= i < j < |log| ==> log[i].name < log[j].name
  }

  ghost predicate AllBefore(log: seq<Tried>, from: nat, n: Name) {
    forall i :: from <= i < |log| ==> log[i].name < n
  }

  lemma StillTaken(a: World, b: World, c: World, gone: set<Name>, n: Name)
    requires Taken(a, b, gone) && Grows(b, c) && n !in gone && forall m :: m != n ==> View(c, m) == View(b, m)
    ensures Taken(a, c, gone)
  {
    forall m | m in gone
      ensures m !in c.visible && Held(c, m)
    {
      HeldStays(b, c, m);
      assert View(c, m) == View(b, m);
    }
  }

  ghost predicate InNameOrder(items: seq<Item>) {
    forall i, j :: 0 <= i < j < |items| ==> items[i].name < items[j].name
  }

  /** What the pass has counted and reported is what became of the first `k` records; the others
      are as they were. */
  ghost predicate Tally(a: World, w: World, items: seq<Item>, k: nat, gone: set<Name>, failed: bool) {
    && Untouched(a, w) && Taken(a, w, gone) && gone == TakenOut(a, w)
    && (failed <==> PassedOver(w, items, k))
    && InNameOrder(items) && Waiting(a, items, 0) && Waiting(w, items, k)
    && (forall n :: !Listed(items, n) ==> View(w, n) == View(a, n))
    && InOrder(w.log, |a.log|) && (k < |items| ==> AllBefore(w.log, |a.log|, items[k].name))
  }

  ghost predicate Counts(gone: set<Name>, n: nat) {
    |gone| == n
  }

  lemma OneMoreCounted(gone: set<Name>, x: Name)
    requires x !in gone
    ensures forall n: nat :: Counts(gone, n) ==> Counts(gone + {x}, n + 1)
  {
  }

  lemma TallyAtFirst(a: World, items: seq<Item>, gone: set<Name>)
    requires Waiting(a, items, 0) && InNameOrder(items) && gone == {}
    ensures Tally(a, a, items, 0, gone, false) && Counts(gone, 0) && Cleared(a, items, 0)
  {
  }

  lemma NextWaits(a: World, w: World, items: seq<Item>, k: nat, gone: set<Name>, failed: bool)
    requires Tally(a, w, items, k, gone, failed) && k < |items|
    ensures items[k].name in w.visible && w.visible[items[k].name] == items[k].rec
    ensures items[k].name in a.visible && a.visible[items[k].name] == items[k].rec && items[k].name !in gone
  {
  }

  /** One record's step: only its entry changes, and one enqueue at most is tried, under its name. */
  ghost predicate StepOf(b: World, c: World, item: Item) {
    && (forall n :: n != item.name ==> View(c, n) == View(b, n))
    && (c.log == b.log || exists id :: c.log == b.log + [Tried(item.name, id)])
    && (item.name in c.visible ==> OnlyNamed(item.rec, c.visible[item.name]))
  }

  lemma LogGoesOn(a: World, b: World, c: World, items: seq<Item>, k: nat)
    requires k < |items| && InNameOrder(items) && |a.log| <= |b.log| && StepOf(b, c, items[k])
    requires InOrder(b.log, |a.log|) && AllBefore(b.log, |a.log|, items[k].name)
    ensures InOrder(c.log, |a.log|) && (k + 1 < |items| ==> AllBefore(c.log, |a.log|, items[k + 1].name))
  {
    hide View, OnlyNamed;
  }

  lemma OneMoreTally(a: World, b: World, c: World, items: seq<Item>, k: nat, gone: set<Name>, failed: bool, done: bool)
    requires Tally(a, b, items, k, gone, failed) && Grows(a, b) && Grows(b, c)
    requires k < |items| && StepOf(b, c, items[k])
    requires done <==> items[k].name !in c.visible
    requires done && Eligible(items[k].rec) ==> Held(c, items[k].name)
    ensures Tally(a, c, items, k + 1, if done && Eligible(items[k].rec) then gone + {items[k].name} else gone,
                  failed || !done)
  {
    assert |a.log| <= |b.log|;
    hide Grows, Held, OnlyNamed, Eligible, Untouched;
    NextWaits(a, b, items, k, gone, failed);
    LogGoesOn(a, b, c, items, k);
    OthersWait(b, c, items, k);
    StillTaken(a, b, c, gone, items[k].name);
    OneMorePassed(b, c, items, k);
    OneMoreOut(a, b, c, items[k].name);
    StillUntouched(a, b, c, items[k].name);
    assert Listed(items, items[k].name);
  }

  /** A pass cut short: at most the record it was at is out and not counted. */
  ghost predicate CutShort(a: World, b: World, gone: set<Name>) {
    Untouched(a, b) && Taken(a, b, gone) && InOrder(b.log, |a.log|) && exists n :: TakenOut(a, b) <= gone + {n}
  }

  lemma WhatIsCutShort(a: World, b: World, gone: set<Name>)
    requires CutShort(a, b, gone)
    ensures Untouched(a, b) && Taken(a, b, gone) && InOrder(b.log, |a.log|)
    ensures exists n :: TakenOut(a, b) <= gone + {n}
  {
  }

  lemma TallyAtStop(a: World, b: World, c: World, items: seq<Item>, k: nat, gone: set<Name>, failed: bool)
    requires Tally(a, b, items, k, gone, failed) && Grows(a, b) && Grows(b, c)
    requires k < |items| && StepOf(b, c, items[k])
    ensures CutShort(a, c, gone)
  {
    assert |a.log| <= |b.log|;
    hide Grows, Held, OnlyNamed, Eligible, Untouched;
    NextWaits(a, b, items, k, gone, failed);
    LogGoesOn(a, b, c, items, k);
    StillTaken(a, b, c, gone, items[k].name);
    OneMoreOut(a, b, c, items[k].name);
    StillUntouched(a, b, c, items[k].name);
    assert TakenOut(a, c) <= gone + {items[k].name};
  }

  lemma TallyAtEnd(a: World, b: World, items: seq<Item>, gone: set<Name>, failed: bool)
    requires Tally(a, b, items, |items|, gone, failed)
    requires forall n :: Listed(items, n) <==> n in a.visible && a.visible[n].request != ""
    ensures Untouched(a, b) && Taken(a, b, gone) && gone == TakenOut(a, b) && InOrder(b.log, |a.log|)
    ensures failed <==> exists n :: n in a.visible && a.visible[n].request != "" && n in b.visible
    ensures forall n :: !Listed(items, n) ==> View(b, n) == View(a, n)
  {
    PassedOverAll(a, b, items);
  }

  /** Of the first `k` records nothing is left to do. */
  ghost predicate Cleared(w: World, items: seq<Item>, k: nat) {
    forall j :: 0 <= j < k && j < |items| ==> Through(w, items[j].name)
  }

  /** Whatever is no longer there was taken. */
  lemma ServedAreHeld(w: World)
    requires Kept(w)
    ensures forall n :: n in w.served ==> Held(w, n) || (n in w.visible && w.visible[n].request == w.served[n] != "")
  {
    forall n | n in w.served
      ensures Held(w, n) || (n in w.visible && w.visible[n].request == w.served[n] != "")
    {
      assert View(w, n) in Outcomes(w, n);
      assert StaysItself(w, n);
    }
  }

  /** A file published and synced holds exactly what was published. */
  lemma PublishedHolds(w: World, n: Name, rec: Rec)
    requires Kept(w) && Fits(w, n, Some(rec))
    ensures var s := Settle(Change(w, n, Some(rec)));
            && s.visible == w.visible[n := rec] && Outcomes(s, n) == {Some(rec)} && s.log == w.log
            && s.spooled == w.spooled
  {
    ChangeKeeps(w, n, Some(rec));
    SettleKeeps(Change(w, n, Some(rec)));
  }

  lemma NotServed(w: World, n: Name)
    requires Kept(w) && n in w.visible && !Eligible(w.visible[n])
    ensures n !in w.served
  {
    assert View(w, n) in Outcomes(w, n);
    assert n in w.served ==> StaysItself(w, n);
  }

  /** A record without an identity was never enqueued. */
  lemma NeverTried(w: World, n: Name, id: string)
    requires Kept(w) && n in w.visible && w.visible[n].id == "" && Eligible(w.visible[n])
    ensures Fits(w, n, Some(w.visible[n].(id := id)))
  {
  }

  lemma OneOutcome(w: World, n: Name, rec: Rec)
    requires Kept(w) && n in w.visible && w.visible[n] == rec && Outcomes(w, n) == {Some(rec)} && n in w.served
    ensures w.served[n] == rec.request && OnlyHolds(w, n, rec.id)
    ensures forall i :: 0 <= i < |w.log| && w.log[i].name == n ==> w.log[i].id == rec.id
  {
    assert Some(rec) in Outcomes(w, n);
    assert StaysItself(w, n);
    forall i | 0 <= i < |w.log| && w.log[i].name == n
      ensures w.log[i].id == rec.id
    {
      assert OnlyHolds(w, w.log[i].name, w.log[i].id);
    }
  }

  lemma GrowsOn(a: World, b: World, c: World)
    requires Grows(a, b) && Grows(b, c)
    ensures Grows(a, c)
  {
  }

  lemma KnownIsTaken(w: World, e: Evidence)
    requires Kept(w) && e in w.spooled
    ensures !Conflicts(w.spooled, e) && w.spooled + {e} == w.spooled
  {
  }

  lemma SpooledKeeps(w: World, e: Evidence)
    requires Kept(w) && !Conflicts(w.spooled, e)
    ensures var s := w.(spooled := w.spooled + {e}); Kept(s) && Grows(w, s)
  {
    var s := w.(spooled := w.spooled + {e});
    assert forall m :: Outcomes(s, m) == Outcomes(w, m) && View(s, m) == View(w, m);
    SameOutcomes(w, s);
  }
}
