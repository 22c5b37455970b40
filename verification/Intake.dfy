/** What disk and spool hold while intake records are promoted, and what no step may break. */
module Intake {
  import opened Wrappers

  /** An intake file's name, by the time it was written. */
  type Name = nat

  /** What promotion needs of a record: its client record id, if it has one yet, and the request
      it was served for. */
  datatype Rec = Rec(id: string, request: string, complete: bool)

  /** What is spooled of a record, and what the spool compares. */
  datatype Evidence = Evidence(id: string, request: string)

  predicate Eligible(rec: Rec) {
    rec.request != "" && rec.complete
  }

  /** An identity that can name the spool's file. */
  predicate Storable(id: string) {
    id != "" && '/' !in id && '\\' !in id
  }

  /** Other evidence is spooled under the same identity. */
  predicate Conflicts(spooled: set<Evidence>, e: Evidence) {
    exists x :: x in spooled && x.id == e.id && x != e
  }

  /** What is spooled under an identity is one thing. */
  ghost predicate OneEach(spooled: set<Evidence>) {
    forall x, y :: x in spooled && y in spooled && x.id == y.id ==> x == y
  }

  datatype Tried = Tried(name: Name, id: string)

  /** A directory entry survives a crash for sure only once the directory has been synced since it
      changed; until then `outcomes` holds every entry the name may turn out to have. `safe` is
      what the spool has synced. The rest is history: every enqueue ever tried, every evidence the
      spool ever answered for, and the request of every record that was once sure to be on disk. */
  datatype World = World(visible: map<Name, Rec>, outcomes: map<Name, set<Option<Rec>>>,
                         spooled: set<Evidence>, safe: set<Evidence>,
                         log: seq<Tried>, custody: set<Evidence>, served: map<Name, string>)

  function View(w: World, n: Name): Option<Rec> {
    if n in w.visible then Some(w.visible[n]) else None
  }

  function Outcomes(w: World, n: Name): set<Option<Rec>> {
    if n in w.outcomes then w.outcomes[n] else {None}
  }

  ghost predicate Valid(w: World) {
    (forall n :: View(w, n) in Outcomes(w, n)) && w.safe <= w.spooled && w.custody <= w.safe && OneEach(w.spooled)
  }

  /** One identity per record, and from then on the only one its file can hold. */
  ghost predicate OneIdentity(w: World) {
    && (forall i, j :: 0 <= i < |w.log| && 0 <= j < |w.log| && w.log[i].name == w.log[j].name ==>
         w.log[i].id == w.log[j].id)
    && (forall i :: 0 <= i < |w.log| ==> w.log[i].id != "" && OnlyHolds(w, w.log[i].name, w.log[i].id))
  }

  ghost predicate OnlyHolds(w: World, n: Name, id: string) {
    forall o :: o in Outcomes(w, n) && o.Some? ==> o.value.id == id
  }

  /** The spool has answered for this record, under an identity it was enqueued with. */
  ghost predicate Held(w: World, n: Name) {
    n in w.served && exists id :: Evidence(id, w.served[n]) in w.custody && Tried(n, id) in w.log
  }

  ghost predicate StaysItself(w: World, n: Name) {
    n in w.served && forall o :: o in Outcomes(w, n) && o.Some? ==> Eligible(o.value) && o.value.request == w.served[n]
  }

  /** A record that was once sure to be on disk is there after any crash, or the spool has it. */
  ghost predicate NothingLost(w: World) {
    forall n :: n in w.served ==> StaysItself(w, n) && (None in Outcomes(w, n) ==> Held(w, n))
  }

  ghost predicate Kept(w: World) {
    Valid(w) && OneIdentity(w) && NothingLost(w)
  }

  /** What no step takes back. */
  ghost predicate Grows(a: World, b: World) {
    a.log <= b.log && a.custody <= b.custody && forall n :: n in a.served ==>
      n in b.served && b.served[n] == a.served[n]
  }

  // ── the steps ──

  function Certain(visible: map<Name, Rec>): map<Name, set<Option<Rec>>> {
    map n | n in visible :: {Some(visible[n])}
  }

  function Known(served: map<Name, string>, visible: map<Name, Rec>): map<Name, string> {
    served + map n | n in visible && n !in served && Eligible(visible[n]) :: visible[n].request
  }

  /** Entries as they are seen are the ones on disk. */
  function Settle(w: World): World {
    w.(outcomes := Certain(w.visible), served := Known(w.served, w.visible))
  }

  /** A name's entry changes, and may or may not have changed after a crash. */
  function Change(w: World, n: Name, entry: Option<Rec>): World {
    w.(visible := if entry.Some? then w.visible[n := entry.value] else w.visible - {n},
       outcomes := w.outcomes[n := Outcomes(w, n) + {entry}])
  }

  function Try(w: World, n: Name, id: string): World {
    w.(log := w.log + [Tried(n, id)])
  }

  /** The spool's directory is synced with this evidence in it. */
  function Take(w: World, e: Evidence): World {
    w.(spooled := w.spooled + {e}, safe := w.spooled + {e}, custody := w.custody + {e})
  }

  /** After a crash this is what the two directories turn out to hold. */
  function Reboot(w: World, disk: map<Name, Rec>, spool: set<Evidence>): World {
    Settle(Wake(w, disk, spool))
  }

  ghost predicate Survives(w: World, disk: map<Name, Rec>, spool: set<Evidence>) {
    && (forall n :: (if n in disk then Some(disk[n]) else None) in Outcomes(w, n))
    && w.safe <= spool <= w.spooled
  }

  lemma HeldStays(a: World, b: World, n: Name)
    requires Held(a, n) && Grows(a, b)
    ensures Held(b, n)
  {
    var id :| Evidence(id, a.served[n]) in a.custody && Tried(n, id) in a.log;
    assert Evidence(id, b.served[n]) in b.custody && Tried(n, id) in b.log;
  }

  lemma SettleKeeps(w: World)
    requires Kept(w)
    ensures Kept(Settle(w)) && Grows(w, Settle(w))
    ensures forall n :: Outcomes(Settle(w), n) == {View(w, n)} && View(Settle(w), n) == View(w, n)
    ensures forall n :: n in w.visible && Eligible(w.visible[n]) ==> n in Settle(w).served
  {
    var s := Settle(w);
    assert forall n :: Outcomes(s, n) == {View(w, n)} && View(s, n) == View(w, n) && View(w, n) in Outcomes(w, n);
    forall i | 0 <= i < |s.log|
      ensures s.log[i].id != "" && OnlyHolds(s, s.log[i].name, s.log[i].id)
    {
      assert OnlyHolds(w, w.log[i].name, w.log[i].id);
    }
    forall n | n in s.served
      ensures StaysItself(s, n) && (None in Outcomes(s, n) ==> Held(s, n))
    {
      if n in w.served {
        assert StaysItself(w, n);
        if View(w, n).None? {
          HeldStays(w, s, n);
        }
      }
    }
  }

  /** The two directories as they come back, before anything is read from them. */
  function Wake(w: World, disk: map<Name, Rec>, spool: set<Evidence>): World {
    w.(visible := disk, spooled := spool, safe := spool)
  }

  lemma WakeKeeps(w: World, disk: map<Name, Rec>, spool: set<Evidence>)
    requires Kept(w) && Survives(w, disk, spool)
    ensures Kept(Wake(w, disk, spool)) && Grows(w, Wake(w, disk, spool))
  {
    var s := Wake(w, disk, spool);
    assert forall n :: Outcomes(s, n) == Outcomes(w, n);
    SameOutcomes(w, s);
  }

  /** However the machine stops, nothing is lost and no identity changes. */
  lemma RebootKeeps(w: World, disk: map<Name, Rec>, spool: set<Evidence>)
    requires Kept(w) && Survives(w, disk, spool)
    ensures Kept(Reboot(w, disk, spool)) && Grows(w, Reboot(w, disk, spool))
  {
    WakeKeeps(w, disk, spool);
    SettleKeeps(Wake(w, disk, spool));
  }

  lemma SameOutcomes(w: World, s: World)
    requires Kept(w) && Valid(s) && s.log == w.log && w.custody <= s.custody && s.served == w.served
    requires forall n :: Outcomes(s, n) == Outcomes(w, n)
    ensures Kept(s) && Grows(w, s)
  {
    forall i | 0 <= i < |s.log|
      ensures s.log[i].id != "" && OnlyHolds(s, s.log[i].name, s.log[i].id)
    {
      assert OnlyHolds(w, w.log[i].name, w.log[i].id);
    }
    forall n | n in s.served
      ensures StaysItself(s, n) && (None in Outcomes(s, n) ==> Held(s, n))
    {
      assert StaysItself(w, n);
      if None in Outcomes(w, n) {
        HeldStays(w, s, n);
      }
    }
  }

  /** Whether this entry may take this name. */
  ghost predicate Fits(w: World, n: Name, entry: Option<Rec>) {
    match entry
    case None => n in w.served ==> Held(w, n)
    case Some(rec) =>
      && (n in w.served ==> Eligible(rec) && rec.request == w.served[n])
      && forall i :: 0 <= i < |w.log| && w.log[i].name == n ==> w.log[i].id == rec.id
  }

  lemma ChangeKeeps(w: World, n: Name, entry: Option<Rec>)
    requires Kept(w) && Fits(w, n, entry)
    ensures Kept(Change(w, n, entry)) && Grows(w, Change(w, n, entry))
  {
    var s := Change(w, n, entry);
    assert forall m :: Outcomes(s, m) == (if m == n then Outcomes(w, n) + {entry} else Outcomes(w, m));
    assert forall m :: View(s, m) == if m == n then entry else View(w, m);
    forall i | 0 <= i < |s.log|
      ensures s.log[i].id != "" && OnlyHolds(s, s.log[i].name, s.log[i].id)
    {
      assert OnlyHolds(w, w.log[i].name, w.log[i].id);
    }
    forall m | m in s.served
      ensures StaysItself(s, m) && (None in Outcomes(s, m) ==> Held(s, m))
    {
      assert StaysItself(w, m);
      if None in Outcomes(s, m) {
        HeldStays(w, s, m);
      }
    }
  }

  lemma TryKeeps(w: World, n: Name, id: string)
    requires Kept(w) && OnlyHolds(w, n, id) && id != ""
    requires forall i :: 0 <= i < |w.log| && w.log[i].name == n ==> w.log[i].id == id
    ensures Kept(Try(w, n, id)) && Grows(w, Try(w, n, id))
  {
    var s := Try(w, n, id);
    assert forall m :: Outcomes(s, m) == Outcomes(w, m) && View(s, m) == View(w, m);
    forall i | 0 <= i < |s.log|
      ensures s.log[i].id != "" && OnlyHolds(s, s.log[i].name, s.log[i].id)
    {
      if i < |w.log| {
        assert OnlyHolds(w, w.log[i].name, w.log[i].id);
      } else {
        assert OnlyHolds(w, n, id);
      }
    }
    forall m | m in s.served
      ensures StaysItself(s, m) && (None in Outcomes(s, m) ==> Held(s, m))
    {
      assert StaysItself(w, m);
      if None in Outcomes(w, m) {
        HeldStays(w, s, m);
      }
    }
  }

  lemma TakeKeeps(w: World, e: Evidence)
    requires Kept(w) && !Conflicts(w.spooled, e)
    ensures Kept(Take(w, e)) && Grows(w, Take(w, e))
  {
    var s := Take(w, e);
    assert forall m :: Outcomes(s, m) == Outcomes(w, m) && View(s, m) == View(w, m);
    SameOutcomes(w, s);
  }

  /** What this comes to, wherever the machine stops: a record that was ever sure to be on disk is
      there again, itself, or the spool has its evidence; and a file that comes back after an
      enqueue of its record was tried comes back with that identity. */
  lemma CrashLosesNothing(w: World, disk: map<Name, Rec>, spool: set<Evidence>)
    requires Kept(w) && Survives(w, disk, spool)
    ensures forall n :: n in w.served ==>
              || (n in disk && Eligible(disk[n]) && disk[n].request == w.served[n])
              || exists id :: Evidence(id, w.served[n]) in spool && Tried(n, id) in w.log
    ensures forall i :: 0 <= i < |w.log| && w.log[i].name in disk ==> disk[w.log[i].name].id == w.log[i].id
  {
    forall n | n in w.served
      ensures || (n in disk && Eligible(disk[n]) && disk[n].request == w.served[n])
              || exists id :: Evidence(id, w.served[n]) in spool && Tried(n, id) in w.log
    {
      var o := if n in disk then Some(disk[n]) else None;
      assert o in Outcomes(w, n) && StaysItself(w, n);
      if o.None? {
        var id :| Evidence(id, w.served[n]) in w.custody && Tried(n, id) in w.log;
        assert Evidence(id, w.served[n]) in spool;
      }
    }
    forall i | 0 <= i < |w.log| && w.log[i].name in disk
      ensures disk[w.log[i].name].id == w.log[i].id
    {
      assert Some(disk[w.log[i].name]) in Outcomes(w, w.log[i].name) && OnlyHolds(w, w.log[i].name, w.log[i].id);
    }
  }
}
