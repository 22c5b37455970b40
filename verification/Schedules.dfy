/** Runs put together step by step. */
module Schedules {
  import opened Wrappers
  import opened Lifecycle
  import opened LifecycleSafety

  /** Two processes hold the same lock path at once, on whatever files. */
  ghost predicate HeldTwice(c: Config, s: State, l: Lock) {
    exists p, q, i, j :: p in s.procs && q in s.procs && p != q && Holds(c, s.procs[p], l, i) &&
      Holds(c, s.procs[q], l, j)
  }

  /** No other installation whose gate opens can open this path, and the installation is one of
      those whose gate has its directory all along. */
  ghost predicate SafeBy(c: Config, kept: set<Home>, home: Home, l: Lock) {
    Unshared(c, home, l) && (l.Op? && c.openable(home) ==> home in kept)
  }

  /** So it is for each installation that can open it. */
  ghost predicate GuardedBy(c: Config, kept: set<Home>, l: Lock) {
    forall h | Reaches(c, h, l) :: SafeBy(c, kept, h, l)
  }

  /** The directories of these installations' gates are there from the start and stay, and no open of
      those gates fails. */
  ghost predicate Steady(s: State, kept: set<Home>, schedule: seq<Event>) {
    forall h :: h in kept ==> Rooted(s, h, schedule)
  }

  lemma SteadyHasNoStrays(c: Config, s: State, kept: set<Home>, schedule: seq<Event>)
    requires Steady(s, kept, schedule)
    ensures Run(c, s, schedule).strays !! kept
  {
    forall h | h in kept
      ensures h !in Run(c, s, schedule).strays
    {
      NoStrays(c, s, schedule, h);
    }
  }

  /** In every run that is steady for these installations. */
  ghost predicate AlwaysOneHolder(c: Config, kept: set<Home>, l: Lock) {
    forall s, schedule :: Init(c, s) && Steady(s, kept, schedule) ==> !HeldTwice(c, Run(c, s, schedule), l)
  }

  lemma HeldOnceWhenGuarded(c: Config, kept: set<Home>, l: Lock)
    requires GuardedBy(c, kept, l)
    ensures AlwaysOneHolder(c, kept, l)
  {
    hide Run, Init, Holds, Unshared, Reaches, Steady;
    forall s, schedule | Init(c, s) && Steady(s, kept, schedule)
      ensures !HeldTwice(c, Run(c, s, schedule), l)
    {
      SteadyHasNoStrays(c, s, kept, schedule);
      var t := Run(c, s, schedule);
      forall p, q, i, j | p in t.procs && q in t.procs && Holds(c, t.procs[p], l, i) && Holds(c, t.procs[q], l, j)
        ensures p == q
      {
        HolderReaches(c, s, schedule, p, l, i);
        HolderReaches(c, s, schedule, q, l, j);
        LockIdentity(c, s, schedule, p, q, l, i, j);
      }
    }
  }

  ghost predicate AlwaysRestores(c: Config, kept: set<Home>, l: Lock) {
    forall s, schedule, p :: Init(c, s) && Steady(s, kept, schedule) && p in Run(c, s, schedule).procs ==>
      Restored(Run(c, s, schedule).procs[p], Run(c, s, schedule).files, l)
  }

  lemma RestoredWhenGuarded(c: Config, kept: set<Home>, l: Lock)
    requires GuardedBy(c, kept, l)
    ensures AlwaysRestores(c, kept, l)
  {
    hide Run, Init, Restored, Unshared, Reaches, Steady;
    forall s, schedule, p | Init(c, s) && Steady(s, kept, schedule) && p in Run(c, s, schedule).procs
      ensures Restored(Run(c, s, schedule).procs[p], Run(c, s, schedule).files, l)
    {
      SteadyHasNoStrays(c, s, kept, schedule);
      AbortRestores(c, s, schedule, p, l);
    }
  }

  /** No directory goes and no open of a gate fails. */
  ghost predicate Smooth(schedule: seq<Event>) {
    forall e :: e in schedule ==> Smoothly(e)
  }

  predicate Smoothly(e: Event) {
    !e.RemoveDir? && !(e.Step? && e.action.FailGate?)
  }

  /** Such a run is steady for every installation whose gate has its directory when it begins. */
  lemma SmoothIsSteady(s: State, kept: set<Home>, schedule: seq<Event>)
    requires Smooth(schedule) && s.strays == {} && forall h :: h in kept ==> Gate(h) in s.dirs
    ensures Steady(s, kept, schedule)
  {
    forall h | h in kept
      ensures Rooted(s, h, schedule)
    {
      assert !Smoothly(RemoveDir(Gate(h)));
      assert forall p: Pid :: !Smoothly(Step(p, FailGate));
    }
  }

  ghost predicate Leads(c: Config, s: State, t: State) {
    exists schedule :: Smooth(schedule) && Run(c, s, schedule) == t
  }

  lemma {:induction false} RunAppends(c: Config, s: State, done: seq<Event>, e: Event)
    ensures Run(c, s, done + [e]) == Run(c, Run(c, s, done), [e])
    decreases |done|
  {
    if done == [] {
      assert done + [e] == [e];
    } else {
      var r := Next(c, s, done[0]);
      assert (done + [e])[1..] == done[1..] + [e];
      RunAppends(c, if r.Some? then r.value else s, done[1..], e);
    }
  }

  lemma Then(c: Config, s: State, t: State, e: Event) returns (u: State)
    requires Leads(c, s, t) && Next(c, t, e).Some? && Smoothly(e)
    ensures u == Next(c, t, e).value && Leads(c, s, u)
  {
    u := Next(c, t, e).value;
    var done :| Smooth(done) && Run(c, s, done) == t;
    RunAppends(c, s, done, e);
    assert Run(c, u, []) == u;
    assert Smooth(done + [e]) && Run(c, s, done + [e]) == u;
  }

  // ── an exclusion on its way through its plan ──

  lemma PassesGate(c: Config, s: State, t: State, p: Pid, x: Exclusion, node: Inode) returns (u: State)
    requires Leads(c, s, t) && p in t.procs && t.procs[p] == Sole(x) && x.at.Entering? && c.openable(x.home)
    requires CanOpen(t, Gate(x.home), node) && InodeAt(t, Gate(x.home), node) !in t.locked
    ensures Leads(c, s, u)
    ensures var i := InodeAt(t, Gate(x.home), node);
            u == Put(Acquire(Opened(t, Gate(x.home), node), p, i), p, Sole(x.(at := Probing, gate := Some(i))))
  {
    hide Run, Leads;
    u := Then(c, s, t, Step(p, OpenGate(node)));
    u := Then(c, s, u, Step(p, TryGate));
    assert u.procs == t.procs[p := u.procs[p]];
  }

  lemma Skips(c: Config, s: State, t: State, p: Pid, x: Exclusion) returns (u: State)
    requires Leads(c, s, t) && p in t.procs && t.procs[p] == Sole(x) && x.at.Probing?
    requires x.todo != [] && x.todo[0] !in t.dirs
    ensures Leads(c, s, u) && u == Put(t, p, Sole(x.(todo := x.todo[1..], probed := x.probed + {x.todo[0]})))
  {
    hide Run, Leads;
    u := Then(c, s, t, Step(p, Probe));
  }

  function Looked(t: State, x: Exclusion, node: Inode): Exclusion
    requires x.todo != []
  {
    var l := x.todo[0];
    x.(at := ProbeOpened(l in t.files, InodeAt(t, l, node)),
       seen := x.seen[l := if l in t.files then Some(t.files[l]) else None])
  }

  lemma Looks(c: Config, s: State, t: State, p: Pid, x: Exclusion, node: Inode) returns (u: State)
    requires Leads(c, s, t) && p in t.procs && t.procs[p] == Sole(x) && x.at.Probing?
    requires x.todo != [] && Named(x.todo[0]) && CanOpen(t, x.todo[0], node)
    ensures Leads(c, s, u) && u == Put(Opened(t, x.todo[0], node), p, Sole(Looked(t, x, node)))
  {
    hide Run, Leads;
    u := Then(c, s, t, Step(p, Probe));
    u := Then(c, s, u, Step(p, OpenProbe(node)));
    assert u.procs == t.procs[p := u.procs[p]];
  }

  lemma Locks(c: Config, s: State, t: State, p: Pid, x: Exclusion) returns (u: State)
    requires Leads(c, s, t) && p in t.procs && t.procs[p] == Sole(x) && x.at.ProbeOpened?
    requires x.todo != [] && x.at.inode !in t.locked
    ensures Leads(c, s, u) && u == Put(Acquire(t, p, x.at.inode), p, Sole(Taken(x)))
  {
    hide Run, Leads;
    u := Then(c, s, t, Step(p, TryProbe));
  }

  function Starting(c: Config, home: Home, mode: Mode): Exclusion {
    Exclusion(home, mode, None, Entering, Plan(c, home, mode), {}, map[], {}, false, map[], {}, {})
  }

  lemma AtFirst(c: Config, s: State)
    ensures Leads(c, s, s)
  {
    assert Smooth([]) && Run(c, s, []) == s;
  }

  lemma SkipsThree(c: Config, s: State, t: State, p: Pid, x: Exclusion) returns (u: State)
    requires Leads(c, s, t) && p in t.procs && t.procs[p] == Sole(x) && x.at.Probing?
    requires |x.todo| == 4 && forall k :: 0 <= k < 3 ==> x.todo[k] !in t.dirs
    ensures Leads(c, s, u)
    ensures u == Put(t, p, Sole(x.(todo := [x.todo[3]], probed := x.probed + {x.todo[0]} + {x.todo[1]} + {x.todo[2]})))
  {
    hide Run, Leads;
    u := Skips(c, s, t, p, x);
    u := Skips(c, s, u, p, u.procs[p].x);
    u := Skips(c, s, u, p, u.procs[p].x);
    assert u.procs[p].x.todo == [x.todo[3]];
    assert u.procs == t.procs[p := u.procs[p]];
  }

  lemma TakesLock(c: Config, s: State, t: State, p: Pid, node: Inode) returns (u: State)
    requires Leads(c, s, t) && p in t.procs && t.procs[p].Sole? && t.procs[p].x.at.Probing?
    requires t.procs[p].x.todo != [] && Named(t.procs[p].x.todo[0]) && CanOpen(t, t.procs[p].x.todo[0], node)
    requires InodeAt(t, t.procs[p].x.todo[0], node) !in t.locked
    ensures Leads(c, s, u)
    ensures var x := t.procs[p].x;
            var i := InodeAt(t, x.todo[0], node);
            u == Put(Acquire(Opened(t, x.todo[0], node), p, i), p, Sole(Taken(Looked(t, x, node))))
  {
    hide Run, Leads;
    var x := t.procs[p].x;
    u := Looks(c, s, t, p, x, node);
    u := Locks(c, s, u, p, Looked(t, x, node));
    assert u.procs == t.procs[p := u.procs[p]];
  }

  lemma SkipsOne(c: Config, s: State, t: State, p: Pid, l: Lock) returns (u: State)
    requires Leads(c, s, t) && p in t.procs && t.procs[p].Sole? && t.procs[p].x.at.Probing?
    requires |t.procs[p].x.todo| == 2 && t.procs[p].x.todo[0] !in t.dirs && t.procs[p].x.todo[1] == l
    ensures Leads(c, s, u)
    ensures u == Put(t, p, Sole(t.procs[p].x.(todo := [l], probed := t.procs[p].x.probed + {t.procs[p].x.todo[0]})))
  {
    hide Run, Leads;
    u := Skips(c, s, t, p, t.procs[p].x);
    assert u.procs[p].x.todo == [l];
  }

  /** Declined at its confirmation, an uninstall lets its last operation lock go. */
  lemma Declines(c: Config, s: State, t: State, p: Pid, l: Lock) returns (u: State)
    requires Leads(c, s, t) && p in t.procs && t.procs[p].Sole? && t.procs[p].x.at.Probing?
    requires t.procs[p].x.todo == [] && l in t.procs[p].x.ops
    ensures Leads(c, s, u)
    ensures var x := t.procs[p].x;
            u == Put(Release(t, x.ops[l]), p, Sole(x.(at := Releasing, ops := x.ops - {l})))
  {
    hide Run, Leads;
    u := Finishes(c, s, t, p);
    u := Then(c, s, u, Step(p, LetGo(l)));
    assert u.procs == t.procs[p := u.procs[p]];
  }

  lemma Finishes(c: Config, s: State, t: State, p: Pid) returns (u: State)
    requires Leads(c, s, t) && p in t.procs && t.procs[p].Sole? && t.procs[p].x.at.Probing?
    requires t.procs[p].x.todo == []
    ensures Leads(c, s, u) && u == Put(t, p, Sole(t.procs[p].x.(at := Releasing)))
  {
    hide Run, Leads;
    u := Then(c, s, t, Step(p, Probe));
    u := Then(c, s, u, Step(p, Finish));
    assert u.procs == t.procs[p := u.procs[p]];
  }

  /** Then it unlinks the file it created, and is about to exit. */
  lemma Unlinks(c: Config, s: State, t: State, p: Pid, l: Lock) returns (u: State)
    requires Leads(c, s, t) && p in t.procs && t.procs[p].Sole? && t.procs[p].x.at.Releasing?
    requires t.procs[p].x.ops == map[] && !t.procs[p].x.mode.Upgrade? && !t.procs[p].x.applied
    requires t.procs[p].x.created == {l} && t.procs[p].x.unlinked == {} && t.procs[p].x.stuck == {}
    ensures Leads(c, s, u)
    ensures u == Put(t.(files := t.files - {l}), p, Sole(t.procs[p].x.(at := Leaving, unlinked := {l})))
  {
    hide Run, Leads;
    u := Then(c, s, t, Step(p, Finish));
    u := Then(c, s, u, Step(p, Unlink(l, true)));
    u := Then(c, s, u, Step(p, Finish));
    assert u.procs[p].x.unlinked == {l};
    assert u.procs == t.procs[p := u.procs[p]];
  }

  /** Or it does, and exits. */
  lemma Undoes(c: Config, s: State, t: State, p: Pid, l: Lock) returns (u: State)
    requires Leads(c, s, t) && p in t.procs && t.procs[p].Sole? && t.procs[p].x.at.Releasing?
    requires t.procs[p].x.ops == map[] && !t.procs[p].x.mode.Upgrade? && !t.procs[p].x.applied
    requires t.procs[p].x.created == {l} && t.procs[p].x.unlinked == {} && t.procs[p].x.stuck == {}
    ensures Leads(c, s, u) && u == Killed(t.(files := t.files - {l}), p)
  {
    hide Run, Leads;
    u := Unlinks(c, s, t, p, l);
    u := Then(c, s, u, Step(p, Exit));
    assert u.procs == t.procs[p := Gone] && u.locked == Killed(t, p).locked;
  }

  lemma Scheduled(c: Config, s: State, t: State) returns (schedule: seq<Event>)
    requires Leads(c, s, t)
    ensures Smooth(schedule) && Run(c, s, schedule) == t
  {
    schedule :| Smooth(schedule) && Run(c, s, schedule) == t;
  }
}
