/** The update lock beside a binary that two installations share. */
module SharedBinary {
  import opened Wrappers
  import opened Lifecycle
  import opened LifecycleSafety
  import opened Schedules

  // ── three of them ──

  const A: Pid := 1
  const B: Pid := 2
  const C: Pid := 3

  /** Only the two gates and the directory of the binary exist. */
  function Before(c: Config, h: Home, h': Home): State {
    State({Gate(h), Gate(h'), Update(c.binOf(h))}, map[], map[], map[],
          map[A := Sole(Starting(c, h, PurgeBinary)), B := Sole(Starting(c, h', Upgrade)),
              C := Sole(Starting(c, h, Upgrade))], {})
  }

  /** `A`, an uninstall of the binary, holds the update lock on file 11, which it created. */
  ghost predicate FirstHolds(c: Config, h: Home, h': Home, t: State) {
    var l := Update(c.binOf(h));
    && Leads(c, Before(c, h, h'), t)
    && t.dirs == {Gate(h), Gate(h'), l} && t.files == map[Gate(h) := 10, l := 11]
    && t.locked.Keys == {10, 11} && t.locked[10] == A && t.born.Keys == {10, 11}
    && A in t.procs && B in t.procs && C in t.procs
    && t.procs[B] == Sole(Starting(c, h', Upgrade)) && t.procs[C] == Sole(Starting(c, h, Upgrade))
    && t.procs[A].Sole?
    && var x := t.procs[A].x;
       && x.home == h && x.mode == PurgeBinary && x.gate == Some(10) && x.at == Probing && x.todo == []
       && l in x.seen && x.seen[l].None?
       && x.ops == map[l := 11] && x.created == {l} && !x.applied && x.unlinked == {} && x.stuck == {}
  }

  /** `A` is past its gate and has one path of its plan left to look at. */
  ghost predicate OneLeft(c: Config, h: Home, h': Home, t: State) {
    var l := Update(c.binOf(h));
    && Leads(c, Before(c, h, h'), t)
    && t.dirs == {Gate(h), Gate(h'), l} && t.files == map[Gate(h) := 10] && t.locked == map[10 := A] &&
       t.born == map[10 := Gate(h)]
    && A in t.procs && B in t.procs && C in t.procs
    && t.procs[B] == Sole(Starting(c, h', Upgrade)) && t.procs[C] == Sole(Starting(c, h, Upgrade))
    && t.procs[A].Sole?
    && var x := t.procs[A].x;
       && x.home == h && x.mode == PurgeBinary && x.gate == Some(10) && x.at == Probing && x.todo == [l]
       && x.ops == map[] && x.created == {} && !x.applied && x.unlinked == {} && x.stuck == {}
  }

  lemma Enters(c: Config, h: Home, h': Home) returns (t: State)
    requires h != h' && c.openable(h)
    ensures OneLeft(c, h, h', t)
  {
    hide Next, Run, Leads;
    var s, x := Before(c, h, h'), Starting(c, h, PurgeBinary);
    AtFirst(c, s);
    t := PassesGate(c, s, s, A, x, 10);
    t := SkipsThree(c, s, t, A, t.procs[A].x);
  }

  lemma Uninstall(c: Config, h: Home, h': Home) returns (t: State)
    requires h != h' && c.openable(h)
    ensures FirstHolds(c, h, h', t)
  {
    hide Next, Run, Leads, Before, Plan;
    t := Enters(c, h, h');
    t := TakesLock(c, Before(c, h, h'), t, A, 11);
  }

  /** `B`, an upgrade of the other installation, has opened the file at the path `A` holds. */
  ghost predicate SecondWaits(c: Config, h: Home, h': Home, t: State) {
    var l := Update(c.binOf(h));
    && Leads(c, Before(c, h, h'), t)
    && Gate(h) in t.dirs && l in t.dirs && Gate(h) in t.files && t.files[Gate(h)] == 10
    && t.locked.Keys == {10, 11, 12} && t.locked[10] == A && 15 !in t.born && Op(Setup, h) !in t.dirs
    && A in t.procs && B in t.procs && C in t.procs
    && t.procs[C] == Sole(Starting(c, h, Upgrade))
    && t.procs[B].Sole? && t.procs[B].x.at == ProbeOpened(true, 11) && t.procs[B].x.todo == [l]
    && t.procs[A].Sole?
    && var x := t.procs[A].x;
       && x.home == h && x.mode == PurgeBinary && x.gate == Some(10) && x.at == Probing && x.todo == []
       && x.ops == map[l := 11] && x.created == {l} && !x.applied && x.unlinked == {} && x.stuck == {}
  }

  /** `B` is past the other gate, the update lock its only path left; all else is as it was. */
  ghost predicate SecondEnters(c: Config, h: Home, h': Home, t0: State, t: State) {
    var l := Update(c.binOf(h));
    && Leads(c, Before(c, h, h'), t)
    && t.dirs == t0.dirs && l in t.files && t.files[l] == 11 && Gate(h) in t.files && t.files[Gate(h)] == 10
    && t.locked.Keys == {10, 11, 12} && t.locked[10] == A && 15 !in t.born
    && A in t.procs && B in t.procs && C in t.procs && A in t0.procs && C in t0.procs && t.procs[A] == t0.procs[A] &&
       t.procs[C] == t0.procs[C]
    && t.procs[B].Sole? && t.procs[B].x.at == Probing && t.procs[B].x.todo == [l]
  }

  /** Past it, the whole plan of an upgrade before it. */
  ghost predicate SecondPasses(c: Config, h: Home, h': Home, t0: State, t: State) {
    var l := Update(c.binOf(h));
    && Leads(c, Before(c, h, h'), t)
    && t.dirs == t0.dirs && l in t.files && t.files[l] == 11 && Gate(h) in t.files && t.files[Gate(h)] == 10
    && t.locked.Keys == {10, 11, 12} && t.locked[10] == A && 15 !in t.born
    && {A, C} <= t0.procs.Keys && B in t.procs && t.procs == t0.procs[B := t.procs[B]]
    && t.procs[B].Sole? && t.procs[B].x.at == Probing && t.procs[B].x.todo == [Op(Setup, h'), l]
  }

  lemma Passes(c: Config, h: Home, h': Home, t0: State) returns (t: State)
    requires h != h' && c.openable(h') && c.binOf(h) == c.binOf(h') && FirstHolds(c, h, h', t0)
    ensures B in t.procs && SecondPasses(c, h, h', t0, t)
  {
    hide Next, Run, Leads;
    t := PassesGate(c, Before(c, h, h'), t0, B, Starting(c, h', Upgrade), 12);
    assert t.procs == t0.procs[B := t.procs[B]];
  }

  lemma Comes(c: Config, h: Home, h': Home, t0: State) returns (t: State)
    requires h != h' && c.openable(h') && c.binOf(h) == c.binOf(h') && FirstHolds(c, h, h', t0)
    ensures SecondEnters(c, h, h', t0, t)
  {
    hide Next, Run, Leads, Before, Plan;
    t := Passes(c, h, h', t0);
    t := SkipsOne(c, Before(c, h, h'), t, B, Update(c.binOf(h)));
  }

  lemma Crosses(c: Config, h: Home, h': Home, t0: State) returns (t: State)
    requires h != h' && c.openable(h') && c.binOf(h) == c.binOf(h') && FirstHolds(c, h, h', t0)
    ensures SecondWaits(c, h, h', t)
  {
    hide Next, Run, Leads, Before, Plan;
    t := Comes(c, h, h', t0);
    t := Looks(c, Before(c, h, h'), t, B, t.procs[B].x, 13);
  }

  /** `A` lets file 11 go, with the path still to unlink, and `B` locks it. */
  ghost predicate SecondHolds(c: Config, h: Home, h': Home, t: State) {
    var l := Update(c.binOf(h));
    && Leads(c, Before(c, h, h'), t)
    && Gate(h) in t.dirs && l in t.dirs && Gate(h) in t.files && t.files[Gate(h)] == 10
    && t.locked.Keys == {10, 11, 12} && t.locked[10] == A && 15 !in t.born && Op(Setup, h) !in t.dirs
    && A in t.procs && B in t.procs && C in t.procs
    && t.procs[C] == Sole(Starting(c, h, Upgrade)) && Holds(c, t.procs[B], l, 11)
    && t.procs[A].Sole?
    && var x := t.procs[A].x;
       && x.home == h && x.mode == PurgeBinary && x.gate == Some(10) && x.at == Releasing && x.todo == []
       && x.ops == map[] && x.created == {l} && !x.applied && x.unlinked == {} && x.stuck == {}
  }

  lemma Follows(c: Config, h: Home, h': Home, t0: State) returns (t: State)
    requires h != h' && SecondWaits(c, h, h', t0)
    ensures SecondHolds(c, h, h', t)
  {
    hide Next, Run, Leads;
    var s, l := Before(c, h, h'), Update(c.binOf(h));
    t := Declines(c, s, t0, A, l);
    assert t.procs[B] == t0.procs[B] && t.locked.Keys == {10, 12};
    t := Locks(c, s, t, B, t0.procs[B].x);
  }

  /** `C` finds nothing at the path, makes file 15 there and locks that one. */
  lemma SecondFile(c: Config, h: Home, h': Home, t0: State) returns (t: State)
    requires h != h' && c.openable(h) && SecondHolds(c, h, h', t0)
    ensures Leads(c, Before(c, h, h'), t) && HeldTwice(c, t, Update(c.binOf(h)))
  {
    hide Next, Run, Leads;
    var s, l := Before(c, h, h'), Update(c.binOf(h));
    t := Undoes(c, s, t0, A, l);
    assert t.procs[B] == t0.procs[B];
    t := Restarts(c, s, t, h);
  }

  lemma Restarts(c: Config, s: State, t0: State, h: Home) returns (t: State)
    requires Leads(c, s, t0) && c.openable(h) && {B, C} <= t0.procs.Keys
    requires t0.procs[C] == Sole(Starting(c, h, Upgrade)) && Holds(c, t0.procs[B], Update(c.binOf(h)), 11)
    requires Gate(h) in t0.dirs && Gate(h) in t0.files && t0.files[Gate(h)] == 10 && Op(Setup, h) !in t0.dirs
    requires Update(c.binOf(h)) in t0.dirs && Update(c.binOf(h)) !in t0.files && 15 !in t0.born
    requires 10 !in t0.locked && 15 !in t0.locked
    ensures Leads(c, s, t) && HeldTwice(c, t, Update(c.binOf(h)))
  {
    hide Next, Run, Leads;
    var l := Update(c.binOf(h));
    t := PassesGate(c, s, t0, C, Starting(c, h, Upgrade), 14);
    t := SkipsOne(c, s, t, C, l);
    t := TakesLock(c, s, t, C, 15);
    assert Holds(c, t.procs[B], l, 11) && Holds(c, t.procs[C], l, 15);
  }

  lemma StartsFresh(c: Config, h: Home, h': Home)
    ensures Init(c, Before(c, h, h'))
  {
  }

  lemma HeldTwiceWhenShared(c: Config, h: Home, h': Home) returns (schedule: seq<Event>)
    requires h != h' && c.openable(h) && c.openable(h') && c.binOf(h) == c.binOf(h')
    ensures var t := Run(c, Before(c, h, h'), schedule);
            Init(c, Before(c, h, h')) && HeldTwice(c, t, Update(c.binOf(h)))
  {
    hide FirstHolds, SecondWaits, SecondHolds, HeldTwice, Next, Run;
    StartsFresh(c, h, h');
    var t := Uninstall(c, h, h');
    t := Crosses(c, h, h', t);
    t := Follows(c, h, h', t);
    t := SecondFile(c, h, h', t);
    schedule := Scheduled(c, Before(c, h, h'), t);
  }

  /** No two installations whose gates open share this binary. */
  ghost predicate Alone(c: Config, bin: nat) {
    forall h, h' | c.openable(h) && c.openable(h') && c.binOf(h) == bin && c.binOf(h') == bin :: h == h'
  }

  lemma AloneIsGuarded(c: Config, bin: nat)
    ensures GuardedBy(c, {}, Update(bin)) <==> Alone(c, bin)
  {
    forall h, h' | c.openable(h) && c.openable(h') && c.binOf(h) == bin && c.binOf(h') == bin
      ensures GuardedBy(c, {}, Update(bin)) ==> h == h'
    {
      assert Reaches(c, h, Update(bin)) && Reaches(c, h', Update(bin));
    }
  }

  /** The update lock of a binary is one lock in every run exactly when no two installations
      whose gates open run that binary. Only exclusions take it, so that is whether or not the
      directory of a gate is there. */
  lemma UpdateLockIdentity(c: Config, bin: nat)
    ensures AlwaysOneHolder(c, {}, Update(bin)) <==> Alone(c, bin)
  {
    AloneIsGuarded(c, bin);
    if Alone(c, bin) {
      HeldOnceWhenGuarded(c, {}, Update(bin));
    } else {
      var h, h' :| c.openable(h) && c.openable(h') && c.binOf(h) == bin && c.binOf(h') == bin && h != h';
      var schedule := HeldTwiceWhenShared(c, h, h');
    }
  }

  /** `A` has declined and unlinked what it created when `B` creates it again. */
  lemma LeavesBehind(c: Config, h: Home, h': Home) returns (schedule: seq<Event>)
    requires h != h' && c.openable(h) && c.openable(h') && c.binOf(h) == c.binOf(h')
    ensures var t := Run(c, Before(c, h, h'), schedule);
            && Init(c, Before(c, h, h')) && A in t.procs
            && !Restored(t.procs[A], t.files, Update(c.binOf(h)))
  {
    hide Next, Run, Leads, Plan, Init;
    StartsFresh(c, h, h');
    var s, l := Before(c, h, h'), Update(c.binOf(h));
    var t := Uninstall(c, h, h');
    t := Declines(c, s, t, A, l);
    t := Unlinks(c, s, t, A, l);
    var x := t.procs[A];
    t := CreatesAgain(c, s, t, h', l);
    assert t.procs[A] == x;
    schedule := Scheduled(c, s, t);
  }

  lemma CreatesAgain(c: Config, s: State, t0: State, h: Home, l: Lock) returns (t: State)
    requires Leads(c, s, t0) && A in t0.procs && B in t0.procs && t0.procs[B] == Sole(Starting(c, h, Upgrade))
    requires c.openable(h) && l == Update(c.binOf(h)) && l in t0.dirs && l !in t0.files && 12 !in t0.born &&
             13 !in t0.born
    requires Gate(h) in t0.dirs && Gate(h) !in t0.files && 12 !in t0.locked && Op(Setup, h) !in t0.dirs
    ensures Leads(c, s, t) && A in t.procs && t.procs[A] == t0.procs[A] && l in t.files
  {
    hide Next, Run, Leads;
    t := PassesGate(c, s, t0, B, Starting(c, h, Upgrade), 12);
    t := SkipsOne(c, s, t, B, l);
    t := Looks(c, s, t, B, t.procs[B].x, 13);
  }

  /** An aborted uninstall of the binary restores its update lock in exactly the same case. */
  lemma UpdateLockRestored(c: Config, bin: nat)
    ensures AlwaysRestores(c, {}, Update(bin)) <==> Alone(c, bin)
  {
    hide Run, Init, Restored;
    AloneIsGuarded(c, bin);
    if Alone(c, bin) {
      RestoredWhenGuarded(c, {}, Update(bin));
    } else {
      var h, h' :| c.openable(h) && c.openable(h') && c.binOf(h) == bin && c.binOf(h') == bin && h != h';
      var schedule := LeavesBehind(c, h, h');
      assert !Restored(Run(c, Before(c, h, h'), schedule).procs[A], Run(c, Before(c, h, h'), schedule).files,
               Update(bin));
    }
  }
}
