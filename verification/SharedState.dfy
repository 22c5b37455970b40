/** The operation lock that a purge can unlink while an operation takes it: because two installations
    put it in one place, and neither gate keeps the other's declined purge away; or because the
    operation came when its gate had no directory, and is past it without it. */
module SharedState {
  import opened Wrappers
  import opened Lifecycle
  import opened LifecycleSafety
  import opened Schedules
  import Strays

  const A: Pid := 1
  const B: Pid := 2
  const C: Pid := 3

  /** Where the two meet: `purger`'s gate opens, and both take this lock for operations of `kind`.
      They are one installation where the operation came before the directory of its gate. The gates
      of those `kept` have their directories from the start. */
  datatype Meeting = Meeting(kept: set<Home>, user: Home, purger: Home, next: Home, kind: Kind)

  ghost predicate Meets(c: Config, m: Meeting) {
    && c.openable(m.purger) && (m.next == m.user || m.next == m.purger) && c.openable(m.next)
    && OpLock(c, m.user, m.kind).Op? && OpLock(c, m.purger, m.kind) == OpLock(c, m.user, m.kind)
    && (Early(m) ==> m.user !in m.kept)
  }

  function LockOf(c: Config, m: Meeting): Lock {
    OpLock(c, m.user, m.kind)
  }

  /** The operation came before the directory of its gate. */
  predicate Early(m: Meeting) {
    m.user == m.purger
  }

  /** It holds its gate. */
  predicate Gated(c: Config, m: Meeting) {
    !Early(m) && c.openable(m.user)
  }

  function Dirs(c: Config, m: Meeting): set<Lock> {
    Strays.Gates(m.kept) + {Gate(m.user), Gate(m.purger), LockOf(c, m)}
  }

  function Strayed(m: Meeting): set<Home> {
    if Early(m) then {m.user} else {}
  }

  /** Besides, only the two gates and the directory of the lock exist, or nothing does yet. */
  function Before(c: Config, m: Meeting): State {
    State(if Early(m) then Strays.Gates(m.kept) else Dirs(c, m), map[], map[], map[],
          map[A := Sole(Starting(c, m.purger, Purge)),
              B := Shared(Ordinary(m.user, m.kind, None, Arriving)),
              C := Sole(Starting(c, m.next, Purge))], {})
  }

  // ── a purge with nothing but this lock to take ──

  /** A purge past its gate, at the beginning of its plan. */
  ghost predicate Begins(c: Config, x: Exclusion, home: Home, gate: Inode) {
    && x.home == home && x.mode == Purge && x.gate == Some(gate) && x.at == Probing && x.todo == Plan(c, home, Purge)
    && x.ops == map[] && x.created == {} && !x.applied && x.unlinked == {} && x.stuck == {}
  }

  /** And at its end. */
  ghost predicate Through(x: Exclusion, home: Home, gate: Inode, l: Lock, i: Inode, created: set<Lock>) {
    && l in x.seen && (l in created ==> x.seen[l].None?)
    && x.home == home && x.mode == Purge && x.gate == Some(gate) && x.at == Probing && x.todo == []
    && x.ops == map[l := i] && x.created == created && !x.applied && x.unlinked == {} && x.stuck == {}
  }

  lemma SkipsFirst(c: Config, s: State, t: State, p: Pid) returns (u: State)
    requires Leads(c, s, t) && p in t.procs && t.procs[p].Sole? && t.procs[p].x.at.Probing?
    requires t.procs[p].x.todo != [] && t.procs[p].x.todo[0] !in t.dirs
    ensures Leads(c, s, u)
    ensures var x := t.procs[p].x; u == Put(t, p, Sole(x.(todo := x.todo[1..], probed := x.probed + {x.todo[0]})))
  {
    hide Leads, Next;
    u := Skips(c, s, t, p, t.procs[p].x);
  }

  /** What a purge's passage through its plan makes of the machine. */
  ghost predicate Passed(t: State, u: State, p: Pid, l: Lock, node: Inode) {
    && u.dirs == t.dirs && u.strays == t.strays
    && u.files == Opened(t, l, node).files && u.born == Opened(t, l, node).born
    && u.locked == t.locked[InodeAt(t, l, node) := p] && p in u.procs && u.procs[p].Sole?
    && u.procs == t.procs[p := u.procs[p]]
  }

  lemma TakesFirst(c: Config, s: State, t: State, p: Pid, node: Inode) returns (u: State)
    requires Leads(c, s, t) && p in t.procs && t.procs[p].Sole? && t.procs[p].x.at.Probing?
    requires t.procs[p].x.todo != [] && Named(t.procs[p].x.todo[0]) && CanOpen(t, t.procs[p].x.todo[0], node)
    requires InodeAt(t, t.procs[p].x.todo[0], node) !in t.locked
    ensures Leads(c, s, u) && Passed(t, u, p, t.procs[p].x.todo[0], node)
    ensures var x, y := t.procs[p].x, u.procs[p].x;
            var l := x.todo[0];
            && y.home == x.home && y.mode == x.mode && y.gate == x.gate && y.at == Probing && y.todo == x.todo[1..]
            && y.ops == x.ops[l := InodeAt(t, l, node)]
            && y.created == (if l in t.files then x.created else x.created + {l})
            && l in y.seen && (l !in t.files ==> y.seen[l].None?)
            && y.applied == x.applied && y.unlinked == x.unlinked && y.stuck == x.stuck
  {
    hide Leads, Next;
    u := TakesLock(c, s, t, p, node);
  }

  /** From here to the end of a plan with this lock in it. */
  ghost predicate Advanced(x: Exclusion, y: Exclusion, l: Lock, i: Inode, existed: bool) {
    && y.home == x.home && y.mode == x.mode && y.gate == x.gate && y.at == Probing && y.todo == []
    && y.ops == x.ops[l := i] && y.created == (if existed then x.created else x.created + {l})
    && l in y.seen && (!existed ==> y.seen[l].None?)
    && y.applied == x.applied && y.unlinked == x.unlinked && y.stuck == x.stuck
  }

  lemma TakesThenSkips(c: Config, s: State, t: State, p: Pid, l: Lock, other: Lock, node: Inode) returns (u: State)
    requires Leads(c, s, t) && p in t.procs && t.procs[p].Sole? && t.procs[p].x.at.Probing?
    requires t.procs[p].x.todo == [l, other] && Named(l) && CanOpen(t, l, node) && InodeAt(t, l, node) !in t.locked
    requires other !in t.dirs
    ensures Leads(c, s, u) && Passed(t, u, p, l, node)
    ensures Advanced(t.procs[p].x, u.procs[p].x, l, InodeAt(t, l, node), l in t.files)
  {
    hide Leads, Next;
    u := TakesFirst(c, s, t, p, node);
    u := SkipsFirst(c, s, u, p);
  }

  lemma SkipsThenTakes(c: Config, s: State, t: State, p: Pid, l: Lock, other: Lock, node: Inode) returns (u: State)
    requires Leads(c, s, t) && p in t.procs && t.procs[p].Sole? && t.procs[p].x.at.Probing?
    requires t.procs[p].x.todo == [other, l] && Named(l) && CanOpen(t, l, node) && InodeAt(t, l, node) !in t.locked
    requires other !in t.dirs
    ensures Leads(c, s, u) && Passed(t, u, p, l, node)
    ensures Advanced(t.procs[p].x, u.procs[p].x, l, InodeAt(t, l, node), l in t.files)
  {
    hide Leads, Next;
    u := SkipsFirst(c, s, t, p);
    u := TakesFirst(c, s, u, p, node);
  }

  lemma TakesThenSkipsTwo(c: Config, s: State, t: State, p: Pid, l: Lock, node: Inode) returns (u: State)
    requires Leads(c, s, t) && p in t.procs && t.procs[p].Sole? && t.procs[p].x.at.Probing?
    requires |t.procs[p].x.todo| == 3 && t.procs[p].x.todo[0] == l && Named(l) && CanOpen(t, l, node)
    requires InodeAt(t, l, node) !in t.locked
    requires t.procs[p].x.todo[1] !in t.dirs && t.procs[p].x.todo[2] !in t.dirs
    ensures Leads(c, s, u) && Passed(t, u, p, l, node)
    ensures Advanced(t.procs[p].x, u.procs[p].x, l, InodeAt(t, l, node), l in t.files)
  {
    hide Leads, Next;
    u := TakesFirst(c, s, t, p, node);
    u := SkipsFirst(c, s, u, p);
    u := SkipsFirst(c, s, u, p);
  }

  /** The two kinds of lock a purge takes besides. */
  function Others(kind: Kind): (Kind, Kind) {
    match kind
    case Setup => (Connect, Flush)
    case Connect => (Setup, Flush)
    case Flush => (Setup, Connect)
  }

  lemma Plans(c: Config, s: State, t: State, p: Pid, home: Home, kind: Kind, gate: Inode, node: Inode)
      returns (u: State)
    requires Leads(c, s, t) && p in t.procs && t.procs[p].Sole? && Begins(c, t.procs[p].x, home, gate)
    requires OpLock(c, home, kind).Op? && CanOpen(t, OpLock(c, home, kind), node)
    requires InodeAt(t, OpLock(c, home, kind), node) !in t.locked
    requires OpLock(c, home, Others(kind).0) !in t.dirs && OpLock(c, home, Others(kind).1) !in t.dirs
    ensures var l := OpLock(c, home, kind);
            && Leads(c, s, u) && Passed(t, u, p, l, node)
            && Through(u.procs[p].x, home, gate, l, InodeAt(t, l, node), if l in t.files then {} else {l})
  {
    hide Leads, Next, OpLock, CanOpen, InodeAt, Opened;
    var l, other := OpLock(c, home, kind), OpLock(c, home, Others(kind).1);
    if kind.Setup? {
      u := TakesThenSkipsTwo(c, s, t, p, l, node);
    } else {
      u := SkipsFirst(c, s, t, p);
      SameFiles(t, u, l, node);
      if kind.Connect? {
        u := TakesThenSkips(c, s, u, p, l, other, node);
      } else {
        u := SkipsThenTakes(c, s, u, p, l, other, node);
      }
    }
  }

  lemma SameFiles(t: State, u: State, l: Lock, node: Inode)
    requires u.dirs == t.dirs && u.files == t.files && u.born == t.born && u.locked == t.locked
    ensures CanOpen(u, l, node) == CanOpen(t, l, node) && InodeAt(u, l, node) == InodeAt(t, l, node)
    ensures Opened(u, l, node).files == Opened(t, l, node).files && Opened(u, l, node).born == Opened(t, l, node).born
  {
  }

  // ── the ordinary operation ──

  lemma Admits(c: Config, s: State, t: State, p: Pid, o: Ordinary, node: Inode) returns (u: State)
    requires Leads(c, s, t) && p in t.procs && t.procs[p] == Shared(o) && o.at.Arriving? && o.gate.None?
    requires c.openable(o.home) ==>
             Gate(o.home) in t.dirs && Gate(o.home) !in t.files && node !in t.born && node !in t.locked
    ensures Leads(c, s, u)
    ensures u == if c.openable(o.home)
                 then Put(Acquire(Opened(t, Gate(o.home), node), p, node), p,
                     Shared(o.(at := Admitted, gate := Some(node))))
                 else Put(t, p, Shared(o.(at := Admitted)))
  {
    hide Run, Leads;
    u := Then(c, s, t, Step(p, OpenGate(node)));
    if c.openable(o.home) {
      u := Then(c, s, u, Step(p, TryGate));
      assert u.procs == t.procs[p := u.procs[p]];
    }
  }

  /** It comes when its gate has no directory, which is made later, and then the lock's. */
  lemma ComesEarly(c: Config, s: State, t: State, p: Pid, o: Ordinary, l: Lock) returns (u: State)
    requires Leads(c, s, t) && p in t.procs && t.procs[p] == Shared(o) && o.at.Arriving? && c.openable(o.home)
    requires Gate(o.home) !in t.dirs && (l.Op? && l.kind.Setup? ==> l.place == o.home)
    ensures Leads(c, s, u)
    ensures u == Put(t, p, Shared(o.(at := Admitted))).(
                   dirs := t.dirs + {Gate(o.home), l}, strays := t.strays + {o.home})
  {
    hide Run, Leads;
    u := Then(c, s, t, Step(p, OpenGate(0)));
    u := Then(c, s, u, MakeDir(Gate(o.home)));
    u := Then(c, s, u, MakeDir(l));
    assert u.dirs == t.dirs + {Gate(o.home), l};
  }

  lemma CreatesOwn(c: Config, s: State, t: State, p: Pid, o: Ordinary, node: Inode) returns (u: State)
    requires Leads(c, s, t) && p in t.procs && t.procs[p] == Shared(o) && o.at.Admitted?
    requires Named(OpLock(c, o.home, o.kind)) && CanOpen(t, OpLock(c, o.home, o.kind), node)
    ensures Leads(c, s, u) && u.strays == t.strays && OpLock(c, o.home, o.kind) in u.files &&
            (forall q :: q in t.procs && q != p ==> q in u.procs && u.procs[q] == t.procs[q])
  {
    hide Run, Leads;
    u := Then(c, s, t, Step(p, OpenOwn(node)));
  }

  lemma OpensOwn(c: Config, s: State, t: State, p: Pid, o: Ordinary, node: Inode) returns (u: State)
    requires Leads(c, s, t) && p in t.procs && t.procs[p] == Shared(o) && o.at.Admitted?
    requires Named(OpLock(c, o.home, o.kind)) && OpLock(c, o.home, o.kind) in t.dirs &&
             OpLock(c, o.home, o.kind) in t.files
    ensures Leads(c, s, u) && u == Put(t, p, Shared(o.(at := OwnOpened(t.files[OpLock(c, o.home, o.kind)]))))
  {
    hide Run, Leads;
    u := Then(c, s, t, Step(p, OpenOwn(node)));
  }

  /** It locks the file it has open, and lets its gate go. */
  lemma Starts(c: Config, s: State, t: State, p: Pid, o: Ordinary) returns (u: State)
    requires Leads(c, s, t) && p in t.procs && t.procs[p] == Shared(o) && o.at.OwnOpened? && o.at.inode !in t.locked
    ensures Leads(c, s, u)
    ensures u.dirs == t.dirs && u.strays == t.strays && u.files == t.files && u.born == t.born
    ensures u.procs == t.procs[p := Shared(o.(at := Running(o.at.inode, NoInner), gate := None))]
    ensures var locked := t.locked[o.at.inode := p];
            u.locked == if o.gate.Some? then locked - {o.gate.value} else locked
  {
    hide Run, Leads;
    u := Then(c, s, t, Step(p, TryOwn));
    if o.gate.Some? {
      u := Then(c, s, u, Step(p, DropGate));
    }
    assert u.procs == t.procs[p := u.procs[p]];
  }

  // ── the run ──

  /** `B` is past its gate, or goes without. */
  ghost predicate PastGate(c: Config, m: Meeting, t: State) {
    && Leads(c, Before(c, m), t) && t.dirs == Dirs(c, m) && t.strays == Strayed(m)
    && t.files == (if Gated(c, m) then map[Gate(m.user) := 12] else map[])
    && t.locked == (if Gated(c, m) then map[12 := B] else map[])
    && t.born.Keys == (if Gated(c, m) then {12} else {})
    && {A, B, C} <= t.procs.Keys
    && t.procs[A] == Before(c, m).procs[A] && t.procs[C] == Before(c, m).procs[C]
    && t.procs[B] == Shared(Ordinary(m.user, m.kind, if Gated(c, m) then Some(12) else None, Admitted))
  }

  lemma UserComes(c: Config, m: Meeting) returns (t: State)
    requires Meets(c, m)
    ensures PastGate(c, m, t)
  {
    hide Run, Leads, Next, OpLock;
    var s, o := Before(c, m), Ordinary(m.user, m.kind, None, Arriving);
    AtFirst(c, s);
    if Early(m) {
      SetupIsOwn(c, m);
      t := ComesEarly(c, s, s, B, o, LockOf(c, m));
      assert t.dirs == Dirs(c, m);
    } else {
      t := Admits(c, s, s, B, o, 12);
    }
  }

  lemma SetupIsOwn(c: Config, m: Meeting)
    ensures m.kind.Setup? ==> LockOf(c, m) == Op(Setup, m.user)
    ensures LockOf(c, m).kind == m.kind
  {
  }

  /** `A` has been through its plan: it holds the lock on file 11, which it created. */
  ghost predicate Holding(c: Config, m: Meeting, t: State) {
    var l := LockOf(c, m);
    && Leads(c, Before(c, m), t) && t.dirs == Dirs(c, m) && t.strays == Strayed(m)
    && l in t.files && t.files[l] == 11 && Gate(m.purger) in t.files && t.files[Gate(m.purger)] == 10
    && (Gated(c, m) ==> Gate(m.user) in t.files && t.files[Gate(m.user)] == 12)
    && t.locked == (if Gated(c, m) then map[10 := A, 11 := A, 12 := B] else map[10 := A, 11 := A])
    && t.born.Keys <= {10, 11, 12} && {A, B, C} <= t.procs.Keys && t.procs[C] == Before(c, m).procs[C]
    && t.procs[B] == Shared(Ordinary(m.user, m.kind, if Gated(c, m) then Some(12) else None, Admitted))
    && t.procs[A].Sole? && Through(t.procs[A].x, m.purger, 10, l, 11, {l})
  }

  /** `A` is past its gate, at the beginning of its plan. */
  ghost predicate Enters(c: Config, m: Meeting, t: State) {
    && Leads(c, Before(c, m), t) && t.dirs == Dirs(c, m) && t.strays == Strayed(m)
    && LockOf(c, m) !in t.files && Gate(m.purger) in t.files && t.files[Gate(m.purger)] == 10
    && (Gated(c, m) ==> Gate(m.user) in t.files && t.files[Gate(m.user)] == 12)
    && t.locked == (if Gated(c, m) then map[10 := A, 12 := B] else map[10 := A])
    && t.born.Keys <= {10, 12} && {A, B, C} <= t.procs.Keys && t.procs[C] == Before(c, m).procs[C]
    && t.procs[B] == Shared(Ordinary(m.user, m.kind, if Gated(c, m) then Some(12) else None, Admitted))
    && t.procs[A].Sole? && Begins(c, t.procs[A].x, m.purger, 10)
  }

  lemma FirstPurge(c: Config, m: Meeting)
    ensures Before(c, m).procs[A] == Sole(Starting(c, m.purger, Purge))
  {
  }

  lemma EntersBeside(c: Config, m: Meeting, t0: State) returns (t: State)
    requires Meets(c, m) && PastGate(c, m, t0) && Gated(c, m)
    ensures Enters(c, m, t)
  {
    DirsHave(c, m);
    FirstPurge(c, m);
    LockIsNoGate(c, m);
    hide Run, Leads, Next, OpLock, Plan, Before, LockOf, Strayed, Dirs;
    t := PassesGate(c, Before(c, m), t0, A, Starting(c, m.purger, Purge), 10);
    assert t.locked == map[10 := A, 12 := B];
  }

  lemma EntersAlone(c: Config, m: Meeting, t0: State) returns (t: State)
    requires Meets(c, m) && PastGate(c, m, t0) && !Gated(c, m)
    ensures Enters(c, m, t)
  {
    DirsHave(c, m);
    FirstPurge(c, m);
    LockIsNoGate(c, m);
    hide Run, Leads, Next, OpLock, Plan, Before, LockOf, Strayed, Dirs;
    t := PassesGate(c, Before(c, m), t0, A, Starting(c, m.purger, Purge), 10);
    assert t.locked == map[10 := A];
  }

  /** Whether `B` holds a gate or not, `A` comes to its own. */
  lemma PurgeEnters(c: Config, m: Meeting, t0: State) returns (t: State)
    requires Meets(c, m) && PastGate(c, m, t0)
    ensures Enters(c, m, t)
  {
    hide Meets, PastGate, Enters, Gated;
    if Gated(c, m) {
      t := EntersBeside(c, m, t0);
    } else {
      t := EntersAlone(c, m, t0);
    }
  }

  lemma LockIsNoGate(c: Config, m: Meeting)
    ensures !LockOf(c, m).Gate?
  {
  }

  lemma PurgeTakes(c: Config, m: Meeting, t0: State) returns (t: State)
    requires Meets(c, m) && Enters(c, m, t0)
    ensures Holding(c, m, t)
  {
    hide Run, Leads, Next, OpLock, Before, Dirs, Strayed, Plan;
    DirsHave(c, m);
    Apart(c, m, m.purger);
    t := Plans(c, Before(c, m), t0, A, m.purger, m.kind, 10, 11);
  }

  /** No other lock of either is among the directories there are. */
  lemma Apart(c: Config, m: Meeting, home: Home)
    requires Meets(c, m)
    ensures OpLock(c, home, Others(m.kind).0) !in Dirs(c, m) && OpLock(c, home, Others(m.kind).1) !in Dirs(c, m)
  {
  }

  /** `B` has the file open, while `A` holds it. */
  ghost predicate Joins(c: Config, m: Meeting, t: State) {
    var l := LockOf(c, m);
    && Leads(c, Before(c, m), t) && t.dirs == Dirs(c, m) && t.strays == Strayed(m)
    && l in t.files && t.files[l] == 11 && Gate(m.purger) in t.files && t.files[Gate(m.purger)] == 10
    && (Gated(c, m) ==> Gate(m.user) in t.files && t.files[Gate(m.user)] == 12)
    && t.locked == (if Gated(c, m) then map[10 := A, 11 := A, 12 := B] else map[10 := A, 11 := A])
    && t.born.Keys <= {10, 11, 12} && {A, B, C} <= t.procs.Keys && t.procs[C] == Before(c, m).procs[C]
    && t.procs[B] == Shared(Ordinary(m.user, m.kind, if Gated(c, m) then Some(12) else None, OwnOpened(11)))
    && t.procs[A].Sole? && Through(t.procs[A].x, m.purger, 10, l, 11, {l})
  }

  lemma UserJoins(c: Config, m: Meeting, t0: State) returns (t: State)
    requires Meets(c, m) && Holding(c, m, t0)
    ensures Joins(c, m, t)
  {
    DirsHave(c, m);
    hide Run, Leads, Next, OpLock, Plan, Dirs, Strayed, Before;
    t := OpensOwn(c, Before(c, m), t0, B, t0.procs[B].o, 13);
  }

  /** `A` has let the file go: the path is still to be unlinked. */
  ghost predicate Waits(c: Config, m: Meeting, t: State) {
    var l := LockOf(c, m);
    && Leads(c, Before(c, m), t) && t.dirs == Dirs(c, m) && t.strays == Strayed(m)
    && l in t.files && t.files[l] == 11 && Gate(m.purger) in t.files && t.files[Gate(m.purger)] == 10
    && (Gated(c, m) ==> Gate(m.user) in t.files && t.files[Gate(m.user)] == 12)
    && t.locked == (if Gated(c, m) then map[10 := A, 12 := B] else map[10 := A])
    && t.born.Keys <= {10, 11, 12} && {A, B, C} <= t.procs.Keys && t.procs[C] == Before(c, m).procs[C]
    && t.procs[B] == Shared(Ordinary(m.user, m.kind, if Gated(c, m) then Some(12) else None, OwnOpened(11)))
    && t.procs[A].Sole?
    && var x := t.procs[A].x;
       && x.mode == Purge && x.at == Releasing && x.ops == map[] && x.created == {l} && !x.applied
       && x.unlinked == {} && x.stuck == {}
  }

  lemma PurgeDeclines(c: Config, m: Meeting, t0: State) returns (t: State)
    requires Meets(c, m) && Joins(c, m, t0)
    ensures Waits(c, m, t)
  {
    hide Run, Leads, Next, OpLock, Before, Plan, Dirs, Strayed;
    t := Declines(c, Before(c, m), t0, A, LockOf(c, m));
  }

  /** `B` has locked the file and let its gate go. */
  ghost predicate Locked(c: Config, m: Meeting, t: State) {
    var l := LockOf(c, m);
    && Leads(c, Before(c, m), t) && t.dirs == Dirs(c, m) && t.strays == Strayed(m)
    && Gate(m.next) in t.files && t.files[Gate(m.next)] in {10, 12}
    && t.locked == map[10 := A, 11 := B] && t.born.Keys <= {10, 11, 12}
    && {A, B, C} <= t.procs.Keys && t.procs[C] == Before(c, m).procs[C]
    && t.procs[B] == Shared(Ordinary(m.user, m.kind, None, Running(11, NoInner)))
    && t.procs[A].Sole?
    && var x := t.procs[A].x;
       && x.mode == Purge && x.at == Releasing && x.ops == map[] && x.created == {l} && !x.applied
       && x.unlinked == {} && x.stuck == {}
  }

  lemma UserLocks(c: Config, m: Meeting, t0: State) returns (t: State)
    requires Meets(c, m) && Waits(c, m, t0)
    ensures Locked(c, m, t)
  {
    hide Run, Leads, Next, OpLock, Before, Plan, Dirs, Strayed;
    t := Starts(c, Before(c, m), t0, B, t0.procs[B].o);
    assert t.locked == map[10 := A, 11 := B];
  }

  /** `B` runs, on a file that is at no path, and nobody else is past a gate. */
  ghost predicate Runs(c: Config, m: Meeting, t: State) {
    var l := LockOf(c, m);
    && Leads(c, Before(c, m), t) && t.dirs == Dirs(c, m) && t.strays == Strayed(m)
    && l !in t.files && Gate(m.next) in t.files && t.files[Gate(m.next)] in {10, 12}
    && t.locked == map[11 := B] && t.born.Keys <= {10, 11, 12}
    && B in t.procs && C in t.procs && t.procs[C] == Before(c, m).procs[C]
    && t.procs[B] == Shared(Ordinary(m.user, m.kind, None, Running(11, NoInner)))
  }

  lemma UserRuns(c: Config, m: Meeting, t0: State) returns (t: State)
    requires Meets(c, m) && Locked(c, m, t0)
    ensures Runs(c, m, t)
  {
    hide Run, Leads, Next, OpLock, Before, Plan, Dirs, Strayed;
    t := Undoes(c, Before(c, m), t0, A, LockOf(c, m));
    assert t.locked == map[11 := B];
  }

  /** The second purge finds nothing at the path, makes file 15 there, and goes to work. */
  ghost predicate Clashes(c: Config, m: Meeting, t: State) {
    && Leads(c, Before(c, m), t) && t.strays == Strayed(m) && B in t.procs && C in t.procs
    && Holds(c, t.procs[B], LockOf(c, m), 11) && Holds(c, t.procs[C], LockOf(c, m), 15)
    && Operates(t.procs[B], m.user, m.kind) && Stands(t.procs[C], m.next) && t.procs[C].x.mode == Purge
  }

  /** `C` is past the gate, at the beginning of its plan. */
  ghost predicate Returns(c: Config, m: Meeting, t: State, gate: Inode) {
    var l := LockOf(c, m);
    && Leads(c, Before(c, m), t) && t.dirs == Dirs(c, m) && t.strays == Strayed(m)
    && l !in t.files && 15 !in t.born && 15 !in t.locked && B in t.procs && C in t.procs
    && t.procs[B] == Shared(Ordinary(m.user, m.kind, None, Running(11, NoInner)))
    && t.procs[C].Sole? && Begins(c, t.procs[C].x, m.next, gate)
  }

  lemma PurgeReturns(c: Config, m: Meeting, t0: State) returns (t: State)
    requires Meets(c, m) && Runs(c, m, t0)
    ensures Returns(c, m, t, t0.files[Gate(m.next)])
  {
    NextPurge(c, m);
    LockIsNoGate(c, m);
    DirsHave(c, m);
    hide Run, Leads, Next, OpLock, Plan, Before, LockOf, Strayed, Dirs;
    t := PassesGate(c, Before(c, m), t0, C, Starting(c, m.next, Purge), 14);
  }

  lemma NextPurge(c: Config, m: Meeting)
    ensures Before(c, m).procs[C] == Sole(Starting(c, m.next, Purge))
  {
  }

  lemma DirsHave(c: Config, m: Meeting)
    ensures {Gate(m.user), Gate(m.purger), LockOf(c, m)} <= Dirs(c, m)
  {
  }

  lemma SecondPurge(c: Config, m: Meeting, t0: State) returns (t: State)
    requires Meets(c, m) && Runs(c, m, t0)
    ensures Clashes(c, m, t)
  {
    hide Run, Leads, Next, OpLock, Before, Dirs, Strayed, Plan;
    t := PurgeReturns(c, m, t0);
    Apart(c, m, m.next);
    DirsHave(c, m);
    t := Plans(c, Before(c, m), t, C, m.next, m.kind, t0.files[Gate(m.next)], 15);
    t := GoesToWork(c, Before(c, m), t, C);
  }

  lemma GoesToWork(c: Config, s: State, t: State, p: Pid) returns (u: State)
    requires Leads(c, s, t) && p in t.procs && t.procs[p].Sole? && t.procs[p].x.at.Probing? && t.procs[p].x.todo == []
    ensures Leads(c, s, u) && u == Put(t, p, Sole(t.procs[p].x.(at := Working)))
  {
    hide Run, Leads;
    u := Then(c, s, t, Step(p, Probe));
  }

  lemma StartsFresh(c: Config, m: Meeting)
    requires Meets(c, m)
    ensures Init(c, Before(c, m)) && Before(c, m).strays == {}
    ensures forall h :: h in m.kept ==> Gate(h) in Before(c, m).dirs
  {
    SetupIsOwn(c, m);
  }

  /** A run of two purges and one operation, ending with the lock held on two files, and the second
      purge at work while the operation runs. */
  lemma Clash(c: Config, m: Meeting) returns (schedule: seq<Event>)
    requires Meets(c, m)
    ensures var t := Run(c, Before(c, m), schedule);
            && Init(c, Before(c, m)) && Steady(Before(c, m), m.kept, schedule) && B in t.procs && C in t.procs
            && Holds(c, t.procs[B], LockOf(c, m), 11) && Holds(c, t.procs[C], LockOf(c, m), 15)
            && Operates(t.procs[B], m.user, m.kind) && Stands(t.procs[C], m.next) && t.procs[C].x.mode == Purge
  {
    hide PastGate, Enters, Holding, Joins, Waits, Locked, Runs, Holds, Operates, Stands, Next, Run, Init,
         Smooth;
    StartsFresh(c, m);
    var t := UserComes(c, m);
    t := PurgeEnters(c, m, t);
    t := PurgeTakes(c, m, t);
    t := UserJoins(c, m, t);
    t := PurgeDeclines(c, m, t);
    t := UserLocks(c, m, t);
    t := UserRuns(c, m, t);
    t := SecondPurge(c, m, t);
    schedule := Scheduled(c, Before(c, m), t);
    SmoothIsSteady(Before(c, m), m.kept, schedule);
  }

  /** `A` is on its way out, having unlinked what it created, and the path is there again. */
  lemma LeavesBehind(c: Config, m: Meeting) returns (schedule: seq<Event>)
    requires Meets(c, m)
    ensures var t := Run(c, Before(c, m), schedule);
            && Init(c, Before(c, m)) && Steady(Before(c, m), m.kept, schedule) && A in t.procs
            && !Restored(t.procs[A], t.files, LockOf(c, m))
  {
    hide Run, Leads, Next, Init, OpLock;
    StartsFresh(c, m);
    var s, l := Before(c, m), LockOf(c, m);
    var t := UserComes(c, m);
    t := PurgeEnters(c, m, t);
    t := PurgeTakes(c, m, t);
    t := Declines(c, s, t, A, l);
    t := Unlinks(c, s, t, A, l);
    var x := t.procs[A];
    t := CreatesOwn(c, s, t, B, t.procs[B].o, 13);
    assert t.procs[A] == x;
    schedule := Scheduled(c, s, t);
    SmoothIsSteady(s, m.kept, schedule);
  }

  // ── and so exactly ──

  /** Where a lock is not safe, a purge and an operation meet at it. */
  lemma Unsafe(c: Config, kept: set<Home>, home: Home, l: Lock) returns (m: Meeting)
    requires Reaches(c, home, l) && !l.Update? && !SafeBy(c, kept, home, l)
    ensures Meets(c, m) && LockOf(c, m) == l && m.user == home && m.kept == kept
    ensures c.openable(home) ==> m.next == home
  {
    assert l.Op? && OpLock(c, home, l.kind) == l;
    if Unshared(c, home, l) {
      m := Meeting(kept, home, home, home, l.kind);
    } else {
      var h :| c.openable(h) && Reaches(c, h, l) && h != home;
      m := Meeting(kept, home, h, if c.openable(home) then home else h, l.kind);
    }
  }

  /** An operation lock has one holder in every run that is steady for these installations exactly when
      each that takes it there is one of them and no other with a gate that opens takes it there. */
  lemma LockIdentityExactly(c: Config, kept: set<Home>, l: Lock)
    requires !l.Update?
    ensures AlwaysOneHolder(c, kept, l) <==> GuardedBy(c, kept, l)
  {
    hide Run, Init, Holds, Reaches, Stands, Operates, SafeBy, Steady;
    if GuardedBy(c, kept, l) {
      HeldOnceWhenGuarded(c, kept, l);
    } else {
      var home :| Reaches(c, home, l) && !SafeBy(c, kept, home, l);
      var m := Unsafe(c, kept, home, l);
      var schedule := Clash(c, m);
      assert HeldTwice(c, Run(c, Before(c, m), schedule), l);
    }
  }

  /** And what an aborted exclusion leaves is what it found in exactly the same case. */
  lemma RestoresExactly(c: Config, kept: set<Home>, l: Lock)
    requires !l.Update?
    ensures AlwaysRestores(c, kept, l) <==> GuardedBy(c, kept, l)
  {
    hide Run, Init, Restored, Reaches, SafeBy, Steady;
    if GuardedBy(c, kept, l) {
      RestoredWhenGuarded(c, kept, l);
    } else {
      var home :| Reaches(c, home, l) && !SafeBy(c, kept, home, l);
      var m := Unsafe(c, kept, home, l);
      var schedule := LeavesBehind(c, m);
      assert !Restored(Run(c, Before(c, m), schedule).procs[A], Run(c, Before(c, m), schedule).files, l);
    }
  }

  /** A destructive operation whose plan covers this kind never works while one runs. */
  ghost predicate AlwaysExcludes(c: Config, kept: set<Home>, home: Home, kind: Kind) {
    forall s, schedule, p, q :: Init(c, s) && Steady(s, kept, schedule) ==>
      Excluded(Run(c, s, schedule), p, q, home, kind)
  }

  ghost predicate Excluded(t: State, p: Pid, q: Pid, home: Home, kind: Kind) {
    p in t.procs && q in t.procs && Stands(t.procs[p], home) && Covers(t.procs[p].x.mode, kind) ==>
      !Operates(t.procs[q], home, kind)
  }

  /** What exclusion takes: for a setup, that its gate has its directory all along; for a connect or
      a flush, that besides no other installation whose gate opens puts its lock in the same
      place, unless the gate is one nobody can open, and then no purge gets to work either. */
  ghost predicate ExcludedBy(c: Config, kept: set<Home>, home: Home, kind: Kind) {
    if kind.Setup? then home in kept else !c.openable(home) || SafeBy(c, kept, home, OpLock(c, home, kind))
  }

  lemma ExclusionExactly(c: Config, kept: set<Home>, home: Home, kind: Kind)
    ensures AlwaysExcludes(c, kept, home, kind) <==> ExcludedBy(c, kept, home, kind)
  {
    hide Run, Init, Holds, Reaches, Stands, Operates, Covers, SafeBy, Steady, Smooth;
    if ExcludedBy(c, kept, home, kind) {
      forall s, schedule, p, q | Init(c, s) && Steady(s, kept, schedule)
        ensures Excluded(Run(c, s, schedule), p, q, home, kind)
      {
        KeptExcludes(c, kept, s, schedule, p, q, home, kind);
      }
    } else if kind.Setup? {
      var schedule := Strays.UninstallBesideSetup(c, kept, home);
      SmoothIsSteady(Strays.Bare(c, kept, home, Default), kept, schedule);
      ModesCover(kind);
      var t := Run(c, Strays.Bare(c, kept, home, Default), schedule);
      assert !Excluded(t, Strays.UNINSTALL, Strays.SETUP, home, kind);
    } else {
      OwnReaches(c, home, kind);
      var m := Unsafe(c, kept, home, OpLock(c, home, kind));
      var schedule := Clash(c, m);
      ModesCover(kind);
      assert !Excluded(Run(c, Before(c, m), schedule), C, B, home, kind);
    }
  }

  lemma KeptExcludes(c: Config, kept: set<Home>, s: State, schedule: seq<Event>, p: Pid, q: Pid, home: Home, kind: Kind)
    requires ExcludedBy(c, kept, home, kind) && Init(c, s) && Steady(s, kept, schedule)
    ensures Excluded(Run(c, s, schedule), p, q, home, kind)
  {
    hide Run, Init, Holds, Reaches, Operates, Steady;
    var t := Run(c, s, schedule);
    SteadyHasNoStrays(c, s, kept, schedule);
    OwnGate(c, {}, home);
    ExclusionHolds(c, s, schedule, p, q, home, kind);
    InitInv(c, s);
    RunKeepsInv(c, s, schedule);
    if p in t.procs && q in t.procs && Stands(t.procs[p], home) && Covers(t.procs[p].x.mode, kind) {
      OnlyNamedOperates(c, t, p, q, home, kind);
    }
  }

  /** What operates has a lock to hold, and what stands without a gate is a default uninstall. */
  lemma OnlyNamedOperates(c: Config, t: State, p: Pid, q: Pid, home: Home, kind: Kind)
    requires Inv(c, t) && p in t.procs && q in t.procs && Stands(t.procs[p], home)
    ensures Operates(t.procs[q], home, kind) ==> Named(OpLock(c, home, kind))
    ensures c.openable(home) || t.procs[p].x.mode.Default?
  {
    hide HasOpen, Holds, Excludes, Safe;
    assert RecordOk(c, t.strays, t.files, t.procs[p]) && RecordOk(c, t.strays, t.files, t.procs[q]);
  }

  lemma OwnReaches(c: Config, home: Home, kind: Kind)
    ensures Reaches(c, home, OpLock(c, home, kind)) && !OpLock(c, home, kind).Update?
    ensures OpLock(c, home, kind).kind == kind
  {
  }

  lemma ModesCover(kind: Kind)
    ensures Covers(Purge, kind) && Covers(Default, Setup)
  {
  }
}
