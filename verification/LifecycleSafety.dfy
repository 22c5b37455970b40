/** What every interleaving keeps. */
module LifecycleSafety {
  import opened Wrappers
  import opened Lifecycle

  // ── vocabulary ──

  /** An installation's own paths: its gate, its operation locks, its binary's update lock. */
  predicate Mine(c: Config, home: Home, l: Lock) {
    match l
    case Gate(_) => false
    case Op(k, _) => l == OpLock(c, home, k)
    case NoPath(h, _) => h == home
    case Update(b) => b == c.binOf(home)
  }

  /** Its operations can open this path: the update lock only behind its gate. */
  predicate Reaches(c: Config, home: Home, l: Lock) {
    l == Gate(home) || (Mine(c, home, l) && (l.Update? ==> c.openable(home)))
  }

  /** No other installation whose gate opens can open this path, and so none can unlink it. */
  ghost predicate Unshared(c: Config, home: Home, l: Lock) {
    forall h | c.openable(h) && Reaches(c, h, l) :: h == home
  }

  /** And none of its own operations got past its gate to this path without it. */
  ghost predicate Safe(c: Config, strays: set<Home>, home: Home, l: Lock) {
    Unshared(c, home, l) && (l.Op? && c.openable(home) ==> home !in strays)
  }

  /** The lock paths every unlinking of which is behind the gate of whoever opens them. */
  ghost predicate Guarded(c: Config, strays: set<Home>, l: Lock) {
    forall h | Reaches(c, h, l) :: Safe(c, strays, h, l)
  }

  lemma OwnGate(c: Config, strays: set<Home>, home: Home)
    ensures Safe(c, strays, home, Gate(home)) && Unshared(c, home, Op(Setup, home))
  {
  }

  function HomeOf(pr: Proc): Home {
    match pr
    case Shared(o) => o.home
    case Sole(x) => x.home
    case Gone => 0
  }

  /** The process has the file `i` open, reached through the path `l`. */
  predicate HasOpen(c: Config, pr: Proc, l: Lock, i: Inode) {
    match pr
    case Shared(o) =>
      || (l == Gate(o.home) && (o.gate == Some(i) || o.at == GateOpened(i)))
      || (l == OpLock(c, o.home, o.kind) && (o.at == OwnOpened(i) || (o.at.Running? && o.at.inode == i)))
      || (l == OpLock(c, o.home, Connect) && o.at.Running? &&
           (o.at.inner == InnerOpened(i) || o.at.inner == InnerRunning(i)))
    case Sole(x) =>
      || (l == Gate(x.home) && (x.gate == Some(i) || x.at == EntryOpened(i)))
      || (l in x.ops && x.ops[l] == i)
      || (x.at.ProbeOpened? && x.at.inode == i && x.todo != [] && x.todo[0] == l)
    case Gone => false
  }

  /** The process has it open and locked. */
  predicate Holds(c: Config, pr: Proc, l: Lock, i: Inode) {
    match pr
    case Shared(o) =>
      || (l == Gate(o.home) && o.gate == Some(i))
      || (l == OpLock(c, o.home, o.kind) && o.at.Running? && o.at.inode == i)
      || (l == OpLock(c, o.home, Connect) && o.at.Running? && o.at.inner == InnerRunning(i))
    case Sole(x) => (l == Gate(x.home) && x.gate == Some(i)) || (l in x.ops && x.ops[l] == i)
    case Gone => false
  }

  /** An exclusion speaks for `l` once it has probed it, and from the moment it found no file there. */
  predicate Excludes(pr: Proc, l: Lock) {
    pr.Sole? && pr.x.gate.Some? && (l in pr.x.probed || (l in pr.x.seen && pr.x.seen[l].None?))
  }

  // ── the invariant ──

  ghost predicate LocksOk(c: Config, s: State) {
    && (forall i :: i in s.locked ==>
          i in s.born && s.locked[i] in s.procs && Holds(c, s.procs[s.locked[i]], s.born[i], i))
    && (forall p, l, i :: p in s.procs && Holds(c, s.procs[p], l, i) ==> i in s.locked && s.locked[i] == p)
  }

  ghost predicate FilesOk(c: Config, s: State) {
    && (forall l :: l in s.files ==> l in s.dirs && s.files[l] in s.born && s.born[s.files[l]] == l)
    && (forall p, l, i :: p in s.procs && HasOpen(c, s.procs[p], l, i) ==> i in s.born && s.born[i] == l)
  }

  ghost predicate GuardOk(c: Config, s: State) {
    forall p, l, i :: p in s.procs && HasOpen(c, s.procs[p], l, i) && Safe(c, s.strays, HomeOf(s.procs[p]), l) ==>
      l in s.files && s.files[l] == i
  }

  predicate OrdinaryShape(c: Config, strays: set<Home>, o: Ordinary) {
    && (o.gate.Some? ==> c.openable(o.home))
    && (o.at.Admitted? || o.at.OwnOpened? ==> o.gate.Some? || !c.openable(o.home) || o.home in strays)
    && (o.at.Arriving? || o.at.GateOpened? ==> o.gate.None?)
    && (o.at.GateOpened? ==> c.openable(o.home))
    && (o.at.OwnOpened? || o.at.Running? ==> Named(OpLock(c, o.home, o.kind)))
    && (o.at.Running? && !o.at.inner.NoInner? ==> o.kind.Setup? && Named(OpLock(c, o.home, Connect)))
  }

  ghost predicate ExclusionShape(c: Config, strays: set<Home>, x: Exclusion) {
    && (x.gate.Some? || x.at.EntryOpened? ==> c.openable(x.home))
    && (x.gate.None? ==> x.probed == {})
    && (x.gate.None? <==> x.at.Entering? || x.at.Gateless? || x.at.EntryOpened?)
    && (x.at.Gateless? ==> x.home in strays && x.mode.Default?)
    && (forall l :: l in x.todo || l in x.probed ==> Mine(c, x.home, l))
    && (forall l :: l in x.todo ==> l !in x.probed)
    && (forall j, k :: 0 <= j < k < |x.todo| ==> x.todo[j] != x.todo[k])
    && (forall l :: l in Plan(c, x.home, x.mode) ==> l in x.probed || l in x.todo)
    && (Op(Setup, x.home) in x.probed || (x.todo != [] && x.todo[0] == Op(Setup, x.home) && x.probed == {}))
    && (forall l :: l in x.ops ==> l in x.probed && Named(l))
    && (x.at.Working? ==> x.todo == [])
    && (x.at.Statted? || x.at.ProbeOpened? ==>
          x.todo != [] && Named(x.todo[0]) && x.todo[0] in x.seen && (x.at.existed <==> x.seen[x.todo[0]].Some?))
    && (forall l :: l in x.seen ==> x.gate.Some? && (l in x.probed || (x.todo != [] && x.todo[0] == l)))
    && (x.applied ==> x.at.Working? || x.at.Releasing? || x.at.Leaving?)
    && x.created <= x.probed && x.unlinked + x.stuck <= x.created && x.unlinked !! x.stuck
    && (x.at.Unlinking? || x.at.Leaving? ==> x.ops == map[])
    && (x.unlinked + x.stuck == {} || x.at.Unlinking? || x.at.Leaving?)
    && (x.at.Unlinking? ==> x.mode != Upgrade && !x.applied) && (x.mode.Upgrade? ==> x.unlinked + x.stuck == {})
    && (x.at.Leaving? && !x.applied && x.mode != Upgrade ==> x.created == x.unlinked + x.stuck)
  }

  ghost predicate ShapeOk(c: Config, strays: set<Home>, pr: Proc) {
    match pr
    case Shared(o) => OrdinaryShape(c, strays, o)
    case Sole(x) => ExclusionShape(c, strays, x)
    case Gone => true
  }

  ghost predicate ExclusionOk(c: Config, s: State) {
    forall p, q, l, i ::
      p in s.procs && q in s.procs && p != q && Excludes(s.procs[p], l) && HasOpen(c, s.procs[q], l, i) ==>
        !Safe(c, s.strays, HomeOf(s.procs[q]), l)
  }

  /** As long as an exclusion has changed nothing, each path it looked at holds what it held
      then, except for the files it created and has not unlinked yet. */
  ghost predicate SeenOk(c: Config, strays: set<Home>, files: map<Lock, Inode>, x: Exclusion) {
    !x.applied ==>
      && (forall l :: l in x.seen && Guarded(c, strays, l) ==>
            && (x.seen[l].Some? ==> l in files && files[l] == x.seen[l].value && l !in x.created)
            && (x.seen[l].None? && l in files ==>
                  || (l in x.created && l !in x.unlinked)
                  || (x.at.ProbeOpened? && x.todo != [] && x.todo[0] == l)))
      && (forall l :: l in x.created ==>
            l in x.seen && x.seen[l].None? && (Guarded(c, strays, l) && l !in x.unlinked ==> l in files))
  }

  ghost predicate RecordOk(c: Config, strays: set<Home>, files: map<Lock, Inode>, pr: Proc) {
    ShapeOk(c, strays, pr) && (pr.Sole? ==> SeenOk(c, strays, files, pr.x))
  }

  ghost predicate RecordsOk(c: Config, s: State) {
    forall p {:trigger RecordOk(c, s.strays, s.files, s.procs[p])} ::
      p in s.procs ==> RecordOk(c, s.strays, s.files, s.procs[p])
  }

  ghost predicate Inv(c: Config, s: State) {
    LocksOk(c, s) && FilesOk(c, s) && GuardOk(c, s) && ExclusionOk(c, s) && RecordsOk(c, s)
  }

  lemma InitInv(c: Config, s: State)
    requires Init(c, s)
    ensures Inv(c, s)
  {
    forall p | p in s.procs
      ensures RecordOk(c, s.strays, s.files, s.procs[p]) &&
              (forall l, i :: !HasOpen(c, s.procs[p], l, i) && !Holds(c, s.procs[p], l, i))
      ensures forall l :: !Excludes(s.procs[p], l)
    {
      FreshRecord(c, s.strays, s.files, s.procs[p]);
    }
  }

  lemma FreshRecord(c: Config, strays: set<Home>, files: map<Lock, Inode>, pr: Proc)
    requires Fresh(c, pr)
    ensures RecordOk(c, strays, files, pr) && (forall l :: !Excludes(pr, l))
    ensures forall l, i :: !HasOpen(c, pr, l, i) && !Holds(c, pr, l, i)
  {
  }

  lemma Recorded(c: Config, s: State, p: Pid)
    requires Inv(c, s) && p in s.procs
    ensures RecordOk(c, s.strays, s.files, s.procs[p])
    ensures forall q, l, i :: q in s.procs && q != p && Excludes(s.procs[p], l) && HasOpen(c, s.procs[q], l, i) ==>
              !Safe(c, s.strays, HomeOf(s.procs[q]), l)
  {
    hide HasOpen, Excludes, RecordOk, Safe;
  }

  lemma OpenReaches(c: Config, s: State, p: Pid, l: Lock, i: Inode)
    requires Inv(c, s) && p in s.procs && HasOpen(c, s.procs[p], l, i)
    ensures Reaches(c, HomeOf(s.procs[p]), l)
  {
    assert RecordOk(c, s.strays, s.files, s.procs[p]);
  }

  /** Two holders of one path that is safe for both are one process. */
  lemma OneHolder(c: Config, s: State, p: Pid, q: Pid, l: Lock, i: Inode, j: Inode)
    requires Inv(c, s) && p in s.procs && q in s.procs
    requires Safe(c, s.strays, HomeOf(s.procs[p]), l) && Safe(c, s.strays, HomeOf(s.procs[q]), l)
    requires Holds(c, s.procs[p], l, i) && Holds(c, s.procs[q], l, j)
    ensures p == q && i == j
  {
    assert HasOpen(c, s.procs[p], l, i) && HasOpen(c, s.procs[q], l, j);
  }

  /** What an exclusion speaks for is in its own plan, and setup.lock comes first. */
  lemma ExcludedIsPlanned(c: Config, s: State, q: Pid, l: Lock)
    requires Inv(c, s) && q in s.procs && Excludes(s.procs[q], l)
    ensures Mine(c, s.procs[q].x.home, l)
    ensures l == Op(Setup, s.procs[q].x.home) || Op(Setup, s.procs[q].x.home) in s.procs[q].x.probed
  {
    assert RecordOk(c, s.strays, s.files, s.procs[q]);
    var x := s.procs[q].x;
    assert l in x.probed || (l in x.seen && x.todo != [] && x.todo[0] == l);
    assert l in x.probed || l in x.todo;
  }

  /** Two processes past the gate of a path's one installation are one process. */
  lemma SoleRival(c: Config, s: State, p: Pid, q: Pid, l: Lock)
    requires Inv(c, s) && p in s.procs && q in s.procs && s.procs[p].Sole? && s.procs[q].Sole?
    requires s.procs[p].x.gate.Some? && s.procs[q].x.gate.Some? && Safe(c, s.strays, s.procs[p].x.home, l)
    requires Mine(c, s.procs[q].x.home, l)
    ensures p == q
  {
    var x, y := s.procs[p].x, s.procs[q].x;
    assert RecordOk(c, s.strays, s.files, s.procs[p]) && RecordOk(c, s.strays, s.files, s.procs[q]);
    assert Reaches(c, y.home, l);
    OwnGate(c, s.strays, x.home);
    OneHolder(c, s, p, q, Gate(x.home), x.gate.value, y.gate.value);
  }

  // ── one step, by its effect ──

  /** The obligations a step of `p` owes to everybody else, whatever the step is. */
  lemma Effect(c: Config, s: State, s': State, p: Pid, pr: Proc)
    requires Inv(c, s) && p in s.procs && s'.procs == s.procs[p := pr] && s'.strays == s.strays
    requires forall l :: l in s'.files ==> l in s'.dirs && s'.files[l] in s'.born && s'.born[s'.files[l]] == l
    requires forall i :: i in s.born ==> i in s'.born && s'.born[i] == s.born[i]
    requires forall l, i :: HasOpen(c, pr, l, i) ==> i in s'.born && s'.born[i] == l
    requires forall l, i :: HasOpen(c, pr, l, i) && Safe(c, s.strays, HomeOf(pr), l) ==>
               l in s'.files && s'.files[l] == i
    requires forall l, q, i ::
               l in s.files && l !in s'.files && q in s.procs && q != p && HasOpen(c, s.procs[q], l, i) ==>
                 !Safe(c, s.strays, HomeOf(s.procs[q]), l)
    requires forall l :: l in s.files && l in s'.files ==> s'.files[l] == s.files[l]
    requires forall i :: i in s'.locked && s'.locked[i] != p ==> i in s.locked && s.locked[i] == s'.locked[i]
    requires forall i :: i in s.locked && s.locked[i] != p ==> i in s'.locked && s'.locked[i] == s.locked[i]
    requires forall i :: i in s'.locked && s'.locked[i] == p ==> i in s'.born && Holds(c, pr, s'.born[i], i)
    requires forall l, i :: Holds(c, pr, l, i) ==> i in s'.locked && s'.locked[i] == p
    requires forall q, l, i :: q in s.procs && q != p && Excludes(s.procs[q], l) && HasOpen(c, pr, l, i) ==>
             !Safe(c, s.strays, HomeOf(pr), l)
    requires forall q, l, i :: q in s.procs && q != p && Excludes(pr, l) && HasOpen(c, s.procs[q], l, i) ==>
               !Safe(c, s.strays, HomeOf(s.procs[q]), l)
    requires RecordOk(c, s'.strays, s'.files, pr)
    requires forall q :: q in s.procs && q != p ==> RecordOk(c, s'.strays, s'.files, s.procs[q])
    ensures Inv(c, s')
  {
    forall q, l, i | q in s'.procs && HasOpen(c, s'.procs[q], l, i) && Safe(c, s.strays, HomeOf(s'.procs[q]), l)
      ensures l in s'.files && s'.files[l] == i
    {
      if q != p { assert HasOpen(c, s.procs[q], l, i); }
    }
    forall q, l, i | q in s'.procs && HasOpen(c, s'.procs[q], l, i)
      ensures i in s'.born && s'.born[i] == l
    {
      if q != p { assert HasOpen(c, s.procs[q], l, i); }
    }
    forall q, l, i | q in s'.procs && Holds(c, s'.procs[q], l, i)
      ensures i in s'.locked && s'.locked[i] == q
    {
      if q != p { assert Holds(c, s.procs[q], l, i); }
    }
    forall i | i in s'.locked
      ensures i in s'.born && s'.locked[i] in s'.procs && Holds(c, s'.procs[s'.locked[i]], s'.born[i], i)
    {
    }
    forall q, r, l, i | q in s'.procs && r in s'.procs && q != r && Excludes(s'.procs[q], l) &&
      HasOpen(c, s'.procs[r], l, i)
      ensures !Safe(c, s.strays, HomeOf(s'.procs[r]), l)
    {
    }
  }

  /** Files and locks as they were, and nothing more open. */
  lemma Quiet(c: Config, s: State, p: Pid, pr: Proc)
    requires Inv(c, s) && p in s.procs
    requires forall l, i :: HasOpen(c, pr, l, i) ==> HasOpen(c, s.procs[p], l, i)
    requires forall l, i :: Holds(c, pr, l, i) <==> Holds(c, s.procs[p], l, i)
    requires forall q, l, i :: q in s.procs && q != p && Excludes(pr, l) && HasOpen(c, s.procs[q], l, i) ==>
               !Safe(c, s.strays, HomeOf(s.procs[q]), l)
    requires HomeOf(pr) == HomeOf(s.procs[p]) && RecordOk(c, s.strays, s.files, pr)
    ensures Inv(c, Put(s, p, pr))
  {
    Effect(c, s, Put(s, p, pr), p, pr);
  }

  /** Opening `l`: allowed to everybody no exclusion speaks against. */
  lemma Open(c: Config, s: State, p: Pid, pr: Proc, l: Lock, node: Inode)
    requires Inv(c, s) && p in s.procs && CanOpen(s, l, node)
    requires forall m, i :: HasOpen(c, pr, m, i) ==>
             HasOpen(c, s.procs[p], m, i) || (m == l && i == InodeAt(s, l, node))
    requires forall m, i :: Holds(c, pr, m, i) <==> Holds(c, s.procs[p], m, i)
    requires forall m :: Excludes(pr, m) ==> Excludes(s.procs[p], m)
    requires HomeOf(pr) == HomeOf(s.procs[p]) && Reaches(c, HomeOf(pr), l)
    requires forall q :: q in s.procs && q != p && Excludes(s.procs[q], l) ==> !Safe(c, s.strays, HomeOf(pr), l)
    requires RecordOk(c, s.strays, Opened(s, l, node).files, pr)
    ensures Inv(c, Put(Opened(s, l, node), p, pr))
  {
    hide HasOpen, Holds, Excludes, RecordOk, Safe, Reaches;
    forall q | q in s.procs && q != p
      ensures RecordOk(c, s.strays, Opened(s, l, node).files, s.procs[q])
    {
      OthersSeen(c, s, HomeOf(pr), q, l, node);
    }
    Effect(c, s, Put(Opened(s, l, node), p, pr), p, pr);
  }

  lemma OthersSeen(c: Config, s: State, home: Home, q: Pid, l: Lock, node: Inode)
    requires Inv(c, s) && q in s.procs && Reaches(c, home, l)
    requires Excludes(s.procs[q], l) ==> !Safe(c, s.strays, home, l)
    ensures RecordOk(c, s.strays, Opened(s, l, node).files, s.procs[q])
  {
    assert RecordOk(c, s.strays, s.files, s.procs[q]);
    if s.procs[q].Sole? && l in s.procs[q].x.seen && s.procs[q].x.seen[l].None? {
      assert Excludes(s.procs[q], l);
    }
  }

  /** Locking a file that is open and not locked. */
  lemma Take(c: Config, s: State, p: Pid, pr: Proc, l: Lock, i: Inode)
    requires Inv(c, s) && p in s.procs && i !in s.locked && HasOpen(c, s.procs[p], l, i)
    requires forall m, j :: HasOpen(c, pr, m, j) ==> HasOpen(c, s.procs[p], m, j)
    requires forall m, j :: Holds(c, pr, m, j) <==> Holds(c, s.procs[p], m, j) || (m == l && j == i)
    requires forall q, m, j :: q in s.procs && q != p && Excludes(pr, m) && HasOpen(c, s.procs[q], m, j) ==>
               !Safe(c, s.strays, HomeOf(s.procs[q]), m)
    requires HomeOf(pr) == HomeOf(s.procs[p]) && RecordOk(c, s.strays, s.files, pr)
    ensures Inv(c, Put(Acquire(s, p, i), p, pr))
  {
    Effect(c, s, Put(Acquire(s, p, i), p, pr), p, pr);
  }

  /** Unlocking and closing one file. */
  lemma Drop(c: Config, s: State, p: Pid, pr: Proc, l: Lock, i: Inode)
    requires Inv(c, s) && p in s.procs && Holds(c, s.procs[p], l, i)
    requires forall m, j :: HasOpen(c, pr, m, j) ==> HasOpen(c, s.procs[p], m, j)
    requires forall m, j :: Holds(c, pr, m, j) <==> Holds(c, s.procs[p], m, j) && !(m == l && j == i)
    requires forall m :: Excludes(pr, m) ==> Excludes(s.procs[p], m)
    requires HomeOf(pr) == HomeOf(s.procs[p]) && RecordOk(c, s.strays, s.files, pr)
    ensures Inv(c, Put(Release(s, i), p, pr))
  {
    forall m | Holds(c, pr, m, i)
      ensures false
    {
      assert HasOpen(c, s.procs[p], m, i) && HasOpen(c, s.procs[p], l, i);
    }
    Effect(c, s, Put(Release(s, i), p, pr), p, pr);
  }

  /** Unlinking a lock file its own exclusion speaks for and no longer has open. */
  lemma Erase(c: Config, s: State, p: Pid, pr: Proc, l: Lock)
    requires Inv(c, s) && p in s.procs && s.procs[p].Sole? && Excludes(s.procs[p], l)
    requires forall m, i :: HasOpen(c, pr, m, i) <==> HasOpen(c, s.procs[p], m, i)
    requires forall m, i :: Holds(c, pr, m, i) <==> Holds(c, s.procs[p], m, i)
    requires forall m :: Excludes(pr, m) ==> Excludes(s.procs[p], m)
    requires forall i :: !HasOpen(c, s.procs[p], l, i)
    requires HomeOf(pr) == HomeOf(s.procs[p]) && RecordOk(c, s.strays, s.files - {l}, pr)
    ensures Inv(c, Put(s.(files := s.files - {l}), p, pr))
  {
    hide HasOpen, Holds, Excludes, RecordOk, Safe;
    var s' := Put(s.(files := s.files - {l}), p, pr);
    forall q | q in s.procs && q != p
      ensures RecordOk(c, s.strays, s.files - {l}, s.procs[q])
    {
      OthersUnseen(c, s, p, q, l);
    }
    Effect(c, s, s', p, pr);
  }

  lemma OthersUnseen(c: Config, s: State, p: Pid, q: Pid, l: Lock)
    requires Inv(c, s) && p in s.procs && q in s.procs && p != q && s.procs[p].Sole? && Excludes(s.procs[p], l)
    ensures RecordOk(c, s.strays, s.files - {l}, s.procs[q])
  {
    hide HasOpen, Holds;
    assert RecordOk(c, s.strays, s.files, s.procs[p]) && RecordOk(c, s.strays, s.files, s.procs[q]);
    if s.procs[q].Sole? && Guarded(c, s.strays, l) && l in s.procs[q].x.seen {
      assert Mine(c, s.procs[q].x.home, l);
      ExcludedIsPlanned(c, s, p, l);
      assert Reaches(c, s.procs[p].x.home, l);
      SoleRival(c, s, p, q, l);
      assert false;
    }
  }

  lemma Kill(c: Config, s: State, p: Pid)
    requires Inv(c, s) && p in s.procs
    ensures Inv(c, Killed(s, p))
  {
    Effect(c, s, Killed(s, p), p, Gone);
  }

  /** An operation that has strayed: what is promised from then on leaves its installation out. */
  lemma Strays(c: Config, s: State, home: Home)
    requires Inv(c, s)
    ensures Inv(c, s.(strays := s.strays + {home}))
  {
    var s' := s.(strays := s.strays + {home});
    forall h, l
      ensures Safe(c, s'.strays, h, l) ==> Safe(c, s.strays, h, l)
    {
    }
    forall p | p in s.procs
      ensures RecordOk(c, s'.strays, s'.files, s'.procs[p])
    {
      assert RecordOk(c, s.strays, s.files, s.procs[p]);
    }
  }

  // ── every action ──

  /** No exclusion probes a gate. */
  lemma GateUnexcluded(c: Config, s: State, l: Lock)
    requires Inv(c, s) && l.Gate?
    ensures forall q :: q in s.procs ==> !Excludes(s.procs[q], l)
  {
    forall q | q in s.procs
      ensures !Excludes(s.procs[q], l)
    {
      if Excludes(s.procs[q], l) {
        ExcludedIsPlanned(c, s, q, l);
        assert false;
      }
    }
  }

  /** Past the gate, an exclusion speaks for this path only if it is of another installation. */
  lemma NobodyExcludes(c: Config, s: State, p: Pid, l: Lock)
    requires Inv(c, s) && p in s.procs && s.procs[p].Shared? && s.procs[p].o.at.Admitted?
    requires l == OpLock(c, s.procs[p].o.home, s.procs[p].o.kind) && Named(l)
    ensures forall q :: q in s.procs && q != p && Excludes(s.procs[q], l) ==> !Safe(c, s.strays, s.procs[p].o.home, l)
  {
    var o := s.procs[p].o;
    forall q | q in s.procs && q != p && Excludes(s.procs[q], l)
      ensures !Safe(c, s.strays, o.home, l)
    {
      var x := s.procs[q].x;
      assert RecordOk(c, s.strays, s.files, s.procs[p]) && RecordOk(c, s.strays, s.files, s.procs[q]);
      ExcludedIsPlanned(c, s, q, l);
      assert Reaches(c, x.home, l);
      if x.home == o.home && o.gate.Some? {
        OwnGate(c, s.strays, o.home);
        OneHolder(c, s, p, q, Gate(o.home), o.gate.value, x.gate.value);
        assert false;
      }
    }
  }

  /** A running setup holds setup.lock, which every exclusion probes before connect.lock. */
  lemma InnerUnexcluded(c: Config, s: State, p: Pid)
    requires Inv(c, s) && p in s.procs && s.procs[p].Shared? && s.procs[p].o.at.Running? && s.procs[p].o.kind.Setup?
    requires Named(OpLock(c, s.procs[p].o.home, Connect))
    ensures var l := OpLock(c, s.procs[p].o.home, Connect);
            forall q :: q in s.procs && q != p && Excludes(s.procs[q], l) ==> !Safe(c, s.strays, s.procs[p].o.home, l)
  {
    var o := s.procs[p].o;
    var setup, l := Op(Setup, o.home), OpLock(c, o.home, Connect);
    assert HasOpen(c, s.procs[p], setup, o.at.inode);
    forall q | q in s.procs && q != p && Excludes(s.procs[q], l)
      ensures !Safe(c, s.strays, o.home, l)
    {
      var x := s.procs[q].x;
      assert RecordOk(c, s.strays, s.files, s.procs[q]);
      ExcludedIsPlanned(c, s, q, l);
      assert Reaches(c, x.home, l);
      if x.home == o.home {
        assert Excludes(s.procs[q], setup);
        OwnGate(c, s.strays, o.home);
        assert !Safe(c, s.strays, o.home, setup);
      }
    }
  }

  lemma OrdinaryStrays(c: Config, s: State, p: Pid, o: Ordinary)
    requires Inv(c, s) && p in s.procs && s.procs[p] == Shared(o) && o.at.Arriving?
    ensures Inv(c, Ungated(c, s, p, o))
  {
    assert RecordOk(c, s.strays, s.files, s.procs[p]);
    var pr := Shared(o.(at := Admitted));
    if c.openable(o.home) {
      Strays(c, s, o.home);
      Quiet(c, s.(strays := s.strays + {o.home}), p, pr);
    } else {
      Quiet(c, s, p, pr);
    }
  }

  lemma OrdinaryGate(c: Config, s: State, p: Pid, a: Action)
    requires Inv(c, s) && p in s.procs && s.procs[p].Shared? && (a.OpenGate? || a.FailGate?)
    requires NextOrdinary(c, s, p, a).Some?
    ensures Inv(c, NextOrdinary(c, s, p, a).value)
  {
    var o := s.procs[p].o;
    assert RecordOk(c, s.strays, s.files, s.procs[p]);
    if a.OpenGate? && c.openable(o.home) && Gate(o.home) in s.dirs {
      GateUnexcluded(c, s, Gate(o.home));
      Open(c, s, p, NextOrdinary(c, s, p, a).value.procs[p], Gate(o.home), a.node);
    } else {
      OrdinaryStrays(c, s, p, o);
    }
  }

  lemma OrdinaryTryGate(c: Config, s: State, p: Pid, a: Action)
    requires Inv(c, s) && p in s.procs && s.procs[p].Shared? && a.TryGate?
    requires NextOrdinary(c, s, p, a).Some?
    ensures Inv(c, NextOrdinary(c, s, p, a).value)
  {
    var o, pr := s.procs[p].o, NextOrdinary(c, s, p, a).value.procs[p];
    assert RecordOk(c, s.strays, s.files, s.procs[p]);
    if o.at.inode in s.locked {
      Quiet(c, s, p, pr);
    } else {
      Take(c, s, p, pr, Gate(o.home), o.at.inode);
    }
  }

  lemma OrdinaryDropGate(c: Config, s: State, p: Pid, a: Action)
    requires Inv(c, s) && p in s.procs && s.procs[p].Shared? && a.DropGate?
    requires NextOrdinary(c, s, p, a).Some?
    ensures Inv(c, NextOrdinary(c, s, p, a).value)
  {
    var o, pr := s.procs[p].o, NextOrdinary(c, s, p, a).value.procs[p];
    assert RecordOk(c, s.strays, s.files, s.procs[p]);
    Drop(c, s, p, pr, Gate(o.home), o.gate.value);
  }

  lemma OrdinaryOpens(c: Config, s: State, p: Pid, a: Action)
    requires Inv(c, s) && p in s.procs && s.procs[p].Shared? && a.OpenOwn?
    requires NextOrdinary(c, s, p, a).Some?
    ensures Inv(c, NextOrdinary(c, s, p, a).value)
  {
    var o, pr := s.procs[p].o, NextOrdinary(c, s, p, a).value.procs[p];
    assert RecordOk(c, s.strays, s.files, s.procs[p]);
    NobodyExcludes(c, s, p, OpLock(c, o.home, o.kind));
    Open(c, s, p, pr, OpLock(c, o.home, o.kind), a.node);
  }

  lemma OrdinaryTries(c: Config, s: State, p: Pid, a: Action)
    requires Inv(c, s) && p in s.procs && s.procs[p].Shared? && a.TryOwn?
    requires NextOrdinary(c, s, p, a).Some?
    ensures Inv(c, NextOrdinary(c, s, p, a).value)
  {
    var o, pr := s.procs[p].o, NextOrdinary(c, s, p, a).value.procs[p];
    assert RecordOk(c, s.strays, s.files, s.procs[p]);
    if o.at.inode in s.locked {
      Kill(c, s, p);
    } else {
      Take(c, s, p, pr, OpLock(c, o.home, o.kind), o.at.inode);
    }
  }

  lemma InnerOpens(c: Config, s: State, p: Pid, a: Action)
    requires Inv(c, s) && p in s.procs && s.procs[p].Shared? && a.OpenInner?
    requires NextOrdinary(c, s, p, a).Some?
    ensures Inv(c, NextOrdinary(c, s, p, a).value)
  {
    var o, pr := s.procs[p].o, NextOrdinary(c, s, p, a).value.procs[p];
    assert RecordOk(c, s.strays, s.files, s.procs[p]);
    InnerUnexcluded(c, s, p);
    Open(c, s, p, pr, OpLock(c, o.home, Connect), a.node);
  }

  /** Directories come and go one by one, the gate's never without setup.lock's below it gone first. */
  lemma DirsStayNested(c: Config, s: State, e: Event)
    requires Nested(s.dirs) && Next(c, s, e).Some?
    ensures Nested(Next(c, s, e).value.dirs)
    ensures e.Step? ==> Next(c, s, e).value.dirs == s.dirs
  {
    if e.Step? && !e.action.Exit? {
      StepsKeepDirs(c, s, e.pid, e.action);
    }
    hide NextOrdinary, NextExclusive;
  }

  lemma StepsKeepDirs(c: Config, s: State, p: Pid, a: Action)
    requires p in s.procs
    ensures s.procs[p].Shared? && NextOrdinary(c, s, p, a).Some? ==> NextOrdinary(c, s, p, a).value.dirs == s.dirs
    ensures s.procs[p].Sole? && NextExclusive(c, s, p, a).Some? ==> NextExclusive(c, s, p, a).value.dirs == s.dirs
  {
    hide Plan, OpLock, InodeAt, CanOpen, Named;
  }

  /** A setup's connect runs exactly where connect.lock can be opened and is free: it waits for no
      gate, and where the lock is held it is given up and the setup goes on. */
  lemma InnerRuns(c: Config, s: State, p: Pid, node: Inode)
    requires p in s.procs && s.procs[p].Shared? && s.procs[p].o.kind.Setup?
    requires s.procs[p].o.at.Running? && s.procs[p].o.at.inner.NoInner?
    requires var l := OpLock(c, s.procs[p].o.home, Connect); Named(l) && CanOpen(s, l, node)
    ensures var i := InodeAt(s, OpLock(c, s.procs[p].o.home, Connect), node);
            var open := Next(c, s, Step(p, OpenInner(node)));
            && open.Some?
            && var tried := Next(c, open.value, Step(p, TryInner));
            && tried.Some? && p in tried.value.procs && tried.value.procs[p].Shared?
            && tried.value.procs[p].o.at ==
               Running(s.procs[p].o.at.inode, if i in s.locked then NoInner else InnerRunning(i))
            && tried.value.locked == (if i in s.locked then s.locked else s.locked[i := p])
  {
    var open := Next(c, s, Step(p, OpenInner(node))).value;
    assert open.procs[p].o.at.inner.InnerOpened?;
    assert open.locked == s.locked;
  }

  lemma InnerTries(c: Config, s: State, p: Pid, a: Action)
    requires Inv(c, s) && p in s.procs && s.procs[p].Shared? && (a.TryInner? || a.EndInner?)
    requires NextOrdinary(c, s, p, a).Some?
    ensures Inv(c, NextOrdinary(c, s, p, a).value)
  {
    var o, pr := s.procs[p].o, NextOrdinary(c, s, p, a).value.procs[p];
    assert RecordOk(c, s.strays, s.files, s.procs[p]);
    var j := o.at.inner.inode;
    if a.EndInner? {
      Drop(c, s, p, pr, OpLock(c, o.home, Connect), j);
    } else if j in s.locked {
      Quiet(c, s, p, pr);
    } else {
      Take(c, s, p, pr, OpLock(c, o.home, Connect), j);
    }
  }

  lemma OrdinaryKeeps(c: Config, s: State, p: Pid, a: Action)
    requires Inv(c, s) && p in s.procs && s.procs[p].Shared? && NextOrdinary(c, s, p, a).Some?
    ensures Inv(c, NextOrdinary(c, s, p, a).value)
  {
    match a {
      case OpenGate(_) => OrdinaryGate(c, s, p, a);
      case FailGate => OrdinaryGate(c, s, p, a);
      case TryGate => OrdinaryTryGate(c, s, p, a);
      case DropGate => OrdinaryDropGate(c, s, p, a);
      case OpenOwn(_) => OrdinaryOpens(c, s, p, a);
      case TryOwn => OrdinaryTries(c, s, p, a);
      case OpenInner(_) => InnerOpens(c, s, p, a);
      case _ => InnerTries(c, s, p, a);
    }
  }

  lemma ExclusiveGoesWithout(c: Config, s: State, p: Pid, x: Exclusion)
    requires Inv(c, s) && p in s.procs && s.procs[p] == Sole(x) && x.at.Entering? && x.mode.Default?
    ensures Inv(c, Put(s.(strays := s.strays + {x.home}), p, Sole(x.(at := Gateless))))
  {
    var x' := x.(at := Gateless);
    Strays(c, s, x.home);
    var s' := s.(strays := s.strays + {x.home});
    assert RecordOk(c, s'.strays, s'.files, s'.procs[p]);
    assert ExclusionShape(c, s'.strays, x') && SeenOk(c, s'.strays, s'.files, x');
    Quiet(c, s', p, Sole(x'));
  }

  lemma ExclusiveOpensGate(c: Config, s: State, p: Pid, x: Exclusion, node: Inode)
    requires Inv(c, s) && p in s.procs && s.procs[p] == Sole(x)
    requires x.at.Entering? && c.openable(x.home) && CanOpen(s, Gate(x.home), node)
    ensures Inv(c, Put(Opened(s, Gate(x.home), node), p, Sole(x.(at := EntryOpened(InodeAt(s, Gate(x.home), node))))))
  {
    assert RecordOk(c, s.strays, s.files, s.procs[p]);
    var x' := x.(at := EntryOpened(InodeAt(s, Gate(x.home), node)));
    GateUnexcluded(c, s, Gate(x.home));
    Open(c, s, p, Sole(x'), Gate(x.home), node);
  }

  lemma ExclusiveMissesGate(c: Config, s: State, p: Pid, x: Exclusion)
    requires Inv(c, s) && p in s.procs && s.procs[p] == Sole(x)
    requires x.at.EntryOpened?
    ensures Inv(c, Put(s, p, Sole(x.(at := Entering))))
  {
    assert RecordOk(c, s.strays, s.files, s.procs[p]);
    var x' := x.(at := Entering);
    assert ExclusionShape(c, s.strays, x') && SeenOk(c, s.strays, s.files, x');
    Quiet(c, s, p, Sole(x'));
  }

  lemma ExclusiveTakesGate(c: Config, s: State, p: Pid, x: Exclusion)
    requires Inv(c, s) && p in s.procs && s.procs[p] == Sole(x)
    requires x.at.EntryOpened? && x.at.inode !in s.locked
    ensures Inv(c, Put(Acquire(s, p, x.at.inode), p, Sole(x.(at := Probing, gate := Some(x.at.inode)))))
  {
    assert RecordOk(c, s.strays, s.files, s.procs[p]);
    var x' := x.(at := Probing, gate := Some(x.at.inode));
    Take(c, s, p, Sole(x'), Gate(x.home), x.at.inode);
  }

  /** A path with no lock file, or one no operation may take, is open in no process it is safe for. */
  lemma NobodyHasIt(c: Config, s: State, l: Lock)
    requires Inv(c, s) && !l.Gate? && (l !in s.files || !Named(l))
    ensures forall q, i :: q in s.procs && HasOpen(c, s.procs[q], l, i) ==> !Safe(c, s.strays, HomeOf(s.procs[q]), l)
  {
    forall q, i | q in s.procs && HasOpen(c, s.procs[q], l, i)
      ensures !Safe(c, s.strays, HomeOf(s.procs[q]), l)
    {
      assert RecordOk(c, s.strays, s.files, s.procs[q]);
    }
  }

  /** The first path of the plan is nobody else's business while its probe is under way. */
  lemma ProbedAlone(c: Config, s: State, p: Pid, l: Lock)
    requires Inv(c, s) && p in s.procs && s.procs[p].Sole? && s.procs[p].x.gate.Some?
    requires s.procs[p].x.todo != [] && l == s.procs[p].x.todo[0]
    ensures forall q :: q in s.procs && q != p && Excludes(s.procs[q], l) ==> !Safe(c, s.strays, s.procs[p].x.home, l)
    ensures forall q, i ::
              q in s.procs && q != p && HasOpen(c, s.procs[q], l, i) && Safe(c, s.strays, HomeOf(s.procs[q]), l) ==>
                HomeOf(s.procs[q]) == s.procs[p].x.home && Holds(c, s.procs[q], l, i)
  {
    var x := s.procs[p].x;
    assert RecordOk(c, s.strays, s.files, s.procs[p]) && Mine(c, x.home, l);
    forall q | q in s.procs && q != p && Excludes(s.procs[q], l)
      ensures !Safe(c, s.strays, x.home, l)
    {
      if Safe(c, s.strays, x.home, l) {
        ExcludedIsPlanned(c, s, q, l);
        SoleRival(c, s, p, q, l);
        assert false;
      }
    }
    forall q, i | q in s.procs && q != p && HasOpen(c, s.procs[q], l, i) && Safe(c, s.strays, HomeOf(s.procs[q]), l)
      ensures HomeOf(s.procs[q]) == x.home && Holds(c, s.procs[q], l, i)
    {
      assert Reaches(c, x.home, l);
      if !Holds(c, s.procs[q], l, i) {
        OnlyHolders(c, s, p, q, l, i);
      }
    }
  }

  lemma OnlyHolders(c: Config, s: State, p: Pid, q: Pid, l: Lock, i: Inode)
    requires Inv(c, s) && p in s.procs && s.procs[p].Sole? && s.procs[p].x.gate.Some?
    requires s.procs[p].x.todo != [] && l == s.procs[p].x.todo[0]
    requires q in s.procs && q != p && HasOpen(c, s.procs[q], l, i)
    requires HomeOf(s.procs[q]) == s.procs[p].x.home && Safe(c, s.strays, s.procs[p].x.home, l)
    ensures Holds(c, s.procs[q], l, i)
  {
    var x := s.procs[p].x;
    assert RecordOk(c, s.strays, s.files, s.procs[p]) && RecordOk(c, s.strays, s.files, s.procs[q]);
    assert Mine(c, x.home, l);
    OwnGate(c, s.strays, x.home);
    if s.procs[q].Sole? && !Holds(c, s.procs[q], l, i) {
      SoleRival(c, s, p, q, l);
      assert false;
    }
    if s.procs[q].Shared? && !Holds(c, s.procs[q], l, i) {
      var o := s.procs[q].o;
      if o.at.OwnOpened? {
        OneHolder(c, s, p, q, Gate(x.home), x.gate.value, o.gate.value);
      } else {
        assert Excludes(s.procs[p], Op(Setup, o.home)) && HasOpen(c, s.procs[q], Op(Setup, o.home), o.at.inode);
      }
      assert false;
    }
  }

  lemma ExclusiveReady(c: Config, s: State, p: Pid, x: Exclusion)
    requires Inv(c, s) && p in s.procs && s.procs[p] == Sole(x)
    requires x.at.Probing? && x.todo == []
    ensures Inv(c, Put(s, p, Sole(x.(at := Working))))
  {
    hide Inv;
    Recorded(c, s, p);
    var x' := x.(at := Working);
    assert ExclusionShape(c, s.strays, x') && SeenOk(c, s.strays, s.files, x');
    Quiet(c, s, p, Sole(x'));
  }

  lemma ExclusiveSkips(c: Config, s: State, p: Pid, x: Exclusion)
    requires Inv(c, s) && p in s.procs && s.procs[p] == Sole(x)
    requires x.at.Probing? && x.todo != [] && (!Named(x.todo[0]) || x.todo[0] !in s.dirs)
    ensures Inv(c, Put(s, p, Sole(x.(todo := x.todo[1..], probed := x.probed + {x.todo[0]}))))
  {
    assert RecordOk(c, s.strays, s.files, s.procs[p]);
    var x' := x.(todo := x.todo[1..], probed := x.probed + {x.todo[0]});
    var l := x.todo[0];
    assert Mine(c, x.home, l);
    NobodyHasIt(c, s, l);
    assert ExclusionShape(c, s.strays, x') && SeenOk(c, s.strays, s.files, x');
    Quiet(c, s, p, Sole(x'));
  }

  lemma StatsShape(c: Config, s: State, x: Exclusion)
    requires RecordOk(c, s.strays, s.files, Sole(x)) && x.at.Probing? && x.todo != [] && Named(x.todo[0])
    ensures var l := x.todo[0];
            var seen := x.seen[l := if l in s.files then Some(s.files[l]) else None];
            RecordOk(c, s.strays, s.files, Sole(x.(at := Statted(l in s.files), seen := seen)))
    ensures Mine(c, x.home, x.todo[0]) && x.gate.Some?
  {
  }

  lemma ExclusiveStats(c: Config, s: State, p: Pid, x: Exclusion)
    requires Inv(c, s) && p in s.procs && s.procs[p] == Sole(x)
    requires x.at.Probing? && x.todo != [] && Named(x.todo[0]) && x.todo[0] in s.dirs
    ensures Inv(c, Put(s, p, Sole(x.(at := Statted(x.todo[0] in s.files),
              seen := x.seen[x.todo[0] := if x.todo[0] in s.files then Some(s.files[x.todo[0]]) else None]))))
  {
    hide Inv, RecordOk, Safe, Guarded;
    Recorded(c, s, p);
    var x' := x.(at := Statted(x.todo[0] in s.files),
        seen := x.seen[x.todo[0] := if x.todo[0] in s.files then Some(s.files[x.todo[0]]) else None]);
    var l := x.todo[0];
    StatsShape(c, s, x);
    if l !in s.files {
      NobodyHasIt(c, s, l);
    }
    Quiet(c, s, p, Sole(x'));
  }

  lemma OpensShape(c: Config, s: State, p: Pid, x: Exclusion, node: Inode)
    requires RecordOk(c, s.strays, s.files, Sole(x)) && x.at.Statted? && x.todo != [] && CanOpen(s, x.todo[0], node)
    ensures RecordOk(c, s.strays, Opened(s, x.todo[0], node).files,
              Sole(x.(at := ProbeOpened(x.at.existed, InodeAt(s, x.todo[0], node)))))
    ensures x.gate.Some? && Reaches(c, x.home, x.todo[0])
  {
  }

  lemma ExclusiveOpens(c: Config, s: State, p: Pid, x: Exclusion, node: Inode)
    requires Inv(c, s) && p in s.procs && s.procs[p] == Sole(x)
    requires x.at.Statted? && x.todo != [] && CanOpen(s, x.todo[0], node)
    ensures Inv(c, Put(Opened(s, x.todo[0], node), p,
              Sole(x.(at := ProbeOpened(x.at.existed, InodeAt(s, x.todo[0], node))))))
  {
    hide Inv, RecordOk, Safe, CanOpen, Opened, InodeAt, Reaches;
    Recorded(c, s, p);
    OpensShape(c, s, p, x, node);
    var x' := x.(at := ProbeOpened(x.at.existed, InodeAt(s, x.todo[0], node)));
    ProbedAlone(c, s, p, x.todo[0]);
    Open(c, s, p, Sole(x'), x.todo[0], node);
  }

  lemma ExclusiveBusy(c: Config, s: State, p: Pid, x: Exclusion)
    requires Inv(c, s) && p in s.procs && s.procs[p] == Sole(x)
    requires x.at.ProbeOpened? && x.todo != [] && x.at.inode in s.locked
    ensures Inv(c, Put(s, p, Sole(x.(at := Releasing))))
  {
    assert RecordOk(c, s.strays, s.files, s.procs[p]);
    var x' := x.(at := Releasing);
    var l, i := x.todo[0], x.at.inode;
    var q := s.locked[i];
    assert Mine(c, x.home, l);
    assert HasOpen(c, s.procs[p], l, i) && Holds(c, s.procs[q], l, i) && HasOpen(c, s.procs[q], l, i) && q != p;
    OpenReaches(c, s, q, l, i);
    assert Guarded(c, s.strays, l) ==> x.seen[l].Some?;
    assert ExclusionShape(c, s.strays, x') && SeenOk(c, s.strays, s.files, x');
    Quiet(c, s, p, Sole(x'));
  }

  function Taken(x: Exclusion): Exclusion
    requires x.at.ProbeOpened? && x.todo != []
  {
    x.(at := Probing, todo := x.todo[1..], probed := x.probed + {x.todo[0]},
       ops := x.ops[x.todo[0] := x.at.inode],
       created := if x.at.existed then x.created else x.created + {x.todo[0]})
  }

  lemma TakenShape(c: Config, strays: set<Home>, files: map<Lock, Inode>, x: Exclusion)
    requires x.at.ProbeOpened? && x.todo != [] && RecordOk(c, strays, files, Sole(x))
    requires Guarded(c, strays, x.todo[0]) ==> x.todo[0] in files
    ensures RecordOk(c, strays, files, Sole(Taken(x)))
  {
  }

  lemma ExclusiveTakes(c: Config, s: State, p: Pid, x: Exclusion)
    requires Inv(c, s) && p in s.procs && s.procs[p] == Sole(x)
    requires x.at.ProbeOpened? && x.todo != [] && x.at.inode !in s.locked
    ensures Inv(c, Put(Acquire(s, p, x.at.inode), p, Sole(Taken(x))))
  {
    assert RecordOk(c, s.strays, s.files, s.procs[p]);
    var l := x.todo[0];
    assert Reaches(c, x.home, l) && HasOpen(c, s.procs[p], l, x.at.inode);
    TakenShape(c, s.strays, s.files, x);
    ProbedAlone(c, s, p, l);
    Take(c, s, p, Sole(Taken(x)), l, x.at.inode);
  }

  lemma ExclusiveRefuses(c: Config, s: State, p: Pid, x: Exclusion)
    requires Inv(c, s) && p in s.procs && s.procs[p] == Sole(x)
    requires x.at.Probing? || x.at.Statted?
    ensures Inv(c, Put(s, p, Sole(x.(at := Releasing))))
  {
    hide Inv;
    Recorded(c, s, p);
    var x' := x.(at := Releasing);
    assert ExclusionShape(c, s.strays, x') && SeenOk(c, s.strays, s.files, x');
    Quiet(c, s, p, Sole(x'));
  }

  lemma ExclusiveProceeds(c: Config, s: State, p: Pid, x: Exclusion)
    requires Inv(c, s) && p in s.procs && s.procs[p] == Sole(x)
    requires x.at.Working?
    ensures Inv(c, Put(s, p, Sole(x.(applied := true))))
  {
    hide Inv;
    Recorded(c, s, p);
    var x' := x.(applied := true);
    assert ExclusionShape(c, s.strays, x') && SeenOk(c, s.strays, s.files, x');
    Quiet(c, s, p, Sole(x'));
  }

  lemma ExclusiveFinishes(c: Config, s: State, p: Pid, x: Exclusion)
    requires Inv(c, s) && p in s.procs && s.procs[p] == Sole(x)
    requires x.at.Working?
    ensures Inv(c, Put(s, p, Sole(x.(at := Releasing))))
  {
    hide Inv;
    Recorded(c, s, p);
    var x' := x.(at := Releasing);
    assert ExclusionShape(c, s.strays, x') && SeenOk(c, s.strays, s.files, x');
    Quiet(c, s, p, Sole(x'));
  }

  lemma ExclusiveLetsGo(c: Config, s: State, p: Pid, x: Exclusion, l: Lock)
    requires Inv(c, s) && p in s.procs && s.procs[p] == Sole(x)
    requires l in x.ops && ((x.at.Working? && x.applied) || x.at.Releasing?)
    ensures Inv(c, Put(Release(s, x.ops[l]), p, Sole(x.(ops := x.ops - {l}))))
  {
    hide Inv;
    Recorded(c, s, p);
    var x' := x.(ops := x.ops - {l});
    Drop(c, s, p, Sole(x'), l, x.ops[l]);
  }

  lemma ExclusiveRemoves(c: Config, s: State, p: Pid, x: Exclusion, l: Lock)
    requires Inv(c, s) && p in s.procs && s.procs[p] == Sole(x)
    requires x.at.Working? && x.applied && l in x.probed && l !in x.ops
    ensures Inv(c, Put(s.(files := s.files - {l}), p, Sole(x)))
  {
    hide Inv;
    Recorded(c, s, p);
    var x' := x;
    Erase(c, s, p, Sole(x'), l);
  }

  lemma ExclusiveKeepsFiles(c: Config, s: State, p: Pid, x: Exclusion)
    requires Inv(c, s) && p in s.procs && s.procs[p] == Sole(x)
    requires x.at.Releasing? && x.ops == map[] && (x.mode.Upgrade? || x.applied)
    ensures Inv(c, Put(s, p, Sole(x.(at := Leaving))))
  {
    assert RecordOk(c, s.strays, s.files, s.procs[p]);
    var x' := x.(at := Leaving);
    assert ExclusionShape(c, s.strays, x') && SeenOk(c, s.strays, s.files, x');
    Quiet(c, s, p, Sole(x'));
  }

  lemma ExclusiveUndoes(c: Config, s: State, p: Pid, x: Exclusion)
    requires Inv(c, s) && p in s.procs && s.procs[p] == Sole(x)
    requires x.at.Releasing? && x.ops == map[] && !x.mode.Upgrade? && !x.applied
    ensures Inv(c, Put(s, p, Sole(x.(at := Unlinking))))
  {
    assert RecordOk(c, s.strays, s.files, s.procs[p]);
    var x' := x.(at := Unlinking);
    assert ExclusionShape(c, s.strays, x') && SeenOk(c, s.strays, s.files, x');
    Quiet(c, s, p, Sole(x'));
  }

  lemma ExclusiveUnlinks(c: Config, s: State, p: Pid, x: Exclusion, l: Lock)
    requires Inv(c, s) && p in s.procs && s.procs[p] == Sole(x)
    requires x.at.Unlinking? && l in x.created - x.unlinked - x.stuck
    ensures Inv(c, Put(s.(files := s.files - {l}), p, Sole(x.(unlinked := x.unlinked + {l}))))
  {
    assert RecordOk(c, s.strays, s.files, s.procs[p]);
    var x' := x.(unlinked := x.unlinked + {l});
    assert ExclusionShape(c, s.strays, x') && SeenOk(c, s.strays, s.files - {l}, x');
    Erase(c, s, p, Sole(x'), l);
  }

  lemma ExclusiveCannotUnlink(c: Config, s: State, p: Pid, x: Exclusion, l: Lock)
    requires Inv(c, s) && p in s.procs && s.procs[p] == Sole(x)
    requires x.at.Unlinking? && l in x.created - x.unlinked - x.stuck
    ensures Inv(c, Put(s, p, Sole(x.(stuck := x.stuck + {l}))))
  {
    assert RecordOk(c, s.strays, s.files, s.procs[p]);
    var x' := x.(stuck := x.stuck + {l});
    assert ExclusionShape(c, s.strays, x') && SeenOk(c, s.strays, s.files, x');
    Quiet(c, s, p, Sole(x'));
  }

  lemma ExclusiveLeaves(c: Config, s: State, p: Pid, x: Exclusion)
    requires Inv(c, s) && p in s.procs && s.procs[p] == Sole(x)
    requires x.at.Unlinking? && x.created <= x.unlinked + x.stuck
    ensures Inv(c, Put(s, p, Sole(x.(at := Leaving))))
  {
    assert RecordOk(c, s.strays, s.files, s.procs[p]);
    var x' := x.(at := Leaving);
    assert x.created == x.unlinked + x.stuck;
    assert ExclusionShape(c, s.strays, x') && SeenOk(c, s.strays, s.files, x');
    Quiet(c, s, p, Sole(x'));
  }

  lemma ExclusiveKeeps(c: Config, s: State, p: Pid, a: Action)
    requires Inv(c, s) && p in s.procs && s.procs[p].Sole? && NextExclusive(c, s, p, a).Some?
    ensures Inv(c, NextExclusive(c, s, p, a).value)
  {
    var x := s.procs[p].x;
    match a {
      case OpenGate(node) =>
        if x.mode.Default? && Gate(x.home) !in s.dirs {
          ExclusiveGoesWithout(c, s, p, x);
        } else {
          ExclusiveOpensGate(c, s, p, x, node);
        }
      case TryGate =>
        if x.at.inode in s.locked { ExclusiveMissesGate(c, s, p, x); } else { ExclusiveTakesGate(c, s, p, x); }
      case Probe =>
        if x.todo == [] {
          ExclusiveReady(c, s, p, x);
        } else if !Named(x.todo[0]) || x.todo[0] !in s.dirs {
          ExclusiveSkips(c, s, p, x);
        } else {
          ExclusiveStats(c, s, p, x);
        }
      case OpenProbe(node) => ExclusiveOpens(c, s, p, x, node);
      case TryProbe =>
        if x.at.inode in s.locked { ExclusiveBusy(c, s, p, x); } else { ExclusiveTakes(c, s, p, x); }
      case Refuse => ExclusiveRefuses(c, s, p, x);
      case Proceed => ExclusiveProceeds(c, s, p, x);
      case LetGo(l) => ExclusiveLetsGo(c, s, p, x, l);
      case Remove(l) => ExclusiveRemoves(c, s, p, x, l);
      case Finish =>
        if x.at.Working? {
          ExclusiveFinishes(c, s, p, x);
        } else if x.at.Unlinking? {
          ExclusiveLeaves(c, s, p, x);
        } else if x.mode.Upgrade? || x.applied {
          ExclusiveKeepsFiles(c, s, p, x);
        } else {
          ExclusiveUndoes(c, s, p, x);
        }
      case Unlink(l, ok) =>
        if ok { ExclusiveUnlinks(c, s, p, x, l); } else { ExclusiveCannotUnlink(c, s, p, x, l); }
      case _ =>
    }
  }

  // ── runs ──

  /** Every event keeps the invariant: a step of any process, a crash, a directory coming or going. */
  lemma NextKeepsInv(c: Config, s: State, e: Event)
    requires Inv(c, s) && Next(c, s, e).Some?
    ensures Inv(c, Next(c, s, e).value)
  {
    if e.Step? {
      if e.action.Exit? {
        Kill(c, s, e.pid);
      } else if s.procs[e.pid].Shared? {
        OrdinaryKeeps(c, s, e.pid, e.action);
      } else {
        ExclusiveKeeps(c, s, e.pid, e.action);
      }
    } else {
      var s' := Next(c, s, e).value;
      forall p | p in s'.procs
        ensures RecordOk(c, s'.strays, s'.files, s'.procs[p])
      {
        assert RecordOk(c, s.strays, s.files, s.procs[p]);
      }
    }
  }

  lemma {:induction false} RunKeepsInv(c: Config, s: State, schedule: seq<Event>)
    requires Inv(c, s)
    ensures Inv(c, Run(c, s, schedule))
    decreases |schedule|
  {
    if schedule != [] {
      var r := Next(c, s, schedule[0]);
      if r.Some? {
        NextKeepsInv(c, s, schedule[0]);
      }
      RunKeepsInv(c, if r.Some? then r.value else s, schedule[1..]);
    }
  }

  // ── what it gives ──

  /** The process is a setup, connect or flush of `home` past its own lock, or a setup's connect past it. */
  predicate Operates(pr: Proc, home: Home, kind: Kind) {
    && pr.Shared? && pr.o.home == home && pr.o.at.Running?
    && (pr.o.kind == kind || (kind.Connect? && pr.o.at.inner.InnerRunning?))
  }

  /** A destructive operation of `home` is at work: its plan is behind it and the gate still shut,
      or it goes on without one. */
  predicate Stands(pr: Proc, home: Home) {
    pr.Sole? && pr.x.home == home && (pr.x.at.Working? || pr.x.at.Gateless?)
  }

  predicate Covers(mode: Mode, kind: Kind) {
    kind.Setup? || mode.Purge? || mode.PurgeBinary?
  }

  /** Exclusion, in every interleaving in which none of the installation's operations got past its
      gate without it: while a destructive operation works, nothing that its plan covers runs for
      that installation or is even past the gate, whether the lock was held, skipped for want of a
      directory, or let go early. It takes a lock path that no other installation whose gate opens
      can unlink. */
  lemma ExclusionHolds(c: Config, s: State, schedule: seq<Event>, p: Pid, q: Pid, home: Home, kind: Kind)
    requires Init(c, s)
    ensures var t := Run(c, s, schedule);
            p in t.procs && q in t.procs && Stands(t.procs[p], home) && Covers(t.procs[p].x.mode, kind) &&
            home !in t.strays ==>
              && c.openable(home)
              && (Unshared(c, home, OpLock(c, home, kind)) ==> !Operates(t.procs[q], home, kind))
              && !(t.procs[q].Shared? && t.procs[q].o.home == home &&
                   (t.procs[q].o.at.Admitted? || t.procs[q].o.at.OwnOpened?))
  {
    InitInv(c, s);
    RunKeepsInv(c, s, schedule);
    var t := Run(c, s, schedule);
    if p in t.procs && q in t.procs && Stands(t.procs[p], home) && Covers(t.procs[p].x.mode, kind) &&
       home !in t.strays {
      StandingExcludes(c, t, p, q, home, kind);
    }
  }

  lemma StandingExcludes(c: Config, t: State, p: Pid, q: Pid, home: Home, kind: Kind)
    requires Inv(c, t) && p in t.procs && q in t.procs && Stands(t.procs[p], home) && Covers(t.procs[p].x.mode, kind)
    requires home !in t.strays
    ensures c.openable(home) && (Unshared(c, home, OpLock(c, home, kind)) ==> !Operates(t.procs[q], home, kind))
    ensures !(t.procs[q].Shared? && t.procs[q].o.home == home &&
              (t.procs[q].o.at.Admitted? || t.procs[q].o.at.OwnOpened?))
  {
    var x, l := t.procs[p].x, OpLock(c, home, kind);
    assert RecordOk(c, t.strays, t.files, t.procs[p]) && RecordOk(c, t.strays, t.files, t.procs[q]);
    assert l in Plan(c, home, x.mode);
    assert Excludes(t.procs[p], l);
    if t.procs[q].Shared? {
      var o := t.procs[q].o;
      if Operates(t.procs[q], home, kind) {
        assert HasOpen(c, t.procs[q], l, if o.kind == kind then o.at.inode else o.at.inner.inode);
      }
      if o.home == home && (o.at.Admitted? || o.at.OwnOpened?) {
        OwnGate(c, t.strays, home);
        OneHolder(c, t, p, q, Gate(home), x.gate.value, o.gate.value);
      }
    }
  }

  /** Two operations never hold one lock path at once, on one file or on two, when no
      installation but its opener's can unlink it and its opener's operations all passed the gate;
      and the file they hold is the one at the path. */
  lemma LockIdentity(c: Config, s: State, schedule: seq<Event>, p: Pid, q: Pid, l: Lock, i: Inode, j: Inode)
    requires Init(c, s)
    ensures var t := Run(c, s, schedule);
            p in t.procs && q in t.procs && Holds(c, t.procs[p], l, i) && Holds(c, t.procs[q], l, j) &&
            Safe(c, t.strays, HomeOf(t.procs[p]), l) && Safe(c, t.strays, HomeOf(t.procs[q]), l) ==>
              p == q && i == j && l in t.files && t.files[l] == i
  {
    InitInv(c, s);
    RunKeepsInv(c, s, schedule);
    var t := Run(c, s, schedule);
    if p in t.procs && q in t.procs && Holds(c, t.procs[p], l, i) && Holds(c, t.procs[q], l, j) &&
       Safe(c, t.strays, HomeOf(t.procs[p]), l) && Safe(c, t.strays, HomeOf(t.procs[q]), l) {
      OneHolder(c, t, p, q, l, i, j);
      assert HasOpen(c, t.procs[p], l, i);
    }
  }

  /** Whoever holds a lock can reach its path. */
  lemma HolderReaches(c: Config, s: State, schedule: seq<Event>, p: Pid, l: Lock, i: Inode)
    requires Init(c, s)
    ensures var t := Run(c, s, schedule);
            p in t.procs && Holds(c, t.procs[p], l, i) ==> Reaches(c, HomeOf(t.procs[p]), l)
  {
    InitInv(c, s);
    RunKeepsInv(c, s, schedule);
    var t := Run(c, s, schedule);
    if p in t.procs && Holds(c, t.procs[p], l, i) {
      OpenReaches(c, t, p, l, i);
    }
  }

  /** What an exclusion that never proceeded leaves at a path it looked at: the file that was there,
      or no file, unless the removal itself failed. Only an upgrade keeps what it created. */
  predicate Restored(pr: Proc, files: map<Lock, Inode>, l: Lock) {
    pr.Sole? && pr.x.at.Leaving? && !pr.x.applied && l in pr.x.seen ==>
      match pr.x.seen[l]
      case Some(i) => l in files && files[l] == i
      case None => l in files <==> l in pr.x.created && (pr.x.mode.Upgrade? || l in pr.x.stuck)
  }

  /** On its way out, every path is so, as long as no operation that did not pass this gate opens it. */
  lemma AbortRestores(c: Config, s: State, schedule: seq<Event>, p: Pid, l: Lock)
    requires Init(c, s)
    ensures var t := Run(c, s, schedule);
            p in t.procs && Guarded(c, t.strays, l) ==> Restored(t.procs[p], t.files, l)
  {
    InitInv(c, s);
    RunKeepsInv(c, s, schedule);
    var t := Run(c, s, schedule);
    if p in t.procs {
      assert RecordOk(c, t.strays, t.files, t.procs[p]);
    }
  }

  // ── what keeps an installation's operations from straying ──

  predicate BelongsTo(pr: Proc, home: Home) {
    !pr.Gone? && HomeOf(pr) == home
  }

  /** The directory of its gate is there, and none of these events is one that takes it away or
      fails an open of the gate. */
  ghost predicate Rooted(s: State, home: Home, events: seq<Event>) {
    && home !in s.strays && Gate(home) in s.dirs && RemoveDir(Gate(home)) !in events
    && (forall p :: p in s.procs && BelongsTo(s.procs[p], home) ==> Step(p, FailGate) !in events)
  }

  /** What any step of `p` leaves as it was. */
  ghost predicate Framed(s: State, s': State, p: Pid) {
    && p in s.procs && s'.dirs == s.dirs && s'.procs.Keys == s.procs.Keys
    && (forall q :: q in s.procs && q != p ==> s'.procs[q] == s.procs[q])
    && (s'.procs[p].Gone? || HomeOf(s'.procs[p]) == HomeOf(s.procs[p]))
  }

  lemma GateFrames(c: Config, s: State, p: Pid, a: Action)
    requires p in s.procs && s.procs[p].Shared? && NextOrdinary(c, s, p, a).Some?
    requires a.OpenGate? || a.FailGate? || a.TryGate? || a.DropGate?
    ensures Framed(s, NextOrdinary(c, s, p, a).value, p)
    ensures var s' := NextOrdinary(c, s, p, a).value;
            s'.strays == s.strays ||
            (s'.strays == s.strays + {s.procs[p].o.home} && (a.FailGate? || Gate(s.procs[p].o.home) !in s.dirs))
  {
  }

  lemma OrdinaryFrames(c: Config, s: State, p: Pid, a: Action)
    requires p in s.procs && s.procs[p].Shared? && NextOrdinary(c, s, p, a).Some?
    ensures Framed(s, NextOrdinary(c, s, p, a).value, p)
    ensures var s' := NextOrdinary(c, s, p, a).value;
            s'.strays == s.strays ||
            (s'.strays == s.strays + {s.procs[p].o.home} && (a.FailGate? || Gate(s.procs[p].o.home) !in s.dirs))
  {
    if a.OpenGate? || a.FailGate? || a.TryGate? || a.DropGate? {
      GateFrames(c, s, p, a);
    }
  }

  lemma EntryFrames(c: Config, s: State, p: Pid, a: Action)
    requires p in s.procs && s.procs[p].Sole? && NextExclusive(c, s, p, a).Some? && (a.OpenGate? || a.TryGate?)
    ensures Framed(s, NextExclusive(c, s, p, a).value, p)
  {
  }

  lemma ProbeFrames(c: Config, s: State, p: Pid, a: Action)
    requires p in s.procs && s.procs[p].Sole? && NextExclusive(c, s, p, a).Some?
    requires a.Probe? || a.OpenProbe? || a.TryProbe?
    ensures Framed(s, NextExclusive(c, s, p, a).value, p)
  {
  }

  lemma ReleaseFrames(c: Config, s: State, p: Pid, a: Action)
    requires p in s.procs && s.procs[p].Sole? && NextExclusive(c, s, p, a).Some? && (a.LetGo? || a.Finish?)
    ensures Framed(s, NextExclusive(c, s, p, a).value, p)
  {
  }

  lemma ExclusiveFrames(c: Config, s: State, p: Pid, a: Action)
    requires p in s.procs && s.procs[p].Sole? && NextExclusive(c, s, p, a).Some?
    ensures Framed(s, NextExclusive(c, s, p, a).value, p)
  {
    if a.OpenGate? || a.TryGate? {
      EntryFrames(c, s, p, a);
    } else if a.Probe? || a.OpenProbe? || a.TryProbe? {
      ProbeFrames(c, s, p, a);
    } else if a.LetGo? || a.Finish? {
      ReleaseFrames(c, s, p, a);
    }
  }

  lemma ExclusiveStraysFrom(c: Config, s: State, p: Pid, a: Action)
    requires p in s.procs && s.procs[p].Sole? && NextExclusive(c, s, p, a).Some?
    ensures var s' := NextExclusive(c, s, p, a).value;
            s'.strays == s.strays ||
            (s'.strays == s.strays + {s.procs[p].x.home} && Gate(s.procs[p].x.home) !in s.dirs)
  {
    hide CanOpen, InodeAt, Named;
  }

  lemma StaysRooted(c: Config, s: State, home: Home, events: seq<Event>)
    requires events != [] && Rooted(s, home, events) && Next(c, s, events[0]).Some?
    ensures Rooted(Next(c, s, events[0]).value, home, events[1..])
  {
    hide NextOrdinary, NextExclusive;
    assert events[0] in events && forall e :: e in events[1..] ==> e in events;
    if events[0].Step? && !events[0].action.Exit? {
      var p := events[0].pid;
      if s.procs[p].Shared? {
        OrdinaryFrames(c, s, p, events[0].action);
      } else {
        ExclusiveFrames(c, s, p, events[0].action);
        ExclusiveStraysFrom(c, s, p, events[0].action);
      }
    }
  }

  /** An installation whose gate's directory is there from the start and stays, and whose gate fails
      no open, has no strays. */
  lemma {:induction false} NoStrays(c: Config, s: State, schedule: seq<Event>, home: Home)
    requires Rooted(s, home, schedule)
    ensures home !in Run(c, s, schedule).strays
    decreases |schedule|
  {
    if schedule != [] {
      var r := Next(c, s, schedule[0]);
      if r.Some? {
        StaysRooted(c, s, home, schedule);
      } else {
        assert forall e :: e in schedule[1..] ==> e in schedule;
      }
      NoStrays(c, if r.Some? then r.value else s, schedule[1..], home);
    }
  }
}
