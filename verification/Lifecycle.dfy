/** The lock and admission protocol of one machine: any number of installations,
    any number of processes, every interleaving of their system calls.

    A lock file is opened (which creates it when it is missing) and then locked, in two
    separate steps, because that is what taking one costs: a file can be unlinked
    between the two, and then the lock is held on a file nobody else will ever open. */
module Lifecycle {
  import opened Wrappers

  type Home = nat
  type Pid = nat
  type Inode = nat

  datatype Kind = Setup | Connect | Flush

  /** A lock file, by the path it is reached through. The gate is a sibling of the
      installation and setup.lock lies in it; connect.lock and flush.lock lie where a config
      says, the update lock beside a binary, and installations may share either. `NoPath` is
      the empty path of a lock the config does not name. */
  datatype Lock =
    | Gate(home: Home)
    | Op(kind: Kind, place: nat)
    | Update(bin: nat)
    | NoPath(home: Home, kind: Kind)

  /** What does not change while processes run: whether the gate of an installation can be
      opened at all where its directory exists, where its config puts connect.lock and
      flush.lock, if anywhere, and which binary it runs. */
  datatype Config = Config(openable: Home -> bool, placeOf: (Home, Kind) -> Option<nat>, binOf: Home -> nat)

  /** Where an installation's operation of this kind takes its lock. */
  function OpLock(c: Config, home: Home, kind: Kind): (l: Lock)
    ensures (l.Op? || l.NoPath?) && l.kind == kind
    ensures kind.Setup? ==> l == Op(Setup, home)
  {
    if kind.Setup? then Op(Setup, home)
    else
      var place := c.placeOf(home, kind);
      if place.Some? then Op(kind, place.value) else NoPath(home, kind)
  }

  /** An operation lock the config does not name is one no operation can take. */
  predicate Named(l: Lock) {
    !l.NoPath?
  }

  /** The four exclusions: a default uninstall, a purge, an uninstall of the binary, an upgrade. */
  datatype Mode = Default | Purge | PurgeBinary | Upgrade

  function Plan(c: Config, home: Home, mode: Mode): seq<Lock> {
    match mode
    case Default => [OpLock(c, home, Setup)]
    case Purge => [OpLock(c, home, Setup), OpLock(c, home, Connect), OpLock(c, home, Flush)]
    case PurgeBinary =>
      [OpLock(c, home, Setup), OpLock(c, home, Connect), OpLock(c, home, Flush), Update(c.binOf(home))]
    case Upgrade => [OpLock(c, home, Setup), Update(c.binOf(home))]
  }

  /** The in-process connect of a running setup, which does not pass the gate. */
  datatype Inner = NoInner | InnerOpened(inode: Inode) | InnerRunning(inode: Inode)

  datatype OrdinaryAt =
    | Arriving
    | GateOpened(inode: Inode)
    | Admitted
    | OwnOpened(inode: Inode)
    | Running(inode: Inode, inner: Inner)

  /** `Gateless` is a default uninstall that found no directory for its gate and goes on without. */
  datatype ExclusiveAt =
    | Entering
    | Gateless
    | EntryOpened(inode: Inode)
    | Probing
    | Statted(existed: bool)
    | ProbeOpened(existed: bool, inode: Inode)
    | Working
    | Releasing
    | Unlinking
    | Leaving

  /** Setup, connect or flush. `gate` is the open, locked gate the process still holds. */
  datatype Ordinary = Ordinary(home: Home, kind: Kind, gate: Option<Inode>, at: OrdinaryAt)

  /** An exclusion: `ops` are the operation locks it holds, `created` the lock files it
      brought into existence and `applied` whether it went on to change the installation.
      `todo` and `probed` are the rest and the past of its plan. `seen`, `unlinked` and
      `stuck` are history: what each lock path held when it was looked at, and which
      removals succeeded and which failed. */
  datatype Exclusion = Exclusion(
    home: Home, mode: Mode, gate: Option<Inode>, at: ExclusiveAt,
    todo: seq<Lock>, probed: set<Lock>, ops: map<Lock, Inode>,
    created: set<Lock>, applied: bool,
    seen: map<Lock, Option<Inode>>, unlinked: set<Lock>, stuck: set<Lock>)

  datatype Proc = Shared(o: Ordinary) | Sole(x: Exclusion) | Gone

  /** The file system and the processes. `born` and `strays` are history: the path each file was
      created at, and the installations one of whose operations got past its gate without it. */
  datatype State = State(
    dirs: set<Lock>,            // lock paths whose directory exists
    files: map<Lock, Inode>,
    locked: map<Inode, Pid>,
    born: map<Inode, Lock>,
    procs: map<Pid, Proc>,
    strays: set<Home>)

  datatype Action =
    | OpenGate(node: Inode) | FailGate | TryGate | DropGate
    | OpenOwn(node: Inode) | TryOwn
    | OpenInner(node: Inode) | TryInner | EndInner
    | Probe | OpenProbe(node: Inode) | TryProbe | Refuse
    | Proceed | LetGo(lock: Lock) | Remove(lock: Lock) | Finish
    | Unlink(lock: Lock, ok: bool)
    | Exit

  datatype Event =
    | Step(pid: Pid, action: Action)
    | MakeDir(lock: Lock)
    | RemoveDir(lock: Lock)

  // ── file steps ──

  /** Opening for writing is possible where the directory exists, and creates a missing file. */
  predicate CanOpen(s: State, l: Lock, node: Inode) {
    l in s.dirs && (l in s.files || node !in s.born)
  }

  function InodeAt(s: State, l: Lock, node: Inode): Inode {
    if l in s.files then s.files[l] else node
  }

  function Opened(s: State, l: Lock, node: Inode): State {
    if l in s.files then s
    else s.(files := s.files[l := node], born := s.born[node := l])
  }

  function Put(s: State, p: Pid, pr: Proc): State {
    s.(procs := s.procs[p := pr])
  }

  function Acquire(s: State, p: Pid, i: Inode): State {
    s.(locked := s.locked[i := p])
  }

  function Release(s: State, i: Inode): State {
    s.(locked := s.locked - {i})
  }

  /** An ordinary operation whose gate does not open is admitted without it. A gate that never
      opens keeps no exclusion out either, so only the others are strays. */
  function Ungated(c: Config, s: State, p: Pid, o: Ordinary): State {
    var s' := Put(s, p, Shared(o.(at := Admitted)));
    if c.openable(o.home) then s'.(strays := s.strays + {o.home}) else s'
  }

  /** Exit, orderly or not: the kernel drops every lock of the process. */
  function Killed(s: State, p: Pid): State {
    Put(s.(locked := map i | i in s.locked && s.locked[i] != p :: s.locked[i]), p, Gone)
  }

  // ── one step of one process ──

  function NextOrdinary(c: Config, s: State, p: Pid, a: Action): Option<State>
    requires p in s.procs && s.procs[p].Shared?
  {
    var pr := s.procs[p].o;
    var own := OpLock(c, pr.home, pr.kind);
    var inner := OpLock(c, pr.home, Connect);
    match (a, pr.at)
    case (OpenGate(node), Arriving) =>
      // A gate that cannot be opened, or whose directory is missing, is passed without it.
      if !c.openable(pr.home) || Gate(pr.home) !in s.dirs then Some(Ungated(c, s, p, pr))
      else if !CanOpen(s, Gate(pr.home), node) then None
      else Some(Put(Opened(s, Gate(pr.home), node), p,
                    Shared(pr.(at := GateOpened(InodeAt(s, Gate(pr.home), node))))))
    // So is one that fails to open for a reason of the moment.
    case (FailGate, Arriving) => Some(Ungated(c, s, p, pr))
    case (TryGate, GateOpened(i)) =>
      if i in s.locked then Some(Put(s, p, Shared(pr.(at := Arriving))))
      else Some(Put(Acquire(s, p, i), p, Shared(pr.(at := Admitted, gate := Some(i)))))
    case (OpenOwn(node), Admitted) =>
      if !Named(own) || !CanOpen(s, own, node) then None
      else Some(Put(Opened(s, own, node), p, Shared(pr.(at := OwnOpened(InodeAt(s, own, node))))))
    case (TryOwn, OwnOpened(i)) =>
      if i in s.locked then Some(Killed(s, p))
      else Some(Put(Acquire(s, p, i), p, Shared(pr.(at := Running(i, NoInner)))))
    case (DropGate, Running(_, _)) =>
      if pr.gate.None? then None
      else Some(Put(Release(s, pr.gate.value), p, Shared(pr.(gate := None))))
    case (OpenInner(node), Running(i, NoInner)) =>
      if !pr.kind.Setup? || !Named(inner) || !CanOpen(s, inner, node) then None
      else Some(Put(Opened(s, inner, node), p,
                    Shared(pr.(at := Running(i, InnerOpened(InodeAt(s, inner, node)))))))
    case (TryInner, Running(i, InnerOpened(j))) =>
      if j in s.locked then Some(Put(s, p, Shared(pr.(at := Running(i, NoInner)))))
      else Some(Put(Acquire(s, p, j), p, Shared(pr.(at := Running(i, InnerRunning(j))))))
    case (EndInner, Running(i, InnerRunning(j))) =>
      Some(Put(Release(s, j), p, Shared(pr.(at := Running(i, NoInner)))))
    case _ => None
  }

  function NextExclusive(c: Config, s: State, p: Pid, a: Action): Option<State>
    requires p in s.procs && s.procs[p].Sole?
  {
    var pr := s.procs[p].x;
    match (a, pr.at)
    case (OpenGate(node), Entering) =>
      // The same gate refuses a destructive one, but for a default uninstall with no directory.
      if pr.mode.Default? && Gate(pr.home) !in s.dirs
      then Some(Put(s.(strays := s.strays + {pr.home}), p, Sole(pr.(at := Gateless))))
      else if !c.openable(pr.home) || !CanOpen(s, Gate(pr.home), node) then None
      else Some(Put(Opened(s, Gate(pr.home), node), p,
                    Sole(pr.(at := EntryOpened(InodeAt(s, Gate(pr.home), node))))))
    case (TryGate, EntryOpened(i)) =>
      if i in s.locked then Some(Put(s, p, Sole(pr.(at := Entering))))
      else Some(Put(Acquire(s, p, i), p, Sole(pr.(at := Probing, gate := Some(i)))))
    case (Probe, Probing) =>
      if pr.todo == [] then Some(Put(s, p, Sole(pr.(at := Working))))
      else
        var l := pr.todo[0];
        if !Named(l) || l !in s.dirs
        then Some(Put(s, p, Sole(pr.(todo := pr.todo[1..], probed := pr.probed + {l}))))
        else Some(Put(s, p, Sole(pr.(at := Statted(l in s.files),
                                seen := pr.seen[l := if l in s.files then Some(s.files[l]) else None]))))
    case (OpenProbe(node), Statted(existed)) =>
      if pr.todo == [] || !CanOpen(s, pr.todo[0], node) then None
      else Some(Put(Opened(s, pr.todo[0], node), p,
                    Sole(pr.(at := ProbeOpened(existed, InodeAt(s, pr.todo[0], node))))))
    case (TryProbe, ProbeOpened(existed, i)) =>
      if pr.todo == [] then None
      else if i in s.locked then Some(Put(s, p, Sole(pr.(at := Releasing))))
      else
        var l := pr.todo[0];
        Some(Put(Acquire(s, p, i), p,
                 Sole(pr.(at := Probing, todo := pr.todo[1..], probed := pr.probed + {l},
                     ops := pr.ops[l := i], created := if existed then pr.created else pr.created + {l}))))
    // A stat, open or config error: released with nothing done.
    case (Refuse, Probing) => Some(Put(s, p, Sole(pr.(at := Releasing))))
    case (Refuse, Statted(_)) => Some(Put(s, p, Sole(pr.(at := Releasing))))
    case (Proceed, Working) => Some(Put(s, p, Sole(pr.(applied := true))))
    case (LetGo(l), Working) =>
      if l in pr.ops && pr.applied then Some(Put(Release(s, pr.ops[l]), p, Sole(pr.(ops := pr.ops - {l})))) else None
    case (Remove(l), Working) =>
      if pr.applied && l in pr.probed && l !in pr.ops
      then Some(Put(s.(files := s.files - {l}), p, Sole(pr))) else None
    case (Finish, Working) => Some(Put(s, p, Sole(pr.(at := Releasing))))
    // Operation locks first, then the files that were created, then the gate.
    case (LetGo(l), Releasing) =>
      if l in pr.ops then Some(Put(Release(s, pr.ops[l]), p, Sole(pr.(ops := pr.ops - {l})))) else None
    case (Finish, Releasing) =>
      if pr.ops != map[] then None
      else if pr.mode.Upgrade? || pr.applied then Some(Put(s, p, Sole(pr.(at := Leaving))))
      else Some(Put(s, p, Sole(pr.(at := Unlinking))))
    case (Unlink(l, ok), Unlinking) =>
      if l !in pr.created - pr.unlinked - pr.stuck then None
      else if ok then Some(Put(s.(files := s.files - {l}), p, Sole(pr.(unlinked := pr.unlinked + {l}))))
      else Some(Put(s, p, Sole(pr.(stuck := pr.stuck + {l}))))
    case (Finish, Unlinking) =>
      if pr.created <= pr.unlinked + pr.stuck then Some(Put(s, p, Sole(pr.(at := Leaving)))) else None
    case _ => None
  }

  /** setup.lock lies in the installation, and the gate beside it: where the one has a directory,
      so has the other. */
  ghost predicate Nested(dirs: set<Lock>) {
    forall h :: Op(Setup, h) in dirs ==> Gate(h) in dirs
  }

  /** The state an event leads to, or None where the event cannot happen. */
  function Next(c: Config, s: State, e: Event): Option<State> {
    match e
    case MakeDir(l) =>
      if l.Op? && l.kind.Setup? && Gate(l.place) !in s.dirs then None else Some(s.(dirs := s.dirs + {l}))
    case RemoveDir(l) =>
      if l in s.files || (l.Gate? && Op(Setup, l.home) in s.dirs) then None else Some(s.(dirs := s.dirs - {l}))
    case Step(p, a) =>
      if p !in s.procs || s.procs[p].Gone? then None
      else if a.Exit? then Some(Killed(s, p))
      else if s.procs[p].Shared? then NextOrdinary(c, s, p, a)
      else NextExclusive(c, s, p, a)
  }

  /** A whole run: the schedule decides who moves; a step that cannot be taken is skipped. */
  function Run(c: Config, s: State, schedule: seq<Event>): State
    decreases |schedule|
  {
    if schedule == [] then s
    else
      var r := Next(c, s, schedule[0]);
      Run(c, if r.Some? then r.value else s, schedule[1..])
  }

  // ── where a machine starts ──

  predicate Fresh(c: Config, pr: Proc) {
    match pr
    case Shared(o) => o.gate.None? && o.at.Arriving?
    case Sole(x) =>
      && x.gate.None? && x.at.Entering? && x.todo == Plan(c, x.home, x.mode) && x.probed == {} && x.ops == map[]
      && x.created == {} && !x.applied && x.seen == map[] && x.unlinked == {} && x.stuck == {}
    case Gone => true
  }

  /** Any lock files left by earlier runs, and any processes about to start. */
  ghost predicate Init(c: Config, s: State) {
    && s.locked == map[] && s.strays == {} && Nested(s.dirs)
    && (forall l :: l in s.files ==> l in s.dirs && s.files[l] in s.born && s.born[s.files[l]] == l)
    && (forall p :: p in s.procs ==> Fresh(c, s.procs[p]))
  }
}
