/** An operation that comes before the directory of its gate exists, and is past the gate without it. */
module Strays {
  import opened Wrappers
  import opened Lifecycle
  import opened LifecycleSafety
  import opened Schedules

  const UNINSTALL: Pid := 1
  const SETUP: Pid := 2

  /** The gates of these installations. */
  function Gates(homes: set<Home>): set<Lock> {
    set h | h in homes :: Gate(h)
  }

  /** A machine with nothing of the installation on it and only the gates' directories of some others,
      a setup of it and an uninstall. */
  function Bare(c: Config, others: set<Home>, home: Home, mode: Mode): State {
    State(Gates(others), map[], map[], map[],
          map[UNINSTALL := Sole(Starting(c, home, mode)), SETUP := Shared(Ordinary(home, Setup, None, Arriving))], {})
  }

  lemma StartsBare(c: Config, others: set<Home>, home: Home, mode: Mode)
    ensures Init(c, Bare(c, others, home, mode))
  {
  }

  /** Setup is past the gate without it and has made the directories. */
  lemma SetupComes(c: Config, s: State, t: State, home: Home) returns (u: State)
    requires Leads(c, s, t) && SETUP in t.procs && t.procs[SETUP] == Shared(Ordinary(home, Setup, None, Arriving))
    requires Gate(home) !in t.dirs && t.strays <= {home}
    ensures Leads(c, s, u) && u.strays <= {home} && (c.openable(home) ==> u.strays == {home})
    ensures u == Put(t, SETUP, Shared(Ordinary(home, Setup, None, Admitted))).(
                   dirs := t.dirs + {Gate(home), Op(Setup, home)}, strays := u.strays)
  {
    hide Run, Leads;
    u := Then(c, s, t, Step(SETUP, OpenGate(0)));
    u := Then(c, s, u, MakeDir(Gate(home)));
    u := Then(c, s, u, MakeDir(Op(Setup, home)));
    assert u.dirs == t.dirs + {Gate(home), Op(Setup, home)};
  }

  /** It creates setup.lock and takes it. */
  lemma SetupRuns(c: Config, s: State, t: State, home: Home, node: Inode) returns (u: State)
    requires Leads(c, s, t) && SETUP in t.procs && t.procs[SETUP] == Shared(Ordinary(home, Setup, None, Admitted))
    requires Op(Setup, home) in t.dirs && Op(Setup, home) !in t.files && node !in t.born && node !in t.locked
    ensures Leads(c, s, u) && u.strays == t.strays && SETUP in u.procs && Operates(u.procs[SETUP], home, Setup)
    ensures forall p :: p in t.procs && p != SETUP ==> p in u.procs && u.procs[p] == t.procs[p]
  {
    hide Run, Leads;
    u := Then(c, s, t, Step(SETUP, OpenOwn(node)));
    u := Then(c, s, u, Step(SETUP, TryOwn));
  }

  /** A default uninstall that finds no directory for the gate takes no lock at all. */
  lemma UninstallBesideSetup(c: Config, others: set<Home>, home: Home) returns (schedule: seq<Event>)
    requires home !in others
    ensures var t := Run(c, Bare(c, others, home, Default), schedule);
            && Init(c, Bare(c, others, home, Default)) && Smooth(schedule)
            && UNINSTALL in t.procs && SETUP in t.procs
            && Stands(t.procs[UNINSTALL], home) && t.procs[UNINSTALL].x.mode == Default
            && Operates(t.procs[SETUP], home, Setup)
  {
    hide Run, Leads, Init, Smooth;
    var s := Bare(c, others, home, Default);
    StartsBare(c, others, home, Default);
    AtFirst(c, s);
    var t := Then(c, s, s, Step(UNINSTALL, OpenGate(0)));
    t := SetupComes(c, s, t, home);
    t := SetupRuns(c, s, t, home, 0);
    schedule := Scheduled(c, s, t);
  }

  /** A purge takes the gate that setup went without and setup.lock, lets it go and removes it as it
      empties the installation. */
  ghost predicate Purges(c: Config, home: Home, t: State) {
    && Leads(c, Bare(c, {}, home, Purge), t) && t.strays == {home}
    && Op(Setup, home) in t.dirs && Op(Setup, home) !in t.files && 12 !in t.born && 12 !in t.locked
    && UNINSTALL in t.procs && SETUP in t.procs
    && t.procs[SETUP] == Shared(Ordinary(home, Setup, None, Admitted))
    && Stands(t.procs[UNINSTALL], home) && t.procs[UNINSTALL].x.mode == Purge && t.procs[UNINSTALL].x.applied
    && t.procs[UNINSTALL].x.gate == Some(10)
  }

  /** It has every lock of its plan that there is. */
  ghost predicate Takes(c: Config, home: Home, t: State) {
    && Leads(c, Bare(c, {}, home, Purge), t) && t.strays == {home}
    && t.dirs == {Gate(home), Op(Setup, home)} && t.born.Keys == {10, 11}
    && t.locked == map[10 := UNINSTALL, 11 := UNINSTALL]
    && UNINSTALL in t.procs && SETUP in t.procs
    && t.procs[SETUP] == Shared(Ordinary(home, Setup, None, Admitted)) && t.procs[UNINSTALL].Sole?
    && var x := t.procs[UNINSTALL].x;
       && x.home == home && x.mode == Purge && x.gate == Some(10) && x.at == Probing && !x.applied
       && Op(Setup, home) in x.probed && x.ops == map[Op(Setup, home) := 11]
       && |x.todo| == 2 && x.todo[0] !in t.dirs && x.todo[1] !in t.dirs
  }

  lemma PurgeTakes(c: Config, home: Home) returns (t: State)
    requires c.openable(home)
    ensures Takes(c, home, t)
  {
    hide Run, Leads, Next;
    var s := Bare(c, {}, home, Purge);
    AtFirst(c, s);
    t := SetupComes(c, s, s, home);
    t := PassesGate(c, s, t, UNINSTALL, Starting(c, home, Purge), 10);
    t := TakesLock(c, s, t, UNINSTALL, 11);
  }

  lemma PurgeWorks(c: Config, home: Home, t0: State) returns (t: State)
    requires Takes(c, home, t0)
    ensures Purges(c, home, t)
  {
    hide Run, Leads, Plan;
    var s := Bare(c, {}, home, Purge);
    hide Bare;
    t := Skips(c, s, t0, UNINSTALL, t0.procs[UNINSTALL].x);
    t := Skips(c, s, t, UNINSTALL, t.procs[UNINSTALL].x);
    t := GoesAhead(c, s, t, UNINSTALL);
    t := Empties(c, s, t, UNINSTALL, Op(Setup, home));
  }

  /** The purge goes ahead. */
  lemma GoesAhead(c: Config, s: State, t: State, p: Pid) returns (u: State)
    requires Leads(c, s, t) && p in t.procs && t.procs[p].Sole? && t.procs[p].x.at.Probing? && t.procs[p].x.todo == []
    ensures Leads(c, s, u) && u == Put(t, p, Sole(t.procs[p].x.(at := Working, applied := true)))
  {
    hide Run, Leads;
    u := Then(c, s, t, Step(p, Probe));
    u := Then(c, s, u, Step(p, Proceed));
    assert u.procs == t.procs[p := u.procs[p]];
  }

  lemma Empties(c: Config, s: State, t: State, p: Pid, l: Lock) returns (u: State)
    requires Leads(c, s, t) && p in t.procs && t.procs[p].Sole? && t.procs[p].x.at.Working? && t.procs[p].x.applied
    requires l in t.procs[p].x.ops && l in t.procs[p].x.probed
    ensures Leads(c, s, u)
    ensures var x := t.procs[p].x;
            u == Put(Release(t.(files := t.files - {l}), x.ops[l]), p, Sole(x.(ops := x.ops - {l})))
  {
    hide Run, Leads;
    u := Then(c, s, t, Step(p, LetGo(l)));
    u := Then(c, s, u, Step(p, Remove(l)));
    assert u.procs == t.procs[p := u.procs[p]];
  }

  /** One installation whose gate opens, nothing shared: a setup comes before the directory of the
      gate, makes it, and in the end runs beside a purge that holds that gate and is at work. */
  lemma PurgeBesideSetup(c: Config, home: Home) returns (schedule: seq<Event>)
    requires c.openable(home)
    ensures var t := Run(c, Bare(c, {}, home, Purge), schedule);
            && Init(c, Bare(c, {}, home, Purge)) && t.strays == {home} && UNINSTALL in t.procs && SETUP in t.procs
            && Stands(t.procs[UNINSTALL], home) && t.procs[UNINSTALL].x.mode == Purge && t.procs[UNINSTALL].x.applied
            && Holds(c, t.procs[UNINSTALL], Gate(home), 10) && Operates(t.procs[SETUP], home, Setup)
  {
    hide Run, Leads, Init, Next, Takes, Operates;
    StartsBare(c, {}, home, Purge);
    var t := PurgeTakes(c, home);
    t := PurgeWorks(c, home, t);
    t := SetupRuns(c, Bare(c, {}, home, Purge), t, home, 12);
    schedule := Scheduled(c, Bare(c, {}, home, Purge), t);
  }
}
