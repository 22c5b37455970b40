/** connect's registration journal: what is on disk at every step, and where it converges. */
module Registration {
  import opened Wrappers

  datatype Status = Unclaimed | Expired | Settled

  datatype Agent = Agent(id: string, url: string, code: string, status: Status, expires: string)

  /** credentials.json and agent.json, as they read. */
  datatype CredFile = NoCred | Untrusted | Key(key: string)
  datatype AgentFile = NoAgent | Corrupt | Holds(agent: Agent)

  /** Whom a replacement replaces: the expired agent and its key. */
  datatype Previous = Previous(id: string, key: string)

  /** The journal: the identity a Register call answered with, until it is published. */
  datatype Pending = Pending(agent: Agent, key: string, previous: Option<Previous>)

  datatype Files = Files(creds: CredFile, agent: AgentFile, journal: Option<Pending>)

  datatype Options = Options(force: bool, previous: Option<Previous>)

  predicate ValidPending(p: Pending) {
    && p.agent.id != "" && p.key != "" && p.agent.url != "" && p.agent.status == Unclaimed
    && (p.previous.Some? ==> p.previous.value.id != "" && p.previous.value.key != "")
  }

  /** Whether the credential may be published: over nothing, over itself, over what it replaces. */
  predicate MayPublishKey(creds: CredFile, key: string, opts: Options) {
    match creds
    case NoCred => true
    case Untrusted => false
    case Key(current) =>
      current == key || opts.force || (opts.previous.Some? && opts.previous.value.key == current != "")
  }

  predicate MayPublishAgent(agent: AgentFile, p: Pending, opts: Options) {
    match agent
    case NoAgent => true
    case Corrupt => true
    case Holds(a) => a == p.agent || opts.force ||
                     (opts.previous.Some? && a.status == Expired && a.id == opts.previous.value.id)
  }

  /** How a recovery publishes: never by force, and replacing what the journal says it replaces. */
  function RecoveryOptions(p: Pending): Options {
    Options(false, p.previous)
  }

  predicate CanPublish(creds: CredFile, agent: AgentFile, p: Pending, opts: Options) {
    MayPublishKey(creds, p.key, opts) && MayPublishAgent(agent, p, opts)
  }

  predicate CanRecover(f: Files, p: Pending) {
    CanPublish(f.creds, f.agent, p, RecoveryOptions(p))
  }

  /** Both files hold exactly the journalled identity. */
  predicate Published(f: Files, p: Pending) {
    f.creds == Key(p.key) && f.agent == Holds(p.agent)
  }

  /** `owner` is the platform's own record of whose key a key is. */
  ghost predicate Belong(f: Files, owner: string -> string) {
    f.creds.Key? && f.agent.Holds? ==> owner(f.creds.key) == f.agent.agent.id
  }

  /** With no journal, the two files belong to the same agent; with one, the journalled key does,
      the agent is published only after the key, and recovery can finish. `forced` is the one way
      out of that: -force over a credential that is there. */
  ghost predicate Sound(f: Files, owner: string -> string, forced: bool) {
    match f.journal
    case None => Belong(f, owner)
    case Some(p) =>
      && ValidPending(p) && owner(p.key) == p.agent.id
      && (!forced ==> CanRecover(f, p))
  }

  datatype Ended = Done | Refused | Stopped

  /** What the platform answers in one run, where it is asked: the identity behind the stored key, the
      status of an unclaimed agent, the status of an expired one, and a Register call. */
  datatype Answers = Answers(me: Option<Agent>, claim: Option<Status>, expiry: Option<Status>,
                             minted: Option<(Agent, string)>)

  const SILENT := Answers(None, None, None, None)

  /** The platform tells whose key a key is, and what it registers is complete and unclaimed. */
  predicate Honest(a: Answers, creds: CredFile, owner: string -> string) {
    && (a.me.Some? && creds.Key? ==> a.me.value.id == owner(creds.key))
    && (a.minted.Some? ==>
          var minted := a.minted.value;
          minted.0.id == owner(minted.1) != "" && minted.0.status == Unclaimed && minted.0.url != "" && minted.1 != "")
  }

  // ── what a run without a journal comes to ──

  /** preflightFreshRegistration: no credential, or one -force may replace. */
  predicate Preflight(creds: CredFile, force: bool) {
    creds.NoCred? || (creds.Key? && force)
  }

  /** Files with exactly this identity in them, and no journal. */
  function Identity(minted: (Agent, string)): Files {
    Files(Key(minted.1), Holds(minted.0), None)
  }

  /** The platform may be asked about an expired registration: its key and its id are there. */
  predicate MayAsk(creds: CredFile, before: Agent) {
    creds.Key? && creds.key != "" && before.id != ""
  }

  /** What a registration on file as expired becomes when nothing fails: the platform's word decides.
      Another status is kept, a new identity takes its place, or it stays as it is. */
  function Renewed(creds: CredFile, before: Agent, a: Answers): Files {
    if !MayAsk(creds, before) || a.expiry.None? then Files(creds, Holds(before), None)
    else if a.expiry.value != Expired then Files(creds, Holds(before.(status := a.expiry.value)), None)
    else if a.minted.None? then Files(creds, Holds(before), None)
    else Identity(a.minted.value)
  }

  /** And one on file as anything else, which is first asked about where it is unclaimed. */
  function Onward(creds: CredFile, before: Agent, a: Answers): Files {
    if before.status == Expired then Renewed(creds, before, a)
    else if before.status == Unclaimed && creds.Key? && a.claim == Some(Expired)
    then Renewed(creds, before.(status := Expired), a)
    else Files(creds, Holds(before), None)
  }

  /** Whether Register is called for it. */
  predicate Renews(creds: CredFile, before: Agent, a: Answers) {
    && MayAsk(creds, before) && a.expiry == Some(Expired)
    && (before.status == Expired || (before.status == Unclaimed && a.claim == Some(Expired)))
  }

  /** The identity the platform answers is taken over whole; nothing else is ever invented. */
  lemma OnwardIs(creds: CredFile, before: Agent, a: Answers)
    ensures var f := Onward(creds, before, a);
            && f.journal.None?
            && (Renews(creds, before, a) && a.minted.Some? ==>
                 f.creds == Key(a.minted.value.1) && f.agent == Holds(a.minted.value.0))
            && (!(Renews(creds, before, a) && a.minted.Some?) ==>
                 f.creds == creds && f.agent.Holds? && f.agent.agent.(status := before.status) == before)
    ensures before.status == Settled ==> Onward(creds, before, a).agent == Holds(before)
    ensures before.status == Expired && MayAsk(creds, before) && a.expiry.Some? && !a.expiry.value.Expired? ==>
              Onward(creds, before, a).agent == Holds(before.(status := a.expiry.value))
    ensures before.status == Unclaimed && a.claim != Some(Expired) ==> Onward(creds, before, a).agent == Holds(before)
    ensures before.status == Unclaimed && a.claim == Some(Expired) ==>
              Onward(creds, before, a) ==
              if creds.Key? then Onward(creds, before.(status := Expired), a) else Files(creds, Holds(before), None)
    ensures before.status == Expired && MayAsk(creds, before) && a.expiry == Some(Expired) && a.minted.Some? ==>
              Onward(creds, before, a) == Identity(a.minted.value)
  {
  }

  /** An installation's registration files, and the platform it registers with. */
  class Installation {
    var creds: CredFile
    var agent: AgentFile
    var journal: Option<Pending>

    /** How many times Register was called, and whether the journal was saved over another key. */
    ghost var registers: nat
    ghost var forced: bool
    const owner: string -> string

    /** While this holds no local call fails and the process is not killed. */
    var calm: bool

    ghost function F(): Files
      reads this
    {
      Files(creds, agent, journal)
    }

    ghost predicate Ok()
      reads this
    {
      Sound(F(), owner, forced)
    }

    constructor (owner: string -> string)
      ensures Ok() && F() == Files(NoCred, NoAgent, None) && registers == 0
    {
      creds, agent, journal := NoCred, NoAgent, None;
      registers, forced, calm := 0, false, false;
      this.owner := owner;
    }

    /** Options a journalled identity may be published with. */
    ghost predicate Fit(p: Pending, opts: Options)
      reads this
    {
      opts.previous == p.previous && (opts.force ==> forced || CanRecover(F(), p))
    }

    method Fate() returns (r: Ended)
      ensures calm ==> r.Done?
    {
      var fails: bool, stops: bool := *, *;
      r := if calm then Done else if fails then Refused else if stops then Stopped else Done;
    }

    // ── the platform ──

    /** A new agent and its key, or an error; the call counts either way. */
    method Register(a: Answers) returns (r: Option<(Agent, string)>)
      modifies this`registers
      ensures registers == old(registers) + 1 && r == a.minted
    {
      registers := registers + 1;
      r := a.minted;
    }

    // ── publication ──

    /** publishPlatformCredential. */
    method PublishKey(p: Pending, opts: Options) returns (r: Ended)
      requires Ok() && journal == Some(p) && Fit(p, opts)
      modifies this`creds
      ensures Ok()
      ensures creds == old(creds) || (creds == Key(p.key) && MayPublishKey(old(creds), p.key, opts))
      ensures r.Done? ==> creds == Key(p.key)
      ensures calm ==> (r.Done? <==> MayPublishKey(old(creds), p.key, opts))
    {
      if !MayPublishKey(creds, p.key, opts) {
        return Refused;
      }
      if creds == Key(p.key) {
        return Done;
      }
      r := Fate();
      if r.Done? {
        creds := Key(p.key);
        r := Fate();
      }
    }

    /** The agent file's half: a corrupt one is set aside, a foreign one is left. */
    method PublishAgent(p: Pending, opts: Options) returns (r: Ended)
      requires Ok() && journal == Some(p) && creds == Key(p.key)
      requires Fit(p, opts)
      modifies this`agent
      ensures Ok()
      ensures agent == old(agent) || (old(agent).Corrupt? && agent.NoAgent?) ||
              (agent == Holds(p.agent) && MayPublishAgent(old(agent), p, opts))
      ensures r.Done? ==> agent == Holds(p.agent)
      ensures calm ==> (r.Done? <==> MayPublishAgent(old(agent), p, opts))
    {
      r := Fate();
      if !r.Done? {
        return;
      }
      if agent.Corrupt? {
        agent := NoAgent;
        r := Fate();
        if !r.Done? {
          return;
        }
      }
      if !MayPublishAgent(agent, p, opts) {
        return Refused;
      }
      if agent != Holds(p.agent) {
        agent := Holds(p.agent);
        r := Fate();
      }
    }

    /** publishPendingRegistration: the credential, then the agent record, then both read back. */
    method PublishPending(p: Pending, opts: Options) returns (r: Ended)
      requires Ok() && journal == Some(p) && Fit(p, opts)
      modifies this`creds, this`agent
      ensures Ok() && (r.Done? ==> Published(F(), p))
      ensures calm ==> (r.Done? <==> CanPublish(old(creds), old(agent), p, opts))
      ensures CanPublish(creds, agent, p, opts) <==> CanPublish(old(creds), old(agent), p, opts)
    {
      r := PublishKey(p, opts);
      if r.Done? {
        r := PublishAgent(p, opts);
        if r.Done? && (creds != Key(p.key) || agent != Holds(p.agent)) {
          r := Refused;
        }
      }
    }

    /** Publication and, once it is verified, the end of the journal. */
    method Finish(p: Pending, opts: Options) returns (r: Ended)
      requires Ok() && journal == Some(p) && Fit(p, opts)
      modifies this`creds, this`agent, this`journal, this`forced
      ensures Ok()
      ensures if journal == None then Published(F(), p) else journal == Some(p) && forced == old(forced)
      ensures r.Done? ==> journal == None
      ensures calm ==> (r.Done? <==> journal == None)
      ensures calm ==> (journal == None <==> CanPublish(old(creds), old(agent), p, opts))
      ensures journal == None ==> CanPublish(old(creds), old(agent), p, opts)
      ensures CanPublish(creds, agent, p, opts) <==> CanPublish(old(creds), old(agent), p, opts)
    {
      r := PublishPending(p, opts);
      if r.Done? {
        r := Fate();
        if r.Done? {
          journal, forced := None, false;
          r := Fate();
        }
      }
    }

    // ── one run of connect, up to the polling ──

    method SaveAgent(a: Agent) returns (r: Ended)
      requires Ok() && journal == None && (creds.Key? ==> owner(creds.key) == a.id)
      modifies this`agent
      ensures Ok() && (r.Done? ==> agent == Holds(a)) && (calm ==> r.Done?)
      ensures agent == old(agent) || agent == Holds(a)
    {
      r := Fate();
      if r.Done? {
        agent := Holds(a);
        r := Fate();
      }
    }

    /** The journal is written before anything local changes. */
    method SaveJournal(p: Pending) returns (r: Ended)
      requires Ok() && journal == None && ValidPending(p) && owner(p.key) == p.agent.id
      modifies this`journal, this`forced
      ensures Ok() && (calm ==> r.Done?) && (r.Done? ==> journal == Some(p))
      ensures journal == None || (journal == Some(p) && forced == !CanRecover(F(), p))
    {
      r := Fate();
      if r.Done? {
        journal := Some(p);
        forced := !CanRecover(Files(creds, agent, None), p);
        r := Fate();
      }
    }

    /** A lost record is rebuilt from the platform's word on whose key this is. */
    method Rebuild(a: Answers) returns (r: Ended)
      requires Ok() && journal == None && !agent.Holds? && creds.Key? && Honest(a, creds, owner)
      modifies this`agent
      ensures Ok() && (r.Done? ==> a.me.Some? && agent == Holds(a.me.value))
      ensures if a.me.None? then r.Refused? && agent == old(agent) else calm ==> r.Done?
      ensures agent == old(agent) || agent.NoAgent? || (a.me.Some? && agent == Holds(a.me.value))
    {
      if a.me.None? {
        return Refused;
      }
      r := Fate();
      if !r.Done? {
        return;
      }
      if agent.Corrupt? {
        agent := NoAgent;
        r := Fate();
        if !r.Done? {
          return;
        }
      }
      r := SaveAgent(a.me.value);
    }

    /** After a Register call: nothing was saved, or the journal was, or the new identity is published. */
    ghost predicate Journalling(before: Files, minted: (Agent, string), previous: Option<Previous>)
      reads this
    {
      || F() == before
      || journal == Some(Pending(minted.0, minted.1, previous))
      || F() == Identity(minted)
    }

    /** A registration the platform itself calls expired is replaced; otherwise its status is kept. */
    method ReplaceExpired(force: bool, a: Answers) returns (r: Ended)
      requires Ok() && journal == None && agent.Holds? && agent.agent.status == Expired && Honest(a, creds, owner)
      modifies this`creds, this`agent, this`journal, this`forced, this`registers
      ensures Ok() && (r.Done? ==> journal == None)
      ensures registers == old(registers) + if Renews(old(creds), old(agent).agent, a) then 1 else 0
      ensures registers > old(registers) ==> a.expiry == Some(Expired) && old(creds).Key?
      ensures a.expiry != Some(Expired) ==> creds == old(creds) && journal == None && registers == old(registers)
      ensures old(creds).Key? && old(creds).key != "" && old(agent).agent.id != "" && calm ==>
                match a.expiry
                case None => F() == old(F()) && r.Refused?
                case Some(Expired) =>
                  registers == old(registers) + 1 &&
                  if a.minted.Some? then r.Done? && F() == Identity(a.minted.value) else r.Refused? && F() == old(F())
                case Some(status) => r.Done? && agent == Holds(old(agent).agent.(status := status))
      ensures calm ==> F() == Renewed(old(creds), old(agent).agent, a)
      ensures if Renews(old(creds), old(agent).agent, a) && a.minted.Some?
              then Journalling(old(F()), a.minted.value, Some(Previous(old(agent).agent.id, old(creds).key)))
              else F() == old(F()) || F() == Renewed(old(creds), old(agent).agent, a)
    {
      if agent.agent.id == "" || !creds.Key? || creds.key == "" {
        return Refused;
      }
      var before, oldKey := agent.agent, creds.key;
      if a.expiry.None? {
        return Refused;
      }
      if a.expiry.value != Expired {
        r := SaveAgent(before.(status := a.expiry.value));
        return;
      }
      var answer := Register(a);
      if answer.None? {
        return Refused;
      }
      var p := Pending(answer.value.0, answer.value.1, Some(Previous(before.id, oldKey)));
      r := SaveJournal(p);
      if r.Done? {
        r := Finish(p, Options(force, p.previous));
      }
    }

    method RegisterFresh(force: bool, a: Answers) returns (r: Ended)
      requires Ok() && journal == None && !agent.Holds? && Honest(a, creds, owner)
      modifies this`creds, this`agent, this`journal, this`forced, this`registers
      ensures Ok() && (r.Done? ==> a.minted.Some? && F() == Identity(a.minted.value) && Belong(F(), owner))
      ensures registers == old(registers) + if old(creds).NoCred? || (old(creds).Key? && force) then 1 else 0
      ensures if Preflight(old(creds), force) && a.minted.Some?
              then Journalling(old(F()), a.minted.value, None) && (calm ==> F() == Identity(a.minted.value) && r.Done?)
              else F() == old(F()) && r.Refused?
      ensures journal.Some? && forced ==> force && old(creds).Key?
    {
      if !Preflight(creds, force) {
        return Refused;
      }
      var answer := Register(a);
      if answer.None? {
        return Refused;
      }
      var p := Pending(answer.value.0, answer.value.1, None);
      r := SaveJournal(p);
      if r.Done? {
        r := Finish(p, Options(force, None));
      }
    }

    /** The journal is as it was, or both files hold what it held. */
    ghost predicate AfterJournal(p: Pending, wasForced: bool)
      reads this
    {
      if journal == None then Published(F(), p) else journal == Some(p) && forced == wasForced
    }

    /** A run that finds no journal, with the platform's answers: what is on disk is rebuilt, replaced,
        registered or left. A resumed run leaves it in any case. */
    method Proceed(force: bool, resume: bool, a: Answers) returns (r: Ended)
      requires Ok() && journal == None && Honest(a, creds, owner)
      modifies this`creds, this`agent, this`journal, this`forced, this`registers
      ensures Ok() && registers <= old(registers) + 1
      ensures registers > old(registers) ==>
                !resume && (a.expiry == Some(Expired) || (!old(agent).Holds? && Preflight(old(creds), force)))
      ensures resume ==> F() == old(F()) && registers == old(registers)
      ensures old(agent).Holds? && !resume ==>
                && (registers > old(registers) ==> Renews(old(creds), old(agent).agent, a))
                && (calm ==>
                     && registers == old(registers) + (if Renews(old(creds), old(agent).agent, a) then 1 else 0)
                     && F() == Onward(old(creds), old(agent).agent, a))
                && (old(agent).agent.status == Settled ==> F() == old(F()))
      ensures !old(agent).Holds? && !resume && (force || !old(creds).Key?) ==>
                && registers == old(registers) + (if Preflight(old(creds), force) then 1 else 0)
                && (calm ==> F() == if Preflight(old(creds), force) && a.minted.Some? then Identity(a.minted.value)
                                    else old(F()))
      ensures !old(agent).Holds? && !resume && !force && old(creds).Key? ==>
                && (a.me.None? ==> F() == old(F()) && registers == old(registers) && r.Refused?)
                && (calm && a.me.Some? ==>
                     var me := a.me.value;
                     if me.status == Unclaimed && me.url == ""
                     then F() == Files(old(creds), Holds(me), None) && registers == old(registers)
                     else F() == Onward(old(creds), me, a) &&
                          registers == old(registers) + (if Renews(old(creds), me, a) then 1 else 0))
    {
      r := Done;
      if !agent.Holds? {
        if resume {
          return;
        }
        if !force && creds.Key? {
          r := Rebuild(a);
          if !r.Done? {
            return;
          }
          if agent.agent.status == Unclaimed && agent.agent.url == "" {
            return;
          }
        }
      }
      if agent.Holds? && !resume && agent.agent.status == Unclaimed && creds.Key? {
        if a.claim == Some(Expired) {
          r := SaveAgent(agent.agent.(status := Expired));
          if !r.Done? {
            return;
          }
        }
      }
      if agent.Holds? && agent.agent.status == Expired {
        if resume {
          return;
        }
        r := ReplaceExpired(force, a);
      } else if !agent.Holds? {
        r := RegisterFresh(force, a);
      }
    }

    /** connectRun: a journal first; else the run above. */
    method Connect(force: bool, resume: bool, a: Answers) returns (r: Ended)
      requires Ok() && Honest(a, creds, owner)
      modifies this`creds, this`agent, this`journal, this`forced, this`registers
      ensures Ok()
      ensures old(journal).Some? ==> registers == old(registers) && AfterJournal(old(journal).value, old(forced))
      ensures old(journal).Some? && calm ==> (journal == None <==> CanRecover(old(F()), old(journal).value))
      ensures old(journal).Some? ==>
                && (journal == None ==> CanRecover(old(F()), old(journal).value))
                && (CanRecover(F(), old(journal).value) <==> CanRecover(old(F()), old(journal).value))
      ensures registers <= old(registers) + 1
      ensures registers > old(registers) ==>
                && old(journal).None? && !resume
                && (a.expiry == Some(Expired) || (!old(agent).Holds? && Preflight(old(creds), force)))
      ensures old(journal).None? && old(agent).Holds? && calm ==>
                F() == if resume then old(F()) else Onward(old(creds), old(agent).agent, a)
      ensures old(journal).None? && !old(agent).Holds? && !resume && calm && Preflight(old(creds), force) ==>
                F() == if a.minted.Some? then Identity(a.minted.value) else old(F())
      ensures old(journal).None? && !old(agent).Holds? && !resume && calm && !force && old(creds).Key? ==>
                F() ==
                if a.me.None? then old(F())
                else if a.me.value.status == Unclaimed && a.me.value.url == ""
                then Files(old(creds), Holds(a.me.value), None)
                else Onward(old(creds), a.me.value, a)
    {
      if journal.Some? {
        r := Finish(journal.value, RecoveryOptions(journal.value));
      } else {
        r := Proceed(force, resume, a);
      }
    }

    /** Over a journal: however many runs are killed or fail, and whatever flags they carry, one that
        is let finish leaves both files holding the journalled identity, with no second Register on
        the way, if and only if recovery could finish to begin with; and where it could not, the
        journal is still there. It always could where the journal was not saved by -force over
        another credential. */
    method Converge(runs: nat, force: bool, resume: bool)
      requires Ok() && journal.Some?
      modifies this
      ensures Ok() && registers == old(registers)
      ensures if CanRecover(old(F()), old(journal).value) then journal == None && Published(F(), old(journal).value)
              else journal == old(journal)
      ensures !old(forced) ==> CanRecover(old(F()), old(journal).value)
    {
      var p := journal.value;
      calm := false;
      var i := 0;
      while i < runs && journal.Some?
        invariant Ok() && registers == old(registers)
        invariant CanRecover(F(), p) <==> CanRecover(old(F()), p)
        invariant journal == Some(p) || (journal == None && Published(F(), p) && CanRecover(old(F()), p))
      {
        var a: Answers := *;
        var _ := Connect(force, resume, if Honest(a, creds, owner) then a else SILENT);
        i := i + 1;
      }
      calm := true;
      if journal.Some? {
        var a: Answers := *;
        var _ := Connect(force, resume, if Honest(a, creds, owner) then a else SILENT);
      }
    }

    /** The journal of a first registration: those runs end it if and only if there was no credential or
        its own, and no other agent record. Over a different credential, which only -force gets past,
        no run ever ends it. */
    method FirstRegistrationRecovers(runs: nat, force: bool, resume: bool)
      requires Ok() && journal.Some? && journal.value.previous.None?
      modifies this
      ensures Ok() && registers == old(registers)
      ensures var p := old(journal).value;
              if (old(creds).NoCred? || old(creds) == Key(p.key)) && (old(agent).Holds? ==> old(agent).agent == p.agent)
              then journal == None && Published(F(), p) else journal == old(journal)
    {
      Converge(runs, force, resume);
    }
  }
}
