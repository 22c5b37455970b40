/** Which context window a session is in: its compactions, counted from what the host reports. */
module HookWindow {

  datatype Entry = Entry(generation: nat, open: bool)
  datatype Phase = SessionStart | PreCompact | PostCompact

  const FRESH := Entry(0, false)

  function EntryOf(sessions: map<string, Entry>, session: string): Entry {
    if session in sessions then sessions[session] else FRESH
  }

  /** What one reported phase makes of a session's entry. */
  function After(e: Entry, phase: Phase): Entry {
    match phase
    case SessionStart => e
    case PreCompact => if e.open then e else Entry(e.generation + 1, true)
    case PostCompact => Entry(if e.open then e.generation else e.generation + 1, false)
  }

  function AfterAll(e: Entry, phases: seq<Phase>): Entry {
    if phases == [] then e else After(AfterAll(e, phases[..|phases| - 1]), phases[|phases| - 1])
  }

  class State {
    var sessions: map<string, Entry>

    constructor ()
      ensures sessions == map[]
    {
      sessions := map[];
    }

    /** hookWindow; saving may fail, and then nothing has happened. */
    method Phase(phase: Phase, session: string, saved: bool)
      modifies this
      ensures forall s :: s != session ==>
              (s in sessions <==> s in old(sessions)) && EntryOf(sessions, s) == EntryOf(old(sessions), s)
      ensures EntryOf(sessions, session) ==
              if session != "" && saved then After(EntryOf(old(sessions), session), phase) else EntryOf(old(sessions),
                  session)
    {
      if session == "" {
        return;
      }
      var next := sessions;
      var entry, existed := EntryOf(sessions, session), session in sessions;
      match phase {
        case SessionStart =>
          if existed {
            return;
          }
          next := next[session := FRESH];
        case PreCompact =>
          if !entry.open {
            entry := Entry(entry.generation + 1, true);
          }
          next := next[session := entry];
        case PostCompact =>
          if entry.open {
            entry := entry.(open := false);
          } else {
            entry := entry.(generation := entry.generation + 1);
          }
          next := next[session := entry];
      }
      if saved {
        sessions := next;
      }
    }
  }

  // ── compactions, as hosts report them ──

  /** Before and after, after alone, or before alone. */
  datatype Report = Both | Ending | Beginning

  function PhasesOf(r: Report): seq<Phase> {
    match r
    case Both => [PreCompact, PostCompact]
    case Ending => [PostCompact]
    case Beginning => [PreCompact]
  }

  function Phases(rs: seq<Report>): seq<Phase> {
    if rs == [] then [] else Phases(rs[..|rs| - 1]) + PhasesOf(rs[|rs| - 1])
  }

  /** How many compactions come straight after one that was reported by its beginning alone. */
  function Hidden(rs: seq<Report>): nat {
    if |rs| <= 1 then 0 else Hidden(rs[..|rs| - 1]) + if rs[|rs| - 2].Beginning? then 1 else 0
  }

  lemma {:induction false} AfterAllAppend(e: Entry, a: seq<Phase>, b: seq<Phase>)
    ensures AfterAll(e, a + b) == AfterAll(AfterAll(e, a), b)
  {
    if b == [] {
      assert a + b == a;
    } else {
      var b' := b[..|b| - 1];
      assert (a + b)[..|a + b| - 1] == a + b';
      AfterAllAppend(e, a, b');
    }
  }

  lemma OneReport(e: Entry, r: Report)
    ensures AfterAll(e, PhasesOf(r)) == Entry(if e.open then e.generation else e.generation + 1, r.Beginning?)
  {
    match r {
      case Both =>
        assert [PreCompact, PostCompact][..1] == [PreCompact];
        OnePhase(e, PreCompact);
      case Ending => OnePhase(e, PostCompact);
      case Beginning => OnePhase(e, PreCompact);
    }
  }

  lemma OnePhase(e: Entry, p: Phase)
    ensures AfterAll(e, [p]) == After(e, p)
  {
    assert [p][..0] == [];
  }

  /** A session that is resumed, at whatever moment and however often, goes on as it was. */
  lemma ResumedGoesOn(e: Entry, before: seq<Phase>, after: seq<Phase>)
    ensures AfterAll(e, before + [SessionStart] + after) == AfterAll(e, before + after)
  {
    AfterAllAppend(e, before + [SessionStart], after);
    AfterAllAppend(e, before, [SessionStart]);
    AfterAllAppend(e, before, after);
    OnePhase(AfterAll(e, before), SessionStart);
  }

  /** A compaction is counted unless it comes straight after one whose end was never reported. */
  lemma {:induction false} Counted(rs: seq<Report>)
    ensures var e := AfterAll(FRESH, Phases(rs));
            e.generation == |rs| - Hidden(rs) && (e.open <==> rs != [] && rs[|rs| - 1].Beginning?)
  {
    hide After;
    if rs != [] {
      var front := rs[..|rs| - 1];
      Counted(front);
      AfterAllAppend(FRESH, Phases(front), PhasesOf(rs[|rs| - 1]));
      OneReport(AfterAll(FRESH, Phases(front)), rs[|rs| - 1]);
      assert front != [] ==> front[|front| - 1] == rs[|rs| - 2];
    }
  }

  lemma {:induction false} NoneHidden(rs: seq<Report>)
    ensures Hidden(rs) == 0 <==> forall k :: 0 <= k < |rs| - 1 ==> !rs[k].Beginning?
  {
    if |rs| > 1 {
      NoneHidden(rs[..|rs| - 1]);
      assert forall k :: 0 <= k < |rs| - 1 ==> rs[..|rs| - 1][k] == rs[k];
    }
  }

  /** So the window number is the number of compactions exactly when every one but the last was
      reported by its end. */
  lemma CountsCompactions(rs: seq<Report>)
    ensures AfterAll(FRESH, Phases(rs)).generation == |rs| <==> forall k :: 0 <= k < |rs| - 1 ==> !rs[k].Beginning?
  {
    Counted(rs);
    NoneHidden(rs);
  }
}
