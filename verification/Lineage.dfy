/** Whose session a search says it belongs to. */
module Lineage {
  import opened Wrappers
  import TempFiles

  const MAX_AGE := TempFiles.MAX_AGE

  /** How many parents a search climbs. */
  const WALK_UP := 8

  type Path = string

  /** A lineage file that could be read, of the version this client writes. */
  datatype Sidecar = Sidecar(harness: string, session: string, turn: string, call: string, window: string,
                             seqNo: nat, history: seq<string>, updated: int)

  datatype Envelope = Envelope(harness: string, session: string, turn: string, call: string, window: string,
                               seqNo: nat, history: seq<string>)

  // ── the walk ──

  /** The `k`th directory above. */
  function Above(at: Path, parent: Path -> Path, k: nat): Path {
    if k == 0 then at else parent(Above(at, parent, k - 1))
  }

  /** A file that stops the walk: any, when the search's session is not known, else that session's. */
  predicate Governs(files: map<Path, Sidecar>, path: Path, session: string) {
    path in files && (session == "" || files[path].session == session)
  }

  predicate Believed(s: Sidecar, harness: string, now: int) {
    now - s.updated <= MAX_AGE && harness != "" && s.harness == harness
  }

  /** The nearest of at most nine directories whose file governs. */
  ghost predicate Nearest(files: map<Path, Sidecar>, at: Path, parent: Path -> Path, pathOf: Path -> Path,
      session: string, k: nat) {
    && k <= WALK_UP
    && (var p := pathOf(Above(at, parent, k)); p in files && (session != "" ==> files[p].session == session))
    && forall j :: 0 <= j < k ==>
         var p := pathOf(Above(at, parent, j)); p in files ==> session != "" && files[p].session != session
  }

  /** And whose file is believed. */
  ghost predicate NearestBelieved(files: map<Path, Sidecar>, at: Path, parent: Path -> Path, pathOf: Path -> Path,
      harness: string, session: string, now: int, k: nat) {
    && Nearest(files, at, parent, pathOf, session, k)
    && Believed(files[pathOf(Above(at, parent, k))], harness, now)
  }

  /** lineageForCwd. `cwd` is absent where it is empty, and cleaned where it is not. */
  method LineageForCwd(files: map<Path, Sidecar>, known: bool, cwd: Option<Path>, parent: Path -> Path,
      pathOf: Path -> Path, harness: string, session: string, now: int)
      returns (found: Option<Path>, ghost visited: seq<Path>)
    ensures found.Some? <==>
            && known && cwd.Some?
            && exists k :: NearestBelieved(files, cwd.value, parent, pathOf, harness, session, now, k)
    ensures found.Some? ==>
              exists k :: Nearest(files, cwd.value, parent, pathOf, session, k) &&
                found.value == pathOf(Above(cwd.value, parent, k))
    ensures |visited| <= 9 && (forall k :: 0 <= k < |visited| ==>
              cwd.Some? && visited[k] == Above(cwd.value, parent, k))
    ensures found.Some? ==> visited != [] && found.value == pathOf(visited[|visited| - 1])
  {
    visited := [];
    if !known || cwd.None? || harness == "" {
      return None, visited;
    }
    var at := cwd.value;
    var i := 0;
    while i <= WALK_UP
      invariant i <= WALK_UP + 1 && |visited| == i
      invariant at == Above(cwd.value, parent, i)
      invariant forall k :: 0 <= k < i ==> visited[k] == Above(cwd.value, parent, k)
      invariant forall k :: 0 <= k < i ==> !Governs(files, pathOf(Above(cwd.value, parent, k)), session)
    {
      visited := visited + [at];
      var path := pathOf(at);
      if Governs(files, path, session) {
        assert Nearest(files, cwd.value, parent, pathOf, session, i);
        OnlyNearest(files, cwd.value, parent, pathOf, session, i);
        if now - files[path].updated > MAX_AGE || files[path].harness != harness {
          return None, visited;
        }
        assert NearestBelieved(files, cwd.value, parent, pathOf, harness, session, now, i);
        return Some(path), visited;
      }
      var up := parent(at);
      if up == at {
        NothingAbove(cwd.value, parent, i);
        break;
      }
      at := up;
      i := i + 1;
    }
    return None, visited;
  }

  lemma OnlyNearest(files: map<Path, Sidecar>, at: Path, parent: Path -> Path, pathOf: Path -> Path, session: string,
      k: nat)
    requires Nearest(files, at, parent, pathOf, session, k)
    ensures forall j: nat :: Nearest(files, at, parent, pathOf, session, j) ==> j == k
  {
  }

  /** Past the root there is only the root. */
  lemma {:induction false} NothingAbove(at: Path, parent: Path -> Path, i: nat)
    requires parent(Above(at, parent, i)) == Above(at, parent, i)
    ensures forall k :: i <= k <= WALK_UP + i ==> Above(at, parent, k) == Above(at, parent, i)
  {
    var n := i;
    while n < WALK_UP + i
      invariant i <= n <= WALK_UP + i
      invariant forall k :: i <= k <= n ==> Above(at, parent, k) == Above(at, parent, i)
    {
      n := n + 1;
    }
  }

  /** What the walk finds: there is at most one nearest file. */
  ghost function Walked(files: map<Path, Sidecar>, known: bool, cwd: Option<Path>, parent: Path -> Path,
      pathOf: Path -> Path, harness: string, session: string, now: int): Option<Path> {
    if known && cwd.Some? && exists k :: NearestBelieved(files, cwd.value, parent, pathOf, harness, session, now, k)
    then
      var k :| NearestBelieved(files, cwd.value, parent, pathOf, harness, session, now, k);
      Some(pathOf(Above(cwd.value, parent, k)))
    else None
  }

  // ── what may travel ──

  /** traceEnvelopeCap. */
  const ENVELOPE_CAP := 48 * 1024

  /** Code not modelled here: filepath.Dir, the hashed file name, decoding a bridge value, an
      envelope's length as JSON, and the scrubbing of one text. */
  datatype Outside = Outside(parent: Path -> Path, pathOf: Path -> Path, decode: string -> Option<Envelope>,
                             size: Envelope -> nat, prepare: string -> string)

  function Prepared(texts: seq<string>, prepare: string -> string): seq<string> {
    if texts == [] then [] else [prepare(texts[0])] + Prepared(texts[1..], prepare)
  }

  /** capTrace: the history goes first, then all of it. */
  function CapTrace(env: Envelope, o: Outside): (r: Option<Envelope>)
    ensures r.Some? ==> o.size(r.value) <= ENVELOPE_CAP && r.value.(history := []) == env.(history := [])
  {
    var whole := env.(history := Prepared(env.history, o.prepare));
    var bare := env.(history := []);
    if o.size(whole) <= ENVELOPE_CAP then Some(whole)
    else if o.size(bare) <= ENVELOPE_CAP then Some(bare)
    else None
  }

  /** The same, each text of its history scrubbed. */
  ghost predicate Scrubbed(env: Envelope, t: Envelope, prepare: string -> string) {
    && t.(history := []) == env.(history := []) && |t.history| == |env.history|
    && forall k :: 0 <= k < |env.history| ==> t.history[k] == prepare(env.history[k])
  }

  lemma {:induction false} PreparedEach(texts: seq<string>, prepare: string -> string)
    ensures |Prepared(texts, prepare)| == |texts|
    ensures forall k :: 0 <= k < |texts| ==> Prepared(texts, prepare)[k] == prepare(texts[k])
  {
    if texts != [] {
      PreparedEach(texts[1..], prepare);
    }
  }

  /** Everything scrubbed is sent if it fits; the history is lost only if it does not, and all of
      it only if even the rest does not. */
  lemma CapTraceKeepsWhatFits(env: Envelope, t: Envelope, o: Outside)
    requires Scrubbed(env, t, o.prepare)
    ensures CapTrace(env, o) == Some(t) <==>
            o.size(t) <= ENVELOPE_CAP || (env.history == [] && o.size(env) <= ENVELOPE_CAP)
    ensures CapTrace(env, o) == Some(env.(history := [])) <==>
            o.size(env.(history := [])) <= ENVELOPE_CAP && (o.size(t) > ENVELOPE_CAP || env.history == [])
    ensures CapTrace(env, o) == None <==> o.size(t) > ENVELOPE_CAP && o.size(env.(history := [])) > ENVELOPE_CAP
  {
    PreparedEach(env.history, o.prepare);
    assert t.history == Prepared(env.history, o.prepare);
    assert t == env.(history := t.history);
  }

  // ── one search ──

  /** What a search is started with: its environment, its directory, its clock, the ids it makes
      up for itself, and whether what it saves can be written. */
  datatype Search = Search(tracing: string, harness: string, session: string, declared: string, bridge: string,
                           known: bool, cwd: Option<Path>, now: int, shell: string, call: string, writable: bool)

  datatype Source = Off | Bridge(env: Envelope) | File(path: Path) | Shell

  function LowerOne(c: char): char {
    if 'A' <= c <= 'Z' then ((c as int) + 32) as char else c
  }

  function Lower(s: string): string {
    if s == "" then "" else [LowerOne(s[0])] + Lower(s[1..])
  }

  predicate IsOff(s: Search) {
    Lower(s.tracing) in {"off", "0", "false"}
  }

  /** This word, in whatever case. */
  predicate Reads(s: string, lower: string, upper: string)
    requires |lower| == |upper|
  {
    |s| == |lower| && forall k :: 0 <= k < |s| ==> s[k] == lower[k] || s[k] == upper[k]
  }

  lemma {:induction false} LowerEach(s: string)
    ensures |Lower(s)| == |s|
    ensures forall k :: 0 <= k < |s| ==> Lower(s)[k] == LowerOne(s[k])
  {
    if s != "" {
      LowerEach(s[1..]);
    }
  }

  lemma IsOffIff(s: Search)
    ensures IsOff(s) <==> Reads(s.tracing, "off", "OFF") || s.tracing == "0" || Reads(s.tracing, "false", "FALSE")
  {
    LowerEach(s.tracing);
    hide Lower;
    LowerReads(s.tracing, "off", "OFF");
    LowerReads(s.tracing, "0", "0");
    LowerReads(s.tracing, "false", "FALSE");
    assert Reads(s.tracing, "0", "0") <==> s.tracing == "0";
  }

  lemma LowerReads(t: string, lower: string, upper: string)
    requires |lower| == |upper| && |Lower(t)| == |t|
    requires forall k :: 0 <= k < |t| ==> Lower(t)[k] == LowerOne(t[k])
    requires forall k :: 0 <= k < |lower| ==>
               if 'a' <= lower[k] <= 'z' then (upper[k] as int) + 32 == lower[k] as int
               else upper[k] == lower[k] && !('A' <= lower[k] <= 'Z')
    ensures Lower(t) == lower <==> Reads(t, lower, upper)
  {
    hide Lower;
    if Reads(t, lower, upper) {
      assert forall k :: 0 <= k < |t| ==> Lower(t)[k] == lower[k];
    }
    if Lower(t) == lower {
      assert forall k :: 0 <= k < |t| ==> Lower(t)[k] == lower[k];
    }
  }

  /** The file the host declared is believed: it is fresh, and this session's where that is known. */
  predicate DeclaredHolds(files: map<Path, Sidecar>, s: Search) {
    && s.declared != "" && s.declared in files
    && s.now - files[s.declared].updated <= MAX_AGE
    && (s.session == "" || files[s.declared].session == s.session)
  }

  ghost function Adopted(files: map<Path, Sidecar>, s: Search, o: Outside): Option<Path> {
    if DeclaredHolds(files, s) then Some(s.declared)
    else Walked(files, s.known, s.cwd, o.parent, o.pathOf, s.harness, s.session, s.now)
  }

  /** Where a search's identity comes from. */
  ghost function SourceOf(files: map<Path, Sidecar>, s: Search, o: Outside): Source {
    if IsOff(s) then Off
    else if s.declared == "" && s.bridge != "" && o.decode(s.bridge).Some? then Bridge(o.decode(s.bridge).value)
    else
      var p := Adopted(files, s, o);
      if p.Some? && p.value in files && files[p.value].session != "" then File(p.value) else Shell
  }

  function Labelled(env: Envelope, harness: string): Envelope {
    if harness != "" then env.(harness := harness) else env
  }

  function Bumped(c: Sidecar): Sidecar {
    c.(seqNo := c.seqNo + 1)
  }

  /** envelope, of a file that names a session. */
  function EnvelopeOf(c: Sidecar): Envelope {
    Envelope(c.harness, c.session, c.turn, c.call, c.window, c.seqNo, c.history)
  }

  function OwnEnvelope(s: Search): Envelope {
    Envelope(if s.harness != "" then s.harness else "cli", s.shell, "", s.call, "", 0, [])
  }

  /** What reaches the router. */
  ghost function Sent(files: map<Path, Sidecar>, s: Search, o: Outside): Option<Envelope> {
    match SourceOf(files, s, o)
    case Off => None
    case Bridge(env) => CapTrace(Labelled(env, s.harness), o)
    case File(path) =>
      if path in files then CapTrace(Labelled(EnvelopeOf(Bumped(files[path])), s.harness), o) else None
    case Shell => CapTrace(OwnEnvelope(s), o)
  }

  /** And what is on disk afterwards. */
  ghost function Left(files: map<Path, Sidecar>, s: Search, o: Outside): map<Path, Sidecar> {
    match SourceOf(files, s, o)
    case File(path) =>
      if s.writable && path in files then
        files[path := Bumped(files[path]).(history := Prepared(files[path].history, o.prepare), updated := s.now)]
      else files
    case _ => files
  }

  class Miner {
    var files: map<Path, Sidecar>

    constructor ()
      ensures files == map[]
    {
      files := map[];
    }

    /** searchTrace. */
    method SearchTrace(s: Search, o: Outside) returns (env: Option<Envelope>, foreignBridge: bool)
      modifies this
      ensures env == Sent(old(files), s, o) && files == Left(old(files), s, o)
      ensures foreignBridge <==> !IsOff(s) && s.bridge != "" && s.declared != ""
    {
      hide CapTrace, Prepared, Nearest, Believed, Above, Lower;
      foreignBridge := false;
      if IsOff(s) {
        return None, false;
      }
      if s.bridge != "" {
        if s.declared != "" {
          foreignBridge := true;
        } else {
          var decoded := o.decode(s.bridge);
          if decoded.Some? {
            var d := decoded.value;
            if s.harness != "" {
              d := d.(harness := s.harness);
            }
            return CapTrace(d, o), false;
          }
        }
      }
      var at: Option<Path> := None;
      if s.declared != "" && s.declared in files {
        var l := files[s.declared];
        if s.now - l.updated <= MAX_AGE && (s.session == "" || l.session == s.session) {
          at := Some(s.declared);
        }
      }
      if at.None? {
        ghost var visited;
        at, visited := LineageForCwd(files, s.known, s.cwd, o.parent, o.pathOf, s.harness, s.session, s.now);
        WalkedIsFound(files, s, o, at);
      }
      assert at == Adopted(files, s, o);
      if at.Some? && at.value in files {
        var lf := Bumped(files[at.value]);
        if lf.session != "" {
          var e := EnvelopeOf(lf);
          if s.harness != "" {
            e := e.(harness := s.harness);
          }
          if s.writable {
            files := files[at.value := lf.(history := Prepared(lf.history, o.prepare), updated := s.now)];
          }
          return CapTrace(e, o), foreignBridge;
        }
      }
      return CapTrace(OwnEnvelope(s), o), foreignBridge;
    }
  }

  lemma WalkedIsFound(files: map<Path, Sidecar>, s: Search, o: Outside, found: Option<Path>)
    requires found.Some? <==>
             && s.known && s.cwd.Some?
             && exists k :: NearestBelieved(files, s.cwd.value, o.parent, o.pathOf, s.harness, s.session, s.now, k)
    requires found.Some? ==>
               exists k :: Nearest(files, s.cwd.value, o.parent, o.pathOf, s.session, k) &&
                 found.value == o.pathOf(Above(s.cwd.value, o.parent, k))
    ensures found == Walked(files, s.known, s.cwd, o.parent, o.pathOf, s.harness, s.session, s.now)
  {
    hide Believed;
    if found.Some? {
      var k :| Nearest(files, s.cwd.value, o.parent, o.pathOf, s.session, k) &&
        found.value == o.pathOf(Above(s.cwd.value, o.parent, k));
      OnlyNearest(files, s.cwd.value, o.parent, o.pathOf, s.session, k);
    }
  }

  // ── whose session ──

  /** The file a search adopts is fresh; it holds the session the shell was started in, where the
      host said which; and its harness is the host's, unless the host named that very file. */
  lemma AdoptedIsOwn(files: map<Path, Sidecar>, s: Search, o: Outside)
    ensures var src := SourceOf(files, s, o);
            src.File? ==>
              && src.path in files && files[src.path].session != ""
              && s.now - files[src.path].updated <= MAX_AGE
              && (s.session != "" ==> files[src.path].session == s.session)
              && (src.path == s.declared || (s.harness != "" && files[src.path].harness == s.harness))
  {
  }

  /** A search whose host said which session it is in goes out as that session, as the session a
      bridge meant for it names, or as its own shell's: never as another's. */
  lemma SentIsOwn(files: map<Path, Sidecar>, s: Search, o: Outside)
    requires s.session != "" && Sent(files, s, o).Some?
    ensures var e := Sent(files, s, o).value;
            || e.session == s.session
            || e.session == s.shell
            || (s.declared == "" && o.decode(s.bridge).Some? && e.session == o.decode(s.bridge).value.session)
  {
    hide Walked, IsOff, Prepared;
    AdoptedIsOwn(files, s, o);
  }

  /** Where tracing is off nothing is sent and nothing saved; where it is not, something is sent
      unless it is too long for a header. */
  lemma OffIsSilent(files: map<Path, Sidecar>, s: Search, o: Outside)
    ensures IsOff(s) ==> Sent(files, s, o) == None && Left(files, s, o) == files
    ensures !IsOff(s) && (forall e :: o.size(e) <= ENVELOPE_CAP) ==> Sent(files, s, o).Some?
  {
    hide IsOff, Adopted, Prepared;
  }

  /** The harness the host declared is the one sent. */
  lemma DeclaredHarnessIsSent(files: map<Path, Sidecar>, s: Search, o: Outside)
    requires s.harness != "" && Sent(files, s, o).Some?
    ensures Sent(files, s, o).value.harness == s.harness
  {
    hide Adopted, IsOff, Prepared;
  }

  /** Where a lineage file is declared, nothing of a bridge reaches the router or the disk. */
  lemma DeclaredIgnoresBridge(files: map<Path, Sidecar>, s: Search, o: Outside, bridge: string)
    requires s.declared != ""
    ensures Sent(files, s, o) == Sent(files, s.(bridge := bridge), o)
    ensures Left(files, s, o) == Left(files, s.(bridge := bridge), o)
  {
    hide Walked, CapTrace, Prepared, Nearest, Believed, Above, Lower, Labelled, EnvelopeOf, Bumped;
    var t := s.(bridge := bridge);
    assert Adopted(files, t, o) == Adopted(files, s, o);
    assert SourceOf(files, t, o) == SourceOf(files, s, o);
  }

  // ── over whole runs ──

  ghost function LeftByAll(files: map<Path, Sidecar>, run: seq<Search>, o: Outside): map<Path, Sidecar> {
    if run == [] then files else LeftByAll(Left(files, run[0], o), run[1..], o)
  }

  /** How often a run's searches saved to a file. */
  ghost function Saves(files: map<Path, Sidecar>, path: Path, run: seq<Search>, o: Outside): nat {
    if run == [] then 0
    else
      (if run[0].writable && SourceOf(files, run[0], o) == File(path) then 1 else 0) +
      Saves(Left(files, run[0], o), path, run[1..], o)
  }

  lemma LeftKeeps(files: map<Path, Sidecar>, path: Path, s: Search, o: Outside)
    requires path in files
    ensures var after := Left(files, s, o);
            && path in after && after[path].session == files[path].session && after[path].harness == files[path].harness
            && after[path].seqNo == files[path].seqNo +
               (if s.writable && SourceOf(files, s, o) == File(path) then 1 else 0)
            && (!(s.writable && SourceOf(files, s, o) == File(path)) ==> after[path] == files[path])
  {
    hide SourceOf, Prepared;
  }

  /** A file counts exactly the searches that were made as its session; and searches made as other
      sessions leave it as it was. */
  lemma {:induction false} CountsItsOwn(files: map<Path, Sidecar>, path: Path, run: seq<Search>, o: Outside)
    requires path in files
    ensures var after := LeftByAll(files, run, o);
            && path in after && after[path].session == files[path].session
            && after[path].seqNo == files[path].seqNo + Saves(files, path, run, o)
            && ((forall k :: 0 <= k < |run| ==> run[k].session != "" && run[k].session != files[path].session) ==>
                 after[path] == files[path])
    decreases |run|
  {
    hide SourceOf, Left;
    if run != [] {
      LeftKeeps(files, path, run[0], o);
      AdoptedIsOwn(files, run[0], o);
      CountsItsOwn(Left(files, run[0], o), path, run[1..], o);
      assert forall k :: 0 <= k < |run[1..]| ==> run[1..][k] == run[k + 1];
    }
  }

  /** The files as the `k`th search of a run finds them. */
  ghost function Before(files: map<Path, Sidecar>, run: seq<Search>, o: Outside, k: nat): map<Path, Sidecar>
    requires k <= |run|
  {
    LeftByAll(files, run[..k], o)
  }

  lemma {:induction false} LeftByAppend(files: map<Path, Sidecar>, a: seq<Search>, b: seq<Search>, o: Outside)
    ensures LeftByAll(files, a + b, o) == LeftByAll(LeftByAll(files, a, o), b, o)
    decreases |a|
  {
    hide Left;
    if a == [] {
      assert a + b == b;
    } else {
      assert (a + b)[0] == a[0] && (a + b)[1..] == a[1..] + b;
      LeftByAppend(Left(files, a[0], o), a[1..], b, o);
    }
  }

  /** No search of a run makes a lineage file, or changes whose one is. */
  lemma {:induction false} RunKeepsOwners(files: map<Path, Sidecar>, run: seq<Search>, o: Outside)
    ensures var after := LeftByAll(files, run, o);
            && after.Keys == files.Keys
            && forall p :: p in files ==> after[p].session == files[p].session && after[p].harness == files[p].harness
    decreases |run|
  {
    hide SourceOf, Prepared;
    if run != [] {
      RunKeepsOwners(Left(files, run[0], o), run[1..], o);
    }
  }

  /** Throughout a run, whatever the searches before it have left: a search adopts a file that was
      there at the start, of the session its shell was started in where the host said which, and of
      its own harness unless the host named that file; and the file is no older than half a day. */
  lemma RunAdoptsOwn(files: map<Path, Sidecar>, run: seq<Search>, o: Outside, k: nat)
    requires k < |run|
    ensures var s, now := run[k], Before(files, run, o, k);
            var src := SourceOf(now, s, o);
            src.File? ==>
              && src.path in files && src.path in now && files[src.path].session != ""
              && s.now - now[src.path].updated <= MAX_AGE
              && (s.session != "" ==> files[src.path].session == s.session)
              && (src.path == s.declared || (s.harness != "" && files[src.path].harness == s.harness))
  {
    hide SourceOf, LeftByAll;
    RunKeepsOwners(files, run[..k], o);
    AdoptedIsOwn(Before(files, run, o, k), run[k], o);
  }

  /** And goes out as that session, as the one a bridge meant for it names, or as its shell's. */
  lemma RunSendsOwn(files: map<Path, Sidecar>, run: seq<Search>, o: Outside, k: nat)
    requires k < |run| && run[k].session != "" && Sent(Before(files, run, o, k), run[k], o).Some?
    ensures var s := run[k];
            var e := Sent(Before(files, run, o, k), s, o).value;
            && (s.harness != "" ==> e.harness == s.harness)
            && (|| (e.session == s.session && exists p :: p in files && files[p].session == s.session)
                || e.session == s.shell
                || (s.declared == "" && o.decode(s.bridge).Some? && e.session == o.decode(s.bridge).value.session))
  {
    hide SourceOf, LeftByAll, Prepared;
    var now := Before(files, run, o, k);
    RunAdoptsOwn(files, run, o, k);
    SentIsOwn(now, run[k], o);
    if run[k].harness != "" {
      DeclaredHarnessIsSent(now, run[k], o);
    }
    FromWhom(now, run[k], o);
    RunKeepsOwners(files, run[..k], o);
  }

  lemma FromWhom(files: map<Path, Sidecar>, s: Search, o: Outside)
    requires Sent(files, s, o).Some?
    ensures var src, e := SourceOf(files, s, o), Sent(files, s, o).value;
            && (src.File? ==>
                  && src.path in files && e.session == files[src.path].session
                  && e.seqNo == files[src.path].seqNo + 1)
            && (src.Shell? ==> e.session == s.shell)
            && (src.Bridge? ==>
                  && s.declared == "" && o.decode(s.bridge).Some?
                  && e.session == o.decode(s.bridge).value.session)
            && !src.Off?
  {
    hide Adopted, IsOff, Prepared;
  }

  /** Two searches of a run that go out from one file never carry the same number: once the first
      was saved, the second's is higher. */
  lemma NumbersRise(files: map<Path, Sidecar>, run: seq<Search>, o: Outside, i: nat, j: nat, path: Path)
    requires i < j < |run| && run[i].writable
    requires SourceOf(Before(files, run, o, i), run[i], o) == File(path)
    requires SourceOf(Before(files, run, o, j), run[j], o) == File(path)
    requires Sent(Before(files, run, o, i), run[i], o).Some? && Sent(Before(files, run, o, j), run[j], o).Some?
    ensures Sent(Before(files, run, o, i), run[i], o).value.seqNo < Sent(Before(files, run, o, j), run[j],
              o).value.seqNo
  {
    hide SourceOf, Sent, Left, LeftByAll;
    var first := Before(files, run, o, i);
    FromWhom(first, run[i], o);
    FromWhom(Before(files, run, o, j), run[j], o);
    LeftKeeps(first, path, run[i], o);
    assert run[..j] == run[..i] + [run[i]] + run[i + 1..j];
    LeftByAppend(files, run[..i] + [run[i]], run[i + 1..j], o);
    LeftByAppend(files, run[..i], [run[i]], o);
    OneLeft(first, run[i], o);
    CountsItsOwn(Left(first, run[i], o), path, run[i + 1..j], o);
  }

  lemma OneLeft(files: map<Path, Sidecar>, s: Search, o: Outside)
    ensures LeftByAll(files, [s], o) == Left(files, s, o)
  {
    hide Left;
    assert [s][1..] == [];
  }

  /** The same searches, but for the bridges of those whose host declared a lineage file. */
  predicate SameButBridges(a: seq<Search>, b: seq<Search>) {
    |a| == |b| && forall k :: 0 <= k < |a| ==>
      b[k] == a[k] || (a[k].declared != "" && b[k] == a[k].(bridge := b[k].bridge))
  }

  /** Whatever those bridges hold, the whole run sends and leaves the same. */
  lemma {:induction false} RunIgnoresBridges(files: map<Path, Sidecar>, a: seq<Search>, b: seq<Search>, o: Outside)
    requires SameButBridges(a, b)
    ensures LeftByAll(files, a, o) == LeftByAll(files, b, o)
    ensures forall k :: 0 <= k < |a| ==> Sent(Before(files, a, o, k), a[k], o) == Sent(Before(files, b, o, k), b[k], o)
    decreases |a|
  {
    hide Sent, Left;
    if a != [] {
      if b[0] != a[0] {
        DeclaredIgnoresBridge(files, a[0], o, b[0].bridge);
      }
      var next := Left(files, a[0], o);
      RunIgnoresBridges(next, a[1..], b[1..], o);
      forall k | 0 <= k < |a|
        ensures Sent(Before(files, a, o, k), a[k], o) == Sent(Before(files, b, o, k), b[k], o)
      {
        if k > 0 {
          BeforeNext(files, a, o, k);
          BeforeNext(files, b, o, k);
          assert a[1..][k - 1] == a[k] && b[1..][k - 1] == b[k];
        }
      }
    }
  }

  lemma BeforeNext(files: map<Path, Sidecar>, run: seq<Search>, o: Outside, k: nat)
    requires 0 < k <= |run|
    ensures Before(files, run, o, k) == Before(Left(files, run[0], o), run[1..], o, k - 1)
  {
    hide Left;
    assert run[..k][0] == run[0] && run[..k][1..] == run[1..][..k - 1];
  }
}
