/** The same, for the rules this client really writes, and for two installations side by side. */
module MergeOwn {
  import opened Wrappers
  import opened Text
  import opened Strconv
  import opened Ownership
  import opened Spellings
  import opened OwnershipLaws
  import opened OwnershipExact
  import opened Merge

  function RuleOurs(env: Env, ref: Ref): Json -> bool {
    j => RuleValueIsOurs(env, ref, j)
  }

  function RefFor(e: Entry): Ref {
    Ref([e.command], e.cfg)
  }

  function WantedRules(env: Env, e: Entry): seq<Json> {
    Rules(ClaudeAllowRules(env, e))
  }

  /** Because every rule written is recognised, whatever spelling it is in: one merge leaves
      exactly the three rules wanted, and the next changes nothing. */
  lemma ClaudeRulesSettle(env: Env, e: Entry, list: seq<Json>)
    ensures var ours, want := RuleOurs(env, RefFor(e)), WantedRules(env, e);
            var r := MergeRules(list, want, ours);
            && multiset(Mine(r, ours)) == multiset(want) && Foreign(r, ours) == Foreign(list, ours)
            && MergeRules(r, want, ours) == r
  {
    RulesAreOurs(env, e);
    RulesMerged(list, WantedRules(env, e), RuleOurs(env, RefFor(e)));
  }

  lemma {:induction false} NoneMine<T>(list: seq<T>, ours: T -> bool)
    requires forall k :: 0 <= k < |list| ==> !ours(list[k])
    ensures Mine(list, ours) == [] && Foreign(list, ours) == list
  {
    if list != [] {
      NoneMine(list[1..], ours);
      assert list == [list[0]] + list[1..];
    }
  }

  lemma {:induction false} MineOfForeign<T>(list: seq<T>, a: T -> bool, b: T -> bool)
    requires forall k :: 0 <= k < |list| ==> !(a(list[k]) && b(list[k]))
    ensures Mine(Foreign(list, b), a) == Mine(list, a)
  {
    if list != [] {
      MineOfForeign(list[1..], a, b);
      MineAppend(if b(list[0]) then [] else [list[0]], Foreign(list[1..], b), a);
    }
  }

  /** In neither of the spellings rules are written in does the config read as the other one. */
  ghost predicate Apart(env: Env, cfg: string, other: string) {
    !ReadAs(env, PosixQ, cfg, other) && !ReadAs(env, GoQ, cfg, other)
  }

  /** Plain configs are apart when they are different paths, also as `%q` escapes them. */
  lemma PlainApart(env: Env, cfg: string, other: string)
    requires cfg == "" || Plain(cfg)
    ensures Apart(env, cfg, other) <==> !SameConfig(env, cfg, other) && !EscapesTo(env, GoQ, cfg, other)
  {
    PlainReads(env, PosixQ, cfg, other);
    PlainReads(env, GoQ, cfg, other);
  }

  /** One binary, whatever is in its path; or two, both plain paths. */
  predicate Comparable(bin: string, other: string) {
    bin == other || (Plain(bin) && Plain(other))
  }

  /** A rule of one installation is not that of another whose config is apart. */
  lemma OthersRuleIsForeign(env: Env, e: Entry, other: Entry, k: nat)
    requires Comparable(e.command, other.command) && Apart(env, e.cfg, other.cfg) && k < 3
    ensures !RuleIsOurs(env, RefFor(other), ClaudeAllowRules(env, e)[k])
  {
    hide CommandIsOurs, Rendered, ClaudeAllowRules, ReadAs, EscapeAll, TrimSuffix, RuleAround;
    var sp, sc := RULE_SPELLINGS[k].0, RULE_SPELLINGS[k].1;
    var command := Rendered(env, sp, e.command, sc, e.cfg, ["search"], []);
    RuleIs(env, e, k);
    RuleUnwraps(command);
    if e.command == other.command {
      OwnByReading(env, other.cfg, sp, e.command, sc, e.cfg, ["search"], []);
    } else {
      OursByReading(env, [other.command], other.cfg, sp, e.command, sc, e.cfg, ["search"], []);
    }
  }

  /** Two installations in one file: each has exactly its own rules, whichever came last, and taking
      the second out again leaves the first's as they were. */
  lemma TwoInstallations(env: Env, e: Entry, other: Entry, list: seq<Json>)
    requires Comparable(e.command, other.command) && Apart(env, e.cfg, other.cfg) && Apart(env, other.cfg, e.cfg)
    requires forall k :: 0 <= k < |list| ==>
             !(RuleOurs(env, RefFor(e))(list[k]) && RuleOurs(env, RefFor(other))(list[k]))
    ensures var a, b := RuleOurs(env, RefFor(e)), RuleOurs(env, RefFor(other));
            var first := MergeRules(list, WantedRules(env, e), a);
            var both := MergeRules(first, WantedRules(env, other), b);
            && multiset(Mine(both, a)) == multiset(WantedRules(env, e))
            && multiset(Mine(both, b)) == multiset(WantedRules(env, other))
            && Foreign(both, b) == Foreign(first, b)
  {
    var a, b := RuleOurs(env, RefFor(e)), RuleOurs(env, RefFor(other));
    var wantA, wantB := WantedRules(env, e), WantedRules(env, other);
    var first := MergeRules(list, wantA, a);
    hide RuleValueIsOurs, ClaudeAllowRules, Apart;
    forall k | 0 <= k < |wantA|
      ensures !b(wantA[k])
    {
      WantedIsForeign(env, e, other, k);
    }
    forall k | 0 <= k < |wantB|
      ensures !a(wantB[k])
    {
      WantedIsForeign(env, other, e, k);
    }
    ClaudeRulesSettle(env, e, list);
    ClaudeRulesSettle(env, other, first);
    SharedByNone(list, wantA, a, b);
    MineOfForeign(first, a, b);
    MineAppend(Foreign(first, b), wantB, a);
    NoneMine(wantB, a);
  }

  lemma WantedIsForeign(env: Env, e: Entry, other: Entry, k: nat)
    requires Comparable(e.command, other.command) && Apart(env, e.cfg, other.cfg) && k < |WantedRules(env, e)|
    ensures !RuleOurs(env, RefFor(other))(WantedRules(env, e)[k])
  {
    hide RuleIsOurs;
    OthersRuleIsForeign(env, e, other, k);
  }

  lemma SharedByNone(list: seq<Json>, want: seq<Json>, a: Json -> bool, b: Json -> bool)
    requires forall k :: 0 <= k < |list| ==> !(a(list[k]) && b(list[k]))
    requires forall k :: 0 <= k < |want| ==> !b(want[k])
    ensures var r := MergeRules(list, want, a); forall k :: 0 <= k < |r| ==> !(a(r[k]) && b(r[k]))
  {
    ForeignAmong(list, a);
    var r := MergeRules(list, want, a);
    forall k | 0 <= k < |r|
      ensures !(a(r[k]) && b(r[k]))
    {
      if r != list && k < |Foreign(list, a)| {
        assert Foreign(list, a)[k] in list;
      }
    }
  }

  lemma {:induction false} ForeignAmong(list: seq<Json>, ours: Json -> bool)
    ensures forall x :: x in Foreign(list, ours) ==> x in list
  {
    if list != [] {
      ForeignAmong(list[1..], ours);
      assert list == [list[0]] + list[1..];
    }
  }

  /** A hook entry written for a host, on its own or in a group, is recognised as ours exactly when
      its command is. */
  lemma HookEntryIsOurs(env: Env, e: Entry, sh: Shell, sub: seq<string>, rest: string)
    requires Wordy(sub) && CommandForShell(e, sh, ["hook"], sub).Some?
    ensures var c := Object(CommandForShell(e, sh, ["hook"], sub), [], rest);
            var ours := SwallowsRest(sh, e.cfg, sub) ==> SamePath(env, Swollen(e.cfg, sub), e.cfg);
            && (EntryIsOurs(env, RefFor(e), c) <==> ours)
            && (EntryIsOurs(env, RefFor(e), Object(None, [c], rest)) <==> ours)
  {
    hide CommandIsOurs, SwallowsRest, Swollen, SamePath;
    CommandForShellIsOurs(env, e, sh, ["hook"], sub);
    var c := Object(CommandForShell(e, sh, ["hook"], sub), [], rest);
    assert Object(None, [c], rest).hooks[0] == c;
  }
}
