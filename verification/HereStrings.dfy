/** A PowerShell here-string whose body holds the line that closes it. What the body says after that
    line is read as the command, and only what is left over at the end of it is a reason to refuse. */
module HereStrings {
  import opened Wrappers
  import opened Text
  import opened Ownership
  import opened RenderedForm
  import opened RenderedSearch
  import opened RenderedSearchLaws

  const CLOSE := HERE_CLOSE + "& '"

  // ── runs that cannot overlap themselves ──

  /** A run with this character in front and nowhere else. */
  predicate Leads(q: string, c: char) {
    q != "" && q[0] == c && forall k :: 0 < k < |q| ==> q[k] != c
  }

  /** Such a run behind a text is found at its end exactly when the text does not hold it. */
  lemma FoundAtEnd(u: string, q: string, c: char)
    requires Leads(q, c)
    ensures Index(u + q, q).Some? && Index(u + q, q).value <= |u|
    ensures Index(u + q, q) == Some(|u|) <==> !Occurs(u, q)
    ensures Index(u + q, q).value < |u| ==> Index(u + q, q).value + |q| <= |u|
  {
    hide Index;
    var t := u + q;
    assert t[|u|..|u| + |q|] == q;
    assert OccursAt(t, q, |u|);
    var k := Index(t, q).value;
    if k < |u| < k + |q| {
      CharAt(t, q, k, |u| - k);
    }
    if k < |u| {
      assert u[k..k + |q|] == t[k..k + |q|];
      assert OccursAt(u, q, k);
    }
    if i :| OccursAt(u, q, i) {
      assert t[i..i + |q|] == u[i..i + |q|];
      assert OccursAt(t, q, i);
      assert k < |u|;
    }
  }

  /** And then it is found there whatever follows. */
  lemma FoundBefore(u: string, q: string, rest: string)
    requires q != ""
    ensures Index(u + q, q).Some? && Index(u + (q + rest), q) == Index(u + q, q)
  {
    hide Index;
    var s, t := u + q, u + (q + rest);
    assert s[|u|..|u| + |q|] == q;
    assert OccursAt(s, q, |u|);
    var k := Index(s, q).value;
    assert t == s + rest;
    assert t[k..k + |q|] == s[k..k + |q|];
    assert OccursAt(t, q, k);
    forall i | OccursAt(t, q, i) && i < k
      ensures OccursAt(s, q, i)
    {
      assert s[i..i + |q|] == t[i..i + |q|];
    }
  }

  lemma RunsLead()
    ensures Leads(CLOSE, '\n') && Leads(SEARCH + STDIN, SINGLE) && Leads("'" + STDIN, SINGLE)
  {
    assert '\n' !in HERE_CLOSE[1..] && CLOSE[1..] == HERE_CLOSE[1..] + "& '";
    assert SINGLE !in SEARCH[1..] && SINGLE !in STDIN && (SEARCH + STDIN)[1..] == SEARCH[1..] + STDIN;
    assert ("'" + STDIN)[1..] == STDIN;
    Tails(CLOSE, '\n');
    Tails(SEARCH + STDIN, SINGLE);
    Tails("'" + STDIN, SINGLE);
  }

  lemma Tails(q: string, c: char)
    requires q != "" && q[0] == c && c !in q[1..]
    ensures Leads(q, c)
  {
    forall k | 0 < k < |q|
      ensures q[k] != c
    {
      assert q[1..][k - 1] == q[k];
    }
  }

  // ── what is read after the closing line ──

  /** The command that is read after the first closing line: what the body goes on with, its closing
      line and the binary. */
  function ReadOn(after: string, bin: string): string {
    after + (CLOSE + bin)
  }

  /** That leaves text over, or no binary. */
  ghost predicate LeavesText(withConfig: bool, after: string, bin: string, cfg: string) {
    if withConfig then
      var read := ReadOn(after, bin) + WITH_CONFIG + cfg;
      var at := Index(read, WITH_CONFIG);
      at.None? || at.value == 0 || Occurs(read[at.value + |WITH_CONFIG|..], "'" + STDIN)
    else Occurs(ReadOn(after, bin), SEARCH + STDIN)
  }

  lemma LastRunIff(t: string, end: string)
    ensures MatchParts(t, [Run(end)]) == if t == end then Some([]) else None
  {
    assert [Run(end)][1..] == [];
    assert end <= t ==> t == end + t[|end|..];
  }

  /** A hole with the last run behind it. */
  lemma LastHole(a: string, m: string, u: string, end: string)
    requires Leads(end, SINGLE)
    ensures var r := MatchParts(a + (u + end), Opening(a, m, [Run(end)]));
            r == if Occurs(u, end) then None else Some([u])
  {
    hide MatchParts, Index, Occurs;
    var t := u + end;
    FoundAtEnd(u, end, SINGLE);
    var j := Index(t, end).value;
    HoleMatch(a, m, [Run(end)], t, j);
    LastRunIff(t[j..], end);
    if j == |u| {
      assert t[j..] == end && t[..j] == u && [u] + [] == [u];
    } else {
      assert |t[j..]| > |end|;
    }
  }

  /** What is matched of the command that is read on. */
  ghost predicate Reads(r: Option<seq<string>>, withConfig: bool, after: string, bin: string, cfg: string) {
    if LeavesText(withConfig, after, bin, cfg) then r.Some? ==> r.value != [] && r.value[0] == ""
    else r.Some? && r.value != [] && r.value[0] != "" && (!withConfig ==> r.value[0] == ReadOn(after, bin))
  }

  lemma ReadsPlain(after: string, bin: string, cfg: string)
    ensures Reads(MatchParts(CLOSE + (ReadOn(after, bin) + (SEARCH + STDIN)),
                             Opening(CLOSE, BINARY, [Run(SEARCH + STDIN)])), false, after, bin, cfg)
  {
    hide MatchParts, Occurs;
    RunsLead();
    LastHole(CLOSE, BINARY, ReadOn(after, bin), SEARCH + STDIN);
  }

  /** The config's own run, found at the front of what is read on. */
  lemma ConfigFound(u: string, cfg: string, last: string)
    ensures var read, t := u + WITH_CONFIG + cfg, u + (WITH_CONFIG + (cfg + last));
            && t == read + last && Index(read, WITH_CONFIG).Some? && Index(t, WITH_CONFIG) == Index(read, WITH_CONFIG)
            && var j := Index(read, WITH_CONFIG).value;
               j + |WITH_CONFIG| <= |read| && t[j..] == WITH_CONFIG + (read[j + |WITH_CONFIG|..] + last)
  {
    hide Index;
    var q := WITH_CONFIG;
    FoundBefore(u, q, cfg);
    FoundBefore(u, q, cfg + last);
    Grouped(u, q, cfg, last);
    var read := u + q + cfg;
    var j := Index(read, q).value;
    assert read[j..] == q + read[j + |q|..] by {
      assert read[j..j + |q|] == q;
    }
    CutBehind(read, last, j);
  }

  lemma Grouped(u: string, q: string, cfg: string, last: string)
    ensures u + (q + (cfg + last)) == (u + q + cfg) + last && u + q + cfg == u + (q + cfg)
    ensures forall rest :: (q + rest) + last == q + (rest + last)
  {
  }

  lemma CutBehind(a: string, b: string, k: nat)
    requires k <= |a|
    ensures (a + b)[k..] == a[k..] + b && (a + b)[..k] == a[..k]
  {
  }

  lemma ReadsConfig(after: string, bin: string, cfg: string)
    ensures Reads(MatchParts(CLOSE + (ReadOn(after, bin) + (WITH_CONFIG + (cfg + ("'" + STDIN)))),
                             Opening(CLOSE, BINARY, Opening(WITH_CONFIG, CONFIG, [Run("'" + STDIN)]))),
                  true, after, bin, cfg)
  {
    hide MatchParts, Occurs, Index, ReadOn, Leads;
    RunsLead();
    var u, last := ReadOn(after, bin), "'" + STDIN;
    var read, t := u + WITH_CONFIG + cfg, u + (WITH_CONFIG + (cfg + last));
    ConfigFound(u, cfg, last);
    var j := Index(read, WITH_CONFIG).value;
    HoleMatch(CLOSE, BINARY, Opening(WITH_CONFIG, CONFIG, [Run(last)]), t, j);
    LastHole(WITH_CONFIG, CONFIG, read[j + |WITH_CONFIG|..], last);
    assert t[..j] == "" <==> j == 0;
  }

  // ── the whole block ──

  /** The block after its body. */
  lemma BlockSplits(bin: string, tail: string, body: string, k: nat)
    requires Index(body + CLOSE, CLOSE) == Some(k) && k + |CLOSE| <= |body|
    ensures var t := body + (CLOSE + (bin + tail));
            Index(t, CLOSE) == Some(k) && t[..k] == body[..k] &&
            t[k..] == CLOSE + (ReadOn(body[k + |CLOSE|..], bin) + tail)
  {
    hide Index, ReadOn;
    FoundBefore(body, CLOSE, bin + tail);
    var after := body[k + |CLOSE|..];
    ClosingLine(body, CLOSE, k);
    CutBehind(body, CLOSE + (bin + tail), k);
    Regroup(CLOSE, after, bin, tail);
  }

  lemma ClosingLine(body: string, q: string, k: nat)
    requires OccursAt(body + q, q, k) && k + |q| <= |body|
    ensures body[k..] == q + body[k + |q|..]
  {
    assert body[k..k + |q|] == (body + q)[k..k + |q|];
  }

  lemma Regroup(q: string, after: string, bin: string, tail: string)
    ensures q == CLOSE ==> q + after + (q + (bin + tail)) == q + (ReadOn(after, bin) + tail)
  {
  }

  function AfterBody(withConfig: bool): seq<Part> {
    Opening(CLOSE, BINARY,
            if withConfig then Opening(WITH_CONFIG, CONFIG, [Run("'" + STDIN)]) else [Run(SEARCH + STDIN)])
  }

  lemma ReadsTail(withConfig: bool, after: string, bin: string, cfg: string)
    ensures var tail := if withConfig then WITH_CONFIG + (cfg + ("'" + STDIN)) else SEARCH + STDIN;
            Reads(MatchParts(CLOSE + (ReadOn(after, bin) + tail), AfterBody(withConfig)), withConfig, after, bin, cfg)
  {
    hide MatchParts, Reads;
    if withConfig {
      ReadsConfig(after, bin, cfg);
    } else {
      ReadsPlain(after, bin, cfg);
    }
  }

  lemma BlockReads(withConfig: bool, bin: string, cfg: string, body: string, k: nat)
    requires Index(body + CLOSE, CLOSE) == Some(k) && k + |CLOSE| <= |body|
    ensures var r := MatchParts(BlockText(PowerShell, withConfig, bin, cfg, body), FormParts(PowerShell, withConfig));
            && (r.Some? ==> |r.value| >= 2 && r.value[0] == body[..k])
            && Reads(if r.Some? then Some(r.value[1..]) else None, withConfig, body[k + |CLOSE|..], bin, cfg)
  {
    hide MatchParts, Index, BlockText, Reads, ReadOn;
    PowerShellText(withConfig, bin, cfg, body);
    var tail := if withConfig then WITH_CONFIG + (cfg + ("'" + STDIN)) else SEARCH + STDIN;
    var t, after := body + (CLOSE + (bin + tail)), body[k + |CLOSE|..];
    BlockSplits(bin, tail, body, k);
    HoleMatch(ENCODING + HERE_OPEN, BODY, AfterBody(withConfig), t, k);
    ReadsTail(withConfig, after, bin, cfg);
    var r := MatchParts(t[k..], AfterBody(withConfig));
    if r.Some? {
      assert ([t[..k]] + r.value)[1..] == r.value;
      AtLeastOne(r.value, withConfig, after, bin, cfg);
    }
  }

  lemma AtLeastOne(values: seq<string>, withConfig: bool, after: string, bin: string, cfg: string)
    requires Reads(Some(values), withConfig, after, bin, cfg)
    ensures values != []
  {
  }

  // ── refused or cut short ──

  lemma HowMany(withConfig: bool)
    ensures Holes(FormParts(PowerShell, withConfig)) == if withConfig then 3 else 2
  {
    hide Fill, Collect, Holes, BlockText, FormParts;
    FormFills(PowerShell, withConfig, "", "", "");
  }

  /** What is collected from the values of a block. */
  lemma Collected(withConfig: bool, values: seq<string>)
    requires |values| == Holes(FormParts(PowerShell, withConfig))
    ensures |values| == if withConfig then 3 else 2
    ensures var got := Collect(FormParts(PowerShell, withConfig), values, NOTHING);
            got.body == values[0] && got.bin == values[1]
  {
    hide Fill, Collect, Holes, BlockText, FormParts;
    HowMany(withConfig);
    var bin, cfg, body := values[1], if withConfig then values[2] else "", values[0];
    FormFills(PowerShell, withConfig, bin, cfg, body);
    assert values == FormValues(PowerShell, withConfig, bin, cfg, body);
  }

  /** A here-string whose body closes itself is refused if and only if what the body goes on with
      leaves text over. Where it does not, the block is accepted, and its body is silently cut short. */
  lemma SelfClosingHereString(env: Env, e: Entry, body: string)
    requires Index(body + CLOSE, CLOSE) != Some(|body|)
    ensures var k := Index(body + CLOSE, CLOSE);
            var form, command := FormFor(PowerShell, e.cfg != ""), SearchBlock(PowerShell, e, body);
            && k.Some? && k.value + |CLOSE| <= |body| && form.Some? && command.Some?
            && (MatchRendered(command.value, form.value).None? <==>
                LeavesText(e.cfg != "", body[k.value + |CLOSE|..], Escaped(PowerShell, e.command),
                           Escaped(PowerShell, e.cfg)))
            && (MatchRendered(command.value, form.value).Some? ==>
                var got := MatchRendered(command.value, form.value).value;
                && got.body == body[..k.value]
                && (e.cfg == "" ==> got.bin == UnquoteRendered(ReadOn(body[k.value + |CLOSE|..],
                                                                 Escaped(PowerShell, e.command)), form.value)))
  {
    hide MatchParts, FormFor, FormParts, SearchBlock, BlockText, Index, Escaped, SplitForm, Occurs, OccursAt,
         LeavesText, Collect, UnquoteRendered, Holes;
    RunsLead();
    FoundAtEnd(body, CLOSE, '\n');
    var withConfig, bin, cfg := e.cfg != "", Escaped(PowerShell, e.command), Escaped(PowerShell, e.cfg);
    SearchIs(env, PowerShell, e, body);
    FormSplits(env, PowerShell, withConfig);
    var k := Index(body + CLOSE, CLOSE).value;
    BlockReads(withConfig, bin, cfg, body, k);
    var command, parts := SearchBlock(PowerShell, e, body).value, FormParts(PowerShell, withConfig);
    MatchedHoles(command, parts);
    var r := MatchParts(command, parts);
    if r.Some? {
      Collected(withConfig, r.value);
    }
  }

  lemma {:induction false} ReplaceAbsent(s: string, old_: string, new_: string)
    requires old_ != "" && !Occurs(s, old_)
    ensures ReplaceAll(s, old_, new_) == s
  {
    if |s| >= |old_| {
      assert old_ <= s ==> OccursAt(s, old_, 0);
      assert s == [s[0]] + s[1..];
      forall k | OccursAt(s[1..], old_, k)
        ensures OccursAt(s, old_, k + 1)
      {
        assert s[k + 1..k + 1 + |old_|] == s[1..][k..k + |old_|];
      }
      ReplaceAbsent(s[1..], old_, new_);
    }
  }

  lemma CutShortText()
    ensures var body := "x" + (CLOSE + "/y");
            && Index(body + CLOSE, CLOSE) == Some(1) && body[..1] == "x" && body[1 + |CLOSE|..] == "/y"
            && !Occurs(ReadOn("/y", "/b"), SEARCH + STDIN)
  {
    hide Index;
    var body := "x" + (CLOSE + "/y");
    RunsLead();
    FoundBefore("x", CLOSE, "/y" + CLOSE);
    FoundAtEnd("x", CLOSE, '\n');
    OccursHas("x", CLOSE, 0);
    assert body + CLOSE == "x" + (CLOSE + ("/y" + CLOSE));
    assert 's' !in ReadOn("/y", "/b") && (SEARCH + STDIN)[2] == 's';
    OccursHas(ReadOn("/y", "/b"), SEARCH + STDIN, 2);
  }

  lemma OtherBinary(env: Env)
    ensures FormFor(PowerShell, false).Some?
    ensures UnquoteRendered(ReadOn("/y", "/b"), FormFor(PowerShell, false).value) == ReadOn("/y", "/b")
  {
    hide FormFor, BlockText, ReplaceAll;
    FormIs(env, PowerShell, false);
    PowerShellHasCall(false, BINARY, "", BODY);
    var s := ReadOn("/y", "/b");
    forall k | OccursAt(s, POWERSHELL_ESCAPE, k)
      ensures false
    {
      CharAt(s, POWERSHELL_ESCAPE, k, 0);
      CharAt(s, POWERSHELL_ESCAPE, k, 1);
    }
    ReplaceAbsent(s, POWERSHELL_ESCAPE, "'");
  }

  /** The binary `/b`, no config, and a body that goes on after its first closing line: it is accepted
      as a search by another binary, its body cut at that line. */
  lemma HereStringCutShort(env: Env)
    ensures var body := "x" + (CLOSE + "/y");
            var form, command := FormFor(PowerShell, false), SearchBlock(PowerShell, Entry("/b", ""), body);
            && form.Some? && command.Some?
            && MatchRendered(command.value, form.value).Some?
            && MatchRendered(command.value, form.value).value.body == "x"
            && MatchRendered(command.value, form.value).value.bin == "/y" + (CLOSE + "/b")
  {
    hide MatchRendered, FormFor, SearchBlock, Index, Occurs, ReplaceAll, UnquoteRendered;
    ReplaceNothing("/b", "'", POWERSHELL_ESCAPE);
    CutShortText();
    OtherBinary(env);
    SelfClosingHereString(env, Entry("/b", ""), "x" + (CLOSE + "/y"));
  }
}
