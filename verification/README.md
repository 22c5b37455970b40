# dropin-miner, modelled and proved

dropin-miner is a command-line client that shares its files with other programs and with other
copies of itself. It runs no daemon: what keeps it safe is lock files, journals and careful edits of
text somebody else owns. This project models those parts in Dafny and proves what they promise.

* **Locks** (`Lifecycle`, `LifecycleSafety`, `Schedules`, `Strays`, `SharedState`, `SharedBinary`):
  any number of processes of any number of installations, each step of which may come between any two
  of another's, with crashes, directories that come and go, and gates that do not open. One inductive
  invariant; exclusion, lock identity and the undoing of an aborted run follow from it, and each is
  proved to hold in every run exactly when two conditions hold, which can be checked before it: that no
  other installation reaches the lock, and that the directory of the gate is there.
* **Crash-safe pipelines** (`Intake`, `Promotion`, `Registration`): a class for what is on disk, with
  what is visible kept apart from what would survive, and a failure or a crash possible at each call.
* **Edits of other people's files** (`Hermes*`, `CodexBlock`, `CodexTables`, `CodexEdit`, `Merge`,
  `MergeUndo`, `HookFiles`, `MergeOwn`): a YAML configuration edited by lines, a TOML block, JSON
  lists. Each edit is undone exactly where it can be, touches nothing else, and settles after one
  application; these theorems meet in the middle, because an edit can be undone only where the
  recogniser reads what the renderer wrote.
* **Writers and recognisers** (`Ownership*`, `Spellings`, `Strconv`, `RenderedForm`,
  `RenderedSearch*`, `HereStrings`, `Bridge*`, `DoubleEncoding`, `CursorIdentity`):
  round trips over all text.
* **Supporting parts** (`EpochRing`, `Lineage`, `TempFiles`, `HookWindow`, `Render`, `Terminal`,
  `Report`, `ReportLaws`, `Dollars`): a ring that is a queue, whose session a search belongs to,
  and output that is bounded and inert. `Text`, `Utf8`, `Decimal` and `Wrappers` hold what the others
  share.

Where the client's code is a loop, the model is a method with that loop, proved equal to a function;
the laws are lemmas about the function. Objects that change in place are classes.

`dafny verify dfyconfig.toml` checks the whole project.

## Where a promise has a limit

These promises hold only under a condition, which is proved to be exact unless it says otherwise:

* An operation that finds no directory for its gate, or cannot open the gate, is admitted without it.
  The comment at cmd/dropin-miner/lifecycle.go:53-56 says it can then never overlap a destructive
  one, because that would be refused on the same error; but setup makes the missing directory itself,
  and from then on the gate opens. A setup of a new installation can so end up beside a purge of it
  that has gone ahead (`Strays.PurgeBesideSetup`), on a setup.lock that a declined purge has unlinked
  (`SharedState.Clash`), or beside a default uninstall that took no lock
  (`Strays.UninstallBesideSetup`). It cannot where the directory was there from the start and stayed
  (`LifecycleSafety.NoStrays`), and for an installation of which that is not known it can: the condition
  is exact (`SharedState.ExclusionExactly`, `SharedState.LockIdentityExactly`,
  `SharedState.RestoresExactly`).
* Two installations whose configs put connect.lock or flush.lock in one place, as configs that leave
  out the state directory do, have gates of their own. A declined purge of one then unlinks the lock
  the other is taking; the lock is held twice, and a purge works beside a running connect or flush
  (`SharedState.Clash`, and the same three lemmas). The update lock of a binary they share is the same
  (`SharedBinary.UpdateLockIdentity`).
* A refused upgrade leaves the lock files it created (`LifecycleSafety.AbortRestores`).
* On Windows a config path ending in an odd run of backslashes makes the Hermes hook unrecognisable
  to its own installation (`HermesHook.HookRecognised`), and a file ending in a bare carriage return
  loses it (`HermesUndo.InstallUninstall`).
* A cmd command whose config ends so is recognised only if no words follow it
  (`OwnershipLaws.CommandForShellIsOurs`).
* A body that holds its own closing line is described as refused rather than cut short. In a POSIX
  heredoc it is (`RenderedSearchLaws.SelfClosingRefused`); in a PowerShell here-string it is accepted,
  and its body cut at that line, unless what follows leaves text over
  (`HereStrings.SelfClosingHereString`; a concrete block in `HereStrings.HereStringCutShort`).
* In a POSIX shell a command that begins with white space once it is stripped is not rewritten to the
  same text a second time (`BridgeLaws.RewriteAgain`).
* Merging replaces an event, a permission list or an object of another kind, and removal does not
  bring it back; it leaves the version key and an empty hooks object it added, takes a list that was
  already empty, and removes a file that then holds nothing else (`MergeUndo.RemovalUndoesMerge`,
  `MergeUndo.StripLeaves`; concrete files in `MergeUndo.AllowNotAList` and `MergeUndo.EmptyEvent`).
* Recovery of a first registration over another agent's credential refuses for good
  (`Registration.Installation.FirstRegistrationRecovers`).
* A compaction that follows one whose end was never reported is not counted
  (`HookWindow.CountsCompactions`).
* `truncateRunes` is described as cutting to at most `max` bytes; the ellipsis comes on top, three
  bytes more (`Render.TruncatedSize`).
* The cost of exactly -2^63 micro-dollars is not an amount (`Dollars.CostIsExact`).
* A PowerShell command is also taken for that of an installation whose binary is named `&`
  (`OwnershipExact.OursExactly`), and a %q-quoted config also for one whose path is its escaped
  spelling.

## Model

| member | source | states |
|---|---|---|
| LifecycleSafety.NextKeepsInv | cmd/dropin-miner/lifecycle.go:195-443 | every event (a step of any process, an operation admitted without its gate because the directory is missing or the open fails, a default uninstall without a gate, a crash, a directory appearing or vanishing) keeps the inductive invariant of the lock protocol, whose promises leave out the installations whose operations have strayed |
| LifecycleSafety.ExclusionHolds | cmd/dropin-miner/lifecycle.go:323-348 | in every interleaving in which no operation of the installation got past its gate without it: while a destructive operation works, its gate is one that opens, nothing of that installation is past the gate, and no setup, connect or flush its plan covers runs for it whose lock path no other installation with a gate that opens can reach; whether the lock was held, skipped for want of a directory, or let go early |
| LifecycleSafety.LockIdentity | cmd/dropin-miner/minerlock_unix.go:18-33 | two processes never hold one lock path at once, on one file or two, when no other installation with a gate that opens can reach the path of either and no operation of either got past its gate without it, and the file held is the one at the path |
| LifecycleSafety.AbortRestores | cmd/dropin-miner/lifecycle.go:427-443 | an exclusion that never proceeded leaves each lock path it looked at as it found it, the same file or no file, unless the unlink itself failed; an upgrade keeps the lock files it created; for paths every opener of which passed the one gate that can unlink them |
| LifecycleSafety.NoStrays | cmd/dropin-miner/lifecycle.go:231-247 | no operation of an installation gets past its gate without it when the directory of the gate is there from the start and stays and no open of the gate fails: what can be checked before a run |
| LifecycleSafety.OneHolder | cmd/dropin-miner/lifecycle.go:231-247 | two holders of one lock path that no other installation can unlink for either, their own operations having passed their gates, are the same process |
| LifecycleSafety.ExclusiveSkips | cmd/dropin-miner/lifecycle.go:385-406 | skipping a lock whose directory is missing keeps the invariant: the path is spoken for from then on |
| LifecycleSafety.ExclusiveUnlinks | cmd/dropin-miner/lifecycle.go:427-443 | unlinking a created lock file after its lock is dropped, the gate still held, keeps the invariant |
| LifecycleSafety.ExclusiveLetsGo | cmd/dropin-miner/lifecycle.go:412-418 | letting one operation lock go early keeps the invariant |
| LifecycleSafety.InnerOpens | cmd/dropin-miner/connect.go:526-592 | a connect run inside setup opens connect.lock without passing the gate again, and the invariant holds because setup.lock is held |
| LifecycleSafety.InnerRuns | cmd/dropin-miner/connect.go:526-592 | that connect runs if connect.lock is free and is given up if it is held, the setup going on |
| LifecycleSafety.DirsStayNested | cmd/dropin-miner/lifecycle.go:107-109 | only directories appearing and vanishing change which exist, and where setup.lock has one the gate beside the installation has too, all along |
| SharedBinary.UpdateLockIdentity | cmd/dropin-miner/upgrade_locks.go:25-40 | the update lock of a binary has one holder in every run if and only if no two installations whose gates open run that binary; only exclusions take it, so missing gate directories change nothing |
| SharedBinary.HeldTwiceWhenShared | cmd/dropin-miner/lifecycle.go:427-443 | the concrete interleaving in which two installations of one binary hold its update lock on two different files |
| SharedBinary.UpdateLockRestored | cmd/dropin-miner/lifecycle.go:427-443 | an aborted exclusion leaves the update lock as it found it in every run under exactly the same condition |
| SharedState.ExclusionExactly | cmd/dropin-miner/lifecycle.go:352-370 | a destructive operation never works beside an operation its plan covers, in every run in which the gates of the given installations have their directories all along and open, if and only if: for a setup, this installation is one of those given; for a connect or a flush, its gate cannot be opened at all, or its config names no such lock, or it is one of those given and no other installation with a gate that opens puts that lock in the same place |
| SharedState.LockIdentityExactly | cmd/dropin-miner/connect.go:90-90 | any lock but the update lock has one holder in every such run if and only if every installation that opens its path has a gate nobody can open or is one of those given, and no other with a gate that opens reaches the path |
| SharedState.RestoresExactly | cmd/dropin-miner/lifecycle.go:427-443 | an aborted exclusion leaves such a lock as it found it in every such run under exactly the same condition |
| SharedState.Clash | cmd/dropin-miner/lifecycle.go:427-443 | the concrete interleaving: a declined purge unlinks the setup.lock, connect.lock or flush.lock another operation holds, and a second purge works while that operation runs; either two installations share the lock, or the operation came before the directory of its gate |
| Strays.PurgeBesideSetup | cmd/dropin-miner/lifecycle.go:231-247 | the concrete run of one installation whose gate opens, nothing shared: a setup is admitted before the gate's directory exists, makes it, and ends up running beside a purge that holds that gate and has gone ahead |
| Strays.UninstallBesideSetup | cmd/dropin-miner/uninstall.go:408-410 | the concrete run in which a default uninstall finds no directory for the gate, takes no lock, and a setup runs beside it |
| Promotion.Store.Promote | cmd/dropin-miner/flush.go:636-690 | one pass over the intake records, oldest first, each step able to fail or be cut short: the records counted as promoted are exactly the complete ones that went out of the directory, each is with the spool (a pass cut short may leave one uncounted); an error is reported if and only if a record that was read is still there, and when nothing fails if and only if the spool refuses one; nothing new is in the directory and what stays changes by a missing identity at most |
| Promotion.Store.GiveIdentity | cmd/dropin-miner/flush.go:650-664 | a record without an identity gets one in its own file, durably, and no other record changes |
| Promotion.Store.PromoteOne | cmd/dropin-miner/flush.go:642-687 | the file is removed only after the spool has answered for the record, at most one enqueue is tried, and all other records are untouched |
| Promotion.Store.PromoteNamed | cmd/dropin-miner/flush.go:665-684 | the directory is synced before the enqueue, at most one enqueue is tried and it carries the identity in the file |
| Promotion.Store.Enqueue | pkg/mining/spool/spool.go:222-253 | success means the evidence is durable in the spool; other evidence under the same identity, or an identity that can name no file, is refused and leaves the spool as it was; the same evidence again is taken and changes nothing; so there is never more than one under an identity |
| Promotion.Store.Publish | pkg/fsx/atomic.go:51-108 | a record file appears whole under its name; it is certain only once the directory is synced |
| Promotion.Store.Arrive | cmd/dropin-miner/miner.go:125-150 | a served request is added under a name of its own, no other record changing |
| Promotion.Store.ReadIntake | cmd/dropin-miner/miner.go:160-191 | exactly the readable records, in the order of their names |
| Promotion.Store.Crash | cmd/dropin-miner/flush.go:636-690 | after a crash every name holds one of its possible outcomes, and no identity changes |
| Promotion.Store.Recover | cmd/dropin-miner/flush.go:632-634 | however many passes are cut short, fail or crash, one that is let finish leaves every record that was ever sure to be on disk with the spool, or still there and refused by it |
| Intake.CrashLosesNothing | cmd/dropin-miner/flush.go:636-690 | in every reachable state and for every outcome of a crash: each served record is still an intake file or its evidence is in the spool, and a file that survives an enqueue of its record carries the identity it was enqueued with |
| Intake.TryKeeps | cmd/dropin-miner/flush.go:665-684 | an enqueue keeps "one identity per record" exactly because the identity is the only one the file can hold |
| Intake.RebootKeeps | cmd/dropin-miner/flush.go:636-690 | no outcome of a crash breaks the invariant or takes back what was settled |
| Registration.Installation.PublishKey | cmd/dropin-miner/connect.go:204-219 | the credential becomes the journalled key or stays, and is replaced only over nothing, over itself, or over what the options name |
| Registration.Installation.PublishPending | cmd/dropin-miner/connect.go:221-257 | done only when both files hold exactly the journalled identity; when nothing fails, done if and only if both may be published |
| Registration.Installation.SaveJournal | cmd/dropin-miner/connect.go:865-901 | the journal is written before anything local changes |
| Registration.Installation.ReplaceExpired | cmd/dropin-miner/connect.go:811-861 | with no journal and a record on disk: Register is called only after the platform answered that the agent is expired; with any other answer, and nothing failing, the key and everything else stay and the record takes the status answered; with that answer, and Register succeeding, the two files are exactly the identity it returned |
| Registration.Installation.RegisterFresh | cmd/dropin-miner/connect.go:865-901 | with no record on disk: Register is called once, and only where the credential file may take the new key; when nothing fails the two files are exactly the identity it returned |
| Registration.Installation.Connect | cmd/dropin-miner/connect.go:499-988 | with a journal on disk no Register happens; a run that is let finish ends the journal if and only if it is one recovery can finish, and one that is cut short leaves it recoverable exactly if it was; without one, what Proceed states |
| Registration.Installation.Proceed | cmd/dropin-miner/connect.go:670-901 | past recovery, one clause for every state the two files can be in: when Register is called, and what is in both files when nothing fails |
| Registration.OnwardIs | cmd/dropin-miner/connect.go:760-861 | which answers of the platform lead to a Register, and which identity is the outcome |
| Registration.Installation.Converge | cmd/dropin-miner/connect.go:647-669 | over a journal, any number of killed or failing runs and one that is let finish leave credentials.json and agent.json holding exactly the journalled identity, with no second Register, if and only if recovery could finish to begin with, as it always could unless -force saved the journal over another credential; where it could not, no run ends the journal; the class invariant says that with no journal the two files belong to one agent |
| Registration.Installation.FirstRegistrationRecovers | cmd/dropin-miner/connect.go:653-658 | any number of runs over the journal of a first registration end it if and only if there was no credential or its own, and no other agent record; otherwise none ever does |
| Hermes.HermesLines | cmd/dropin-miner/hermes_install.go:926-944 | the scan that measures indents and tabs is the line model the laws are about |
| Hermes.FindMarkers | cmd/dropin-miner/hermes_install.go:256-279 | the counting pass finds a block exactly when there is one begin line, one end line after it, and no other marker text |
| Hermes.ReadMarkedBlock | cmd/dropin-miner/hermes_install.go:310-354 | the index-walking reader is the block-reading function |
| Hermes.ReadItemCommand | cmd/dropin-miner/hermes_install.go:1216-1227 | the unfolding loop is the item-command function |
| Hermes.CutBlock | cmd/dropin-miner/hermes_install.go:679-699 | the copying loop writes every line outside the cut run, and nothing else |
| HermesBlock.DecodesQuoted | cmd/dropin-miner/hermes_install.go:1231-1246 | what the renderer single-quotes is what the scalar decoder reads (section 7.3.2 of YAML 1.2.2) |
| HermesBlock.PlainScalar | cmd/dropin-miner/hermes_install.go:1231-1246 | a command can stand plain if and only if nothing at its beginning and nothing in it means anything else in YAML; and then it reads as itself |
| HermesBlock.FoldedReads | cmd/dropin-miner/hermes_install.go:1216-1227 | wherever the command, plain or single-quoted, was split over deeper lines, the reader both the block and the entry go through returns the whole command (section 6.5 of YAML 1.2.2) |
| HermesBlock.SplitIsFolded | cmd/dropin-miner/hermes_install.go:310-354 | splitting at any single spaces onto lines indented past six columns, no piece starting with #, is such a folding |
| HermesBlock.EntryIff | cmd/dropin-miner/hermes_install.go:310-354 | read in full with nothing foreign in it if and only if the block is one of our entries |
| HermesBlock.MatcherIff | cmd/dropin-miner/hermes_install.go:359-379 | a line is our matcher if and only if it is the key at the depth of an entry's keys, spaces, and the tool's name, as it is or in either kind of quotes, with nothing behind it |
| HermesInstall.AppendIsInstalled | cmd/dropin-miner/hermes_install.go:523-532 | what append writes is the file with the block behind its lines |
| HermesInstall.RemovalIsFramed | cmd/dropin-miner/hermes_install.go:575-585 | in any file: a block is cut if and only if it is the one block of ours, its command this installation's, and nothing after it leans on it; and then every line outside it, but for one blank separator, is unchanged and in order |
| HermesInstall.BlockAtEnd | cmd/dropin-miner/hermes_install.go:611-642 | a block at the end of a file is cut for the installation whose hook it holds and left for every other |
| HermesRoundTrip.FoldedRoundTrip | cmd/dropin-miner/hermes_install.go:575-642 | however the appended command was folded since, removal restores the file for its own installation and touches nothing for any other |
| HermesRoundTrip.FoldedIsCurrent | cmd/dropin-miner/hermes_install.go:283-291 | a folded block still reads as today's command, so it is not written again |
| HermesRoundTrip.CurrentIff | cmd/dropin-miner/hermes_install.go:283-291 | a file has today's command if and only if it has one block and that reads as this command |
| HermesHook.HookRecognised | cmd/dropin-miner/hermes_install.go:803-817 | the command install writes is recognised by the same installation if and only if its quoted config does not swallow the quote after it (Windows: an odd run of backslashes at its end) |
| HermesHook.BareIff | cmd/dropin-miner/hermes_install.go:851-857 | an argument is left unquoted if and only if it is made of letters, digits and nine other characters |
| HermesUndo.InstallUninstall | cmd/dropin-miner/hermes_install.go:523-642 | for every file without marker text and all paths without a line feed that can be quoted: install then uninstall gives the bytes back exactly if and only if the file does not end in a bare carriage return, no path names a marker, and the config does not swallow its quote |
| HermesEntry.ScanConfig | cmd/dropin-miner/hermes_install.go:430-476 | the loop over the top level is the scan function, of which ScanIff says what it counts |
| HermesScan.ScanIff | cmd/dropin-miner/hermes_install.go:430-476 | for every file: it is read if and only if it is one document whose lines at the margin are comments, keys or its opening and ending marks, with nothing indented before the first key; and the count is the number of its keys that are hooks |
| HermesScan.HooksIsCounted | cmd/dropin-miner/hermes_install.go:482-516 | a plain key counts as hooks if and only if it is the word hooks in some mixture of upper and lower case |
| HermesScan.QuotedHooksIsCounted | cmd/dropin-miner/hermes_install.go:482-516 | and so does one in either kind of quotes |
| HermesScan.KeyIff | cmd/dropin-miner/hermes_install.go:482-516 | a line has a key if and only if it is, before a colon set off from what follows, a plain one without a colon or a reserved character, or a quoted one with nothing escaped; and it is that key |
| HermesScan.RefusedIff | cmd/dropin-miner/hermes_install.go:414-423 | install refuses a file if and only if it is not of that shape, or has a hooks key |
| HermesEntry.FindOwnEntry | cmd/dropin-miner/hermes_install.go:972-1135 | the search as it is carried out, loop by loop, is the function the laws are about |
| HermesEntry.RemoveEntry | cmd/dropin-miner/hermes_install.go:1530-1539 | the lines outside the run, as they were read |
| HermesEntryLaws.EntryRemovalLeavesWhole | cmd/dropin-miner/hermes_install.go:972-1526 | in any file: the run taken out is our command, its continuations and matcher, with at most the headings it leaves empty; the next content line is not deeper than the run; a pre_tool_call: that stays still has a list item; a hooks: that stays still has a line at the depth of its keys, a key if every such line was one; every other line is unchanged |
| HermesDumped.DumpedEntryIsRemoved | cmd/dropin-miner/hermes_install.go:972-1135 | an entry as the host writes its configuration out again, plain or single-quoted, wherever its command is folded, alone or among other items, whatever other events stand beside its own: among other items it goes alone, by itself it takes its heading with it, as the last event the hooks: line too, and it is left only when something stands between them; every other line stays |
| CodexBlock.RegionOf | cmd/dropin-miner/agents.go:1970-1985 | the region of a block is what the renderer put between its markers, wherever in the file it stands |
| CodexBlock.RegionIff | cmd/dropin-miner/agents.go:1970-1985 | there is a region if and only if the begin marker occurs and an end marker after it; and it is the text between the first of each |
| CodexBlock.RemoveAppended | cmd/dropin-miner/agents.go:1935-1959 | append then remove gives the file with the line feeds at its end normalised, and the very file if and only if it ended in exactly one |
| CodexBlock.AppendRemoveAppend | cmd/dropin-miner/agents.go:2306-2312 | append, remove, append is append, for every file without a block |
| CodexBlock.ReplacedInPlace | cmd/dropin-miner/agents.go:1927-1933 | rewriting in place leaves the text before and after the markers as exact prefix and suffix, foreign tables directly below the block |
| CodexEdit.InstallMovesOut | cmd/dropin-miner/agents.go:1927-1933 | for every file with a block, what install writes is the text before and after the old block to the byte, our block between them, and directly below it the tables of others that stood in the old block, in order and to the byte up to line feeds at the end |
| CodexEdit.InstallActs | cmd/dropin-miner/agents.go:1787-1837 | a file is written if and only if no [sandbox_workspace_write] stands around the block, or in the file where there is none, and there is no block, or one that can be read, is this installation's and is not exactly what would be written |
| CodexEdit.RemoveActs | cmd/dropin-miner/targets.go:614-642 | and a removal acts if and only if there is a block that can be read and is this installation's |
| CodexEdit.InstallSettles | cmd/dropin-miner/agents.go:1787-1837 | once a file was rewritten, a second install finds nothing to write |
| CodexEdit.MovedOut | cmd/dropin-miner/targets.go:614-642 | for every file with a block, what removal leaves is the text before it, the text after it and the tables of others that stood in it, in this order and to the byte up to line feeds at the end of each |
| CodexEdit.InstallRemove | cmd/dropin-miner/targets.go:614-642 | installed into a file without a block and removed again, the file is what it was but for line feeds at its end |
| CodexTables.FindMarks | cmd/dropin-miner/agents.go:2040-2075 | the loop over the lines finds the marks of the model |
| CodexTables.CutRejoins | cmd/dropin-miner/agents.go:2040-2088 | preamble plus sections is the region, byte for byte |
| CodexTables.OneHeaderEach | cmd/dropin-miner/agents.go:2040-2088 | each section holds exactly one header, its own, and no header is outside a section |
| CodexTables.BlockIsAccountedFor | cmd/dropin-miner/agents.go:2147-2179 | a block that is acted on is comments, our tables and the others' in the order they stood in, every table in exactly one of the two with its own bytes |
| CodexTables.ReadableIff | cmd/dropin-miner/agents.go:2147-2179 | a block is acted on if and only if it decodes, whole and table by table, nothing but blanks and comments stands before its first table, what bears our name decodes to our table alone, and nothing else defines our table |
| CodexTables.SortShuffles | cmd/dropin-miner/agents.go:2147-2179 | sorting the sections into ours and others' keeps both orders |
| Merge.SplitList | cmd/dropin-miner/agents.go:1237-1261 | the loop splits a list into what is ours and what is not, both in order |
| Merge.SameRuleSet | cmd/dropin-miner/agents.go:1267-1282 | true if and only if the two lists are one multiset |
| Merge.RulesMerged | cmd/dropin-miner/agents.go:1237-1261 | after a merge our rules are exactly the wanted multiset, foreign rules keep their order, and a second merge changes nothing |
| Merge.DocMerged | cmd/dropin-miner/agents.go:1150-1207 | the same for the whole document: one entry of ours per wanted event, nobody else's moved, events not asked for as they were, our rules the wanted multiset, and nothing left to merge |
| Merge.FileMerged | cmd/dropin-miner/agents.go:1150-1207 | whatever the file was: it then holds one entry of ours per wanted event, this one, and our rules are the wanted multiset; and it was left as it was if and only if that was so already |
| MergeUndo.RemovalUndoesMerge | cmd/dropin-miner/agents.go:1296-1360 | for every file, absent or present: removal after a merge leaves exactly what removal without it would have left if and only if there was no file, or nothing to merge, or everything merged into was of its expected shape and the version already there, or the file held no key, event, entry or rule of anybody else's; a file with nothing of ours must besides have held nothing empty and something of somebody else's |
| MergeUndo.FileStripped | cmd/dropin-miner/agents.go:1296-1360 | after a removal nothing in the file is ours, and the file was left as it was if and only if nothing was |
| MergeUndo.StripLeaves | cmd/dropin-miner/agents.go:1296-1360 | what a merge leaves behind is the version it added and the object it made for the events, if and only if no value it merged into was of another kind |
| MergeUndo.AllowNotAList | cmd/dropin-miner/agents.go:1237-1241 | a file whose permission list is not a list loses it, and then the file itself goes |
| MergeUndo.EmptyEvent | cmd/dropin-miner/agents.go:1336-1356 | a file with an empty event is left alone by a removal, and removed whole after a merge |
| HookFiles.HookFile.PlanMerge | cmd/dropin-miner/agents.go:1150-1207 | the file afterwards is the merge function of the file before, and is as wanted: one entry of ours per event, our rules the wanted ones; it is written if and only if it was not so before |
| HookFiles.HookFile.PlanRemove | cmd/dropin-miner/agents.go:1296-1360 | the file afterwards is the removal function of the file before: untouched if nothing in it was ours, gone if nothing else is left |
| HookFiles.HookFile.MergeAllowRules | cmd/dropin-miner/agents.go:1237-1261 | the permissions afterwards hold the merge of the list before, in a new object or list where there was none, and it says whether the rules were not already the wanted set |
| HookFiles.HookFile.StripEvents | cmd/dropin-miner/agents.go:1328-1352 | the events afterwards are those before without ours, lists left empty gone, and it says whether there was anything of ours |
| MergeOwn.ClaudeRulesSettle | cmd/dropin-miner/agents.go:1002-1018 | the three rules rendered for this installation settle in one merge, because every spelling of them is recognised |
| MergeOwn.TwoInstallations | cmd/dropin-miner/agents.go:1027-1043 | two installations in one file, of one binary whatever its path or of two with plain paths (no space, quote or backslash), whose configs do not read as each other in either spelling a rule is written in: after both merged, each has exactly its own rules |
| MergeOwn.PlainApart | cmd/dropin-miner/ownership_match.go:133-155 | plain configs do not read as each other exactly when they are different paths, also as %q escapes them |
| MergeOwn.HookEntryIsOurs | cmd/dropin-miner/agents.go:1101-1119 | a hook entry rendered for a host, alone or in a group, is recognised if and only if its command is |
| Ownership.RenderedWords | cmd/dropin-miner/ownership_match.go:79-127 | the quote-tracking loop gives the words of the model |
| Spellings.WordsOfJoin | cmd/dropin-miner/ownership_match.go:79-127 | whole quoted words joined by spaces are split back into the same words |
| Spellings.ReadsBack | cmd/dropin-miner/ownership_match.go:133-155 | a path in any spelling the client writes is among the readings of that word |
| OwnershipLaws.BinaryIsStripped | cmd/dropin-miner/ownership_match.go:63-72 | the binary is stripped exactly, in every spelling, whatever characters are in it |
| OwnershipLaws.RenderedIsOurs | cmd/dropin-miner/ownership_match.go:186-192 | complete: every rendered command, in POSIX, PowerShell, cmd, %q or bare spelling, is recognised as its installation's |
| OwnershipLaws.CommandForShellIs | cmd/dropin-miner/shell_commands.go:67-105 | the command for a shell is the binary and config in that shell's spelling, and absent exactly when cmd would have to carry a double quote |
| OwnershipLaws.CommandForShellIsOurs | cmd/dropin-miner/shell_commands.go:67-105 | the command a shell is given is recognised by the installation that rendered it if and only if it is not one for cmd whose config ends in an odd run of backslashes with words after it, or that whole rest of the line is, to the platform, the same path |
| OwnershipLaws.RulesAreOurs | cmd/dropin-miner/agents.go:1002-1018 | each permission rule rendered is recognised by its installation |
| OwnershipExact.OursExactly | cmd/dropin-miner/ownership_match.go:165-182 | separating: among plain paths (no space, quote or backslash) a rendered command is an installation's if and only if it runs one of its binaries and names its config, as the path or, in %q spelling, as the escaped path, or names none where it has none |
| OwnershipExact.OwnByReading | cmd/dropin-miner/ownership_match.go:165-182 | a command of the installation's own binary, whatever characters are in either path, is its if and only if one of the readings of its config word is its config |
| Strconv.UnquoteQuote | cmd/dropin-miner/ownership_match.go:133-155 | %q text is unquoted to what was quoted, for all text |
| RenderedForm.SplitFormText | cmd/dropin-miner/rendered_form.go:204-223 | the loop gives the parts of the model |
| RenderedForm.SplitRejoins | cmd/dropin-miner/rendered_form.go:204-223 | the parts concatenate back to the form, and no run hides a placeholder |
| RenderedForm.SplitOfParts | cmd/dropin-miner/rendered_form.go:204-223 | parts put together are the parts the form splits into |
| RenderedForm.MatchIff | cmd/dropin-miner/rendered_form.go:234-273 | accepted if and only if the command is the form with its holes filled, each value the shortest before the run that follows; and then with those values |
| RenderedSearch.MatchForm | cmd/dropin-miner/rendered_form.go:234-273 | the loop that updates the rest of the command is the matching function |
| RenderedSearchLaws.AcceptedIsForm | cmd/dropin-miner/rendered_form.go:234-273 | whatever is accepted is the form, byte for byte |
| RenderedSearchLaws.SearchMatched | cmd/dropin-miner/rendered_form.go:81-104 | every search block the skill renders is accepted with its binary, config and body, when the values are the shortest |
| RenderedSearchLaws.PlainSearchMatched | cmd/dropin-miner/shell_commands.go:159-172 | for paths without a quote and a body that does not close itself, exactly the rendered values are read back |
| RenderedSearchLaws.SelfClosingRefused | cmd/dropin-miner/shell_commands.go:159-172 | a POSIX heredoc whose body holds its own closing line is refused, whatever the paths |
| HereStrings.SelfClosingHereString | cmd/dropin-miner/rendered_form.go:234-273 | a PowerShell here-string whose body holds its own closing line is refused if and only if what is read as the command after it leaves text over or names no binary; otherwise it is accepted with its body cut at that line |
| HereStrings.HereStringCutShort | cmd/dropin-miner/rendered_form.go:234-273 | the concrete block that is accepted with another binary and its body cut short |
| Bridge.StripAssignments | cmd/dropin-miner/bridge.go:61-73 | the loop terminates and its result is the stripping function |
| BridgeForms.PosixIff | cmd/dropin-miner/bridge.go:43-44 | the POSIX form at the front, and where it ends |
| BridgeForms.PowerShellIff | cmd/dropin-miner/bridge.go:46-47 | the PowerShell form: there is an assignment at the front if and only if some reading of name, equals sign, value (quoted either way, or bare) and end of statement fits, and it ends where one does |
| BridgeForms.CmdIff | cmd/dropin-miner/bridge.go:49-50 | the cmd form at the front, and where it ends |
| BridgeForms.UnwrappedIff | cmd/dropin-miner/bridge.go:56 | the wrapper comes off a command if and only if it is the wrapper around that command, the text of its end holding no brace but its own two |
| BridgeLaws.StripIsFixed | cmd/dropin-miner/bridge.go:61-73 | the result of stripping is a fixed point |
| BridgeLaws.StripIsPart | cmd/dropin-miner/bridge.go:61-73 | and one contiguous piece of the command |
| BridgeLaws.RewriteAgain | cmd/dropin-miner/bridge.go:83-111 | rewriting a rewritten command is rewriting the original: in PowerShell always, in POSIX if and only if the stripped command does not begin with white space |
| BridgeLaws.Base64UrlIsCarried | cmd/dropin-miner/bridge.go:83-111 | base64url values (section 5 of RFC 4648) are ones the shells carry |
| Utf8.DecodeEncode | cmd/dropin-miner/hook.go:858-881 | text written as UTF-8 (section 3 of RFC 3629) is read back |
| Utf8.EncodeDecode | cmd/dropin-miner/hook.go:858-881 | and no two byte sequences read as the same text |
| DoubleEncoding.UndoDoubleEncoding | cmd/dropin-miner/hook.go:858-881 | the loop over the characters is the repair function |
| DoubleEncoding.UndoGarbled | cmd/dropin-miner/hook.go:858-881 | every text that is not ASCII, read byte by byte in Latin-1 or cp1252 and encoded again, comes back exactly |
| DoubleEncoding.UndoExactly | cmd/dropin-miner/hook.go:858-881 | it repairs exactly the texts of that shape, into UTF-8, and returns every other unchanged |
| CursorIdentity.IdentityIsUndone | cmd/dropin-miner/hook.go:1009-1022 | removing the prefix gives a command if and only if adding it to that command gives this one |
| CursorIdentity.OnlyItsOwn | cmd/dropin-miner/hook.go:969-987 | a command carried for one session gives up its prefix to that session and to no other |
| CursorIdentity.PrefixSays | cmd/dropin-miner/hook.go:969-987 | there is a prefix exactly where the shell can carry both values; and what it sets, variable by variable, for values without a quote |
| CursorIdentity.QuotableIff | cmd/dropin-miner/hook.go:951-964 | a value can be carried if and only if no character of it is a control character nor, in PowerShell, a typographic quote |
| EpochRing.Driver.HasJoined | cmd/dropin-miner/driver.go:399-406 | true exactly for the epochs the queue holds |
| EpochRing.Driver.Remember | cmd/dropin-miner/driver.go:408-418 | the ring of eight slots is the queue with this epoch pushed: at most eight distinct epochs, this one among them |
| EpochRing.Driver.JoinIfNeeded | cmd/dropin-miner/driver.go:308-366 | JoinEpoch is called exactly when the epoch is not remembered and the service says it can be joined |
| EpochRing.RememberedUntil | cmd/dropin-miner/driver.go:408-418 | an epoch is remembered if and only if no more new ones have come than it had room for: eight for the newest of a full ring |
| EpochRing.NotJoinedAgain | cmd/dropin-miner/driver.go:308-366 | an epoch just joined is not joined again until eight other new epochs have been remembered |
| EpochRing.Run | cmd/dropin-miner/driver.go:308-366 | the driver over any run of ticks is the queue over that run |
| TempFiles.TempNameIff | cmd/dropin-miner/miner.go:288-296 | the temporary-name pattern matches a name with this file and process if and only if it is built from them |
| TempFiles.LineageNameIff | cmd/dropin-miner/miner.go:288-296 | a lineage file is named by thirty-two hexadecimal digits and .json |
| TempFiles.Directory.SweepStaleTemps | cmd/dropin-miner/miner.go:350-373 | exactly the listed names the rule covers go; every other file is as it was, and no lineage file goes |
| TempFiles.Directory.ReplaceViaTemp | cmd/dropin-miner/miner.go:303-315 | the file is replaced whole or is as it was, and the temporary does not stay where it can be removed |
| TempFiles.TempIsSweptIff | cmd/dropin-miner/miner.go:350-373 | a writer's temporary is swept if and only if by another process, for that file or in the lineage directory, and after more than twelve hours |
| Lineage.LineageForCwd | cmd/dropin-miner/miner.go:455-478 | the file returned is the nearest governing one among at most nine directories, if and only if it is fresh and of the caller's harness |
| Lineage.Miner.SearchTrace | cmd/dropin-miner/search.go:671-750 | what is sent and what is left on disk are the functions below, branch by branch |
| Lineage.OffIsSilent | cmd/dropin-miner/search.go:671-750 | with tracing off nothing is sent and nothing saved; with it on something is sent unless it is too long |
| Lineage.IsOffIff | cmd/dropin-miner/search.go:672-675 | tracing is off if and only if the setting is off, 0 or false, in whatever case |
| Lineage.CapTraceKeepsWhatFits | cmd/dropin-miner/trace.go:104-119 | everything scrubbed is sent if it fits; the history is lost only if it does not, and all of it only if even the rest does not |
| Lineage.RunAdoptsOwn | cmd/dropin-miner/search.go:671-750 | throughout any run: the file a search adopts was there at the start, holds the exported session where there is one, has the caller's harness unless the host declared that file, and is not stale when it is adopted |
| Lineage.RunSendsOwn | cmd/dropin-miner/search.go:671-750 | throughout any run, with a session exported: a search goes out as that session, as the bridge's where the host has that channel, or as its own shell's; and under the harness the host declared |
| Lineage.NumbersRise | cmd/dropin-miner/search.go:722-733 | of two searches of a run that go out from one file, the later carries the higher number once the earlier was saved |
| Lineage.RunIgnoresBridges | cmd/dropin-miner/search.go:680-690 | where hosts declared a lineage file, changing the bridges changes nothing that the whole run sends or saves |
| Lineage.CountsItsOwn | cmd/dropin-miner/search.go:671-750 | over any run, a file's counter advances once per search saved as its session, and searches of other sessions leave it as it was |
| HookWindow.State.Phase | cmd/dropin-miner/hook.go:631-679 | one reported phase changes one session's entry and no other |
| HookWindow.ResumedGoesOn | cmd/dropin-miner/hook.go:631-679 | a session that is resumed, at whatever moment, keeps its window |
| HookWindow.CountsCompactions | cmd/dropin-miner/hook.go:631-679 | the window number is the number of compactions if and only if every one but the last was reported by its end |
| Render.CappedBuilder.WriteString | cmd/dropin-miner/render.go:171-188 | after any writes the builder holds the whole text, or its beginning and the notice, never more than the budget before the notice |
| Render.CappedBuilder.String | cmd/dropin-miner/render.go:194 | what comes out depends on the text alone, not on how it was cut into writes |
| Render.CutKeepsCharacters | cmd/dropin-miner/render.go:111-120 | cutting back to a character's first byte keeps exactly the characters that fit |
| Render.BoundedText | cmd/dropin-miner/render.go:171-188 | the output is UTF-8: the text, or its first characters that fit and the notice, which is there exactly when something was cut |
| Render.WithinBudget | cmd/dropin-miner/render.go:163-169 | the budget holds, notice included, if and only if it has room for the notice |
| Render.TruncateRunes | cmd/dropin-miner/render.go:111-120 | whole characters and an ellipsis, or the text |
| Render.TruncatedSize | cmd/dropin-miner/render.go:111-120 | a cut field is at most three bytes past its bound |
| Terminal.SanitizeForTerminal | cmd/dropin-miner/render.go:84-108 | both loops together replace exactly the unsafe characters and the bytes that are not UTF-8 |
| Terminal.SanitizedIsInert | cmd/dropin-miner/render.go:84-108 | the result is inert UTF-8, one character for each, a fixed point, and the input itself if and only if that was inert UTF-8 |
| Terminal.InertIff | cmd/dropin-miner/render.go:57-78 | inert text is text without C0, DEL and C1 controls, direction marks, embeddings, overrides and isolates, and byte order marks |
| Terminal.OneLineIsSafe | cmd/dropin-miner/render.go:126-128 | any remote text comes out as one inert line within its cap and the ellipsis |
| Report.Ordered | cmd/dropin-miner/render.go:241-249 | the loop builds the order of the model |
| Report.OrderIsPermutation | cmd/dropin-miner/render.go:241-249 | every candidate once, the chosen one first, the rest as they came |
| Report.RenderForModel | cmd/dropin-miner/render.go:233-293 | the output is the whole report held to the budget: stopping early when it is full loses nothing that could have been shown |
| Report.DecisionLine | cmd/dropin-miner/render.go:303-330 | the loop over the providers builds the line of the model |
| ReportLaws.RenderedIsSafe | cmd/dropin-miner/render.go:233-293 | for any router response: UTF-8 within the total cap, no character that could steer a terminal, the whole report or its beginning and the notice |
| ReportLaws.ChosenLeads | cmd/dropin-miner/render.go:233-293 | the chosen candidate is the first one read, marked |
| ReportLaws.ChosenIsMarked | cmd/dropin-miner/render.go:251-287 | the mark stands behind the provider, and is all that being chosen changes |
| ReportLaws.ErrorOrAnswer | cmd/dropin-miner/render.go:251-287 | a candidate that failed shows its error and nothing else it holds; one that did not shows its answer and then its citations |
| ReportLaws.ProviderStarred | cmd/dropin-miner/render.go:303-330 | of the providers listed, the one that gave the chosen candidate has the star |
| Dollars.CostIsExact | cmd/dropin-miner/render.go:336-348 | the figure says exactly the micro-dollars given, if and only if they are not the one 64-bit number that cannot be negated |
| Dollars.LeastCost | cmd/dropin-miner/render.go:336-348 | what is printed for that one number |
| Dollars.CostIsShortest | cmd/dropin-miner/render.go:336-348 | and no amount that says as much is shorter |

## Left out

- Lifecycle: the lock protocol is a transition system over values, because its subject is the interleaving of processes. Where a config puts its locks does not change while processes run; operation locks are released in any order (the code has one order); the share-mode locks of Windows and the fallback to a read-only flush lock are not modelled. A directory is there or not by the lock path in it: besides the gate's above setup.lock's, which directories lie in which is not.
- Directory sync is taken as supported, and a rename as atomic. Registration files are written one after the other, each whole; there a crash is the end of a process, not a loss of power.
- Registration: ids the platform mints are not taken to be unique across agents.
- Promotion.Store.Recover: a record whose identity the spool already holds with other evidence stays in the directory, because ids drawn at random are not taken to be unique; so does one whose own identity holds a slash.
- Polling, enrollment and slot choice after a registration; HTTP, OAuth and the platform are values that may be anything.
- dropConflictedObservationsPastTarget: one filter over the spool, with no property beyond its body.
- Strings are sequences of Unicode scalar values in the editing and shell modules: input that is not UTF-8 is modelled only in Utf8, DoubleEncoding, Render and Terminal.
- Strconv: an escape that names a byte of 0x80 or more is refused here; the client writes none.
- filepath.Clean and case-insensitive comparison are one function `norm` on paths; whether two paths are the same file on disk is not asked.
- TOML decoding, JSON decoding, regular expressions of TOML headers and of Hermes keys are parameters: `decodesAsTOML`, the header pattern and the key pattern can be any predicate.
- The mention tier of the Hermes removal and the messages naming a line or a key: text for a person. The entry search leaves out which words the refusal is reported in.
- HermesDumped.DumpedEntryIsRemoved: covers an entry that is the only one of ours and has no key besides its matcher; the others the code leaves with a reason, and for any block EntryRemovalLeavesWhole says what a removal leaves.
- HermesEntryLaws.EntryRemovalLeavesWhole: a line at the depth of the keys that is not one, which no YAML parser accepts there, can be all that is left under hooks:; the code does not look.
- Merge: a JSON object is a map of lists and other values; key order and number formatting are not modelled, and a file that is not one JSON object is refused before any of this.
- CodexEdit: whether a block is owned, read from its writable roots, is a parameter, as are the notes and the write itself. A begin marker without an end is outside InstallSettles.
- RenderedSearchLaws.SearchMatched: the checks after the match (the same binary on disk, one JSON object in the body) are not modelled.
- EpochRing: the notes, the recorded join state, and the capability half of a tick.
- Lineage: the hashed names, the decoding of a bridge value, the scrubbing of text and an envelope's length are parameters; the writes of hooks between two searches are not part of a run. A save either happens or does not.
- TempFiles: one directory, and no second writer between listing and removing.
- HookWindow: one process at a time; two hooks racing on the state file may lose an update.
- CursorIdentity: reading the identity from the environment and answering the host.
- Report: url.Parse is a parameter of each citation; white space is collapsed on characters rather than bytes, which is the same because every space is a whole character. renderRouterFailure goes through the same builder and fields.
- currentAssistantText and the transcript readers: parsing of another program's log.
- doctor, enroll, earnings, prompts, the JavaScript and TypeScript adapters, wallet, self-update and installer: verdict tables, printing, or logic already modelled from the Go code.
