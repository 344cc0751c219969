# mcpscan: a verified model of its hardest parts

mcpscan inspects the MCP servers that agent hosts declare and run. This project models the parts
of it that carry the most state and branching and proves what they promise, for every input, every
server behaviour and every schedule:

1. **Attack paths** (`Trust`, `Build`, `BuildTheorems`, `Paths`, `PathTheorems`, `Ceiling`).
   Declared servers are profiled, a typed graph is built from profiles, inventory and shared
   credentials, and a backtracking depth-first search enumerates the chains from an exposed entry
   to a target under a hop cap, an exploration ceiling and a result cap. A chain is defined
   independently (`PathTheorems.Chain`): a walk without repeated nodes from an entry to its first
   target with a real pivot on it. The search is proved against that.
2. **Drift gate** (`Drift`, `DriftTheorems`, `DriftEntries`, `Snapshots`, `Postures`, `Baseline`,
   `Acceptances`). Snapshots of posture, the diff between two of them, baselines as files, and
   named, expiring acceptances.
3. **Hostile-server capture** (`Capture`, `CaptureRun`, `CaptureTheorems`, `Sse`, `Channel`,
   `JsonDepth`, `LiveChecks`). The paginated protocol against an arbitrary server, the incremental event-stream parser, the reader
   thread with its bounded queue as interleaved steps, the nesting check, and the findings drawn
   from a captured tool list.
4. **JSONC** (`Jsonc`, `JsoncTheorems`). The two index-driven scanners and what they do to the
   lexemes of every text.
5. **Authorized LAN run** (`LanScope`, `LanRun`). Budgets, address scopes and the probe loop.

`Orders` (keyed sorting), `Numerals` (decimal suffixes), `Json`, `JsonStrings` and `GraphModel` serve
the others.

Code that works step by step is a method or a class whose contract ties its new state to a
specification function; the theorems are lemmas about those functions. Sets and dictionaries are
`set` and `map`; where the original iterates one, the method picks elements in an arbitrary order,
so the results are proved independent of it. What an operation decides is moreover stated apart
from the functions that compute it: which edge kinds make a chain, which additions gate, which
replies answer a request, which characters close a bracket and which addresses a network has are
written out in the lemmas, so those lemmas would fail for another decision. Names, keys and
identifiers are the strings the original builds. Where a result needs them told apart (node kinds, servers, suffixed tool names),
that is proved; fact keys are not unique, since ids and names may contain the separator, and the
results speak of keys, of which the last fact counts, as the original does.

## Assumptions and parameters

* Servers, clocks, deadlines, probers, abort switches and signature verdicts are arbitrary
  functions, which may depend on everything done so far.
* The secret, pinning and bind-hint detectors, the hidden-character, injection and directive
  catalogs, address parsing and the private ranges are parameters. So is the digest; the one lemma
  that needs it collision-free (`AcceptedBaselineGatesTheSame`) says so.
* JSON is a value, except in `JsonDepth`, `Jsonc` and `Sse`, which work on text and bytes.
* A factor's evidence, an entry's reach and a chain's explanation are structured data; the original
  formats them as text and searches that text again.

## Where the code and its documentation differ

The code is followed; each point names the member that shows it.

* The documentation says that the worst-ranked chains survive the caps. Under the exploration
  ceiling they need not: `Ceiling.CeilingHidesTheWorst` gives a configuration with a CRITICAL chain
  that is graded D. `Ceiling.WorstSurviveIff` and `Ceiling.GradeIsTrueIff` say exactly when the
  chains and the grade are right; below the ceiling they always are.
* `_path_severity` documents a MEDIUM chain; built graphs have none (`NeverMedium`). It says that a
  privileged server is never human-gated: so it is (`NeverBehindApproval`), but a chain of such a
  server can still get the fallback sentence, when a config names the server twice
  (`StaleProfileHidesAutonomy`). `HidesAutonomyIff` says exactly when a chain within
  the hop cap is explained so.
* `baseline.py` says that a mismatch means an edited or corrupted file, and that the digest detects
  accidents. A match does not mean an untouched file: summaries are not covered
  (`Baseline.SummaryEditIsAccepted`). `Baseline.EditPassesIff` says exactly which documents pass.
* A repeated tool name is suffixed so that no definition is dropped, but a tool really named `x#2`
  can collide with the suffix (`Snapshots.SuffixCollides`); `Snapshots.SuffixKeepsApartIff` says
  exactly when. The earlier tool may then change unseen (`Postures.CollidingToolChangesUnseen`);
  `Postures.SwappedToolIsSeenIff` says exactly when the gate sees a change.
* `_drop_trailing_commas` leaves `[1,]` of `[1,,]`; `JsoncTheorems.StripJsoncIdempotentIff` says
  exactly which texts a second pass changes.
* Drift of an imported pin has no digest left to match, so no acceptance waives it
  (`Acceptances.ImportedDriftCannotBeWaived`, `Acceptances.ImportedPinGatesForEver`);
  `Acceptances.CanBeWaivedIff` says exactly which changes of a tool can be waived.
* Waived entries stay where they were sorted (`Acceptances.WaivingBreaksTheOrder`);
  `Acceptances.StaysOrderedIff` says exactly when the report is still sorted.
* At the end of a stream a pending event is dispatched, where section 9.2.6 of the WHATWG HTML
  standard discards it (`Sse.CutOffEventIsTaken`, `Sse.CutOffResultIsTaken`); `Sse.StandardIff`
  says exactly when that matters.
* A response id `true` answers request 1, as Python's equality has it
  (`Capture.TrueAnswersTheFirst`), and such a server is captured like any other
  (`CaptureTheorems.TrueIdIsCaptured`).

## Model

| member | source | states |
|---|---|---|
| `Paths.Adjacency` | src/mcpscan/graph/paths.py:237-246 | the successor lists hold each (kind, destination) once, in strict order, and exactly those of the edges |
| `Paths.Enumeration.Visit` | src/mcpscan/graph/paths.py:263-297 | `visit` leaves `visited`, `nodes_acc` and `edges_acc` as it found them, on every exit; it advances the found list by the chains below the current one, clipped at the ceiling, and raises the two flags exactly when due |
| `Paths.Enumeration.VisitSucc` | src/mcpscan/graph/paths.py:286-297 | one turn of the successor loop: push, visit, pop |
| `Paths.SearchFrom` | src/mcpscan/graph/paths.py:257-300 | over all entries: the chains in search order up to the ceiling, and whether either cap was reached |
| `Paths.Enumerate` | src/mcpscan/graph/paths.py:249-304 | for a graph whose edges end in its nodes: the ranked first 50 of the chains found, and the truncation flag |
| `PathTheorems.ExploreSound` | src/mcpscan/graph/paths.py:263-297 | every chain found below a partial walk is a simple walk extending it to its first target over a real pivot, within the hop cap |
| `PathTheorems.ExploreComplete` | src/mcpscan/graph/paths.py:263-297 | every such extension within the hop cap is found |
| `PathTheorems.ExploreOnce` | src/mcpscan/graph/paths.py:237-297 | and found once |
| `PathTheorems.CappedSound` | src/mcpscan/graph/paths.py:279-285 | if the hop cap cut the search short, a simple walk with one hop more than the cap exists below |
| `PathTheorems.CappedComplete` | src/mcpscan/graph/paths.py:279-285 | and if such a walk exists, the flag is raised |
| `PathTheorems.AllFoundSound` | src/mcpscan/graph/paths.py:249-300 | every recorded chain is an attacker chain (entry to first target, simple, with a pivot) of at most six hops |
| `PathTheorems.AllFoundComplete` | src/mcpscan/graph/paths.py:249-300 | every attacker chain of at most six hops is recorded |
| `PathTheorems.AllFoundOnce` | src/mcpscan/graph/paths.py:249-300 | no chain is recorded twice |
| `PathTheorems.DepthCapIff` | src/mcpscan/graph/paths.py:279-285 | the depth flag is raised if and only if some entry starts a simple walk of seven hops that passes no target |
| `PathTheorems.LongChainIsLongWalk` | src/mcpscan/graph/paths.py:279-285 | so a chain beyond the cap is always disclosed |
| `PathTheorems.UntruncatedIsExact` | src/mcpscan/graph/paths.py:249-304 | if `truncated` is false, the result is exactly the set of all attacker chains of any length, each once |
| `PathTheorems.TruncatedIff` | src/mcpscan/graph/paths.py:303 | `truncated` is false if and only if no seven-hop walk exists and at most 50 chains do |
| `PathTheorems.ReturnedAreTheWorst` | src/mcpscan/graph/paths.py:228-304 | while the ceiling is not hit, the result is ordered by rank, has min(50, total) chains, and no chain left out ranks before one kept |
| `PathTheorems.GradeIsWorstChain` | src/mcpscan/graph/paths.py:321-326 | while the ceiling is not hit, the grade is that of the worst attacker chain of at most six hops, and A if and only if there is none |
| `PathTheorems.WorstOfAll` | src/mcpscan/graph/paths.py:321-326 | no recorded chain is more severe than the worst returned one |
| `PathTheorems.OverallGradeIs` | src/mcpscan/graph/paths.py:66-77 | F if some chain is CRITICAL, else D if some is HIGH, else C if some is MEDIUM; A without any chain |
| `PathTheorems.ChainSeverityIff` | src/mcpscan/graph/paths.py:110-139 | a chain is CRITICAL if and only if it crosses SHARED_WITH or its entry node is public or wildcard, HIGH if and only if neither and the entry is private LAN, MEDIUM otherwise |
| `PathTheorems.FailsIff` | src/mcpscan/graph/paths.py:110-334 | below the ceiling the grade is F if and only if some chain within six hops crosses SHARED_WITH or starts at a public or wildcard entry |
| `PathTheorems.ReasonsIff` | src/mcpscan/graph/paths.py:182-210 | exactly when each sentence of the explanation is given, in terms of the last edge and the factors of the acting server |
| `PathTheorems.RankOrder` | src/mcpscan/graph/paths.py:228-234 | worse severity first, then fewer nodes, then the lexicographic order of the node ids |
| `PathTheorems.SuccOrder` | src/mcpscan/graph/paths.py:237-246 | successors come in the alphabetical order of edge kinds, then by destination |
| `PathTheorems.EdgeOrderIrrelevant` | src/mcpscan/graph/paths.py:237-304 | order, repetition and detail of edges change neither result nor flag |
| `PathTheorems.AnalyzeGraph` | src/mcpscan/graph/paths.py:329-346 | chains, grade and flag of a whole graph |
| `Ceiling.GradeIsTrueIff` | src/mcpscan/graph/paths.py:272-303 | with the ceiling hit or not: the grade is that of the worst of all chains within the hop cap if and only if one of the most severe is among the first 1000 in search order |
| `Ceiling.WorstSurviveIff` | src/mcpscan/graph/paths.py:272-304 | the 50 worst-ranked of all chains are returned if and only if each of them is among the first 1000 in search order |
| `Ceiling.OnlyEarlierEntries` | src/mcpscan/graph/paths.py:272-303 | once the first k entries fill the ceiling, no chain from a later entry is returned |
| `Ceiling.CeilingHidesTheWorst` | src/mcpscan/graph/paths.py:24-28 | the promise that the worst-ranked chains survive fails on a configuration: 1000 servers on the local network and one open to all; the CRITICAL chain is lost and the grade is D |
| `Ceiling.GradeTheCrowd` | src/mcpscan/graph/paths.py:329-346 | builder and search on that configuration: grade D, truncated, the CRITICAL chain not listed |
| `Trust.ProfileFactors` | src/mcpscan/trust/analyze.py:68-168 | which factors a profiled server has, in terms of its declaration; tool privilege implies autonomy |
| `Trust.ProfileScore` | src/mcpscan/trust/analyze.py:40-47 | the score in terms of the declaration, never below zero, and the grade by the points taken off |
| `Trust.RelationshipsIff` | src/mcpscan/trust/analyze.py:172-268 | which relationships a declaration has, each at most once, in one order |
| `Trust.CredentialHolders` | src/mcpscan/trust/analyze.py:338-341 | who holds each fingerprint, whatever the iteration order |
| `Trust.CollectPeers` | src/mcpscan/trust/analyze.py:343-348 | who shares a fingerprint with whom |
| `Trust.ApplySharedCredentials` | src/mcpscan/trust/analyze.py:320-369 | a profile gains the relationship, with the right count, if and only if it has peers; nothing else changes |
| `Trust.PeersAgree` | src/mcpscan/trust/analyze.py:338-348 | the two loops compute the declarative set of peers |
| `Build.FirstMatchWins` | src/mcpscan/graph/build.py:66-78 | the inferred target is that of the first group that matches, and absent only if none does |
| `Build.InferTargetIs` | src/mcpscan/graph/build.py:48-78 | the target of a key name: the first of the eight groups with a word that occurs in the name in any case |
| `Build.AddProfiles` | src/mcpscan/graph/build.py:161-192 | server, host and entry nodes and HOSTS and REACHES edges, exactly; the last profile of a subject owns its node |
| `Build.AddInventory` | src/mcpscan/graph/build.py:195-221 | host and socket nodes, each that of the first asset with its identifier, leaving what is drawn as it was |
| `Build.AssetDrawnIff` | src/mcpscan/graph/build.py:196-222 | an asset is drawn as a host if it is an agent host with a location, and otherwise as an entry if it is bound to anything but loopback |
| `Build.JoinCredentials` | src/mcpscan/graph/build.py:226-236 | holders of every credential among profiled subjects and how often each key name named it, whatever the order |
| `Build.MostCommon` | src/mcpscan/graph/build.py:245 | the most frequent key name, ties to the smallest |
| `Build.AddCredentials` | src/mcpscan/graph/build.py:243-265 | a node for every credential, labelled with its most frequent key name and stating fingerprint, length and number of holders; and every target its key names infer |
| `Build.AddPivots` | src/mcpscan/graph/build.py:268-295 | HOLDS, SHARED_WITH and UNLOCKS edges and the targets they need, exactly |
| `Build.AddActions` | src/mcpscan/graph/build.py:300-325 | CAN_ACT edges and the shell target, exactly |
| `Build.Freeze` | src/mcpscan/graph/build.py:327-330 | sorted, without repetition, the same nodes and edges |
| `Build.BuildGraph` | src/mcpscan/graph/build.py:135-336 | an edge or node is in the graph if and only if the inputs call for it; every edge ends in nodes; every node has the kind its id says |
| `BuildTheorems.BuilderMeetsSearch` | src/mcpscan/graph/build.py:327-336 | the builder establishes what the search relies on unchecked: edges end in nodes, ids are unique |
| `BuildTheorems.BuiltIsWellTyped` | src/mcpscan/graph/build.py:155-336 | every edge kind joins the node kinds it should |
| `BuildTheorems.ChainKinds` | src/mcpscan/graph/build.py:155-336 | no chain visits a host node, and CAN_ACT or UNLOCKS is always its last hop |
| `BuildTheorems.SharedCredentialFails` | src/mcpscan/graph/paths.py:132-133 | an exposed server and another, privileged one holding one credential with an inferable target: the four-hop chain exists, is CRITICAL, and, ceiling not hit, the graph is graded F |
| `BuildTheorems.UnlockedBehindAPeerFails` | src/mcpscan/graph/paths.py:57-82 | without a privileged tool: the five-hop chain over a shared credential to a credential that is named after a target exists, is found, is critical, and fails the graph below the ceiling |
| `BuildTheorems.GithubTokenBehindAPeer` | src/mcpscan/graph/build.py:48-78 | for one with a key called GITHUB_TOKEN |
| `BuildTheorems.DangerousIff` | src/mcpscan/graph/build.py:90-98 | a declared server counts as having dangerous tools if and only if it auto-approves one |
| `BuildTheorems.DeclaredServerIsDrawn` | src/mcpscan/graph/build.py:155-200 | the nodes and edges of one declared server, by their literal ids |
| `BuildTheorems.CriticalChainFails` | src/mcpscan/graph/paths.py:321-326 | any CRITICAL chain within six hops, ceiling not hit, gives an F |
| `BuildTheorems.ProfiledActorsAreAutonomous` | src/mcpscan/trust/analyze.py:77-102 | with profiles from `profile_server`, one a subject, whoever acts on a target auto-approves |
| `BuildTheorems.NoApprovalGate` | src/mcpscan/graph/paths.py:182-210 | then neither the approval-gate sentence nor the fallback is ever given, and the unattended one exactly for chains that end in CAN_ACT |
| `BuildTheorems.HidesAutonomyIff` | src/mcpscan/graph/paths.py:196-209 | some chain within the hop cap that ends in CAN_ACT is not explained as unattended if and only if a profile that can act has a last profile without autonomy and a walk of fewer than six hops from an entry reaches its server |
| `BuildTheorems.NeverBehindApproval` | src/mcpscan/graph/paths.py:203-207 | with profiles from `profile_server`, of one subject or many, the approval-gate sentence is never given |
| `BuildTheorems.StaleProfileHidesAutonomy` | src/mcpscan/adapters/base.py:126-148 | a config that lists one server name twice, first with a dangerous grant and a wildcard bind, then with neither: its chain gets the fallback sentence |
| `BuildTheorems.NeverMedium` | src/mcpscan/graph/paths.py:121-139 | every chain of a built graph is CRITICAL or HIGH |
| `BuildTheorems.SeverityIsReach` | src/mcpscan/graph/paths.py:110-139 | with each server profiled once: a chain starts at a declared server with a bind hint, and is HIGH if that one is private LAN and no SHARED_WITH is crossed, CRITICAL otherwise |
| `BuildTheorems.SharedEdgeIffProfiledPeer` | src/mcpscan/graph/build.py:271-283 | a SHARED_WITH edge enters a server if and only if a profiled peer shares a fingerprint with it |
| `BuildTheorems.JoinsAgree` | src/mcpscan/trust/analyze.py:320-369 | the trust join and the graph join agree: a profile gains SHARED-CREDENTIAL if and only if a SHARED_WITH edge enters its server |
| `BuildTheorems.BuildAndAnalyze` | src/mcpscan/graph/paths.py:329-346 | builder and search together; without truncation, exactly the chains of the built graph |
| `Drift.DiffSnapshots` | src/mcpscan/drift/diff.py:256-323 | the entries, strictly sorted, are exactly the one entry each differing key calls for |
| `Drift.DiffUnique` | src/mcpscan/drift/diff.py:322 | so a diff does not depend on the order in which keys are visited |
| `DriftEntries.EntryIff` | src/mcpscan/drift/diff.py:100-124 | a key has an entry if and only if one side lacks it or the facts differ in a name that is compared; with kind, key, summary and change |
| `DriftEntries.EntryDetails` | src/mcpscan/drift/diff.py:86-124 | what an entry shows of the old and of the new fact, name by name |
| `DriftEntries.AddedRegressionIff` | src/mcpscan/drift/diff.py:187-213 | an addition regresses if and only if it is a finding, an exposed server, or a tool whose server the old snapshot has, with a tool key or without an identity; and the cause of each |
| `DriftEntries.RemovedIff` | src/mcpscan/drift/diff.py:216-223 | a removal is an improvement if and only if it is a finding, and never a regression; and the cause of each |
| `DriftEntries.ChangedServerIs` | src/mcpscan/drift/diff.py:226-253 | direction and cause of a changed server, in the order of blame |
| `DriftEntries.ChangedToolIs` | src/mcpscan/drift/diff.py:162-184 | a changed tool regresses; its cause by imported pin, description, schema, relaxed and moved hints |
| `DriftEntries.FindingCauseIs` | src/mcpscan/drift/diff.py:139-159 | the family of a finding by its id, or by the summary up to its first dash, and its dimension |
| `DriftEntries.EntryOrder` | src/mcpscan/drift/diff.py:256-330 | regressions, improvements, the rest; then asset, finding, server, tool; then by key |
| `DriftTheorems.GateIsNoRegression` | src/mcpscan/drift/diff.py:256-323 | the gate read off the entries is the gate read off the facts |
| `DriftTheorems.AlignedEqualIff` | src/mcpscan/drift/diff.py:100-124 | two facts compare equal if and only if every name agrees, or is optional and missing on a side |
| `DriftTheorems.ServerRegressionIff` | src/mcpscan/drift/diff.py:226-253 | a server in both snapshots regresses if and only if visibility is lost, exposure gained, or two present identities differ |
| `DriftTheorems.ImprovementReverses` | src/mcpscan/drift/diff.py:206-253 | whatever is an improvement from a to b is a regression from b to a |
| `DriftTheorems.NoSelfDrift` | src/mcpscan/drift/diff.py:303-307 | a snapshot does not differ from itself |
| `DriftTheorems.UpgradeIsInvisible` | src/mcpscan/drift/diff.py:86-97 | filling in the key that older baselines lack changes no entry |
| `DriftTheorems.RegressionsOnlyReappear` | src/mcpscan/drift/diff.py:166-323 | two clean steps can only hide a regression of a server or tool that went away in between |
| `DriftTheorems.TwoStepsCompose` | src/mcpscan/drift/diff.py:166-323 | if nothing goes away and comes back, two clean steps make a clean whole |
| `DriftTheorems.GateComposes` | src/mcpscan/drift/diff.py:166-323 | and so does every clean run of any length |
| `Snapshots.ToolFacts` | src/mcpscan/drift/snapshot.py:90-119 | one fact a tool, in order, with the suffix its occurrence calls for |
| `Snapshots.SuffixKeepsApartIff` | src/mcpscan/drift/snapshot.py:97-100 | fact names are distinct if and only if no tool is really named like a suffixed one |
| `Snapshots.SuffixCollides` | src/mcpscan/drift/snapshot.py:97-100 | they are not for tools named x, x and x#2 |
| `Snapshots.BuildSnapshot` | src/mcpscan/drift/snapshot.py:143-153 | the facts of servers and assets in scan order, stably sorted by kind and key; none missing, none added |
| `Snapshots.ToolFactStates` | src/mcpscan/drift/snapshot.py:90-119 | what a tool fact says under each name; a hint given twice has its last value |
| `Snapshots.SortKeepsLast` | src/mcpscan/drift/snapshot.py:143-153 | sorting does not change which fact a key stands for: the last one scanned |
| `Snapshots.BuiltIsWellFormed` | src/mcpscan/drift/snapshot.py:39-153 | such a snapshot satisfies what the drift theorems require |
| `Postures.RemoveAndReAddHides` | src/mcpscan/drift/diff.py:187-203 | without persistence a run of clean steps hides a regression: in any report with keys of its own, a server is taken away and put back with a tool of another digest, unexposed and without findings |
| `Postures.ChangedToolRegresses` | src/mcpscan/drift/diff.py:226-228 | between any two reports, a tool that changed its digest under one fact name regresses, unless a later fact has its key |
| `Postures.SwappedToolIsSeenIff` | src/mcpscan/drift/snapshot.py:90-153 | a tool of a report swapped for another definition of its name is seen by the gate if and only if no later tool of its server and no later server has a fact of its key |
| `Postures.CollidingToolChangesUnseen` | src/mcpscan/drift/snapshot.py:97-100 | of tools x, x and x#2 the second may become anything called x: the keyed snapshot stays the same |
| `Baseline.LoadBaseline` | src/mcpscan/drift/baseline.py:97-138 | the first broken rule decides, else the facts in order |
| `Baseline.FactReadIff` | src/mcpscan/drift/baseline.py:76-127 | which items are read as facts, and what is wrong with each of the others |
| `Baseline.BaselineRoundTripIff` | src/mcpscan/drift/baseline.py:50-66 | a written baseline loads back as the same snapshot if and only if it has the current schema version |
| `Baseline.ReloadedNeverDrifts` | src/mcpscan/drift/baseline.py:97-138 | and then never drifts from it |
| `Baseline.AcceptedBaselineGatesTheSame` | src/mcpscan/drift/baseline.py:130-138 | with a collision-free digest, an accepted file gates as the snapshot whose digest it carries |
| `Baseline.EditPassesIff` | src/mcpscan/drift/baseline.py:130-138 | with a collision-free digest, any document that carries the digest of a snapshot loads if and only if its schema is current and its facts can be read and are those of the snapshot, in order, summaries aside |
| `Baseline.SwappedFilePassesIff` | src/mcpscan/drift/baseline.py:130-138 | so the written file of another snapshot passes under that digest if and only if the two have the same facts, summaries aside; otherwise the error is the one named |
| `Baseline.SummaryEditIsAccepted` | src/mcpscan/drift/snapshot.py:156-167 | so a rewritten summary is accepted |
| `Acceptances.ApplyAcceptances` | src/mcpscan/acceptance.py:228-286 | each finding is treated as the ledger says, grades are untouched, and there is one warning for each refused finding, in order |
| `Acceptances.ServerMatchesIff` | src/mcpscan/acceptance.py:223-225 | an entry names a server by its whole id or by what follows a # in it |
| `Acceptances.ChooseIsFirst` | src/mcpscan/acceptance.py:259-265 | of the entries that apply, the first that still holds; failing that, the first |
| `Acceptances.HoldsThroughItsDay` | src/mcpscan/acceptance.py:212-220 | an acceptance shields through its last day and not longer |
| `Acceptances.ShieldedIff` | src/mcpscan/acceptance.py:258-284 | a fresh finding is shielded if and only if it is tool-scope and some matching entry has not expired; nothing else of it changes |
| `Acceptances.GateFailsIff` | src/mcpscan/cli.py:1595-1610 | the exit gate fails if and only if some blocking finding stays unshielded |
| `Acceptances.GateMonotone` | src/mcpscan/acceptance.py:212-286 | a failing gate fails on every later day and with every smaller or reordered ledger |
| `Acceptances.OnlyToolScopeIsAcceptable` | src/mcpscan/acceptance.py:269-275 | a fresh blocking finding of another dimension fails the gate under every ledger |
| `Acceptances.ApplyToolDriftAcceptances` | src/mcpscan/acceptance.py:289-339 | each entry waived, or kept, in place |
| `Acceptances.WaivedIff` | src/mcpscan/acceptance.py:307-338 | a regression is waived if and only if it is a tool and an unexpired entry names its server, tool and new digest |
| `Acceptances.CoversIff` | src/mcpscan/acceptance.py:310-316 | an entry covers the drift of a tool if and only if it names its server, the tool as its key does, and the new digest |
| `Acceptances.WaivedThroughItsDay` | src/mcpscan/acceptance.py:294-301 | such an entry makes the drift informational through its last day; from then on it regresses, with the acceptance attached |
| `Acceptances.NextChangeGatesAgain` | src/mcpscan/acceptance.py:312-316 | any digest that no entry names gates |
| `Acceptances.CanBeWaivedIff` | src/mcpscan/acceptance.py:92-116 | a change of a tool in both snapshots can be waived at all if and only if neither fact is imported and the new one has a digest; by entries that pass the ledger checks, if and only if the digest is 64 hex digits and server and tool names are not blank |
| `Acceptances.ImportedDriftCannotBeWaived` | src/mcpscan/drift/diff.py:114-119 | drift of an imported pin is waived by no ledger |
| `Acceptances.ImportedPinGatesForEver` | src/mcpscan/drift/diff.py:114-119 | such a drift, of a live server with one tool: the seal changed, and an acceptance of the tool's new digest does not help |
| `Acceptances.StaysOrderedIff` | src/mcpscan/acceptance.py:332-339 | a sorted report stays sorted under waiving if and only if every unwaived entry after a waived one is informational, of no smaller kind and key |
| `Acceptances.WaivingBreaksTheOrder` | src/mcpscan/acceptance.py:332-339 | it does not for the diff of two scans between which a tool was rewritten and its server moved from every interface to loopback, once the new digest is accepted; nothing left in it gates |
| `Sse.FirstSseResponse` | src/mcpscan/discovery/live_tools.py:321-357 | for every cutting into chunks, the first event of the whole stream that looks like a response, or none; a stream left early is decided by the chunks read |
| `Sse.EventIsRead` | src/mcpscan/discovery/live_tools.py:324-358 | a payload sent as one event, line by line after data: and with either line end, is read back as it was if it looks like a response, and passed over otherwise |
| `Sse.OtherLineIsIgnored` | src/mcpscan/discovery/live_tools.py:324-358 | a line of any other field leaves no trace |
| `Sse.DrainConcat` | src/mcpscan/discovery/live_tools.py:337-350 | draining a longer buffer is draining a prefix and going on |
| `Sse.DrainIsReference` | src/mcpscan/discovery/live_tools.py:337-357 | the buffer loop computes split into lines, group into events, take the first response |
| `Sse.LaterBytesIrrelevant` | src/mcpscan/discovery/live_tools.py:344-347 | bytes after a completed response never change the answer |
| `Sse.EndOfStreamIsABlankLine` | src/mcpscan/discovery/live_tools.py:351-356 | the end of the stream acts as a blank line |
| `Sse.DrainIsStandard` | src/mcpscan/discovery/live_tools.py:337-350 | the standard's answer, which discards what is pending at the end, is what the loop finds before the end |
| `Sse.StandardIff` | src/mcpscan/discovery/live_tools.py:351-357 | code and standard agree on a stream if and only if a response was complete before its end, or what is pending at the end is no response |
| `Sse.CutOffEventIsTaken` | src/mcpscan/discovery/live_tools.py:351-356 | streams on which they differ: any response on one data line, cut off before its line feed |
| `Sse.CutOffResultIsTaken` | src/mcpscan/discovery/live_tools.py:351-366 | one of them: the line that carries {"result":{}} |
| `JsonDepth.DepthOk` | src/mcpscan/discovery/live_tools.py:226-246 | the loop is the scan by steps, on every text |
| `JsonDepth.DepthOkIff` | src/mcpscan/discovery/live_tools.py:226-246 | for a JSON value written with any escapes and white space: accepted if and only if its nesting is at most the limit |
| `Capture.AddTools` | src/mcpscan/discovery/live_tools.py:555-563 | the tools of a page up to the cap, and the malformed count |
| `Capture.ParseToolIff` | src/mcpscan/discovery/live_tools.py:442-462 | which entries of a tool list are accepted |
| `Capture.AnswerIff` | src/mcpscan/discovery/live_tools.py:411-424 | which replies a request takes, and for which result |
| `Capture.RefusalIff` | src/mcpscan/discovery/live_tools.py:411-424 | and the error for each of the others |
| `Capture.SessionIdIff` | src/mcpscan/discovery/live_tools.py:432-439 | which session ids are taken over |
| `Capture.FollowIff` | src/mcpscan/discovery/live_tools.py:566-572 | when a page leads on, and where |
| `Capture.TrueAnswersTheFirst` | src/mcpscan/discovery/live_tools.py:398-424 | a reply whose id is changed to `true` is answered the same for request 1 and refused for every later request |
| `CaptureTheorems.TrueIdIsCaptured` | src/mcpscan/discovery/live_tools.py:398-424 | a server that answers initialize with the id `true` is captured like one that answers with 1: the same messages, the same manifest |
| `CaptureTheorems.AnotherNumberStops` | src/mcpscan/discovery/live_tools.py:416-417 | a reply with the number of another request is not read: the capture stops there, fails when no page came before, and is truncated otherwise |
| `CaptureRun.CaptureSession.Post` | src/mcpscan/discovery/live_tools.py:398-401 | past the deadline nothing is sent; else one message under the session's headers |
| `CaptureRun.CaptureSession.Request` | src/mcpscan/discovery/live_tools.py:403-423 | one message with a fresh id; its answer is the checked reply |
| `CaptureRun.CaptureSession.Notify` | src/mcpscan/discovery/live_tools.py:425-429 | one message without id, accepted exactly with a status in the 200s |
| `CaptureRun.CaptureSession.Handshake` | src/mcpscan/discovery/live_tools.py:533-545 | initialize, then the notification under the settled session and version; or the failure that stopped it |
| `CaptureRun.CaptureSession.Greet` | src/mcpscan/discovery/live_tools.py:533-544 | session and protocol version are exactly what the reply to initialize settles, or its failure |
| `CaptureRun.CaptureSession.FetchPage` | src/mcpscan/discovery/live_tools.py:550-553 | one list request, and the page that answers it |
| `CaptureRun.CaptureSession.ReadPage` | src/mcpscan/discovery/live_tools.py:549-572 | one turn of the page loop: what was sent, the running totals, and what the page leads to |
| `CaptureRun.CaptureSession.RunCapture` | src/mcpscan/discovery/live_tools.py:520-587 | against any server and clock: exactly the messages that follow one another until none does, and exactly the report on the pages read, errors, malformed count and version included |
| `CaptureTheorems.RunsAgree` | src/mcpscan/discovery/live_tools.py:520-587 | a capture is determined by its server and clock |
| `CaptureTheorems.TraceIsBounded` | src/mcpscan/discovery/live_tools.py:377-429 | one initialize, one notification, at most 50 list requests with ids from 2 up, each asking for the cursor of the page before, all under the session and version of the reply to initialize |
| `CaptureTheorems.UntruncatedIsEverything` | src/mcpscan/discovery/live_tools.py:520-587 | an untruncated capture is every entry of every page, parsed, the last page being final |
| `CaptureTheorems.OnePageReadOffline` | src/mcpscan/discovery/live_tools.py:611-640 | a capture of one final page and the offline reading of it: equal flags, the offline tools a prefix, equal when no entry is malformed |
| `CaptureTheorems.SameCaptureUnlessCutShort` | src/mcpscan/discovery/live_tools.py:520-587 | if one server answers as another unless it fails, a capture of the one is the capture of the other or a beginning of it that a failure cut short |
| `Capture.ManifestFromToolsJson` | src/mcpscan/discovery/live_tools.py:611-640 | the offline reading of a saved document, or the reason it is refused |
| `Capture.ListedToolsIff` | src/mcpscan/discovery/live_tools.py:611-640 | where a saved document has its list of tools |
| `Capture.LiveAndOfflineAgree` | src/mcpscan/discovery/live_tools.py:611-640 | on one final page the flags always agree, offline tools are a prefix of live ones, and they are equal exactly when the rest adds nothing or the cap is filled |
| `Channel.EveryInterleaving` | src/mcpscan/discovery/stdio_sandbox.py:149-200 | under every interleaving, taken, queued and still ahead are the reader's sequence, and the client saw what it would have seen reading in turn |
| `Channel.ChannelIsBounded` | src/mcpscan/discovery/stdio_sandbox.py:152-171 | at most 256 entries queued, at most 8 MiB of lines and the marker, no line over the limit |
| `Channel.PumpedIs` | src/mcpscan/discovery/stdio_sandbox.py:155-171 | the reader puts every line and the end while all fit; otherwise those before the first that does not, the marker and the end |
| `Channel.TakenIs` | src/mcpscan/discovery/stdio_sandbox.py:173-203 | what the client makes of each item: a response, closed, too large, or nothing |
| `Channel.EachSendEndsOnce` | src/mcpscan/discovery/stdio_sandbox.py:173-203 | under every schedule each send has one outcome or is still waited for, and nothing is sent after an outcome that is no response |
| `Channel.ScheduleIsInvisible` | src/mcpscan/discovery/stdio_sandbox.py:173-200 | every send ends as over the plain list of lines, or with a deadline or write failure of its own, and then last |
| `Channel.ChannelAnswersAsLines` | src/mcpscan/discovery/stdio_sandbox.py:173-200 | under any schedule the channel answers as the list of lines does, or fails locally |
| `Channel.ChannelCaptureIsLineCapture` | src/mcpscan/discovery/stdio_sandbox.py:216-241 | a whole capture over the channel, under any schedule, has the messages, pages and report of the capture over the list of lines, or is a beginning of it cut short by a deadline or a failed write |
| `Channel.WaitingIsNeverStuck` | src/mcpscan/discovery/stdio_sandbox.py:155-200 | a waiting client or the reader can always move |
| `Channel.StepsUseUpWork` | src/mcpscan/discovery/stdio_sandbox.py:155-200 | and every step but a new request uses up work |
| `LiveChecks.WalkStrings` | src/mcpscan/checks/live_tools.py:43-57 | exactly min(budget, count) strings, none twice over, all of them when the budget suffices |
| `LiveChecks.Surfaces` | src/mcpscan/checks/live_tools.py:60-71 | only what the model reads, and all of it within the shared budget |
| `LiveChecks.AllSurfacesIff` | src/mcpscan/checks/live_tools.py:43-71 | what the model reads of a tool: name, description, and every string and key of its schemas and annotations |
| `LiveChecks.CheckTool` | src/mcpscan/checks/live_tools.py:238-263 | the findings of one tool, by kind, surface and code points |
| `LiveChecks.HiddenIff` | src/mcpscan/checks/live_tools.py:238-256 | within the budget, a hidden-character finding if and only if some surface has one, and with exactly their code points |
| `LiveChecks.HiddenIsReal` | src/mcpscan/checks/live_tools.py:238-256 | for any tool, only code points it contains |
| `LiveChecks.StrongestSignalOnce` | src/mcpscan/checks/live_tools.py:247-261 | each surface is reported for an injection if it has one, else for a directive if it has one |
| `Jsonc.StripCommentsLoop` | src/mcpscan/adapters/jsonc.py:20-56 | the scanner is the comment-stripping function |
| `Jsonc.DropCommasLoop` | src/mcpscan/adapters/jsonc.py:59-91 | the scanner is the comma-dropping function |
| `JsoncTheorems.CommentsAreStripped` | src/mcpscan/adapters/jsonc.py:20-56 | on every well-formed list of lexemes: the comments go, everything else stays |
| `JsoncTheorems.CommasAreDropped` | src/mcpscan/adapters/jsonc.py:59-91 | without comments: exactly the commas whose next lexeme but white space closes go |
| `JsoncTheorems.StrippedIsCleaned` | src/mcpscan/adapters/jsonc.py:94-96 | both: comments and trailing commas, also those with comments before the close |
| `JsoncTheorems.StripJsoncMeans` | src/mcpscan/adapters/jsonc.py:94-96 | every text is such a list, so the meaning holds of every text |
| `JsoncTheorems.StripCommentsIdempotent` | src/mcpscan/adapters/jsonc.py:20-56 | stripping comments twice is stripping them once |
| `JsoncTheorems.NoCommentLeft` | src/mcpscan/adapters/jsonc.py:94-96 | the result has no comment left to strip |
| `JsoncTheorems.StripJsoncIdempotentIff` | src/mcpscan/adapters/jsonc.py:82-88 | a second pass changes nothing if and only if no trailing comma stands before another |
| `JsoncTheorems.DoubledCommaSurvives` | src/mcpscan/adapters/jsonc.py:82-88 | `[1,,]` becomes `[1,]` |
| `LanScope.Lowered` | src/mcpscan/lan/budgets.py:31-56 | the loosest budgets that are as tight as the ceiling and as every override; unknown names are refused |
| `LanScope.CoveredByPolicy` | src/mcpscan/lan/scope.py:53-61 | covered if and only if some allowed network contains the target |
| `LanScope.ExpandWithin` | src/mcpscan/lan/scope.py:99 | the expansion is not empty, repeats nothing and stays inside the network |
| `LanScope.ExpandIff` | src/mcpscan/lan/scope.py:99 | the expansion is exactly the usable addresses, increasing: all of up to two, otherwise without the first and, for version 4, the last |
| `LanScope.SubnetIff` | src/mcpscan/lan/scope.py:53-61 | a network is a subnet of another if and only if each of its addresses lies there |
| `LanScope.ResolveScope` | src/mcpscan/lan/scope.py:64-118 | all hosts of all targets in order, none twice, if and only if every rule holds; otherwise the first broken rule |
| `LanScope.ScopeHostsIff` | src/mcpscan/lan/scope.py:98-113 | the hosts of a scope are exactly the usable addresses of its targets |
| `LanScope.ScopeIsAuthorized` | src/mcpscan/lan/scope.py:91-97 | every resolved host lies in a target that is private or covered by policy, and is not a range for an agent |
| `LanRun.ProbeHost` | src/mcpscan/lan/runner.py:165-180 | one host: probes in port order until a halt; every probe recorded and followed by the cooldown |
| `LanRun.RunLan` | src/mcpscan/lan/runner.py:112-180 | the gates in order; then exactly the longest prefix of hosts times ports with no halt before any probe; dry runs and refusals send nothing |
| `LanRun.EveryProbeIsAuthorized` | src/mcpscan/lan/runner.py:162-180 | every probe goes to an authorized host and a listed port, within the connection budget |
| `LanRun.CeilingsHold` | src/mcpscan/lan/budgets.py:59-80 | the limits of a human run and of an agent run, in numbers |
| `LanRun.UninterruptedRunIsWhole` | src/mcpscan/lan/runner.py:166-170 | without abort or deadline the whole product is probed: the connection cap is never what stops a run |
| `LanRun.TraceUnique` | src/mcpscan/lan/runner.py:162-180 | the probes are determined by the inputs |

## Left out

* `_summarize` and the wording of rationales, titles and findings: only which sentence is chosen.
* `infer_target` is modelled with ASCII upper-casing; other scripts' case mappings are not.
* `_bind_candidates` and `bind_hint`: a bind hint is a given tier.
- ToolFacts: the summary shows the tool's name as it is, where the original quotes it; nothing compares summaries.
- BuildGraph: the contract does not state the labels and facts of credential, host and target nodes nor the detail text of edges (credential nodes are stated by AddCredentials, inventory nodes by AddInventory); no chain, severity, grade or flag reads them.
- ProfileFactors: what the secret and pinning detectors look for is not modelled, only their verdicts.
- BaselineRoundTripIff: decoding and encoding JSON text is outside; the round trip is on JSON values.
- DepthOkIff: stated for texts that are JSON values; on other texts `DepthOk` is only tied to the scan by steps.
- StandardIff: compares the end of a stream only; both sides split lines at line feeds and know the `data:` field alone, as the code does, where the standard also ends lines at carriage returns.
- CheckTool: duplicate names, unavailable and incomplete captures, the phrase quoted and the order of the finding list are not modelled.
* `parse_ledger` and ledger files, save for the checks on one tool entry (`Acceptances.Usable`); signed baselines, `tool_digest`, Unicode normalisation and SHA-256.
* HTTP, subprocesses and containers; `_bounded_chunks` is the list of chunks it yields.
* The audit record, report assembly and redaction of a LAN run; only what is probed and recorded.
* Terminal, HTML, SARIF and DOT output, command-line parsing, telemetry, fixes and scheduling: formatting and input/output.
