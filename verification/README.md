# Agent-mesh governance demo: a Dafny model of its decision workflow

The demo is a single-page browser tool. It simulates a supply-chain "agent
mesh". The user picks an industry, a GxP compliance flag and an autonomy
threshold, then runs a scenario. A run does the following:

- it builds a three-message mesh (notify, propose, commit);
- it decides whether the autonomous commit is blocked;
- when blocked, it files an "Approve Commit" request in the inbox;
- it shows the scenario's KPIs and canned policy journal;
- it logs two audit records.

Approving a request marks it approved and adds one journal line. It also
clears every `block` guard in the current mesh.

This project models that workflow as pure transitions over an immutable
state record:

- `Engine.RunScenario` and `Engine.Run` model a run;
- `Engine.Approve` models the approval;
- `Engine.Step` and `Engine.Replay` model any sequence of control changes,
  audit notes,
  runs and approvals.

Beside them sit the page's small pure rules:

- the journal tag classifier and prefix stripper;
- the status badge class and the asset-policy badge;
- the readiness percentage and its "Missing" pills;
- the lifecycle stepper;
- the dependency-to-connector mapping;
- the filter that draws only messages whose ends are nodes.

Modules, in dependency order: `Options`, `Find` (`Array.prototype.find`),
`Text` (the JavaScript string built-ins used), `Governance`, `Journal`, `AgentMesh`, `Inbox`, `Audit`,
`Readiness`, `Lifecycle`, `Mapping`, `Engine` and `Catalog` (the two shipped
scenarios).

Modelling choices:

- **Threshold.** The threshold is a natural number of hundredths, because
  the slider moves in steps of 0.01. The test `threshold > 0.70` becomes
  `threshold > 70`.
- **Clock.** Request ids come from `Date.now()` and audit timestamps from
  `new Date().toISOString()`. A run takes both from a `Clock` parameter.
  Ids are not assumed unique: approval marks the first item with the id.
- **Catalog.** The scenario catalog is a parameter. The Run button passes
  its click event as the id, which matches no scenario; that is `None`. An
  empty catalog makes the run throw after it has reset the mesh. This is the
  `Threw` outcome, which keeps that partial state.
- **Journal.** The journal is the visible journal container. Canned lines
  get the classes `block`, `guard` or `info`. Lines written at run time by
  `journal(tag, text)` get the lower-cased tag, so a run-time guardrail line
  has class `guardrail`, distinct from `guard`.
- **Shared policy objects.** Messages and edges share their policy objects.
  The model keeps them as two sequences and proves that edges mirror
  messages (`AgentMesh.Mirrored`) before and after approval.

Four behaviours of the code are easy to misread. The model follows the code
in each:

- **Run-time guard lines.** The guard lines written at app.js:374-387 are
  wiped when the journal container is cleared at app.js:404. After a run the
  journal holds only the scenario's canned lines.
  `Engine.RunDiscardsGuardLines` states this. It also shows that the journal
  of the guard phase ends in the block line exactly when the run is blocked.
- **Mesh agents.** Every sender and receiver name of the exchange is
  written into the code (app.js:372-386), not taken from the scenario's
  agents. The Life Sciences scenario lists neither DemandPlanner nor MEIO,
  so no message of its run is drawn or listed (`Catalog.LsMeshDrawsNothing`).
- **Audit records.** A run appends two audit records: the "Running" note
  (app.js:358) and the summary (app.js:426).
- **GxP.** GxP blocks a commit on its own, whatever the threshold, because
  `['Commit','Release'].includes('Commit')` at app.js:371 is always true.

## Model

| member | source | states |
|---|---|---|
| Governance.Blocked | app.js:371 | a run is blocked exactly when GxP is on or the threshold exceeds 0.70; the Commit/Release membership test never matters |
| Governance.ProposeGuard | app.js:373 | the propose guard is never `block`, and is `warn` exactly when the threshold exceeds 0.70 |
| Governance.CommitGuard | app.js:380-386 | the commit guard is never `warn`, and is `block` exactly when the run is blocked |
| Governance.CommitAtLeastAsStrict | app.js:371-386 | a warning on the propose edge implies a block on the commit edge; without GxP the two coincide |
| Governance.BadgeClass | app.js:329-333 | class `ok` exactly for status `OK`, `warn` exactly for `WARN`, `block` for anything else |
| Governance.BadgeClassRoundTrip | app.js:329-333 | classifying a level's own status name gives the level back |
| Governance.PolicyBadgeOf | app.js:560-563 | the badge key is the prefix of the policy up to its first space, or all of it; it is `warn` iff the lower-cased key contains `gxp`, `block` iff it contains `threshold` but not `gxp`, else `ok` |
| Governance.PolicyBadgeFirstWordOnly | app.js:561-562 | text after the first space never changes a policy's badge |
| Governance.GxpPolicyBadge | app.js:87 | the catalog policy "GxP Approval Required" shows the badge `GxP` in `warn` |
| Governance.ThresholdPolicyBadge | app.js:87 | the catalog policy "Threshold >0.70 blocks commit" shows the badge `Threshold` in `block` |
| Text.Includes | app.js:562 | `includes` is true exactly when some position of the string starts a copy of the substring |
| Text.StartsWithPointwise | app.js:405 | `startsWith` holds exactly when the prefix is no longer than the string and matches it character by character |
| Text.FirstWord | app.js:561 | `split(' ')[0]` is a space-free prefix that ends at the first space or at the end of the string |
| Text.FirstWordStops | app.js:561 | the first word of `word + " " + rest` is `word` for every space-free `word` |
| Text.LowerAscii | app.js:562 | lower-casing keeps the length, turns each ASCII capital into its own lower-case letter and leaves every other character alone |
| Text.Fixed2RoundTrip | app.js:378 | the two-decimal rendering of a threshold reads back to the same number of hundredths |
| Text.DecimalRoundTrip | app.js:378 | the integer part of the rendering reads back to the number it prints |
| Text.Decimal | app.js:378 | the integer part `toFixed` prints: decimal digits only, with a leading zero only for zero itself |
| Text.Fixed2 | app.js:378 | `toFixed(2)` of a threshold is at least four characters, all digits except a point third from the end, with no leading zero before a second integer digit |
| Text.JoinSnoc | app.js:416 | joining one more part adds exactly one separator and that part at the end |
| Text.JoinLength | app.js:416 | a joined string's length is the parts' lengths plus one separator between each pair |
| Text.Join | app.js:416 | `join` of no parts is empty; otherwise the result starts with the first part and ends with the last |
| Journal.WordRun | app.js:406 | the `\w+` run at the start of a line: every character inside is a word character and the next is not |
| Journal.DropSpaces | app.js:406 | the `\s*` removal drops only white space, and the rest does not start with white space |
| Journal.StripTag | app.js:406 | the displayed text is a suffix of the line; when the line opens with `[`, a word and `]`, the displayed text is what follows with its leading white space removed; any other line, including `[x y] z` or `[]a`, is shown whole |
| Journal.StripTagged | app.js:406 | for every tag word and every remainder, `[word]` is removed together with all the white space after it |
| Journal.Classify | app.js:405 | a line is `block` exactly when it starts with `[BLOCK]`, `guard` exactly when it starts with `[GUARDRAIL]` and not `[BLOCK]`, and otherwise info; never `guardrail` |
| Journal.ParseLine | app.js:405-406 | a canned line never gets the run-time `guardrail` class, and its displayed text is a suffix of it |
| Journal.ParseAll | app.js:404-407 | the journal shows one line per canned line, in order |
| Journal.ParseCanned | app.js:404-407 | a line `[WORD] text` is displayed as `text` with the class WORD stands for: `BLOCK` gives block, `GUARDRAIL` gives guard, any other word gives info |
| Journal.ParseAllCanned | app.js:404-407 | a whole list of canned lines parses back to its tag classes and texts, in order |
| Journal.ClassifyAllCanned | app.js:405 | every canned line's class depends only on its tag word, whatever its text |
| Journal.ClassifyCanned | app.js:405 | a canned line starts with `[KEY]` exactly when its tag word is KEY, so no longer or shorter word matches |
| Journal.StripCanned | app.js:406 | stripping the tag of `[WORD] text` leaves exactly `text` |
| Journal.UntaggedLineShownWhole | app.js:405-406 | a line without a leading bracket is shown whole as information |
| Journal.RuntimeGuardLines | app.js:374-387 | a run writes one `guardrail` line per rule that fires, then a last line that is the block line exactly when blocked and otherwise the autonomous-commit line |
| AgentMesh.Layout | app.js:362 | one node per agent in order, on lane 90 at even positions and 210 at odd ones |
| AgentMesh.Send | app.js:364-368 | sending appends the message and its edge, keeps edges mirroring messages and keeps earlier messages |
| AgentMesh.Build | app.js:361-386 | a run's mesh has the agents' nodes, mirrored edges and exactly the notify, propose and commit messages |
| AgentMesh.BuildShape | app.js:372-386 | the three messages form a chain; notify has no policy; propose warns iff the threshold exceeds 0.70; commit blocks iff blocked, else is `ok`; exactly one message blocks iff blocked, and only the commit |
| AgentMesh.BlockCount | app.js:518 | the number of blocking messages is zero exactly when no message blocks |
| AgentMesh.ClearGuard | app.js:518 | a cleared guard never blocks, and a guard that did not block is unchanged |
| AgentMesh.ClearBlocks | app.js:518 | clearing keeps every message's sender, receiver, kind and note, clears each guard, and leaves none blocking |
| AgentMesh.Unblock | app.js:518 | after approval no message blocks, edges still mirror messages, and each message differs at most in a cleared guard |
| AgentMesh.ApprovedCommitIsOk | app.js:518 | after approval a run's commit message is `ok`, whether or not the run was blocked |
| AgentMesh.UnblockIdempotent | app.js:518 | clearing blocks twice is clearing them once |
| AgentMesh.UnblockWithoutBlockIsIdentity | app.js:518 | a mirrored mesh with no block is left exactly as it was |
| AgentMesh.Drawn | app.js:479-482 | a message is drawn exactly when it is a message of the mesh and both its sender and receiver are nodes |
| AgentMesh.DrawnAppend | app.js:479-499 | drawing keeps message order: drawing two runs of messages joined is drawing each and joining the results |
| AgentMesh.DrawnAll | app.js:479-482 | when every message joins two nodes, every message is drawn, in order |
| AgentMesh.DrawnNone | app.js:479-482 | when no message joins two nodes, nothing is drawn |
| Find.FirstWhere | app.js:356 | `find` as a position: the element found passes the test and no earlier element does; the length when none passes |
| Find.NotFound | app.js:515 | nothing is found exactly when no element passes the test |
| Inbox.Request | app.js:383 | a filed request is pending, carries the run's clock id and has the title "Approve Commit" |
| Inbox.Approve | app.js:514-515 | approval keeps the length, changes only the first item with the id, and changes only its status, to Approved |
| Inbox.ApproveUnknown | app.js:515 | an id no item carries leaves the inbox unchanged |
| Inbox.ApproveMarks | app.js:515 | when some item has the id, the first such item is approved afterwards |
| Inbox.ApproveFiled | app.js:515 | approving the id of a just-filed request approves that request, unless an earlier item shares its id |
| Inbox.ApproveIdempotent | app.js:515 | approving twice is approving once |
| Inbox.FirstIndexKept | app.js:515 | approval never moves the first match, because it never changes ids |
| Inbox.ApproveMonotone | app.js:515 | an approved item stays approved, and an item pending afterwards was pending before |
| Audit.LogInfo | app.js:441-443 | logging appends exactly the note with the given timestamp and message, and keeps every earlier record |
| Audit.KpiTexts | app.js:416 | one `name: value` text per KPI, in the order of the KPI list |
| Audit.KpiSummary | app.js:416 | the KPI summary is empty for no KPIs, else starts with the first KPI's `name: value` and ends with the last's |
| Audit.KpiSummarySnoc | app.js:416 | one more KPI adds exactly " • " and its `name: value` text to the summary |
| Audit.KpiSummaryLength | app.js:416 | the summary is the KPI texts plus one bullet between each pair |
| Audit.Recent | app.js:526 | the audit view shows the last min(200, n) records, in order |
| Audit.RecentShowsNewest | app.js:526 | up to 200 records just appended are the last ones shown |
| Readiness.CountOk | app.js:337 | the OK count is at most the item count, zero iff no item is OK, and full iff every item is OK |
| Readiness.CountOkAppend | app.js:337 | counting entities and models separately and adding is counting them together |
| Readiness.RoundPercent | app.js:339 | the percentage is the nearest whole number to `oks/total*100`, halves up; it is in 0..100 when `oks <= total`, and none when there are no items |
| Readiness.ReadinessPercent | app.js:337-339 | readiness is the rounded share of OK items over both catalogs together: none iff both are empty, else in 0..100, and 100 when every item is OK |
| Readiness.AllOkIsFull | app.js:339 | all items OK rounds to exactly 100 |
| Readiness.MissingPills | app.js:342-346 | the pills "Missing: Agents", "Missing: Data" and "Missing: Governance" show, in that order, exactly when the percentage is below 95; none show otherwise |
| Readiness.ShippedReadiness | app.js:42-67 | with the shipped entity and model catalogs, 13 of 16 items are OK: readiness is 81% and the pills show |
| Lifecycle.ActiveSteps | app.js:602-613 | seven steps in order: develop always on, validate and catalog together, deploy, measure and upstream together, and map only when validate is on |
| Lifecycle.StepActivation | app.js:606-613 | develop is active; validate and catalog iff an asset is selected; map iff an asset and a client are; deploy, measure and upstream iff a plan exists; no other step |
| Lifecycle.ClientAloneActivatesNothing | app.js:606-613 | a client without an asset or a plan lights only the develop step |
| Mapping.MapTarget | app.js:660 | the target is the client's first system when it is present and non-empty, otherwise "Connector"; never empty |
| Mapping.EntityMappings | app.js:658-661 | one line per dependency in order, each being the dependency, an arrow, and the common target |
| Mapping.MappingLineSplits | app.js:660 | each mapping line splits back into its dependency and the target |
| Engine.Select | app.js:356 | the first scenario with the requested id, else the first of the selected industry, else the first one; none exactly when the catalog is empty |
| Engine.GuardPhase | app.js:370-387 | the guard phase appends the run-time guard lines to the journal, adds one request iff blocked and keeps earlier requests, builds the mesh, and leaves the audit trail alone |
| Engine.RunScenario | app.js:355-428 | a run keeps the controls; shows the scenario's KPIs; adds exactly one pending request iff blocked; rebuilds the mesh; leaves the journal equal to the parsed canned lines; appends exactly two audit records |
| Engine.Run | app.js:355-358 | a run throws exactly when the catalog is empty, leaving only the mesh reset; otherwise it runs the selected scenario |
| Engine.RunAudit | app.js:358-426 | the two audit records are the "Running: name" note and the summary carrying the scenario id, the controls and the KPI summary |
| Engine.RunMesh | app.js:361-386 | a run's mesh has three mirrored messages, exactly one blocking iff blocked, and only a commit blocks |
| Engine.RunDiscardsGuardLines | app.js:374-407 | the guard phase ends in the block line iff blocked, yet the journal after a run depends on neither the controls nor the earlier journal |
| Engine.Approve | app.js:513-521 | approval approves the first matching request; adds one "Approval granted" line; clears every block and touches no other message; keeps the nodes, keeps edges mirrored, and leaves the audit, KPIs and controls unchanged |
| Engine.ApproveTwice | app.js:513-521 | a second approval of the same id changes nothing but adding another journal line |
| Engine.RunThenApprove | app.js:380-518 | after a blocked run and approval of the filed id, the first request with that id is approved (the new one when no earlier request shares the id) and the commit message is `ok` |
| Engine.Step | app.js:188-743 | only a change of controls (app.js:213-219) changes the industry, GxP flag and threshold; it sets them to the chosen values and touches nothing else; an audit note (app.js:188, 701, 743) appends exactly that record and leaves KPIs, journal, inbox, mesh and controls alone |
| Engine.Replay | app.js:188-743 | replaying nothing leaves the state alone, and a sequence without a change of controls keeps the controls |
| Engine.ReplayAppend | app.js:188-743 | replaying two sequences one after the other is replaying them joined |
| Engine.StepConsistent | app.js:188-743 | a change of controls, an audit note, a run or an approval keeps edges mirroring messages and keeps `block` on commit messages only |
| Engine.StepGrows | app.js:188-743 | one action never removes audit records or requests; with a non-empty catalog a run adds exactly two records, an audit note one, and a change of controls or an approval none |
| Engine.ReplayConsistent | app.js:188-743 | any sequence of control changes, audit notes, runs and approvals from a consistent state ends in a consistent state |
| Engine.ReplayGrows | app.js:188-743 | along any sequence of actions the audit trail only grows, by two records per run and one per audit note, and the inbox never shrinks |
| Engine.InitialConsistent | app.js:1-13 | the page's initial state is consistent |
| Catalog.RunButtonPicksIndustry | app.js:16-40 | with the shipped scenarios the Run button picks the selected industry's scenario, and a card picks its own |
| Catalog.UnknownIndustryFallsBack | app.js:356 | an industry with no scenario falls back to the first |
| Catalog.CpgJournalTags | app.js:21-27 | the CPG journal shows info, info, guard, info, info; the `[APPROVAL]` line is info |
| Catalog.LsJournalTags | app.js:33-38 | the Life Sciences journal shows info, guard, block, info |
| Catalog.CpgAutonomous | app.js:380-386 | CPG without GxP at 0.70 files no request, and its commit message is the autonomous `ok` commit |
| Catalog.LifeSciencesBlocked | app.js:380-384 | Life Sciences with GxP at 0.72 files one pending request naming the scenario and blocks the commit |
| Catalog.LifeSciencesApproved | app.js:513-518 | approving that request approves it and turns the commit guard to `ok` |
| Catalog.CpgMeshDrawn | app.js:479-482 | every message of a CPG run joins two of its agents and is drawn |
| Catalog.LsMeshDrawsNothing | app.js:479-482 | no message of a Life Sciences run is drawn, because its agents include neither DemandPlanner nor MEIO |

## Left out

- Page rendering is not modelled: DOM construction, `innerHTML`, event wiring, view switching, the guided tour and its `setTimeout`. The model keeps only the state the page shows.
- Drawing is not modelled: the radar (`drawRadar`), the SVG half of the mesh view (line colours, shield glyphs), provenance drawing and averages, and node x-coordinates (`80 + i*(560/(n-1))`). These are floating-point geometry with no effect on state.
- The `Math.random` heatmap of the readiness view is not modelled, because it is nondeterministic.
- `Date.now()` and `new Date().toISOString()` are not modelled. A `Clock` parameter supplies them.
- The risk dial text (app.js:397) and the KPI preview markup are not modelled. They are display-only strings.
- The audit view's line format is not modelled, because it prints a float threshold through JavaScript's number-to-string conversion. Which records are shown (`Audit.Recent`) is modelled.
- JSON and Blob export and `alert` previews are not modelled. They are I/O and browser APIs.
- Mapping-wizard markup beyond the entity mapping lines and the contents of a deployment plan are not modelled; a plan appears only as whether one exists (`Selection.hasPlan`). The audit notes written on page load (app.js:188), on generating a plan (app.js:701) and on deploying it (app.js:743) are modelled as the `Engine.LogNote` action; its message is a parameter, as the plan's asset and client names are not part of the engine state.
- `Audit.KpiTexts`: follows the order of the KPI list it is given. `Object.entries` (app.js:416) lists keys that look like array indices first, in ascending order, and the other keys in insertion order; the shipped KPI names are not index-like, so the list order is the insertion order.
- The `role` and `presenter` controls are not modelled. No transition reads them.
- The scenario risk vectors, which feed only the radar, are not modelled.
- `Text.LowerAscii`: `toLowerCase` is modelled for ASCII letters only. The policies it is applied to are ASCII.
- `Text.Fixed2`: `toFixed(2)` is modelled only for thresholds in whole hundredths, which is all the 0.01-step slider produces.
- `Readiness.RoundPercent`: computes `Math.round(oks / total * 100)` exactly on rationals. It does not model binary floating-point error, which could move a result lying exactly on a .5 boundary.
- `Readiness.ReadinessPercent`: states "all OK gives 100" but not the converse. 100% does not imply every item is OK: 199 of 200 rounds to 100.
- `Catalog.CpgJournalTags`: the shipped scenarios' journals are stated by class only. Their full displayed texts follow from `Journal.ParseAllCanned` but are not restated per scenario.
- `Catalog.LsJournalTags`: same as `Catalog.CpgJournalTags`.
