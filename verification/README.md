# Verified model of the RimWorld benchmark's deterministic core

A Dafny 4.11 model of the parts of RLE that decide what a benchmark run means: how the plans of
many agents become one set of writes, how those writes are executed and judged, how building
sites are chosen, how tool calls are attributed to ticks, how model output is turned back into
JSON, and how runs are scored and ranked. Everything is proved for all inputs, all replies of
RIMAPI and all interleavings. `dafny verify dfyconfig.toml` checks the project.

## How it is organised

- `Values`, `Actions`, `Rects`, `Seqs`, `Numbers`, `Sorting`: parameter values with Python's
  conversions, actions and the alias table, map rectangles, and small sequence libraries.
- `Preflight`, `Resolver`, `ResolverLaws`: reading and validating work priorities, the conflict
  resolver and what it guarantees of its output.
- `Coherence`: the contradiction detector. `Clash` says which two writes contradict each other;
  the dict-filling detector is proved to flag exactly the writes that clash.
- `Executor`: dispatch with the run-long zone guards and work list. RIMAPI's replies are an
  argument, so each law holds for every reply.
- `Pipeline`: arbitrate, execute, judge. The laws that cross the three.
- `Precedence`, `Verdicts`, `Writes`, `Sites`, `MetricLaws`: what the leaf rules mean, in terms of
  the inputs alone: who wins a slot, which two writes contradict each other, when a write succeeds,
  which cells a site is made of, what a metric rewards.
- `MergedSettings`, `Readers`: what the executor makes of a merged payload, and of one payload as
  the detector reads it.
- `Terrain`: run-length decoding, the expanding site search, the water box and the pin.
- `Ledger`, `Session`, `Attribution`: the turn protocol as atomic steps. `act` is split at its
  await, and any sequence of steps is a run. `Attribution` follows every recorded call to the step
  result it ends up in.
- `JsonRepair`: the brace scanner and the trailing-comma step over the full JSON grammar with
  free white space and any escapes.
- `ThreatTracking`: threat-response bookkeeping against the trace of the run.
- `Leaderboard`, `Scoring`, `Bootstrap`, `Baseline`, `SaveLoader`: the Pareto frontier, metric
  bounds and composite, percentile intervals, baseline aggregation and the save-settling loop.

Functions give the meaning; methods follow the program's loops and state and are proved equal to
them; lemmas state what the meaning guarantees. Floats are reals and `round` is left out. Dicts
are maps, with insertion order kept where it reaches a result (the resolver's groups, the keys of
a payload being validated).

## What turned out to need a condition

- A merged `work_priority` payload is read back unchanged exactly when no merged work type bears
  a reserved key's name (`MergeReadsBack`). The documentation says reserved keys are never work
  types, but the nested shape does not filter them (src/rle/orchestration/preflight.py:103-111).
- Resolving the resolver's output again is the identity exactly when, for each pawn, the merged
  names avoid the reserved keys, or are all reserved keys other than `work`, `work_type` and
  `skill` (`ResolveTwice`).
- The trailing-comma step repairs a printed object exactly when no string holds a comma,
  optional white space and a closing bracket (`TrailingCommasRepaired`), because the rewrite is
  not string-aware.
- The detector is documented as a mirror of the executor's accepted shapes
  (src/rle/scoring/coherence.py:140-151). The two read the same shapes alike exactly as `Mirrored`
  describes branch by branch (`MirroredIff`). The verdict on a write depends on what the executor
  sets after folding case and refusing unknown names and priorities outside 0 to 4: an accepted
  write is judged rightly exactly when that agrees with what the detector sees on every known work
  type (`JudgedRightlyIff`), which `AgreeIffShown` splits by shape and spelling. It fails for a
  plain `work` + `priority` payload, in both directions (`FalseContradiction`,
  `MissedContradiction`), and for a type in another case (`SpellingMissed`).
- A merged payload sets each type to its least-key mention, whatever the key order, exactly when
  no two merged names spell one type with different values (`MergedSettingIff`): the resolver
  merges names before case is folded.
- The detector's rectangle is documented as mirroring the executor's defaults
  (src/rle/scoring/coherence.py:36). It does exactly when every coordinate consulted is given and
  is no boolean (`DetectorSeesExecutorRect`); default zones go unseen (`DefaultZonesUnseen`).
- Game loop and detector read a draft alike exactly when `is_drafted` is true or `False` itself
  (`DraftReadingsAgree`).
- The resolver's output contradicts itself only as move against job or farm over stockpile exactly
  when the plans ask for no two slots that the detector confuses (`UnconfusableIff`): to it a pawn
  write without target is one on the pawn `""`, and the target of a colony write means nothing.
- The bootstrap indices are in order for every number of resamples exactly at positive levels
  (`PositiveLevelsOrder`).
- Every step result reports the writes of a tick of its own exactly when no step is finished
  between ticks (`ResultsAreBatches`), which the harness sees to.
- `threat_response` is commented as giving 1 for a response after one tick; the code gives 0.9, and
  1 only for pawns drafted already (`EqualDelays`).
- `pareto_frontier` is documented as requiring both a higher score and a lower cost; the code
  uses weak dominance with one strict inequality, and so does the model (`EqualScoresCompared`).
- `load_save_and_settle` is documented as waiting for five equal polls; the code waits for five
  answers that repeat the answer before them, and a failed poll resets the count but not the
  population compared against. The model follows the code (`FiveEqualPolls`,
  `FailedPollKeepsAnswer`).

## Model

| member | source | states |
|---|---|---|
| Actions.AliasTable | src/rle/agents/actions.py:75-102 | The names that stand for each endpoint a law speaks of |
| Actions.OtherNames | src/rle/agents/actions.py:100-102 | Any other name stands for itself |
| Values.IntOfText | src/rle/orchestration/preflight.py:104-110 | `int(str(i))` is i for every integer, with any white space around it |
| Actions.DesignationNames | src/rle/agents/actions.py:93-93 | `cancel_blueprint` stands for a designation |
| Values.IntSpellings | src/rle/orchestration/preflight.py:108-110 | Spellings that `int` takes and does not take |
| Values.OtherConversions | src/rle/orchestration/preflight.py:108-119 | What `int` and `str` make of booleans, null and each other |
| Values.FalsyValues | src/rle/scoring/coherence.py:94-94 | What is false in a condition, and nothing else is |
| Values.SpaceOrNot | src/rle/agents/json_repair.py:39-39 | JSON white space is matched as white space, nothing printable is |
| Values.LowerIsLower | src/rle/orchestration/preflight.py:145-150 | Lower case keeps every position and turns A to Z into a to z |
| Preflight.ExtractMeans | src/rle/orchestration/preflight.py:95-129 | Entry by entry, what is read out of parameters of any shape, with the field names written out |
| Preflight.NamePrecedence | src/rle/orchestration/preflight.py:113-120 | `work_type` names the type before `work`, and `work` before `skill` |
| Preflight.FieldsSetNothing | src/rle/orchestration/preflight.py:122-129 | An integer under a field name of the transfer object sets nothing |
| Preflight.FlatAcceptedIff | src/rle/orchestration/preflight.py:145-165 | A flat payload for one type is accepted iff the name is known but for case and the priority is 0, 1, 2, 3 or 4 |
| Preflight.VanillaNames | src/rle/orchestration/preflight.py:38-60 | The vanilla work types, one by one |
| Preflight.ExtractWorkPriorities | src/rle/orchestration/preflight.py:95-129 | The loops return the map `Extract` defines: nested object, single named type, or flat unreserved integers |
| Preflight.ExtractAvoidsReserved | src/rle/orchestration/preflight.py:113-129 | Outside the nested shape a reserved key is never read as a work type |
| Preflight.FlatReadsBack | src/rle/orchestration/preflight.py:122-129 | A flat integer map reads back as itself iff it names no reserved key, and as nothing iff it holds inert names only |
| Preflight.ShapesAgree | src/rle/orchestration/preflight.py:95-129 | The documented flat, nested and single-type shapes of one assignment read alike |
| Preflight.NormalizeWorkPriorities | src/rle/orchestration/preflight.py:132-165 | The loop accepts exactly the payloads that give something, under known names only and in range, and sets each type to the value of its last spelling |
| Preflight.CanonicalSpelling | src/rle/orchestration/preflight.py:145-150 | A name is known iff some known name equals it but for case, and is given a known spelling that keeps itself |
| Preflight.ValidatedTypes | src/rle/orchestration/preflight.py:145-165 | What is accepted sets known types in range, each of which some spelling was given for, to a value given so |
| Preflight.LowercaseNormalized | src/rle/orchestration/preflight.py:145-158 | In the vanilla list `growing` sets Growing |
| Resolver.MinByKey | src/rle/orchestration/action_resolver.py:87-89 | The loop finds what `min` over the four-part key returns |
| Resolver.RaidMeansThreat | src/rle/orchestration/action_resolver.py:178-194 | A raid is active iff some threat is above 0.5 |
| Resolver.TagActions | src/rle/orchestration/action_resolver.py:208-226 | Every action of every plan in order, numbered from 0 across plans |
| Resolver.OfferWork | src/rle/orchestration/action_resolver.py:100-104 | One candidate takes over exactly the work types it mentions and beats the holder of |
| Resolver.MergeWorkPriority | src/rle/orchestration/action_resolver.py:97-118 | The loops compute the merged action that `Merge` defines per work type |
| Resolver.GroupBySlot | src/rle/orchestration/action_resolver.py:242-246 | The dict holds exactly the members of each group, its keys in order of first appearance |
| Resolver.SplitByTarget | src/rle/orchestration/action_resolver.py:139-146 | Actions are split by having a target, each side in order |
| Resolver.ResolvePawnConflicts | src/rle/orchestration/action_resolver.py:232-276 | One choice per surviving pawn slot in order, and the number of contested slots |
| Resolver.ResolveColonyActions | src/rle/orchestration/action_resolver.py:278-299 | One winner per colony slot in order, and the number of contested slots |
| Resolver.RealPawnsDecide | src/rle/orchestration/action_resolver.py:268-275 | A slot survives iff it is a real write or no real write targets its pawn |
| Resolver.SidesMakeResolution | src/rle/orchestration/action_resolver.py:139-157 | Resolving the colony and pawn sides apart and joining them is one grouping of all actions |
| Resolver.ActionResolver.Resolve | src/rle/orchestration/action_resolver.py:124-172 | The whole pipeline: action list, mean confidence and conflict counts for every plan list |
| ResolverLaws.WinnerIsLeast | src/rle/orchestration/action_resolver.py:87-89 | The winner is the one candidate whose key is below all others |
| ResolverLaws.MergePreservesMeaning | src/rle/orchestration/action_resolver.py:97-118 | A work type is merged iff some candidate mentions it, with the value of the least-key candidate mentioning it; all else is the winner's |
| ResolverLaws.MergeReadsBack | src/rle/orchestration/action_resolver.py:106-118 | The merged payload reads back as the merged map iff no merged work type bears a reserved key's name |
| ResolverLaws.OnlyNestedNamesReserved | src/rle/orchestration/preflight.py:103-111 | A reserved name can only come from the nested shape |
| ResolverLaws.ReservedNameIsLost | src/rle/orchestration/preflight.py:103-111 | A concrete nested reserved name that is merged and then lost |
| ResolverLaws.MergeOrderFree | src/rle/orchestration/action_resolver.py:97-118 | Reordering candidates with fixed sequence numbers changes nothing |
| ResolverLaws.AtMostOnePerSlot | src/rle/orchestration/action_resolver.py:232-299 | The output holds at most one action per target and endpoint |
| ResolverLaws.OutputIsLeast | src/rle/orchestration/action_resolver.py:251-266 | Each output action is the least-key input of its slot, a merged one up to its parameters |
| ResolverLaws.EverySlotSurvives | src/rle/orchestration/action_resolver.py:268-276 | A slot is in the output iff some input asks for it and it is no shadowed pawn `no_action` |
| ResolverLaws.ConflictsCountContestedSlots | src/rle/orchestration/action_resolver.py:251-254 | The conflict count is the number of slots two or more inputs compete for |
| ResolverLaws.ResolveTwice | src/rle/orchestration/action_resolver.py:124-172 | Resolving the output again finds no conflict and returns the same list iff the names merged for each pawn are stable |
| Precedence.TagAt | src/rle/orchestration/action_resolver.py:208-226 | Every action is tagged with its plan's role, that role's rank and the plan's confidence, and numbered in plan order |
| Precedence.WinnerByFields | src/rle/orchestration/action_resolver.py:87-89 | Each output is the action of some plan, up to merged parameters, and prevails over every write to its slot: lower priority number, then better role, then higher confidence, then later |
| Precedence.OwnerByFields | src/rle/orchestration/action_resolver.py:97-118 | A merged work type carries the value of the write that prevails in that order among the writes of the slot that mention it |
| Precedence.MedicalEmergencyMeans | src/rle/orchestration/action_resolver.py:178-194 | A medical emergency is a disease or a mean health below one half |
| Precedence.RoleRanks | src/rle/orchestration/action_resolver.py:200-206 | The rank of every role in and out of a crisis; rank 1 is for the promoted only |
| Precedence.CrisisDecides | src/rle/orchestration/action_resolver.py:200-206 | A promoted role's write prevails over any write of its slot that is not more urgent |
| Precedence.OutputOrder | src/rle/orchestration/action_resolver.py:155-157 | Colony writes come first, then pawn writes, each side in the order its slots were first asked for |
| MergedSettings.MergedSettingIff | src/rle/orchestration/action_resolver.py:17-20 | Whatever the payload's key order, the executor sets each type to its least-key mention iff no two merged names are spellings of one type with different values |
| MergedSettings.AnyNameCanWin | src/rle/orchestration/action_resolver.py:108-111 | Otherwise the key order decides: any merged name can have the last word on its type, a loser's as well |
| MergedSettings.MergedAcceptedIff | src/rle/orchestration/action_resolver.py:97-118 | A merged write is accepted iff every candidate names known types only and the winning values are in range |
| Rects.OverlapSharesCell | src/rle/scoring/coherence.py:48-51 | The overlap test means that the rectangles share a map cell |
| Coherence.NoteWork | src/rle/scoring/coherence.py:98-100 | Each work type a write sets is booked under its pawn and priority |
| Coherence.Note | src/rle/scoring/coherence.py:89-113 | One pass step books the write in the dict of its endpoint and in no other |
| Coherence.FlagSplit | src/rle/scoring/coherence.py:115-126 | Flags exactly the writes under keys with two or more sub-keys |
| Coherence.FlagZones | src/rle/scoring/coherence.py:127-131 | Flags exactly the zones that overlap another listed zone |
| Coherence.FlagCrowded | src/rle/scoring/coherence.py:54-57 | Flags exactly the writes that share their list with another |
| Coherence.SplitMeansClash | src/rle/scoring/coherence.py:115-126 | Sitting under a split key is having another executed write with the same key and a different sub-key |
| Coherence.FlagBooks | src/rle/scoring/coherence.py:115-135 | From complete dicts the flag loops produce exactly the clashing writes |
| Coherence.CountContradictions | src/rle/scoring/coherence.py:60-137 | The counts are of the executed writes that clash with another executed write, and of the executed writes |
| Coherence.ClashSymmetric | src/rle/scoring/coherence.py:65-74 | A contradiction is symmetric |
| Coherence.ContradictionsBounded | src/rle/scoring/coherence.py:137 | Contradictory writes never outnumber executed ones and are never exactly one |
| Coherence.ExecutedWithinTotal | src/rle/orchestration/action_executor.py:142-147 | A result that counts its outcomes executes no more writes than it attempts |
| Verdicts.FlaggedByPairs | src/rle/scoring/coherence.py:60-137 | A write is flagged iff it was executed and is flagged together with some other executed write alone |
| Verdicts.DraftVerdict | src/rle/scoring/coherence.py:93-95 | Two executed drafts are flagged iff they are for one pawn and only one drafts |
| Verdicts.MoveJobVerdict | src/rle/scoring/coherence.py:96-97 | A move and a job are flagged iff they are for one pawn |
| Verdicts.WorkVerdict | src/rle/scoring/coherence.py:98-100 | Two executed work priorities are flagged iff they give one type of one pawn two priorities |
| Verdicts.WorkSeen | src/rle/scoring/coherence.py:140-151 | Entry by entry, the work priorities the detector sees in parameters of any shape |
| Verdicts.BlueprintVerdict | src/rle/scoring/coherence.py:105-110 | Two executed blueprints are flagged iff both coordinates of both are readable and equal |
| Verdicts.ResearchVerdict | src/rle/scoring/coherence.py:111-113 | Two executed research targets are flagged iff they name different projects, by `project` or else `name` |
| Verdicts.ZoneVerdict | src/rle/scoring/coherence.py:127-131 | Two executed zones are flagged iff some cell lies between the corners of both |
| Verdicts.TwoKindsVerdict | src/rle/scoring/coherence.py:89-135 | Writes of two kinds are never flagged, save a move with a job and a farm with a stockpile |
| Verdicts.OtherKindVerdict | src/rle/scoring/coherence.py:89-135 | Two writes of a kind the detector does not list are never flagged |
| Executor.ActionExecutor.GrowingZone | src/rle/orchestration/action_executor.py:253-280 | The handler's effect on the remembered farms and its success, for every reply |
| Executor.ActionExecutor.StockpileZone | src/rle/orchestration/action_executor.py:311-334 | The handler's effect on the remembered stockpiles and its success, for every reply |
| Executor.ActionExecutor.AllowedWorkTypes | src/rle/orchestration/action_executor.py:185-196 | The work list is asked for once, with the vanilla one for want of it, and remembered |
| Executor.ActionExecutor.WorkPriority | src/rle/orchestration/action_executor.py:198-201 | The handler succeeds iff the payload is accepted under that list and RIMAPI takes it |
| Executor.ActionExecutor.Dispatch | src/rle/orchestration/action_executor.py:149-181 | Routing: quarantine, missing pawn, zone and work-priority handlers, everything else |
| Executor.ActionExecutor.Execute | src/rle/orchestration/action_executor.py:91-147 | Outcomes and guards are those of `Run`; executed counts the successes, executed + failed = total = outcomes; the guards stay disjoint |
| Executor.RunAppend | src/rle/orchestration/action_executor.py:67-81 | Executing lists one after another is executing their concatenation |
| Executor.ZonesStayDisjoint | src/rle/orchestration/action_executor.py:253-334 | Over any run no map cell lies in two remembered stockpiles or in two remembered farms |
| Executor.StockpilesRecorded | src/rle/orchestration/action_executor.py:323-334 | The stockpile guard is the record of the stockpiles that succeeded, in order |
| Executor.GrowingCovered | src/rle/orchestration/action_executor.py:260-280 | A growing zone that succeeded overlaps a remembered one |
| Executor.ExecutedWorkAccepted | src/rle/orchestration/action_executor.py:198-201 | Over any run the executed work_priority writes that reached a pawn were all accepted under one work list |
| Executor.StockpilesNeverOverlap | src/rle/orchestration/action_executor.py:317-334 | Over any run no two successful stockpile outcomes overlap |
| Executor.StockpileSucceedsIff | src/rle/orchestration/action_executor.py:311-334 | After any run a stockpile write succeeds iff its parameters are integers, RIMAPI accepts it and no stockpile that succeeded in the run overlaps it |
| Writes.WriteSucceedsIff | src/rle/orchestration/action_executor.py:107-166 | Over any run a quarantined write never succeeds, one without its pawn always does, and any other, zones and work priorities apart, does iff RIMAPI takes it; the outcome carries its action's fields |
| Writes.GrowingSucceedsIff | src/rle/orchestration/action_executor.py:253-280 | Over any run a growing zone succeeds iff its parameters are integers and it overlaps a remembered farm, or RIMAPI has it covered or does not refuse it |
| Writes.FarmsSucceeded | src/rle/orchestration/action_executor.py:260-280 | Every remembered farm is the rectangle of a growing zone that succeeded |
| Writes.ZoneRectSpans | src/rle/orchestration/action_executor.py:253-260 | The handler's rectangle spans exactly the corners the parameters give, 0 and five beyond being the defaults |
| Writes.WorkSucceedsIff | src/rle/orchestration/action_executor.py:185-201 | Over any run a work-priority write on a pawn succeeds iff RIMAPI takes it and it is accepted under the list known before, else RIMAPI's, else the vanilla one |
| Executor.DetectorSeesExecutorRect | src/rle/scoring/coherence.py:35-45 | Where the detector sees a rectangle the executor worked on the same one; it sees the executor's iff every coordinate consulted is given, and by no boolean |
| Executor.OverlapSeenIff | src/rle/scoring/coherence.py:101-104 | Of two executed zones that overlap, over any run, the detector notices iff both give their corners |
| Executor.DefaultZonesUnseen | src/rle/scoring/coherence.py:35-45 | A farm and a stockpile without parameters: both executed on one rectangle, neither flagged |
| Executor.StockpilesNeverClash | src/rle/scoring/coherence.py:127-131 | The detector never flags one stockpile of a run against another |
| Executor.OutcomesMatchWrites | src/rle/orchestration/action_executor.py:105-141 | Outcomes match the actions other than `no_action` one for one |
| Pipeline.ClashAcrossSlots | src/rle/scoring/coherence.py:89-135 | Writes of two slots that the detector does not confuse clash only as move against job on one pawn or as farm over stockpile |
| Pipeline.ConfusableWritesClash | src/rle/scoring/coherence.py:89-135 | Whatever two slots it does confuse, some pair of their writes clashes in another way |
| Pipeline.WellTargetedUnconfusable | src/rle/orchestration/action_resolver.py:142-146 | Plans whose pawn writes name a pawn and whose colony writes do not ask for no confusable slots |
| Pipeline.ResolverMeetsDetector | src/rle/orchestration/action_resolver.py:232-299 | When the plans ask for no confusable slots, the detector finds exactly those two residues in the resolver's output, and nothing when neither occurs |
| Pipeline.UnconfusableIff | src/rle/orchestration/action_resolver.py:124-172 | That condition is exact: it holds iff, whatever parameters the same actions carry, the resolver's output contradicts itself in the two residual ways only |
| Pipeline.PipelineLeavesResidualOnly | src/rle/scoring/coherence.py:60-137 | The same guarantee for whatever the executor makes of that output, with any guards and replies |
| Coherence.DetectorReadsFlat | src/rle/scoring/coherence.py:140-151 | The detector reads a flat integer map as itself iff it has no `work_type` |
| Readers.MirroredIff | src/rle/scoring/coherence.py:140-151 | For every payload: the detector reads the same settings as the executor iff the payload meets the condition of its branch |
| Readers.NamedWithPriorityApart | src/rle/orchestration/preflight.py:113-120 | The documented `work` or `skill` shape with an integer priority is never read alike |
| Readers.JudgedRightlyIff | src/rle/scoring/coherence.py:98-100 | A write the executor accepts is judged rightly against every write whose settings the detector sees as they are iff what is seen of it and what it sets agree on every known type |
| Readers.AgreeIffShown | src/rle/orchestration/preflight.py:132-165 | What that agreement asks of a payload, branch by branch and with its spelling |
| Readers.AgreeingPair | src/rle/scoring/coherence.py:98-126 | Between two such writes only a name that is no work type can mislead the detector |
| Readers.FalseContradiction | src/rle/scoring/coherence.py:98-126 | Two accepted writes in the `work` shape that set different types to different priorities are both flagged |
| Readers.MissedContradiction | src/rle/scoring/coherence.py:98-126 | An accepted `work` shape and flat payload that give one type two priorities go unnoticed |
| Readers.SpellingMissed | src/rle/orchestration/preflight.py:145-158 | So do two flat payloads that spell one type differently |
| Readers.SkippedWritesFlagged | src/rle/orchestration/action_executor.py:164-166 | Writes without a pawn set nothing, count as executed and are flagged all the same |
| Readers.MergedPayloadReadAlike | src/rle/orchestration/action_resolver.py:108-118 | Executor and detector both read a merged payload as the merged map iff no merged work type bears a reserved name |
| Terrain.ClassifyPalette | src/rle/rimapi/client.py:888-898 | The index sets are the classes of the palette names |
| Terrain.Decode | src/rle/rimapi/client.py:900-913 | The decoded grid is as long as the counts say and holds at each position the covering run |
| Terrain.FlatCellIsDirect | src/rle/rimapi/client.py:922-926 | Reading a cell through the decoded grid is looking up the run over `x + z * width` |
| Terrain.FindClearRect | src/rle/rimapi/client.py:935-954 | Returns the clear in-map square at the least Chebyshev distance, then dx, then dz, among offsets that are multiples of 3 within 57; none iff there is none |
| Terrain.BestIsUnique | src/rle/rimapi/client.py:935-954 | There is one best site |
| Terrain.SearchEqualsRingSearch | src/rle/rimapi/client.py:939-954 | Revisiting inner origins at each radius changes nothing: the result is that of a ring-only search |
| Terrain.SmallerSearchNoFarther | src/rle/rimapi/client.py:935-954 | A smaller square with a weaker test is found whenever a larger one is, no farther |
| Terrain.SitesAreOrdered | src/rle/rimapi/client.py:988-992 | A farm implies a shelter no farther, a shelter a stockpile no farther |
| Terrain.WaterBox | src/rle/rimapi/client.py:956-986 | The running box is the tight bounding box of the wet or off-map cells of the 81 by 81 window |
| Terrain.TightIsUnique | src/rle/rimapi/client.py:956-986 | There is one tight box, absent iff there is no such cell |
| Terrain.CenterRoundsDown | src/rle/rimapi/client.py:915-920 | The colony center is the mean pawn position rounded down |
| Terrain.SummaryIsDetermined | src/rle/rimapi/client.py:994-1000 | Terrain and pawn positions determine the summary |
| Terrain.RimApiClient.GetTerrainSummary | src/rle/rimapi/client.py:861-1004 | The first successful summary describes its terrain and is pinned; every later call returns it whatever it is given |
| Sites.SitesByName | src/rle/rimapi/client.py:888-992 | By palette name: the farm is the nearest aligned 8 by 8 square of rich or soil cells, shelter and stockpile the nearest 7 by 7 and 5 by 5 ones free of water, marsh and rough rock, none only when there is none |
| Sites.WaterByName | src/rle/rimapi/client.py:956-986 | By palette name: the water box holds every wet or off-map cell of the window, and is there only when there is one |
| Sites.CenterByPawns | src/rle/rimapi/client.py:915-920 | Without pawns the center is the middle of the map, with pawns the rounded-down mean |
| JsonRepair.ExtractFirstObject | src/rle/agents/json_repair.py:64-101 | The scanner returns the text from the first brace to its match, else to the end, else the text itself |
| JsonRepair.FirstObjectIsUnique | src/rle/agents/json_repair.py:64-101 | A text has one first object |
| JsonRepair.ExtractionIsIdempotent | src/rle/agents/json_repair.py:64-101 | Extraction is idempotent on every text |
| JsonRepair.FeedBody | src/rle/agents/json_repair.py:77-91 | A string literal's body is passed over whatever it holds (section 7 of RFC 8259) |
| JsonRepair.ExtractionBalances | src/rle/agents/json_repair.py:64-101 | Of a text without quotes extraction takes the part from the first brace to where the braces first balance, or to the end, whatever backslashes there are |
| JsonRepair.ExtractionRoundTrip | src/rle/agents/json_repair.py:64-101 | From any brace-free prefix, a printed object and any suffix, extraction returns exactly the printed object |
| JsonRepair.CommaAppend | src/rle/agents/json_repair.py:38-39 | The comma step acts on two parts separately when no comma is left hanging between them |
| JsonRepair.CommaStepPrints | src/rle/agents/json_repair.py:38-39 | On a printed value the comma step removes the trailing commas and rewrites strings, nothing else |
| JsonRepair.CommaStepShortens | src/rle/agents/json_repair.py:38-39 | The comma step changes a text iff it holds a comma, optional white space and a closing bracket, and then shortens it |
| JsonRepair.BareCommaMeans | src/rle/agents/json_repair.py:38-39 | What the comma step looks for: a comma, white space, and a closing bracket |
| JsonRepair.CommaStepDrops | src/rle/agents/json_repair.py:38-39 | What it does there: comma and white space go, everything else stays |
| JsonRepair.TrailingCommasRepaired | src/rle/agents/json_repair.py:35-39 | Extraction then the comma step give the clean print iff no string holds such a comma |
| JsonRepair.StringCanBeDamaged | src/rle/agents/json_repair.py:38-39 | A valid value whose string is such a case |
| Ledger.TickLedger.Begin | src/rle/mcp/ledger.py:36-44 | Begin resets the whole ledger |
| Ledger.TickLedger.Record | src/rle/mcp/ledger.py:53-57 | Records in the active tick, or refuses and changes nothing |
| Ledger.TickLedger.EndTurn | src/rle/mcp/ledger.py:59-62 | Sets the flag in any state and keeps the last non-empty summary |
| Ledger.TickLedger.Finish | src/rle/mcp/ledger.py:64-86 | Closes the tick and packages it, counting successes |
| Ledger.PackagedCounts | src/rle/mcp/ledger.py:67-80 | A packaged step counts its own outcomes |
| Session.WritesAreAccounted | src/rle/mcp/session.py:45-107 | Under every interleaving each dispatched write is recorded, dropped or in flight: one of the three, once |
| Session.RecordedWhereItCompletes | src/rle/mcp/session.py:81-95 | A write is recorded in a tick iff it completes while that tick is open |
| Session.DroppedBetweenTicks | src/rle/mcp/ledger.py:46-54 | A write is dropped iff it completes while no tick is open |
| Session.StepResultHoldsItsTick | src/rle/mcp/ledger.py:64-86 | A step result holds exactly the writes recorded between its begin and its finish, the last summary given and whether the turn was ended, and is logged under its tick; its outcomes match its actions other than `no_action` one for one, a failure without target for each that names no pawn; executed + failed = total; actions = total + no_actions |
| Session.StepsAreAccounted | src/rle/harness/cli_base.py:351-362 | Each step is one success or failure, logged with the number of actions in its result |
| Session.DispatchedWriteHasOutcome | src/rle/mcp/session.py:81-94 | The executor always gives a dispatched write an outcome, so the skipped case is dead |
| Session.McpSession.Begin | src/rle/mcp/session.py:38-43 | The session follows the step relation on begin |
| Session.McpSession.StartAct | src/rle/mcp/session.py:45-80 | The part of `act` before the await follows the step relation |
| Session.McpSession.CompleteAct | src/rle/mcp/session.py:81-107 | The part of `act` after the await follows the step relation |
| Session.McpSession.Finish | src/rle/harness/cli_base.py:351 | Finishing a step follows the step relation and appends its result |
| Attribution.DispatchRecorded | src/rle/mcp/session.py:45-80 | A `no_action` is recorded without outcome, a write that names no pawn as a failure without target, any other goes in flight |
| Attribution.TendFindsPatient | src/rle/mcp/session.py:50-60 | A `tend` without target takes its patient from the parameters |
| Attribution.CompletionRecorded | src/rle/mcp/session.py:81-95 | A completion records the dispatched action with the success it reports |
| Attribution.InFlightDispatched | src/rle/mcp/session.py:45-80 | What is in flight under a number is the action that was dispatched under it |
| Attribution.DispatchedOnce | src/rle/mcp/session.py:45-80 | A number stands for one dispatch and one action |
| Attribution.BatchesAttributed | src/rle/mcp/ledger.py:36-86 | The writes since a begin are the open ledger, or one step result of their own, or were thrown away by another begin; only the last batch is open, iff the ledger is active |
| Attribution.RecordedCallsPlaced | src/rle/mcp/session.py:45-107 | A call is recorded iff it lies in one of those batches, at one position, under its dispatched action and with the outcome that the step which recorded it reported |
| Attribution.EntryOutcome | src/rle/mcp/session.py:71-95 | Whatever is recorded for a write that names no pawn is a failure without target, and what a completion recorded has its success flag |
| Attribution.RecordedOnce | src/rle/mcp/session.py:81-95 | A call is recorded at one step only, so with one outcome |
| Attribution.ResultsAreBatches | src/rle/mcp/ledger.py:64-86 | Every step result reports a batch of its own iff every finish found a tick open |
| ThreatTracking.GameLoop.RecordDraftResponse | src/rle/orchestration/game_loop.py:340-357 | A successful draft fills in every missing delay and changes none |
| ThreatTracking.GameLoop.UpdateMetricContext | src/rle/orchestration/game_loop.py:318-338 | Newly shown threats are entered with the tick, with delay 0 when a pawn is drafted |
| ThreatTracking.GameLoop.RunTick | src/rle/orchestration/game_loop.py:446-494 | After every tick the maps are what the trace says |
| ThreatTracking.DraftReadingsAgree | src/rle/orchestration/game_loop.py:344-349 | The game loop and the detector take a draft alike iff `is_drafted` is true or exactly False |
| ThreatTracking.ZeroReadBothWays | src/rle/orchestration/game_loop.py:344-349 | `is_drafted: 0` answers a threat and contradicts a draft of the same pawn |
| ThreatTracking.BookkeepingIsFaithful | src/rle/orchestration/game_loop.py:318-357 | After any run the seen tick is the first showing and the delay is 0 or the distance to the first later draft, or absent |
| ThreatTracking.EnteredIff | src/rle/orchestration/game_loop.py:326-337 | A threat is entered iff some tick shows it with an enemy or a level above 0; placeholders never are |
| ThreatTracking.EntriesNeverChange | src/rle/orchestration/game_loop.py:318-357 | Entries never change once set |
| ThreatTracking.DelayNeverClamped | src/rle/orchestration/game_loop.py:354-357 | The recorded delay is at least 1, so `max(0, ...)` never clamps |
| Leaderboard.ParetoFrontier | src/rle/tracking/leaderboard.py:227-254 | The loops compute the sorted undominated metered rows |
| Leaderboard.OnFrontier | src/rle/tracking/leaderboard.py:238-252 | A row is on the frontier iff it is metered and no metered row dominates it |
| Leaderboard.FrontierByColumns | src/rle/tracking/leaderboard.py:235-252 | In terms of the columns: billed, estimated or console cost, and no other such row at least as good in both and better in one |
| Leaderboard.FrontierIsSound | src/rle/tracking/leaderboard.py:238-252 | No frontier row dominates another |
| Leaderboard.FrontierIsComplete | src/rle/tracking/leaderboard.py:238-252 | Every metered row off the frontier is dominated by a row on it |
| Leaderboard.FrontierIsMonotone | src/rle/tracking/leaderboard.py:253 | Along the frontier neither scores nor costs rise |
| Leaderboard.EqualScoresCompared | src/rle/tracking/leaderboard.py:230-248 | Of two metered rows with one score only the cheaper is on the frontier, although neither is better in both |
| Leaderboard.UnknownCostChangesNothing | src/rle/tracking/leaderboard.py:235-238 | Two boards that are equal once rows of unknown cost are dropped from each, at any positions, have one frontier |
| MetricLaws.MetricNames | src/rle/scoring/composite.py:48-64 | The metrics in the order of their names |
| MetricLaws.MoodClamped | src/rle/scoring/metrics.py:61-63 | Mood is taken as it is, within 0 and 1 |
| MetricLaws.ThreatResponseEnds | src/rle/scoring/metrics.py:42-47 | No threats score 1, threats without any response 0 |
| MetricLaws.CoherentShare | src/rle/scoring/metrics.py:110-123 | A tick's coherence is 1 less the flagged share of its executed writes, one half when nothing was executed |
| MetricLaws.SurvivalShare | src/rle/scoring/metrics.py:35-39 | Survival is the share of the initial colonists, at most 1 |
| MetricLaws.EqualDelays | src/rle/scoring/metrics.py:42-58 | Threats all answered after d ticks score 1 - d/10, from 10 on 0; so 0.9 after one tick, where the comment has 1 |
| MetricLaws.SlowerIsNoBetter | src/rle/scoring/metrics.py:42-58 | Slower answers never score higher |
| MetricLaws.FoodSecurity | src/rle/scoring/metrics.py:66-68 | Ten days of food are 1, none 0, each day a tenth |
| MetricLaws.WealthGrowth | src/rle/scoring/metrics.py:71-74 | Wealth is measured against the initial wealth, at least 1 |
| MetricLaws.ResearchShare | src/rle/scoring/metrics.py:77-83 | Research is the completed share |
| MetricLaws.SelfSufficiencyThirds | src/rle/scoring/metrics.py:86-93 | A third each for power, food and population |
| MetricLaws.EfficiencyEnds | src/rle/scoring/metrics.py:96-107 | Executing everything scores 1, nothing 0, ticks without writes one half |
| MetricLaws.MoreIsNoWorse | src/rle/scoring/metrics.py:96-107 | More of the same writes executed never scores lower |
| MetricLaws.CompositeOfUnit | src/rle/scoring/composite.py:48-64 | A metric counts with its own weight |
| Scoring.ScoreCoherence | src/rle/scoring/metrics.py:110-123 | The loop's score is the mean share of writes that contradict no other |
| Scoring.MetricsBounds | src/rle/scoring/metrics.py:35-123 | All nine metrics lie in [0, 1] |
| Scoring.RecordedDelaysNatural | src/rle/scoring/metrics.py:52-54 | The delays the game loop records are never negative |
| Scoring.RunScoresBounded | src/rle/orchestration/game_loop.py:446-451 | At every scoring of every run, after the tick's draft response and before its threats, all metrics lie in [0, 1] and the composite in [0, sum of weights] |
| Scoring.ResolvedPlanIsCoherent | src/rle/scoring/metrics.py:110-123 | A resolved plan without confusable slots scores full coherence when something is executed and neither residue occurs |
| Scoring.CompositeOfTickBounded | src/rle/scoring/composite.py:48-64 | The composite lies between 0 and the sum of non-negative weights |
| Scoring.FinalScoreIsMean | src/rle/scoring/composite.py:66-87 | The composite of the averaged metrics is the average of the per-tick composites |
| Sorting.SortBySorts | src/rle/scoring/bootstrap.py:63 | Sorting by a key orders and permutes |
| Bootstrap.IndicesOrdered | src/rle/scoring/bootstrap.py:65-67 | The percentile indices are in range at every level, and in order at every positive one |
| Bootstrap.PositiveLevelsOrder | src/rle/scoring/bootstrap.py:65-67 | The indices are in order for every number of resamples iff the level is positive |
| Bootstrap.IndicesCut | src/rle/scoring/bootstrap.py:65-67 | Each index leaves at most the share (1 - ci)/2 of the positions outside, and one further in would leave more |
| Bootstrap.TailsBounded | src/rle/scoring/bootstrap.py:63-74 | At most the share (1 - ci)/2 of the resample means lies below the interval, and at most as much above |
| Bootstrap.IntervalWithinValues | src/rle/scoring/bootstrap.py:43-76 | Whatever is drawn, at every level the interval stays within the values, and at a positive one it is ordered |
| Baseline.Aggregate | src/rle/scoring/baseline.py:74-102 | One point per tick of the longest run: mean and number of the runs still going; an error iff there is no run |
| Baseline.AggregationConserves | src/rle/scoring/baseline.py:83-102 | Run counts add up to the total length, counts times means to the sum of all composites; every count is positive and counts never rise |
| SaveLoader.CountMeansRepeated | src/rle/orchestration/save_loader.py:71-86 | The counter reaches n iff the last n polls repeat the positive population answered before them |
| SaveLoader.FiveEqualPolls | src/rle/orchestration/save_loader.py:73-88 | Five equal polls after the load do not settle, six do |
| SaveLoader.FailedPollKeepsAnswer | src/rle/orchestration/save_loader.py:75-79 | A failed poll restarts the count but not the population compared against |
| SaveLoader.Settle | src/rle/orchestration/save_loader.py:73-88 | The loop breaks at the first poll where five answers repeat the one before them, and runs out iff there is none |

## Left out

- `<think>` and code-fence stripping and control-character removal in `repair_json`: global
  rewrites that are not part of extraction or of the comma step.
- `try_parse_json` and `json.loads`: the JSON parser itself is not part of this model.
- Strings and escapes accepted by `int` beyond ASCII digits, and `int` of an infinite float
  (an OverflowError): a float or list is known by what `str`, `int` and `bool` give for it.
- Key order of parameter dicts: parameters are maps, so the order of a merged payload's keys is
  not tied to the candidates; validation takes them in any order, and its laws hold for every one.
- Executor.ActionExecutor.Dispatch: handlers other than the zone and work-priority handlers succeed or
  fail with the reply, because they touch no remembered state; their parameter mapping,
  `research_target_status` and `resolve_tend_pair` are not part of this model, and an endpoint that
  is not in the write catalog counts as done.
- Case folding beyond ASCII letters: `Lower` changes the letters A to Z only.
- Exceptions of the work-list request other than those the executor catches: the request gives a
  list or falls back to the vanilla one.
- Zone guards under overlapping `execute` calls: the handlers await between check and append, so
  disjointness is claimed for calls that do not overlap in time.
- The race inside `_run_turn` between reply, `end_turn` and grace period: a step ends with one of
  the three statuses, chosen freely.
- Metering, prompts, emitted events, screenshots, dashboards, logging: output only.
- The scenario evaluator, the camera director, the registry and options: small case analyses.
- Baseline.Aggregate: does not model the confidence interval and the per-metric means of a point;
  the first repeats `Bootstrap`, the others repeat the composite column. The end-of-run statistics
  and the CSV reading of `read_run` are left out too.
- The standard deviation of `bootstrap_ci` and the Welch and Cohen statistics: they need square
  roots and `erfc`.
- Rounding and floating-point error of scores, confidences and means.
- HTTP, SSE, subprocesses, Docker, Weights and Biases, Hugging Face and the file system.
