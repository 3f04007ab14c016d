# Verification of the capture jobs

A Dafny model of the hardest parts of the device-capture jobs, with proofs. Four groups:

1. **The artifact bundler** (`jobs/bundle.py`). Splitting an oversized artifact into base64
   parts and putting it back; the exact length of a ZIP archive; and the ZIP sink, a resumable
   state machine that stages artifacts by device, fixes a packing plan once, attaches parts
   2..n before part 1, and writes a manifest into part 1 that says which artifacts are missing.
   The callback may accept, refuse or raise, a build may raise, `finish` may be called again
   and `close` at any time.
2. **VLAN lists and the trunk table** (`jobs/checks_iosxe_layer2.py`). A reader and a canonical
   printer of VLAN range lists, inside a section-driven line parser with wrapped lists.
3. **Redfish reads and redaction** (`jobs/checks_bmc.py`). Collection and log reads through a
   per-run cache under a budget of GETs, the payload scrubber, and the order-free leaves of
   vendor security resources.
4. **Three accumulators** (`jobs/checks_iosxe.py`). Stack-member identity out of three sources,
   the configuration redactor's carried state, and the merge of the routing tables.

## How it is built

| files | what they hold |
|---|---|
| `Basics`, `Lex`, `Decimal`, `Json`, `Payload`, `Sorting` | options and results, string order and case, numerals, JSON trees and their exact serialization, tolerant lookups, a stable sort |
| `Base64`, `ArtifactParts` | RFC 4648 section 4, splitting and reassembling |
| `ZipLayout` | APPNOTE sections 4.3.7, 4.3.12, 4.3.14 to 4.3.16 and 4.5.3, and the size formula |
| `Manifest`, `Packing` | the manifest with its shared metadata objects, the reserved size, the packing of groups |
| `SinkModel`, `SinkInvariants`, `SinkOrder`, `SinkReservation` | the sink as a state machine, what one turn does, what every run keeps, the reservation |
| `SinkSafety`, `SinkSharing` | truthful flags and manifests, and how far metadata may be shared for them |
| `SinkAnswers`, `SinkNeed`, `SinkOutgrown`, `SinkRuns` | the planning finish under any answers: exactly when its flags and manifests are true, exactly when a manifest outgrows its part, and two runs that show it |
| `ZipSink` | the sink as the class it is, each method proved to take the state machine's step |
| `VlanSets`, `TrunkTable`, `TrunkRoundTrip` | VLAN lists, the trunk parser, the print/parse theorem |
| `Scrub`, `SecurityLeaves`, `SecuritySpellings`, `SecurityOrder`, `SecurityResources` | the scrubber; the security leaves, to the letter and as Python compares them, value by value and for whole resources |
| `RedfishReads`, `RedfishCollections`, `RedfishLogPages` | the cached and budgeted GET, collections, log pages |
| `StackIdentity`, `ConfigRedactor`, `RibMerge` | the three accumulators |

Code that updates fields is a class or a method with loops, proved equal to a function of the
old state; what the code promises is proved of those functions, for all inputs and all runs.
The metadata dictionaries are heap objects the sink shares with the manifest; in the state
machine a `Store` says what each of them holds.

Taken as parameters, with the hypotheses stated where they are used: DEFLATE (a stream no
longer than zlib's bound), SHA-256 (collision-free only where tampering is excluded), CRC-32,
`json.loads` (reads back what `json.dumps` wrote of the part documents), Python's `str` and
`repr` (`repr` tells values apart whose numbers are worth what they print as), the rewriting of URLs (idempotent), the path fence, the regular
expressions of the configuration redactor (a match ends inside its line), the firmware's
answers, and the attach callback: an arbitrary answer for each attempt.

## What turned out to need a condition

- A metadata dictionary may be shared within a part, not across parts. Everything but truth holds
  of every run all the same: no part passes the cap, answered parts stay answered, the plan stays
  fixed, only parts interrupt, the reservation suffices. But a finish leaves true flags, under every
  answer of the callback, if and only if no dictionary is shared across its plan's parts, or between
  a part and an artifact in none (`ClosesTrueExactlyWhenApart`, for every plan), and the same
  decides whether a manifest that always fits is true (`TruthfulExactlyWhenApart`). Devices that
  share none are enough (`OwnRunsAreApart`), and the collectors make one for each artifact
  (jobs/snapshot_job.py:323-326); two devices on one dictionary, one part refused, end with a
  false manifest (`SharedRunMisleads`).
- A manifest is left out for having outgrown its part only where it was isolated: it fits a part,
  it would split the plan, and its reserved size fits none, so that part 1 is its own without a
  reservation (`OutgrownOnlyWhenIsolated`, for artifacts that come unflagged, as the collectors'
  do, and a document that stays the same). The finish that plans leaves it out under some answers
  if and only if, for some refused parts, the manifest with their flags set fits no more
  (`OutgrowsExactly`), and it does happen (`IsolatedRunOutgrows`).
- The order of lists can show in the security leaves. Compared as Python compares them, 1 and 1.0
  alike, the leaves ignore it if and only if each is settled: in every list sorted by `repr`, of
  two items of different value all spellings of the one print before all spellings of the other
  (`LeavesIgnoreOrderExactly`; the spellings are finitely many, `ArrangementsExactly`). One
  spelling of each number inside such lists is enough, and a list of numbers alone may mix
  spellings (`ClearInsideIsSettled`); [[1, 1.0], [1, 2]] is not settled
  (`SpellingsOfOneNumberShow`). To the letter, the condition is that no list of numbers at all
  mixes spellings (`OrderIgnoredExactlyWhenClear`).
- The member count of a collection is held against the budget only where the caller hands its
  budget over. Otherwise a walk on a firmware that answers every read runs out exactly when the
  members the cache lacks outnumber the GETs left (`UncheckedWalkRunsOutExactly`); one that may
  also fail runs out only then (`UncheckedWalkRunsOut`).
- Entries of `show inventory` for one switch are compared case by case, while everywhere else the
  case of serials does not matter. Evidence that differs in case only gives every member the same
  identity if and only if the entries of each number agree in the one exactly when they do in the
  other (`SpellingMattersExactly`); a switch listed twice shows it (`SpellingShows`).
- Route counts per protocol add up to the total exactly when no protocol is called "total".
- For every limit the splitter accepts the chunk size is at least 192, so its refusal of an empty
  chunk never fires; and the refusal of a part header takes a header of more than 510
  bytes by itself (`ChunkShape`, `HeaderRefusal`).

## Model

| member | source | states |
|---|---|---|
| `Json.DumpsLength` | jobs/bundle.py:36-38 | the serialized length computed by the sizes equals the length of the serialized text, for every JSON tree |
| `Base64.RoundTrip` | jobs/bundle.py:77-79 | decoding undoes encoding for every octet sequence |
| `Base64.PlainEscape` | jobs/bundle.py:70-83 | base64 text takes no JSON escape, so a chunk grows a part by its own length |
| `ArtifactParts.ArtifactParts` | jobs/bundle.py:45-97 | the loop returns the artifact untouched when it fits, else every part in order and the index last, or refuses for a limit below 1024, a part or an index past the ceiling |
| `ArtifactParts.CountBounds` | jobs/bundle.py:61-64 | the part count is the ceiling of the data over the chunk |
| `ArtifactParts.ChunkShape` | jobs/bundle.py:52-79 | for every limit of at least 1024 no chunk is empty, all but the last are full, and each encodes to at most the ceiling less 510 bytes |
| `ArtifactParts.PartLength` | jobs/bundle.py:70-81 | a serialized part is its serialized header plus its base64 text, byte for byte |
| `ArtifactParts.HeaderRefusal` | jobs/bundle.py:81-83 | a part is refused only when its header alone passes 510 bytes |
| `ArtifactParts.PartNamesDistinct` | jobs/bundle.py:69-69 | the names of different parts differ, past 9999 parts too |
| `ArtifactParts.ChunksConcatenate` | jobs/bundle.py:68-79 | the chunks laid end to end are the data |
| `ArtifactParts.Reassemble` | jobs/bundle.py:100-143 | the loop returns the assembled bytes or the first error, in the order the code finds them |
| `ArtifactParts.SplitReassembles` | jobs/bundle.py:45-143 | reassembling the parts of a split returns the exact bytes of the artifact, for every payload and limit that splits |
| `ArtifactParts.AcceptedIffUnaltered` | jobs/bundle.py:100-143 | with a collision-free digest a part map is accepted if and only if it holds every part unaltered, and the answer is then the artifact |
| `ZipLayout.ArchiveSize` | jobs/bundle.py:154-180 | the loop computes the size function the following theorems are about |
| `ZipLayout.SizeIsExact` | jobs/bundle.py:154-180 | that size is the length of the archive written record by record in the APPNOTE layout, on both sides of every ZIP64 limit |
| `ZipLayout.MemberAtItsOffset` | jobs/bundle.py:410-425 | each member's local header and data lie where the central directory says |
| `ZipLayout.SizeMonotone` | jobs/bundle.py:154-180 | members no larger make an archive no larger, ZIP64 extras included |
| `ZipLayout.SizeOfAppend` | jobs/bundle.py:367-377 | adding members before or after never makes an archive smaller |
| `Manifest.DeflateBoundMonotone` | jobs/bundle.py:213-218 | the bound on a compressed size grows with the size |
| `Manifest.ManifestFits` | jobs/bundle.py:192-206 | whatever flags change, the serialized manifest is no longer than the copy with every flag false, at every depth |
| `Manifest.ReservationIsSound` | jobs/bundle.py:192-219 | file size and compressed size of the manifest with any flags stay within the reserved entry's |
| `Packing.Parts` | jobs/bundle.py:367-377 | the loop packs as the function the following theorems are about |
| `Packing.PackDivides` | jobs/bundle.py:367-377 | every part is a run of consecutive whole groups, in order, none left over and none split |
| `Packing.PackIsLossless` | jobs/bundle.py:367-377 | the parts laid end to end are the groups laid end to end |
| `Packing.PackFits` | jobs/bundle.py:367-377 | every part, with its reservation, fits the cap when each group does |
| `Packing.PackIsTight` | jobs/bundle.py:367-377 | no two consecutive parts fit the cap together |
| `Packing.LargerLeadStaysSplit` | jobs/bundle.py:396-401 | a plan that split for the manifest still splits for its larger reservation |
| `SinkOrder.DroppedIffTooLarge` | jobs/bundle.py:351-365 | a group is dropped if and only if its live members alone pass the cap, and packed if and only if they do not |
| `SinkOrder.PlannedPartsOk` | jobs/bundle.py:385-408 | whichever of the plans is chosen, it packs all the groups in order and every part fits the cap |
| `SinkOrder.AddOrders` | jobs/bundle.py:319-340 | an add, refused, failed at any point or staged, keeps staged artifacts sound and named once, and the plan, answers and log in order |
| `SinkOrder.FinishPartOrders` | jobs/bundle.py:440-476 | one turn of the loop, however it ends and whatever is shared, keeps plan, answers and log in order and goes on exactly when the part has an answer |
| `SinkOrder.FinishOrders` | jobs/bundle.py:427-479 | finish, completed, interrupted or refused, keeps that order |
| `SinkOrder.CloseOrders` | jobs/bundle.py:481-502 | so does close, before or after success |
| `SinkOrder.RunOrderly` | jobs/bundle.py:282-502 | every state of every run of adds, finishes and closes is in order: nothing answered or warned of before a plan, sound parts, faithful archives, downloads as answered from then on |
| `SinkOrder.PartsNeverPassTheCap` | jobs/bundle.py:421-423 | over every run no part built passes the cap, so the size refusal never fires |
| `SinkOrder.AnsweredPartsStayAnswered` | jobs/bundle.py:443-471 | over every run part names enter the downloads at most once, an answered part is never built or attached again, and the downloads are exactly the accepted parts |
| `SinkOrder.PlanIsFixed` | jobs/bundle.py:428-436 | one more operation changes no plan once made, and nothing of a finished sink |
| `SinkOrder.PlanNeverChanges` | jobs/bundle.py:428-438 | over every run the plan, the groups and the names stay those of the first finish on every retry, and a finished sink stays as it is, downloads included |
| `SinkOrder.OnlyPartsInterrupt` | jobs/bundle.py:427-479 | over every run, what interrupts a finish is the callback or the building of a part raising, and an open one in which neither does completes with the downloads |
| `SinkSafety.FinishPartKeeps` | jobs/bundle.py:440-476 | one turn on a plan that shares no dictionary across its parts keeps every flag as answered and every attached manifest true |
| `SinkSafety.FinishKeeps` | jobs/bundle.py:427-479 | a finish whose plan, if it makes one, shares none keeps that, however it ends |
| `SinkSafety.CloseKeeps` | jobs/bundle.py:481-502 | close keeps it and leaves the flags truthful |
| `SinkSafety.RunKeeps` | jobs/bundle.py:282-502 | it holds in every state of every run whose plan shares no dictionary across its parts |
| `SinkSafety.HeldIffShipped` | jobs/bundle.py:467-475 | an attached archive holds an artifact if and only if the artifact's planned part is among the downloads |
| `SinkSafety.AttachedManifestIsTruthful` | jobs/bundle.py:427-479 | over every run whose plan shares no dictionary across its parts: an attached manifest flags a staged artifact if and only if no attached part, part 1 included, holds it, and the archive is the one built from that very text |
| `SinkSafety.ClosedFlagsAreTruthful` | jobs/bundle.py:481-502 | over every such run, once closed, finished or abandoned, a staged artifact is flagged if and only if no attached part holds it |
| `SinkSharing.OwnRunsAreApart` | jobs/bundle.py:319-340 | a run whose devices share no metadata dictionary plans apart, whatever the artifacts of one device share, so every run theorem holds of it |
| `SinkNeed.ClosesTrueExactlyWhenApart` | jobs/bundle.py:427-502 | for every plan: the finish that makes it leaves true flags once closed, whatever is answered, if and only if no dictionary is shared across its parts or with an artifact in none |
| `SinkNeed.SharedAcrossPartsMisleads` | jobs/bundle.py:440-476 | where a plan shares a dictionary so and its manifest always fits, some answers of the callback make the manifest it attaches false of a staged artifact |
| `SinkNeed.TruthfulExactlyWhenApart` | jobs/bundle.py:427-479 | of plans whose manifest fits under every answer: the finish that makes one attaches no false manifest, whatever is answered, if and only if no dictionary is shared so |
| `SinkNeed.RoomAlwaysFits` | jobs/bundle.py:396-463 | a plan that reserves room for its manifest is such a plan |
| `SinkRuns.SharedRunMisleads` | jobs/bundle.py:319-479 | a run, for any compressor within zlib's bound whose two streams are not absurdly short: two devices described by one dictionary, one part refused, and an attached manifest that is false |
| `SinkReservation.PlanReserves` | jobs/bundle.py:396-401 | a split plan whose reservation fits leaves room for the manifest beside part 1's members |
| `SinkReservation.FirstFinishReserves` | jobs/bundle.py:385-408 | the call of finish that makes such a plan leaves no warning of an outgrown manifest, and the room for it |
| `SinkReservation.QuietFinish` | jobs/bundle.py:427-479 | from such a plan a finish, however its parts end, adds no warning and keeps the room |
| `SinkReservation.ManifestNeverOutgrows` | jobs/bundle.py:453-463 | over every run after such a plan, any outcomes, retries and sharing, the branch for a manifest past its reservation never runs |
| `SinkOutgrown.OutgrownOnlyWhenIsolated` | jobs/bundle.py:396-463 | over every run of unflagged artifacts, any outcomes and retries, the manifest is left out as outgrown only under a plan that isolated it without a reservation; a plan that neither splits nor isolates must share no dictionary with what it leaves out |
| `SinkOutgrown.OutgrowsExactly` | jobs/bundle.py:449-463 | the finish that plans leaves its manifest out as outgrown, under some answers, if and only if for some refused parts the manifest with their flags set does not fit beside part 1's members, which an isolating plan has none of |
| `SinkRuns.IsolatedRunOutgrows` | jobs/bundle.py:401-463 | a run, for any compressor within zlib's bound that writes the flagged description longer: part 2 is refused, the flag no longer fits, and the manifest is left out with a warning |
| `ZipSinks.ZipSink.Open` | jobs/bundle.py:292-317 | a size below 1 is refused first, then a kind that is no single folder name, and nothing else; what is opened is the state machine's initial state |
| `ZipSinks.ZipSink.constructor` | jobs/bundle.py:297-317 | a new sink, its arguments accepted, is the state machine's initial state |
| `ZipSinks.ZipSink.MarkMissing` | jobs/bundle.py:342-344 | exactly the members' objects get the flag, the rest of the heap and the sink unchanged |
| `ZipSinks.ZipSink.MarkConfirmed` | jobs/bundle.py:346-349 | exactly the members' objects lose the flag and are remembered |
| `ZipSinks.ZipSink.Add` | jobs/bundle.py:319-340 | the whole new state and the error are the state machine's, shared objects included, for every fault |
| `ZipSinks.ZipSink.PlanGroups` | jobs/bundle.py:351-365 | the loop keeps, drops, flags and warns as the state machine says |
| `ZipSinks.ZipSink.ChooseParts` | jobs/bundle.py:387-405 | the parts are those of the plan function, and the manifest goes along if and only if it fits by itself |
| `ZipSinks.ZipSink.PrepareFinish` | jobs/bundle.py:385-408 | plans, warns and fixes the three plan fields as the state machine says |
| `ZipSinks.ZipSink.Deliver` | jobs/bundle.py:467-475 | building and attaching one part, whatever the callback does, is the state machine's attempt |
| `ZipSinks.ZipSink.AttemptPart` | jobs/bundle.py:449-475 | a part without an answer: its flags cleared, part 1 with the manifest if it still fits |
| `ZipSinks.ZipSink.FinishOne` | jobs/bundle.py:441-476 | one turn of the loop, with the marks of parts already answered |
| `ZipSinks.ZipSink.FinishAll` | jobs/bundle.py:440-478 | the loop over parts 2..n and then part 1, stopped by what raises |
| `ZipSinks.ZipSink.Finish` | jobs/bundle.py:427-479 | the whole call: state, heap objects and answer are the state machine's |
| `ZipSinks.ZipSink.Close` | jobs/bundle.py:481-502 | abandoning flags what is not confirmed, and nothing after success |
| `VlanSets.ReadVlanSet` | jobs/checks_iosxe_layer2.py:196-217 | the token loop collects the ids of the set function, junk tokens none |
| `VlanSets.PrintRanges` | jobs/checks_iosxe_layer2.py:220-228 | the run-building loop prints the text of the render function |
| `VlanSets.RunsOfSet` | jobs/checks_iosxe_layer2.py:220-228 | the runs printed are increasing and maximal, and hold exactly the set's members |
| `VlanSets.RenderRoundTrip` | jobs/checks_iosxe_layer2.py:196-228 | reading a printed set gives the set back, for every finite set |
| `VlanSets.RenderIsCanonical` | jobs/checks_iosxe_layer2.py:220-228 | two sets print alike if and only if they are equal |
| `VlanSets.VlanRangesIsCanonical` | jobs/checks_iosxe_layer2.py:231-233 | two texts normalize alike if and only if they name the same ids, for any text at all |
| `VlanSets.VlanRangesIsIdempotent` | jobs/checks_iosxe_layer2.py:231-233 | normalizing a list twice is normalizing it once, for any text at all |
| `TrunkTable.ParseInterfacesTrunk` | jobs/checks_iosxe_layer2.py:392-448 | the line loop returns the rows of the step function's fold, lists in canonical spelling |
| `TrunkRoundTrip.JoinUndoesBreaks` | jobs/checks_iosxe_layer2.py:236-240 | a list broken at any commas or hyphens, a comma kept on either side or dropped, joins back to itself |
| `TrunkRoundTrip.TableRoundTrip` | jobs/checks_iosxe_layer2.py:392-448 | a table printed as the four sections, lists wrapped anywhere, reads back as the same rows, one per port and no other |
| `Scrub.ScrubHidesExactly` | jobs/checks_bmc.py:193-244 | two payloads scrub alike if and only if they are alike but for what is masked: nothing masked shows and nothing else is lost |
| `Scrub.ScrubIsIdempotent` | jobs/checks_bmc.py:217-244 | scrubbing twice is scrubbing once, on every tree |
| `Scrub.SecretsDoNotShow` | jobs/checks_bmc.py:193-244 | payloads that differ only in non-empty scalars under leaves secret in both scrub to the same payload |
| `Scrub.OutlineIsScrubbedValue` | jobs/checks_bmc.py:208-214 | of a masked value exactly emptiness and list lengths show |
| `SecurityLeaves.LeavesIgnoreOrder` | jobs/checks_bmc.py:1155-1181 | permuting any lists at any depth leaves the keyed leaves unchanged to the letter, unless a list of numbers behind a leaf spells one number two ways |
| `SecurityLeaves.OrderIgnoredExactlyWhenClear` | jobs/checks_bmc.py:1129-1152 | a leaf's value ignores the order of its lists to the letter if and only if no list of numbers in it mixes spellings |
| `SecurityOrder.MeaningIgnoresOrderExactly` | jobs/checks_bmc.py:1129-1152 | a leaf's value, as Python compares it, ignores the order of its lists if and only if in every list sorted by `repr` all spellings of one item print before all of another of different value |
| `SecuritySpellings.ArrangementsExactly` | jobs/checks_bmc.py:1138-1152 | the finitely many arrangements listed for a value are exactly the values alike but for the order of lists at any depth |
| `SecuritySpellings.PrintApartExactly` | jobs/checks_bmc.py:1147-1152 | comparing those spellings decides whether two items keep their order in print however their lists are ordered |
| `SecurityOrder.ClearInsideIsSettled` | jobs/checks_bmc.py:1129-1152 | it does where whatever stands inside such a list spells each number one way; a list of numbers alone may mix spellings |
| `SecurityResources.LeavesIgnoreOrderExactly` | jobs/checks_bmc.py:1155-1181 | the keyed leaves of a resource, as the diff compares them, ignore the order of every list in it if and only if each leaf does, for distinct names without dots |
| `SecurityResources.SpellingsOfOneNumberShow` | jobs/checks_bmc.py:1129-1181 | two resources, alike but for list order, whose leaves differ even with 1 and 1.0 equal |
| `SecurityResources.FaithfulReaders` | jobs/checks_bmc.py:1147-1152 | there is a way to print values that tells them apart, as these theorems ask of `repr` |
| `Sorting.SortFacts` | jobs/checks_bmc.py:1129-1135 | the stable sort is sorted and a permutation |
| `RedfishReads.GetBudget.Charge` | jobs/transport_redfish.py:123-130 | the GET that would pass the cap is refused before it is counted or sent |
| `RedfishReads.Context.Get` | jobs/context.py:165-226 | cache, count and answer of one read are those of the read function: a hit is free, a failure is not cached |
| `RedfishReads.ScrubbingIsIdempotent` | jobs/context.py:168-176 | the scrubber meets what the cache asks of a redactor |
| `RedfishReads.WalkFacts` | jobs/checks_bmc.py:667-671 | a walk that succeeds answered every link with what the cache then holds, kept the cache and charged what it sent |
| `RedfishReads.WalkCost` | jobs/checks_bmc.py:667-671 | a successful walk sends one GET for each distinct link the cache lacked; one that runs out had more of them than GETs left |
| `RedfishReads.WalkRunsOutExactly` | jobs/checks_bmc.py:667-671 | on a firmware that answers, a walk runs out if and only if the distinct uncached links outnumber the GETs left, and succeeds otherwise |
| `RedfishReads.WalkStaysInBudget` | jobs/checks_bmc.py:531-548 | with a GET left for each link, no walk runs out, whatever the cache holds |
| `RedfishCollections.Partition` | jobs/checks_bmc.py:660-665 | the loop keeps and excludes as the two functions say |
| `RedfishCollections.PartitionSplits` | jobs/checks_bmc.py:635-642 | kept items and excluded ids stand at increasing positions that cover the listed items, each exactly once |
| `RedfishCollections.ReadMembers` | jobs/checks_bmc.py:667-671 | the member loop is the walk, and raw records each link's payload |
| `RedfishCollections.ListCollection` | jobs/checks_bmc.py:618-659 | the `$expand` attempt, its fallbacks and the plain listing, with the errors raised, are the listing function's |
| `RedfishCollections.FetchCollection` | jobs/checks_bmc.py:592-673 | the whole call: cache, counts, members, metadata, raw or error are the fetch function's |
| `RedfishCollections.FetchIsComplete` | jobs/checks_bmc.py:592-673 | a fetch that returns has every listed member: kept ones in order with what the cache holds, excluded ones counted, their sum the total, raw exactly the paths read |
| `RedfishCollections.MemberReadsStayInBudget` | jobs/checks_bmc.py:666-671 | with the budget handed over, only listing the collection can run out of it, never a member read |
| `RedfishCollections.RefusedBeforeTheWalk` | jobs/checks_bmc.py:531-548 | a walk is refused, before any member GET, if and only if the kept members outnumber the GETs left |
| `RedfishCollections.UncheckedWalkRunsOut` | jobs/checks_bmc.py:531-548 | without it a walk runs out only when the distinct members the cache lacks outnumber the GETs left, and succeeds only when they do not |
| `RedfishCollections.UncheckedWalkRunsOutExactly` | jobs/checks_bmc.py:592-673 | and on a firmware that answers every member read, the whole fetch runs out if and only if they do |
| `RedfishLogPages.ReadEntries` | jobs/checks_bmc.py:2684-2714 | ends on every firmware; returns the entries of a whole chain of distinct pages in order, or the refusal, loop or failed read that stopped it |
| `RedfishLogPages.MeasureDrops` | jobs/checks_bmc.py:2701-2711 | each page uses up a GET left or a cached path not yet visited |
| `RedfishLogPages.WholeChainIsUnique` | jobs/checks_bmc.py:2684-2714 | the pages and their contents are fixed by the first link and what was served |
| `RedfishLogPages.LoopIsNoLog` | jobs/checks_bmc.py:2705-2706 | a chain that comes back to one of its pages is never answered as a log |
| `StackIdentity.ParseShowInventory` | jobs/iosxe_common.py:590-609 | the loop maps each number as the listing function says |
| `StackIdentity.ListedExactly` | jobs/iosxe_common.py:590-609 | a number has facts if and only if every entry that lists it agrees on them |
| `StackIdentity.ChassisBySerial` | jobs/checks_iosxe.py:4038-4041 | the map holds the first chassis entry of every serial, in upper case |
| `StackIdentity.ChassisOfMeans` | jobs/checks_iosxe.py:4038-4041 | the entry found is the first that carries the serial, and none is found only when none does |
| `StackIdentity.IdentifyEach` | jobs/checks_iosxe.py:4062-4119 | the loop gives each member what its three sources say, in their order |
| `StackIdentity.Withdraw` | jobs/checks_iosxe.py:4121-4130 | a serial two members carry is withdrawn from all of them, and nothing else is |
| `StackIdentity.MemberIdentity` | jobs/checks_iosxe.py:4020-4155 | every member ends with its own identity unless another came to the same serial; no two end with one serial, and a model implies a serial |
| `StackIdentity.SerialsAreDistinct` | jobs/checks_iosxe.py:4121-4130 | no two members end with the same serial |
| `StackIdentity.IdentityIsSourced` | jobs/checks_iosxe.py:4083-4117 | a model implies a serial, each source is set exactly when its value is, serials are upper-case |
| `StackIdentity.RepeatedNamesNone` | jobs/checks_iosxe.py:4052-4056 | a serial repeated across stack-nodes, in any case, names no member through stack-oper |
| `StackIdentity.StackOperNamesExactly` | jobs/checks_iosxe.py:4083-4089 | stack-oper names a member if and only if its serial is on no other node and no other member came to it |
| `StackIdentity.LoneChassisMeans` | jobs/checks_iosxe.py:4045-4050 | the last resort serves a lone member only, beside entries that all carry the one serial |
| `StackIdentity.SpellingDoesNotMatter` | jobs/checks_iosxe.py:4020-4155 | evidence that differs only in the case of serials gives every member the same identity, as long as the inventory entries of each number agree in one exactly when they do in the other |
| `StackIdentity.SpellingMattersExactly` | jobs/iosxe_common.py:590-609 | for two inventories that differ in case only, that is necessary too: every member of every roster keeps its identity, whatever the other sources say, if and only if it holds |
| `StackIdentity.SpellingShows` | jobs/iosxe_common.py:604-609 | a switch listed twice with one spelling is named, with two spellings it is not |
| `ConfigRedactor.RedactConfigLines` | jobs/checks_iosxe.py:2449-2479 | the loop's output aligns one to one with the lines, each as the step function leaves it |
| `ConfigRedactor.StateIsPositional` | jobs/checks_iosxe.py:2457-2478 | the carried state, told by position: free text when the delimiters before are odd, the line of the last stanza opened, a prompt with no command since |
| `ConfigRedactor.RedactedExactly` | jobs/checks_iosxe.py:2461-2478 | a line loses its argument if and only if a prompt of the same applet still waits; every other line comes out as by itself |
| `ConfigRedactor.NextCommandIsMasked` | jobs/checks_iosxe.py:2469-2477 | the next command after a prompt is masked, whatever other lines of the stanza stand between |
| `ConfigRedactor.NeutralLineChangesNothing` | jobs/checks_iosxe.py:2461-2478 | a line that opens, asks and answers nothing can be put anywhere without changing another line's redaction |
| `ConfigRedactor.AnswerDoesNotShow` | jobs/checks_iosxe.py:2469-2477 | two answers with the same command give the same redacted configuration, all of it |
| `RibMerge.NormalizeRib` | jobs/checks_iosxe.py:126-161 | the nested loops merge all routes of all ribs in order, and fail exactly for a container that is no dictionary |
| `RibMerge.EntryIsChosen` | jobs/checks_iosxe.py:149-160 | the entry of a prefix is its last active route, or its last route when none is active |
| `RibMerge.EveryPrefixHasOne` | jobs/checks_iosxe.py:149-160 | a prefix has an entry if and only if some route carries it |
| `RibMerge.Rollups` | jobs/checks_iosxe.py:164-171 | the loop counts the entries of each protocol, and the whole rib under "total" |
| `RibMerge.CountsAddUp` | jobs/checks_iosxe.py:164-171 | the counts add up to the total if and only if no protocol is called "total" |

## Left out

- ManifestNeverOutgrows: speaks of split plans whose reservation fits; `OutgrownOnlyWhenIsolated` adds the plans that do not split.
- TruthfulExactlyWhenApart: speaks of plans whose manifest fits under every answer, reserved for or not; that plans apart are truthful is proved of all plans, and `ClosesTrueExactlyWhenApart` is exact for all.
- OutgrownOnlyWhenIsolated: an unsplit plan that shares a dictionary between its part and a dropped group is left out; clearing the flag there changes the manifest in a way no bound on compression decides.
- LeavesIgnoreOrderExactly: the names of a resource's properties come once and hold no dot; that settled leaves stay is proved without that.
- ReadEntries: takes a budget to be in force, as it is wherever a log is read; without one nothing bounds how many pages a firmware may serve.
- TableRoundTrip: any header lines that open the four sections, rather than one spelling of them.
- MemberIdentity: the roster arrives in the order of its numbers; the notes that explain gaps and name unclaimed chassis are not modelled.
- NormalizeRib: what is copied of a route's leaves is a function of the route.
- RedactConfigLines: the redaction of one line by itself and two of the three regular expressions are parameters.
- Base64.RoundTrip: the decoder modelled is strict; excess padding, which Python's accepts in places, is refused.
- Temporary files, streams and zlib: only lengths and layout; compressing a member again is taken to reproduce its recorded size. The factor 1.05 of the ZIP64 rule is the exact fraction 21/20.
- Signals that arrive between two statements: an interruption is the callback or the building of a part raising.
- Between calls of the sink a metadata dictionary keeps what the sink left in it; how a collector may edit it meanwhile is not modelled.
- `id()` of metadata dictionaries is the identity of objects; the reuse of an id after a dictionary is freed is not modelled.
- The file sink and the check of device names.
- `int()` reads ASCII digits only: no sign, underscore or space. Case and white space are those of ASCII.
- `_require_whole`, the refusal of one page of a collection, and the read of the log services.
- Redactors that raise, the debug trace and the pacing of GETs.
- Normalized leaves of the vendor checks, inventory, job registration and transports: field by field copying or input and output.
