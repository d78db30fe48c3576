# snapl: a verified model of the network automation loop

snapl closes a loop around a fabric of SR Linux devices: intent is seeded into a source of truth,
rendered, applied over gNMI, collected back, normalised, compared with intent, and repaired, and
every step is written to a durable audit trail. The network calls are thin. This project models
the logic between them in Dafny and proves what it promises.

Run `dafny verify dfyconfig.toml`. The modules:

| modules | part of snapl |
|---|---|
| `Json`, `Fragments`, `KeyedUpdates`, `Paths`, `Collector` | merging gNMI fragments, canonical paths, parsing a GET response |
| `Intent`, `Renderer`, `SrLinux`, `Diff`, `Replay`, `Reports` | rendering, the SR Linux adapter, the structural diff, and the render-to-diff replay |
| `SeedStore`, `SeedPlans`, `SeedFixedPoint`, `SeedDataset`, `SeedIngester`, `SeedShadows`, `SeedReaches`, `SeedBgpReaches`, `SeedFigures` | seeding a keyed node store, twice over, with per-device shadow peer groups; what of a dataset is in the store afterwards, and the report's figures |
| `Uuids`, `Timestamps`, `AuditEvents`, `AuditLogs` | audit events, their text form, and the SQLite and in-memory logs |
| `Trails`, `DeployIntent`, `ScanDrift`, `Results`, `ReconcileDevices`, `DriftResponse`, `ClosedLoop` | the four workflows, their results and validators, and the loop as a whole |
| `Protocol`, `Liveness` | operator deploys, reconciles and scheduled runs interleaved on one Temporal server |
| `Schedules`, `Intervals` | drift schedule control and the interval notation |
| `Executor`, `SetLocks`, `BatchRuns` | applying a batch, per-host serialisation of SETs, and the batch over all their interleavings |
| `Attribution` | placing queried interfaces and sessions under their devices |
| `Prelude`, `Dicts`, `Lists`, `Lexical`, `Characters`, `Decimal` | options, insertion-ordered dicts, list functions, text order, Unicode blanks and digits, decimal text |

How the code's style carries over: objects whose methods update fields are classes (`Ingester`,
`DriftSchedule`, the two audit logs, `GnmiExecutor`, the `Trail` a workflow writes to), loops are
loops with invariants, and each is proved against a function about which the main results are
stated. Activities, child workflows and devices are parameters: a workflow is proved for every
outcome they can have, including a write to the trail that fails at any point. What a workflow
records is a function of those outcomes, its story: the work of `DeployIntent.Run`, `ScanDrift.Run`,
`ReconcileDevices.Run` and `DriftResponse.Run` is to show that the steps tell exactly that story, and
the lemmas on the shape of a trail or on when a run succeeds then read the story. Concurrent code
(the workflows on one server, the per-host locks) is a state machine over its steps, and its
claims hold in every reachable state.

Five things the code does that its documentation does not say, each with its exact condition:

- a normalised gNMI path is not always a fixed point: one `module:` prefix is stripped per element,
  so doubly prefixed elements change again (`Paths.FixedPointExactly`);
- a schedule's audit trail records whole seconds, so it determines the interval only of
  whole-second schedules (`Schedules.IntervalExactly`, `Schedules.HalfSecondsAreLost`);
- an audit target that is a name but reads as a UUID, for instance `0x` and 30 digits, or 32 digits of
  any alphabet in Unicode 15, comes back from SQLite as one (`AuditLogs.RowRoundTrip`,
  `Uuids.PrefixedTextParses`, `Uuids.AnyAlphabetParses`);
- a BGP session's shadow peer group can sit on another device: a shadow that already exists keeps its
  device, and two (peer group, device) pairs share one when a group name extends the other past an `@`
  (`SeedShadows.NewSessionPointsHome`, `SeedShadows.SharedShadow`, `SeedShadows.SessionGoesAstray`);
- a task cancelled while its SET runs frees the host's lock although the SET goes on, so the next
  SET to that host overlaps it (`SetLocks.ExclusiveExactly`).

## Model

| member | source | states |
|---|---|---|
| Fragments.MergeIdempotent | packages/collector/snapl_collector/gnmi/collector.py:106-136 | merging a fragment with itself gives the fragment |
| Fragments.MergeAssociative | packages/collector/snapl_collector/gnmi/collector.py:106-136 | fragment merge is associative for all values, including which merges fail |
| Fragments.MergeAbsorbs | packages/collector/snapl_collector/gnmi/collector.py:106-136 | a fragment merged again right after it was merged changes nothing |
| Fragments.MergeKeeps | packages/collector/snapl_collector/gnmi/collector.py:106-136 | what a value already contains stays contained through any later merge |
| Fragments.MergeSaysBoth | packages/collector/snapl_collector/gnmi/collector.py:106-136 | the merged value states exactly the leaves and list entries of both fragments |
| Fragments.MergeFailsExactly | packages/collector/snapl_collector/gnmi/collector.py:129-136 | a merge raises iff at some common place the two hold values that are neither both objects, both lists nor equal |
| Fragments.NamesFirstClash | packages/collector/snapl_collector/gnmi/collector.py:124-136 | the place a failing merge names is the first irreconcilable one in the order in which the incoming fragment lists its keys |
| Fragments.ListsKeepOrder | packages/collector/snapl_collector/gnmi/collector.py:106-136 | merging two lists keeps the first one and appends, in order, the entries of the second that it does not hold |
| KeyedUpdates.CollectExactly | packages/collector/snapl_collector/gnmi/collector.py:89-104 | a collection succeeds iff every key's values combine, and then maps each key to their combination |
| KeyedUpdates.InterleavingIrrelevant | packages/collector/snapl_collector/gnmi/collector.py:89-104 | two update streams with the same values per key give the same result, or both fail |
| KeyedUpdates.SplitIrrelevant | packages/collector/snapl_collector/gnmi/collector.py:89-104 | a value may arrive whole or in any consecutive fragments that combine to it |
| KeyedUpdates.ResendHarmless | packages/collector/snapl_collector/gnmi/collector.py:89-104 | repeating an update at any later point changes nothing |
| Collector.ParseResponse | packages/collector/snapl_collector/gnmi/collector.py:75-104 | the loop over notifications and updates returns the fold of their keyed updates, or raises as it does |
| Collector.KeyFor | packages/collector/snapl_collector/gnmi/collector.py:90-98 | the key of an update: its normalised path, the only requested path for an empty one, or the root |
| Collector.GroupingIrrelevant | packages/collector/snapl_collector/gnmi/collector.py:90-104 | how updates are grouped into notifications does not matter |
| Collector.FragmentedValue | packages/collector/snapl_collector/gnmi/collector.py:75-104 | a response that splits one value over any notifications parses like one that sends it whole |
| Collector.ResentUpdate | packages/collector/snapl_collector/gnmi/collector.py:75-104 | a response that repeats an update parses as if it had not |
| Collector.OneUpdate | packages/collector/snapl_collector/gnmi/collector.py:89-104 | a response with one update maps exactly one key: its normalised path, or for an absent, empty or root path the normalised only requested path, and `/` when there is not exactly one |
| Collector.TargetedPath | packages/collector/snapl_collector/gnmi/collector.py:94-98 | an update at `module:name`, the form a targeted path comes in, is found under `/name` |
| Collector.SpellingIrrelevant | packages/collector/snapl_collector/gnmi/collector.py:75-104 | two responses that differ only in how their paths are spelled, prefixes and separators, parse alike |
| Collector.SpellingsMerge | packages/collector/snapl_collector/gnmi/collector.py:94-104 | two spellings of one path merge under one key |
| Collector.MalformedRaises | packages/collector/snapl_collector/gnmi/collector.py:89-104 | a response with a malformed update raises |
| Paths.NormalizePath | packages/collector/snapl_collector/gnmi/collector.py:138-162 | the bracket-depth scan splits, drops empty elements, strips one module prefix each and joins at `/` |
| Paths.CanonicalPath | packages/collector/snapl_collector/gnmi/collector.py:138-162 | every spelling of a path (prefixes on any elements, separators repeated or dropped) normalises to one `/`-anchored text, which is a fixed point and keeps text in brackets |
| Paths.FixedPointExactly | packages/collector/snapl_collector/gnmi/collector.py:138-162 | for all texts, normalising twice equals normalising once iff no piece between top-level separators is only a module prefix or has two, or the one non-empty piece is only a prefix |
| Paths.DoublePrefixNotFixed | packages/collector/snapl_collector/gnmi/collector.py:160-162 | every doubly prefixed element is changed by a second normalisation |
| Paths.NotAlwaysIdempotent | packages/collector/snapl_collector/gnmi/collector.py:160-162 | a concrete path on which normalisation is not idempotent |
| Diff.DiffEntity | packages/observability/snapl_observability/structural/diff.py:200-239 | the loop over compared fields yields the entity's drift items in field order |
| Diff.UndesiredEntities | packages/observability/snapl_observability/structural/diff.py:153-197 | the loops over unmanaged entries yield the values set on them |
| Diff.DiffDesiredVsActual | packages/observability/snapl_observability/structural/diff.py:89-135 | the report is the forward items of both kinds followed by the undesired ones |
| Diff.DiffExact | packages/observability/snapl_observability/structural/diff.py:89-239 | an item is reported iff it is a compared attribute the device has wrong or lacks, or a value set on an unmanaged unprotected entity |
| Diff.CleanExactly | packages/observability/snapl_observability/structural/diff.py:89-239 | the diff is empty iff every compared attribute matches (unset mtu exempt) and every unmanaged unprotected entity carries only unset or default values |
| Diff.ItemsAreHonest | packages/observability/snapl_observability/structural/diff.py:153-239 | every item differs on its two sides; it is flagged undesired iff its path is a value field of an unmanaged reported entity, and otherwise a compared field of an entity in intent |
| Diff.NoPathTwice | packages/observability/snapl_observability/structural/diff.py:89-239 | with distinct desired keys no path is reported twice |
| Diff.InterfaceReported | packages/observability/snapl_observability/structural/diff.py:89-239 | an interface in intent is reported at `/interface[name=...]/field` iff one of description, ip_address, prefix_length, enabled and a set mtu differs from the device, with both values |
| Diff.SessionReported | packages/observability/snapl_observability/structural/diff.py:89-239 | a session in intent likewise, by peer address, AS, group and enabled |
| Diff.UnmanagedInterface | packages/observability/snapl_observability/structural/diff.py:153-197 | an interface not in intent, other than mgmt0 and system0, is reported iff it carries a description, an address, a length or an mtu other than 9232 |
| Diff.UnmanagedSession | packages/observability/snapl_observability/structural/diff.py:153-197 | a session not in intent is reported iff it carries an AS or a group |
| SrLinux.InterfaceIp | packages/orchestrator/snapl_orchestrator/adapters/srlinux.py:52-61 | the search over subinterfaces returns the first address entry that carries a prefix |
| SrLinux.AddEntries | packages/orchestrator/snapl_orchestrator/adapters/srlinux.py:84-106 | entries are added in report order, a repeated key keeping its last record |
| SrLinux.NormalizeState | packages/orchestrator/snapl_orchestrator/adapters/srlinux.py:84-106 | the flat records of all reported interfaces and neighbors, one per key |
| SrLinux.RecordAt | packages/orchestrator/snapl_orchestrator/adapters/srlinux.py:93-106 | when all entries landing at a path yield one record, that path holds it |
| SrLinux.RecordUntouched | packages/orchestrator/snapl_orchestrator/adapters/srlinux.py:93-106 | entries landing elsewhere leave a path alone |
| SrLinux.LastEntryIsRead | packages/orchestrator/snapl_orchestrator/adapters/srlinux.py:47-106 | of several entries with one key the last decides its record, member by member; it is enabled only if its admin state says enable |
| SrLinux.LocalNames | packages/orchestrator/snapl_orchestrator/adapters/srlinux.py:32-44 | a member is found under its local name with or without a module prefix |
| SrLinux.FirstMember | packages/orchestrator/snapl_orchestrator/adapters/srlinux.py:37-44 | the first member of that local name in report order is the one read |
| SrLinux.FirstPrefixed | packages/orchestrator/snapl_orchestrator/adapters/srlinux.py:52-61 | the first address entry that carries a prefix gives address and length, however many entries without one precede it |
| Renderer.SelectRouterId | packages/executor/snapl_executor/gnmi/renderer.py:23-36 | the first loopback address in intent order, or the management address when no loopback has one |
| Renderer.Render | packages/executor/snapl_executor/gnmi/renderer.py:53-85 | fails iff some interface has an address without a prefix length; otherwise renders every interface and session in order |
| Replay.PrefixReadsBack | packages/executor/snapl_executor/templates/dcfabric/interfaces.j2:16 | `address/length` reads back as the same pair iff the address holds no `/` and the length is not negative |
| Replay.InterfaceMatches | packages/executor/snapl_executor/templates/dcfabric/interfaces.j2:2-23 | with its own record on the device, a renderable interface drifts nowhere iff none of its attributes is lost in rendering |
| Replay.SessionMatches | packages/executor/snapl_executor/templates/dcfabric/bgp.j2:24-34 | the same for a BGP session |
| Replay.ReportedRecord | packages/orchestrator/snapl_orchestrator/adapters/srlinux.py:84-106 | an entry reported back keeps its own record whatever unmanaged entries surround it |
| Replay.NoForwardExactly | packages/orchestrator/snapl_orchestrator/adapters/srlinux.py:84-106 | a device that reports the rendered payload back, plus anything under other keys, shows no forward drift iff the intent is faithful |
| Reports.DetectDrift | packages/observability/snapl_observability/structural/observer.py:52-93 | the report of the adapter and the diff, ERROR for a failed collection, a raise for another device's state |
| Reports.ReportsAreLegal | packages/observability/snapl_observability/models.py:75-111 | every report it builds, and every item in it, passes its validator |
| Reports.ReportSays | packages/observability/snapl_observability/structural/observer.py:52-93 | a failed collection is ERROR with its error; otherwise the items are the diff of the normalised data, DRIFTED iff there are any |
| Reports.ReplayedReport | packages/orchestrator/snapl_orchestrator/activities/observability.py:17-35 | on a replay the report has forward drift iff the intent is not faithful, and is never ERROR |
| SeedStore.ApplyEffect | packages/intent/snapl_intent/infrahub/seed.py:318-346 | an upsert updates the first match in place or appends a node; every other node and every key stays |
| SeedIngester.Ingester.MaterialiseIpAddress | packages/intent/snapl_intent/infrahub/seed.py:250-265 | the address node, created only when missing |
| SeedIngester.Ingester.ResolveRelationships | packages/intent/snapl_intent/infrahub/seed.py:348-373 | the peers of the relationship fields an item carries, or a raise for the first that does not resolve |
| SeedIngester.Ingester.UpsertItem | packages/intent/snapl_intent/infrahub/seed.py:292-346 | the store and the created flag are those of the item's plans, also when it raises part way |
| SeedIngester.Ingester.SeedPeerGroups | packages/intent/snapl_intent/infrahub/seed.py:383-455 | one shadow per declared group and device using it, and an id map holding exactly those |
| SeedIngester.Ingester.SeedSession | packages/intent/snapl_intent/infrahub/seed.py:474-528 | one session wired through the id map; nothing is written when a named peer is missing |
| SeedIngester.Ingester.SeedSessions | packages/intent/snapl_intent/infrahub/seed.py:457-530 | every session upserted by description, in order |
| SeedIngester.Ingester.SeedSections | packages/intent/snapl_intent/infrahub/seed.py:199-217 | the generic sections in SEED_ORDER, with counts of records and created devices |
| SeedIngester.Ingester.Seed | packages/intent/snapl_intent/infrahub/seed.py:176-248 | the store and the result of a whole seed, or the store left behind by a failed one |
| SeedDataset.DatasetOrdered | packages/intent/snapl_intent/infrahub/seed.py:51-64 | SEED_ORDER never writes a kind that an earlier record reads |
| SeedFixedPoint.RunWrites | packages/intent/snapl_intent/infrahub/seed.py:318-346 | after a run every old node is its start overlaid by its writes in order, and every new node contains its writes |
| SeedFixedPoint.SecondRunIsFixedPoint | packages/intent/snapl_intent/infrahub/seed.py:176-248 | running dependency-ordered upserts again from where they ended changes nothing and creates nothing |
| SeedDataset.ShadowOrderIrrelevant | packages/intent/snapl_intent/infrahub/seed.py:409-410 | the iteration order of a device set does not change what is written to any node |
| SeedDataset.SeedTwice | packages/intent/snapl_intent/infrahub/seed.py:176-248 | after a successful seed from any store, a second one ends in the same store with no device created and the same total, whatever the set order and even when rows share a key |
| SeedIngester.SeedingAgainChangesNothing | packages/intent/snapl_intent/infrahub/seed.py:176-248 | the same statement about the store and result that `Ingester.Seed` leaves and returns |
| SeedReaches.RowReachesStore | packages/intent/snapl_intent/infrahub/seed.py:292-346 | after a successful seed, for every record of a generic section and every declared attribute it carries, the node found under its natural key holds the value of the last record of that key to carry it |
| SeedReaches.NothingElseReaches | packages/intent/snapl_intent/infrahub/seed.py:318-346 | a node of a generic section holds nothing but what it held before and declared attributes of its own records |
| SeedReaches.CreatedRowIsWired | packages/intent/snapl_intent/infrahub/seed.py:292-346 | every node a seed creates for a section belongs to the first record about it, and has for each relationship field the record carries the node found by that field's lookup, its namespace and its address |
| SeedReaches.EveryRowResolves | packages/intent/snapl_intent/infrahub/seed.py:348-373 | after a successful seed every peer and address that any record names is in the store |
| SeedReaches.NamespaceIsUsed | packages/intent/snapl_intent/infrahub/seed.py:186-192 | the default namespace is fetched, from the starting store, iff there are VRFs, prefixes or interfaces or a device with a management address |
| SeedBgpReaches.GroupsAreLastDeclared | packages/intent/snapl_intent/infrahub/seed.py:405 | a declared group is materialised as the last declaration of its name says |
| SeedBgpReaches.ShadowReachesStore | packages/intent/snapl_intent/infrahub/seed.py:399-455 | for each such group and device whose sessions name it, the node found under `group@device` holds name, description, status and extra attributes as the last declaration to say them says |
| SeedBgpReaches.CreatedShadowIsWired | packages/intent/snapl_intent/infrahub/seed.py:410-446 | every shadow a seed creates is of a declared group, with exactly the relations to the node of a device using it and to the default VRF |
| SeedBgpReaches.SessionReachesStore | packages/intent/snapl_intent/infrahub/seed.py:457-530 | the node found under a session's description holds what the last session of that description to say it says |
| SeedBgpReaches.CreatedSessionIsWired | packages/intent/snapl_intent/infrahub/seed.py:474-528 | every session node a seed creates is of the first session with its description, with its device, the default VRF, local_as, remote_as, local_ip, remote_ip and its own shadow each from the session's field of that name, and no other relation |
| SeedFigures.ReportCountsTheStore | packages/intent/snapl_intent/infrahub/seed.py:192-248 | devices created is the number of device nodes the store gained, updated the other device records, and the total every generic record, every (group, device) pair and every session |
| SeedFigures.MissingFieldStops | packages/intent/snapl_intent/infrahub/seed.py:275-283 | a device record without one of its five required fields is rejected with the store untouched |
| SeedFigures.MissingNamespaceStops | packages/intent/snapl_intent/infrahub/seed.py:186-192 | so is a dataset that needs the default namespace of a store without one |
| SeedFigures.ProgressStops | packages/intent/snapl_intent/infrahub/seed.py:198-238 | a seed that fails stops at the first record that cannot be resolved and keeps what was written before it |
| SeedFigures.EverySeedKeeps | packages/intent/snapl_intent/infrahub/seed.py:318-346 | failed or not, a seed leaves every node it found with its kind, key and relations |
| SeedShadows.ShadowsAreThePairs | packages/intent/snapl_intent/infrahub/seed.py:399-455 | the shadows are exactly the (declared group, device using it) pairs, and the count is their number whatever the set order |
| SeedShadows.IdMapIsThePairs | packages/intent/snapl_intent/infrahub/seed.py:452-455 | the id map knows exactly the pairs, each by the node found under its shadow's name |
| SeedShadows.NewSessionsAreWired | packages/intent/snapl_intent/infrahub/seed.py:511-528 | every node a BGP seed adds after the shadows is created by the first session with its description, and points to the node found under the shadow name of that session's declared group and own device |
| SeedShadows.NewSessionPointsHome | packages/intent/snapl_intent/infrahub/seed.py:419-455 | a session the run creates for a declared group points to a shadow on its own device iff the starting store's node of that shadow name is on it, or there is none and the first plan that writes the name is for it |
| SeedShadows.PlainGroupsPointHome | packages/intent/snapl_intent/infrahub/seed.py:419-455 | when no declared group name holds an `@`, only an old shadow on another device keeps a session from pointing home |
| SeedShadows.SessionGoesAstray | packages/intent/snapl_intent/infrahub/seed.py:419-455 | a dataset and store on which a seed leaves a session pointing to the shadow of another device |
| SeedShadows.SharedShadow | packages/intent/snapl_intent/infrahub/seed.py:419 | two pairs share a shadow name iff they are the same pair or one group name straddles the other past an `@` |
| SeedShadows.PlainNamesApart | packages/intent/snapl_intent/infrahub/seed.py:419 | groups whose names hold no `@` never share a shadow |
| Uuids.ParseText | packages/orchestrator/snapl_orchestrator/audit/sqlite.py:172-188 | the text of a UUID parses back to it |
| Uuids.TextInjective | packages/orchestrator/snapl_orchestrator/audit/sqlite.py:172-175 | different UUIDs have different texts |
| Uuids.PrefixedTextParses | packages/orchestrator/snapl_orchestrator/audit/sqlite.py:172-188 | `0x` and 30 hex digits are a UUID too, because `UUID` reads them with `int(text, 16)` |
| Uuids.AnyAlphabetParses | packages/orchestrator/snapl_orchestrator/audit/sqlite.py:172-188 | so are 32 digits from any alphabets, the UUID being the one of their values |
| Timestamps.UtcKeepsInstant | packages/orchestrator/snapl_orchestrator/audit/sqlite.py:166-169 | moving an aware timestamp to UTC keeps its instant |
| Timestamps.UtcExists | packages/orchestrator/snapl_orchestrator/audit/sqlite.py:166-169 | it overflows iff the instant lies outside years 1 to 9999 in UTC |
| Timestamps.TextOrderIsTimeOrder | packages/orchestrator/snapl_orchestrator/audit/sqlite.py:141-169 | stored texts compare like the instants, whatever the offsets and with or without a fraction; equal texts are equal instants |
| Timestamps.ParseIsoText | packages/orchestrator/snapl_orchestrator/audit/sqlite.py:200 | a written timestamp reads back as the same UTC datetime |
| AuditLogs.RowRoundTrip | packages/orchestrator/snapl_orchestrator/audit/sqlite.py:172-202 | a stored event reads back as itself, with its timestamp in UTC, iff its target is not a name that Python's `UUID` reads |
| AuditLogs.SameSelection | packages/orchestrator/snapl_orchestrator/audit/sqlite.py:129-151 | each WHERE clause selects a row iff the in-memory filter selects its event; the time range is start <= t < end |
| AuditLogs.EachEventOnce | packages/orchestrator/snapl_orchestrator/audit/memory.py:29-34 | under any re-delivery the in-memory log holds each event id once, at its first arrival, and the table does so for the deliveries whose timestamp UTC can express |
| AuditLogs.NothingRejected | packages/orchestrator/snapl_orchestrator/audit/sqlite.py:94-127 | when UTC can express every timestamp both logs hold the same events |
| AuditLogs.LogsAnswerAlike | packages/orchestrator/snapl_orchestrator/audit/sqlite.py:129-163 | every query on one log is a permutation of the same query on the other, and equal when the events are in time order |
| AuditLogs.DeliverThenAsk | packages/orchestrator/snapl_orchestrator/audit/memory.py:29-55 | the same for any stream of deliveries to both logs |
| AuditLogs.AnswerHolds | packages/orchestrator/snapl_orchestrator/audit/memory.py:36-55 | an answer holds exactly the events of the workflow, about the device, or with start <= t < end |
| AuditLogs.SqliteAuditLog.Append | packages/orchestrator/snapl_orchestrator/audit/sqlite.py:94-127 | a row is added unless its event id is known; a timestamp UTC cannot express raises and writes nothing |
| AuditLogs.SqliteAuditLog.Ask | packages/orchestrator/snapl_orchestrator/audit/sqlite.py:129-163 | the matching rows in id order, read back as events |
| AuditLogs.InMemoryAuditLog.Append | packages/orchestrator/snapl_orchestrator/audit/memory.py:29-34 | an event is kept unless its id is known; the id set matches the list |
| AuditLogs.InMemoryAuditLog.Ask | packages/orchestrator/snapl_orchestrator/audit/memory.py:36-55 | the matching events in a stable sort by instant |
| Lists.SortSorts | packages/orchestrator/snapl_orchestrator/audit/memory.py:39 | the sort is a permutation into key order |
| Lists.SortIsStable | packages/orchestrator/snapl_orchestrator/audit/memory.py:39 | events of one instant keep their order |
| Trails.Trail.Record | packages/orchestrator/snapl_orchestrator/workflows/deploy_intent.py:57-84 | one trail write; a failing one raises with the entry stored or not |
| DeployIntent.Run | packages/orchestrator/snapl_orchestrator/workflows/deploy_intent.py:91-274 | a run that returns has told its whole story and returns its result; one that raises wrote a prefix of the story |
| DeployIntent.TrailShape | packages/orchestrator/snapl_orchestrator/workflows/deploy_intent.py:91-387 | the story is started, an in-order prefix of the fetch, apply, collect and detect completions, and one terminal entry announcing the result; all entries legal |
| DeployIntent.SucceedsExactly | packages/orchestrator/snapl_orchestrator/workflows/deploy_intent.py:242-274 | SUCCEEDED iff all four stages completed and the report is neither ERROR nor has forward drift |
| DeployIntent.UnverifiedExactly | packages/orchestrator/snapl_orchestrator/workflows/deploy_intent.py:260-266 | VERIFICATION_FAILED iff all four completed with forward drift, and then carries every item |
| DeployIntent.ReasonsExactly | packages/orchestrator/snapl_orchestrator/workflows/deploy_intent.py:103-274 | for each failure reason and for cancellation, exactly which activity outcomes end a run with it |
| DeployIntent.DetailsExactly | packages/orchestrator/snapl_orchestrator/workflows/deploy_intent.py:103-274 | the detail of a failed run is the message of the activity or report that failed it, or the default for an empty message |
| DeployIntent.SuccessNamesWhatRemains | packages/orchestrator/snapl_orchestrator/workflows/deploy_intent.py:242-259 | a successful run names every undesired path in its last record and their number in its result |
| DeployIntent.UndesiredAll | packages/orchestrator/snapl_orchestrator/workflows/deploy_intent.py:249-252 | the count comparison tells exactly whether any item is forward |
| DeployIntent.ResultIsLegal | packages/orchestrator/snapl_orchestrator/models.py:107-117 | every deploy result passes its validator and is of its own run, device and times |
| ScanDrift.DevicesAreDistinct | packages/orchestrator/snapl_orchestrator/activities/intent.py:33-39 | whatever the store answers, the scan's devices are those named, each once, in first-appearance order |
| ScanDrift.LastAnswerStands | packages/orchestrator/snapl_orchestrator/activities/intent.py:33-39 | a device the store names more than once is scanned as its last answer describes it |
| ScanDrift.OwnReport | packages/orchestrator/snapl_orchestrator/workflows/scan_drift.py:197-253 | a report is legal and carries its own device's id even when the store hands out another device's state |
| ScanDrift.Run | packages/orchestrator/snapl_orchestrator/workflows/scan_drift.py:116-188 | a scan tells its whole story and returns its outcome, or raises after a prefix of the story |
| ScanDrift.ScanSays | packages/orchestrator/snapl_orchestrator/workflows/scan_drift.py:197-253 | in a finished scan the report under a device's id is the one its detection returned, hence the diff of what was fetched and collected, or ERROR naming the first stage that raised |
| ScanDrift.FiguresCount | packages/orchestrator/snapl_orchestrator/workflows/scan_drift.py:150-188 | the clean, drifted and errored figures of a finished scan count the reports it holds by status |
| ScanDrift.CutUnrecorded | packages/orchestrator/snapl_orchestrator/workflows/scan_drift.py:190-195 | a check with a cancelled stage leaves no record, and then the scan was cancelled |
| ScanDrift.ScanIsLegal | packages/orchestrator/snapl_orchestrator/models.py:138-147 | for any store answer and activity outcomes the scan result passes its validator, holds each device once, and every report its own device's id |
| ScanDrift.RecordsOwnDevice | packages/orchestrator/snapl_orchestrator/workflows/scan_drift.py:87-110 | each recorded check is filed under its own device's id with what its stages amount to, as failed iff that is an error |
| ScanDrift.RecordsEveryDevice | packages/orchestrator/snapl_orchestrator/workflows/scan_drift.py:190-195 | a scan that is not cancelled records every device exactly once |
| ScanDrift.ScanTrailShape | packages/orchestrator/snapl_orchestrator/workflows/scan_drift.py:116-271 | all entries legal; exactly one terminal entry, the last, iff the scan returns, and it says cancelled iff the result does |
| Results.SelectRemediation | packages/orchestrator/snapl_orchestrator/remediation.py:22-41 | the loop returns the forward-drifted devices and the exclusions, both in scan order |
| Results.SplitIsExact | packages/orchestrator/snapl_orchestrator/remediation.py:22-41 | repaired iff forward drift, in neither part iff clean, the parts disjoint and without repeats |
| ReconcileDevices.Count | packages/orchestrator/snapl_orchestrator/workflows/reconcile_devices.py:104-116 | the counting loop yields the per-device results and the three tallies |
| ReconcileDevices.Run | packages/orchestrator/snapl_orchestrator/workflows/reconcile_devices.py:65-139 | no device raises with nothing recorded; otherwise start and one terminal entry, and the result iff nothing was cancelled |
| ReconcileDevices.TotalsConserved | packages/orchestrator/snapl_orchestrator/models.py:164-176 | targets are the distinct devices; succeeded + failed + skipped is their number; the result passes its validator |
| ReconcileDevices.ChildrenDecide | packages/orchestrator/snapl_orchestrator/workflows/reconcile_devices.py:104-181 | going by the children only: a target whose child was already running or found no device has no result and is skipped, any other finished child is reported with its own result, a failed one as a failed apply; succeeded counts the finished children that succeeded, failed the rest |
| ReconcileDevices.ReconcileTrail | packages/orchestrator/snapl_orchestrator/workflows/reconcile_devices.py:83-128 | both entries legal, with the numbers of targets and of repeats, and the totals; the terminal one says cancelled iff the run or a child was |
| ReconcileDevices.DeployIdInjective | packages/orchestrator/snapl_orchestrator/workflows/reconcile_devices.py:150 | different devices have different deploy workflow ids |
| DriftResponse.Run | packages/orchestrator/snapl_orchestrator/workflows/drift_response.py:176-303 | a run tells its whole story or raises after a prefix; it returns a result iff it got past its scan and its reconcile did not fail |
| DriftResponse.RecordDecisions | packages/orchestrator/snapl_orchestrator/workflows/drift_response.py:134-169 | one decision per repaired device in order, then one per excluded device |
| DriftResponse.CountExcluded | packages/orchestrator/snapl_orchestrator/workflows/drift_response.py:107-109 | the counts of excluded devices by reason |
| DriftResponse.ResponseTrail | packages/orchestrator/snapl_orchestrator/workflows/drift_response.py:252-303 | past the scan, even when the reconcile failed or was cancelled: one decision per decided device, then one use-case summary, then one terminal entry; all legal |
| DriftResponse.OneTerminalEntry | packages/orchestrator/snapl_orchestrator/workflows/drift_response.py:176-303 | every run's entries are legal and exactly the last one is terminal, whether or not it got past its scan |
| DriftResponse.DecidedOnce | packages/orchestrator/snapl_orchestrator/workflows/drift_response.py:218-222 | the decided devices are exactly the scan's non-clean ones of a REMEDIATE run, none twice |
| DriftResponse.DecisionSays | packages/orchestrator/snapl_orchestrator/workflows/drift_response.py:145-169 | a repaired device's record rests on a report with forward drift and names the reconcile and its result; an excluded one's gives the reason and the error its report gives; both name the schedule |
| DriftResponse.StartSays | packages/orchestrator/snapl_orchestrator/workflows/drift_response.py:181-186 | the first record names the use case, the mode and the schedule |
| DriftResponse.EndSays | packages/orchestrator/snapl_orchestrator/workflows/drift_response.py:195-303 | the last record says cancelled iff the scan, or a repair that was needed, was cancelled; a failure with its error iff one of them broke or nothing was evaluated; a success otherwise |
| DriftResponse.SummarySays | packages/orchestrator/snapl_orchestrator/workflows/drift_response.py:99-119 | the use-case record repeats the scan's figures and names the reconcile iff a device shows forward drift |
| DriftResponse.ResultSays | packages/orchestrator/snapl_orchestrator/workflows/drift_response.py:205-303 | the result carries the scan and the reconcile of this run, repairs in REMEDIATE exactly the devices with forward drift and excludes exactly those errored or with only undesired drift, each with its reason |
| DriftResponse.SummaryCounts | packages/orchestrator/snapl_orchestrator/models.py:327-341 | the run summary counts the decision records by result |
| DriftResponse.SummaryAddsUp | packages/orchestrator/snapl_orchestrator/workflows/drift_response.py:99-119 | in a REMEDIATE run's summary repaired + undesired-only = drifted, excluded as errored = errored, and with the clean ones they are all devices of the scan |
| DriftResponse.FinishedScanCounts | packages/orchestrator/snapl_orchestrator/workflows/scan_drift.py:156-160 | a finished scan's counts and map are those of one report per device |
| DriftResponse.CountsMatch | packages/orchestrator/snapl_orchestrator/workflows/drift_response.py:122-131 | when the reconcile returned, the recorded succeeded, failed and skipped results count to its totals |
| DriftResponse.UnknownWhenBroken | packages/orchestrator/snapl_orchestrator/workflows/drift_response.py:122-126 | when it did not return, every repaired device is recorded as unknown |
| DriftResponse.ResponseIsLegal | packages/orchestrator/snapl_orchestrator/models.py:285-341 | the result of any legal scan and its reconcile passes its validator, and so does its summary |
| ClosedLoop.DeployConverges | packages/orchestrator/snapl_orchestrator/workflows/deploy_intent.py:250-259 | on a device that reports its intent back, a deploy is SUCCEEDED when the intent is faithful and VERIFICATION_FAILED otherwise |
| ClosedLoop.ScanRepairsExactly | packages/orchestrator/snapl_orchestrator/remediation.py:22-41 | a finished scan hands a device to a repair iff the diff of what was fetched and collected for it shows forward drift |
| ClosedLoop.NextScanLeavesItAlone | packages/orchestrator/snapl_orchestrator/remediation.py:22-41 | the next finished scan hands a device that reports its intent back to a repair iff the intent is not faithful |
| ClosedLoop.ScheduledRunIsLegal | packages/orchestrator/snapl_orchestrator/models.py:138-341 | from any store answer and activity outcomes a scheduled run builds only objects their validators accept, and repairs only devices the store named that show forward drift; in REPORT it repairs none, whatever a reconcile would have done |
| ClosedLoop.RepairsReportTheirOwn | packages/orchestrator/snapl_orchestrator/workflows/reconcile_devices.py:141-181 | when its finished children are deploy runs, a reconcile reports only legal results, each about its own device, failed children included |
| Protocol.EveryInterleavingIsSafe | packages/orchestrator/snapl_orchestrator/workflows/reconcile_devices.py:77-158 | over every interleaving: one open deploy per device, one open run per schedule, finished reconciles count each distinct target once, and report only their own children's results |
| Protocol.NextKeeps | packages/orchestrator/snapl_orchestrator/workflows/drift_response.py:223-249 | every step of every workflow keeps the invariant behind it |
| Protocol.TakenMeansInFlight | packages/orchestrator/snapl_orchestrator/workflows/reconcile_devices.py:144-158 | a deploy's workflow id is taken iff a deploy of that very device is open |
| Protocol.CollisionSkipsOnlyItself | packages/orchestrator/snapl_orchestrator/workflows/reconcile_devices.py:144-158 | dispatching a target changes its own slot only: skipped iff a deploy of it is in flight, otherwise waiting for a fresh run |
| Protocol.OperatorAttaches | packages/presentation/snapl_presentation/cli.py:239-247 | after an operator deploy exactly one deploy of the device is open; if one was already, nothing is started |
| Protocol.TimeoutAbandonsRepair | packages/orchestrator/snapl_orchestrator/workflows/drift_response.py:225-249 | whatever deploys and reconciles do after a run is closed at its timeout, they do the same, to the same end, as if it were open |
| Protocol.TimeoutFreesSchedule | packages/orchestrator/snapl_orchestrator/schedules.py:76-108 | closing a run at its timeout frees its schedule for the next firing |
| Protocol.RepairStandsAlone | packages/orchestrator/snapl_orchestrator/workflows/drift_response.py:225-249 | once an abandoned repair has dispatched its devices, its own steps and its own deploys' ends decide its fate alone, along every run, the next firing and that one's repair included |
| Protocol.NoSharedChild | packages/orchestrator/snapl_orchestrator/workflows/reconcile_devices.py:141-158 | overlapping reconciles never wait for or report the same deploy |
| Protocol.TotalsAreTheWorkflows | packages/orchestrator/snapl_orchestrator/workflows/reconcile_devices.py:104-139 | a finished run's totals and results are those the reconcile workflow returns for the children that its slots saw |
| Liveness.EveryReconcileCanEnd | packages/orchestrator/snapl_orchestrator/workflows/reconcile_devices.py:77-139 | from every reachable state an open reconcile can be brought to its end, however its deploys end, touching no scheduled run |
| Liveness.WaitingSettles | packages/orchestrator/snapl_orchestrator/workflows/reconcile_devices.py:141-181 | a target whose deploy is open is settled as that deploy then ends: skipped for an unknown device, otherwise reported, as a success iff it is one |
| Liveness.EveryRunCanEnd | packages/orchestrator/snapl_orchestrator/workflows/drift_response.py:176-303 | so can an open scheduled run, after its repair if that is open |
| Liveness.FiresWhenFree | packages/orchestrator/snapl_orchestrator/schedules.py:86-118 | a firing is dropped iff a run of its schedule is open or its id is taken, and otherwise starts exactly one run |
| Liveness.ReconcileStarts | packages/orchestrator/snapl_orchestrator/workflows/reconcile_devices.py:65-92 | an operator's reconcile whose id is free starts with every named device, once each, still to dispatch |
| Liveness.RepairStarts | packages/orchestrator/snapl_orchestrator/workflows/drift_response.py:223-249 | a scheduled run starts one repair with every selected device, once each, still to dispatch |
| Liveness.CancelStopsItsOwn | packages/orchestrator/snapl_orchestrator/workflows/reconcile_devices.py:77-101 | cancelling a reconcile ends exactly the open deploys it started |
| Schedules.DriftSchedule.Record | packages/orchestrator/snapl_orchestrator/schedules.py:395-417 | a change is appended iff it names an actor and the log is up |
| Schedules.DriftSchedule.EnsureSchedule | packages/orchestrator/snapl_orchestrator/schedules.py:121-181 | creates in REPORT, or changes only interval, catch-up window and timeout; records a change iff the interval changed |
| Schedules.DriftSchedule.SetDriftResponse | packages/orchestrator/snapl_orchestrator/schedules.py:184-224 | switches only the response and records it iff it differs |
| Schedules.DriftSchedule.PauseSchedule | packages/orchestrator/snapl_orchestrator/schedules.py:227-240 | refuses a blank reason; otherwise pauses and records the reason |
| Schedules.DriftSchedule.ResumeSchedule | packages/orchestrator/snapl_orchestrator/schedules.py:243-252 | unpauses and records it |
| Schedules.DriftSchedule.TriggerSchedule | packages/orchestrator/snapl_orchestrator/schedules.py:255-279 | refused and unrecorded while a run is in progress; otherwise records the current mode |
| Schedules.DriftSchedule.DeleteSchedule | packages/orchestrator/snapl_orchestrator/schedules.py:282-289 | removes the schedule and records it |
| Schedules.TrailIsState | packages/orchestrator/snapl_orchestrator/schedules.py:86-289 | after any recorded calls, folding the changes gives existence, response, pause flag and whole-second interval; each record agrees with the earlier ones; interval >= 1m, catch-up = interval, timeout set |
| Schedules.IntervalExactly | packages/orchestrator/snapl_orchestrator/schedules.py:166-179 | the folded seconds are the interval iff it is whole seconds |
| Schedules.HalfSecondsAreLost | packages/orchestrator/snapl_orchestrator/schedules.py:178 | a schedule of 60.5 seconds folds back as one of 60 |
| Schedules.LosesExactly | packages/orchestrator/snapl_orchestrator/schedules.py:121-289 | an unrecorded call leaves the trail wrong iff it creates the schedule, changes its whole seconds, switches its response, pauses it while unpaused, resumes it while paused, or deletes it |
| Schedules.FoldIsLastWrites | packages/orchestrator/snapl_orchestrator/schedules.py:395-417 | folding any changes, coherent or not, gives what the last change to existence, interval, response and pause flag says |
| Schedules.LossIsForgivenExactly | packages/orchestrator/snapl_orchestrator/schedules.py:395-417 | after any calls, some unrecorded, the trail gives the schedule's policy iff for each of these parts its last record says what the last change made says |
| Schedules.SetupNeverDisturbs | packages/orchestrator/snapl_orchestrator/schedules.py:131-138 | however often setup runs among other calls, the response, pause flag and note end up as without it |
| Schedules.RefusalsLeaveNoTrace | packages/orchestrator/snapl_orchestrator/schedules.py:106-279 | leaving the refused calls out of a run changes neither the schedule nor the trail |
| Schedules.LastAskedIsSo | packages/orchestrator/snapl_orchestrator/schedules.py:86-252 | from its setup on, whatever is called and refused, a schedule's interval, response, pause flag and note are those last asked for |
| Schedules.TrailHoldsTheNote | packages/orchestrator/snapl_orchestrator/schedules.py:227-252 | a schedule's note is what the last pause or resume in its trail gives |
| Schedules.RecordedExactly | packages/orchestrator/snapl_orchestrator/schedules.py:121-289 | a call leaves a record, of its own kind, iff it is carried out and is not a setup or response asking for what is there |
| Intervals.ParseFormat | packages/presentation/snapl_presentation/render.py:72-79 | reading a printed interval gives its whole seconds, so the interval itself iff it is whole seconds |
| Intervals.FormatParse | packages/presentation/snapl_presentation/cli.py:422-437 | every accepted text, in the digits of any alphabet, means an interval of a minute or more that prints as a text with the same meaning |
| Intervals.FormatInjective | packages/presentation/snapl_presentation/render.py:72-79 | intervals print alike iff they agree in whole seconds |
| Intervals.LargestUnitPrints | packages/presentation/snapl_presentation/render.py:72-79 | an interval prints as a number and a unit whose product is its seconds, and no larger unit divides them |
| Intervals.BlankIsStripped | packages/orchestrator/snapl_orchestrator/schedules.py:227-235 | a pause is refused iff stripping its reason leaves nothing |
| Executor.GnmiExecutor.Deploy | packages/executor/snapl_executor/gnmi/executor.py:142-182 | a failed result for a render failure or a missing target, which dial nothing, or for a SET that raises |
| Executor.DialsFirstAddress | packages/executor/snapl_executor/gnmi/executor.py:75-82 | a deploy dials the lab node name, or else the management address, or else the fallback host, the first that is not empty |
| Executor.SaysWhy | packages/executor/snapl_executor/gnmi/executor.py:142-182 | a failed result says what kept it from dialling or the error its SET ended with |
| Executor.GnmiExecutor.ApplyBatch | packages/executor/snapl_executor/gnmi/executor.py:120-138 | raises iff the batch is empty or repeats a device; otherwise the results and SETs of all its deploys |
| Executor.BatchIsWhole | packages/executor/snapl_executor/gnmi/executor.py:126-138 | one result per device, each about its own device, and succeeded + failed = total |
| Executor.CountsReached | packages/executor/snapl_executor/gnmi/executor.py:126-182 | a batch counts as succeeded exactly the devices it could dial and whose SET raised nothing |
| SetLocks.OneSetPerHost | packages/executor/snapl_executor/gnmi/executor.py:156-161 | in every interleaving of batch and single applies that lets SETs end, at most one SET is in flight per host |
| SetLocks.CutSetBreaks | packages/executor/snapl_executor/gnmi/executor.py:160-161 | cancelling a task in its SET lets the next task send beside it |
| SetLocks.CutBreaksExactly | packages/executor/snapl_executor/gnmi/executor.py:160-161 | after a step the SETs stay exclusive along every continuation that lets SETs end iff the step cut no SET |
| SetLocks.ExclusiveExactly | packages/executor/snapl_executor/gnmi/executor.py:160-161 | after any run, cancellations included, they stay exclusive along every such continuation iff no SET of a cancelled task is still in flight |
| SetLocks.OutcomesStayHome | packages/executor/snapl_executor/gnmi/executor.py:156-182 | whatever other SETs raise, two runs of the same steps agree on a task whose own SET ends alike, on every lock and on who is in which phase |
| SetLocks.NoOvertaking | packages/executor/snapl_executor/gnmi/executor.py:160 | no event puts a waiting task further back |
| SetLocks.TurnBringsCloser | packages/executor/snapl_executor/gnmi/executor.py:160-161 | a waiting task is never stuck: its host's next turn is enabled and brings it closer or to its SET |
| SetLocks.ReachesItsSet | packages/executor/snapl_executor/gnmi/executor.py:156-161 | once its host has had more turns than were ahead of it, a task has reached its SET or was itself cancelled in the queue, however many others arrive |
| BatchRuns.OrderIrrelevant | packages/executor/snapl_executor/gnmi/executor.py:126-138 | however a batch's deploys interleave with each other and with other applies, once all have ended the batch returns what it would one device at a time |
| BatchRuns.EndsAsItsDevice | packages/executor/snapl_executor/gnmi/executor.py:142-182 | in every interleaving an ended deploy returns the result of its own device |
| BatchRuns.FailureIsAlone | packages/executor/snapl_executor/gnmi/executor.py:126-138 | a deploy returns the same in any two interleavings and any two worlds that treat its own device alike |
| BatchRuns.FailureDelaysNobody | packages/executor/snapl_executor/gnmi/executor.py:126-138 | whatever the SETs raise, the same steps stay open, and after them the same deploys have ended |
| BatchRuns.BatchSetsInTurn | packages/executor/snapl_executor/gnmi/executor.py:156-161 | two devices of a batch behind one host never have their SETs in flight together while SETs are let end |
| Attribution.GroupByDevice | packages/intent/snapl_intent/infrahub/store.py:196-218 | each queried device's children in query order, or an error naming exactly the unplaceable ones in order |
| Attribution.GetDesiredState | packages/intent/snapl_intent/infrahub/store.py:265-303 | one entry per device node, interfaces checked before sessions |
| Attribution.ChildrenAreConserved | packages/intent/snapl_intent/infrahub/store.py:196-303 | answered iff every child can be placed; then there is one entry per device node, holding exactly its own children in query order, and the distinct entries together hold every child once; otherwise the error names exactly the unplaceable children |
| Attribution.RelationsDecide | packages/intent/snapl_intent/infrahub/store.py:196-303 | with two or more devices queried, it answers iff every child's relation names one of them; entry k then holds exactly the children that name device k, in query order; otherwise the error lists exactly the others |
| Attribution.SingleDeviceTakesAll | packages/intent/snapl_intent/infrahub/store.py:199-201 | with one device queried every child is its own, whatever its relation says |

## Left out

- Temporal, SQLite, gNMI, Infrahub and YAML client code, sockets, threads and retry timers: assumed to do what their interfaces say (unique open workflow ids, a table with a unique event id, an atomic schedule update, a keyed node store).
- The Temporal update race and the narrow trigger window that schedules.py documents itself: the update is one step here.
- Convergence of a device that keeps other configuration under a managed key: a gNMI update merges, so the replay assumes the device reports the rendered entries back unchanged.
- Renderer.Render: does not model the text layer. Strings are taken as literal JSON strings, so quotes or backslashes in unescaped template positions are outside the model, and of bgp.j2 only the neighbors and the router id are, because nothing else is compared.
- Paths.NormalizePath: module names are ASCII word characters; `\w` also admits other alphabets.
- Fragments.MergeFailsExactly: says when a merge raises; which place the error names is `Fragments.NamesFirstClash`, the two values it quotes are left out.
- SrLinux.NormalizeState: reported containers are lists of objects and keys are text; other JSON shapes, on which the code raises TypeError, are not modelled.
- SrLinux.AddEntries: the same, entry by entry.
- SrLinux.InterfaceIp: a prefix that is not text is read as no prefix, and a prefix length is read in ASCII digits only.
- Reports.DetectDrift: gives the report; the event the observer emits about it and its own audit entry are left out.
- Json.PyEq: compares JSON without floats, and without Python's `True == 1`.
- SeedIngester.Ingester.Seed: the dataset is already parsed, BGP rows carry their required fields (the code raises KeyError otherwise), and attributes the client refuses to set silently are outside the model. Connection errors are not modelled.
- SeedDataset.SeedTwice: asks that rows carry their natural-key fields and that the schema declares them; a row without its key is created anew by every run.
- Timestamps.ParseIsoText: reads the texts `isoformat` writes for UTC, not every text `fromisoformat` accepts; timestamps without an offset are outside the model, as are two datetimes of one zone object whose offsets differ.
- AuditLogs.SqliteAuditLog.Append: the payload is stored as a value, so JSON fidelity of payloads is not modelled; event types and reasons are stored as the values their texts stand for. Connections and initialisation are left out.
- AuditEvents models payloads by their shapes; only the shapes the workflows and schedule control write exist.
- DeployIntent.Run: what an activity raises is its error type and message; retries happen before the outcome the run sees.
- ScanDrift.Run: device checks are recorded one at a time in any order; records of other devices still in flight when one write fails are not modelled.
- Trails.Trail.Record: one fault ends a run, as every workflow raises at the first failing write except after a terminal entry.
- Protocol.EveryInterleavingIsSafe: scans are not steps, since they start no deploy; a run cancelled by an operator reaches its repair through the step that cancels the reconcile.
- Schedules.DriftSchedule.ResumeSchedule: the default note the client supplies is not modelled; recent and next runs of a view are read-only projections and are left out.
- Characters.Zero: lists the decimal digits of Unicode 15, which Python 3.12 and 3.13 use; later versions add alphabets.
- Schedules.Seconds: whole seconds are exact, where `total_seconds()` is a float: an interval of centuries with a fraction close to a whole second can round up there.
- Executor.GnmiExecutor.Deploy: error texts are shortened to their constant parts, and payload echo, duration and rollback flag are left out.
- Executor.GnmiExecutor.ApplyBatch: applies the batch in one sequential order; its interleavings are in `BatchRuns`, which leaves out a gather that is cancelled as a whole.
- Attribution.GetDesiredState: the mapping of node attributes to intent fields (status, CIDR splitting, address choice) is left out.
- The observer's event bus, bounded audit log and batch variant, which publish and keep what a report already says; dry runs and rollback, which render or apply like a deploy; the CLI's prompts, printing and exit codes; environment, device resolution and schema provisioning, which read configuration and call the clients.
