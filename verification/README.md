# Traffic accounting of the TraceWulf agent, modelled and proved

TraceWulf counts the bytes that pods send, names both ends of every flow from the
Kubernetes API, prices what crosses availability zones and keeps cumulative totals in
an append-only log that survives restarts. This project models that pipeline from the
kernel probes to the replayed log, and the CO-RE access macros the probes are built
from, and proves what holds of whole runs.

| module | what it models |
|---|---|
| `Wrappers`, `Words`, `Text` | options and results, wrapping words, numerals and separators |
| `Float64`, `Rounding` | float operations as exact results rounded, and their error bounds |
| `FlowKey` | names of endpoints, dotted addresses, flow keys |
| `FlowTable`, `Snapshots` | the connection table as a value, grouping by key, one interval's totals and cost |
| `Stats` | the aggregator as code: `ConnStat` cells, `Aggregator` (the source's `Stats`) |
| `Json`, `Codec` | the JSON syntax scanner, the six-field history line, its strict reader |
| `LogFile`, `History` | the log as bytes with cut writes, replay, the `HistoryStore` |
| `Cache`, `AddressIndex`, `Informer` | the identity cache, address indexes, the nine informer handlers |
| `Wire`, `Reader` | the C sample and its decode, name and zone lookups, the event loop |
| `Resolution`, `Attribution` | what a lookup finds against the live pods, services and nodes; billed zones traced back to node labels |
| `Pipeline`, `Accounts` | the agent as a step machine over its locked sections; what its totals, ring and counters stand for over all runs |
| `Billing`, `Erasure` | exactly what is billed over all runs; samples that leave no trace |
| `Refinement` | the reader's loop and the reporter's tick as runs of that machine |
| `Tracer`, `EndToEnd` | the probe programs, all thread interleavings of their helper calls, and the flow a call ends up as |
| `Bitfield`, `PointerChase` | bitfield access on byte memory in both byte orders; the `BPF_CORE_READ` expansion |

How to read it:

- A mutex-held section is one atomic step. `Pipeline.Step` interleaves the reader, the
  reporter (which stands between reset, publish and record, and may tick after the stop
  event until its select takes it), the informers, the stop event and restarts. Each
  class method is proved to do what the matching value function does; `Refinement` shows
  that the reader's loop and the reporter's tick are runs of the machine, and
  `Tracer.ExitUndisturbed` does so for the exit probes.
- The eight cache lookups made for one event are separate lock sections. A `Sample`
  action says which cache each lookup sees; they happen in order and not before the
  previous flow event was recorded. The methods of `Reader` are given what the informers
  deliver before each lookup.
- Floats are the reals they denote. Every operation is the exact result put through an
  arbitrary rounding function, so float addition is not assumed associative. Only the
  cost bounds assume anything about the rounding: a relative error of at most u between
  the smallest normal and the largest finite number (`Rounding.Rounds`), and that the
  rate and the number of roundings fit between them (`Snapshots.Fits`,
  `History.CostsFit`). Printing a float and reading it back is assumed to give the same
  float, in at most 32 characters.
- The decoder of log lines is any function that refuses text that is not JSON and reads
  back what the printer wrote; `Codec.StrictDecodes` gives one.
- A write may land in part; the file is whatever landed.
- Clock readings, the map iteration order, the outcome of file opens and of marshalling,
  what a select takes, the contents of sockets, missed return probes, failed reservations
  and failed map updates are parameters.

Where the code and its own words disagree, the model follows the code:

- The comment on `NewHistoryStore` says malformed lines are skipped. A line of 2^20 bytes
  or more is not skipped: the scanner stops there and everything after it is dropped
  (`LogFile.Decoded`, `LogFile.ReplayReadsSurvivors`).
- The README of the agent says cumulative totals survive restarts. After a cut write they
  do, except for the cut interval and, once appending resumes, the one after it
  (`LogFile.TornTail`, `LogFile.CutBeforeNewline`); `LogFile.AppendsSurviveIff` says
  exactly when nothing is lost. `since` survives exactly in the case
  `History.RestartRefines` states.
- "Nothing is inferred or guessed" is not true of the code in every interleaving.
  `Billing.BillingExact` says exactly when it is: a row end that is not a pod has a zone
  if and only if some event of the row found a pod at that address by the zone lookup
  that the name lookup had not found; any end's zone was found for the pod the end is
  named after if and only if, in an event that found it, both lookups found the same
  pod. `Billing.LateArrivalsBilled` is a run that bills traffic between two raw addresses.
- The pod cache is exact only under the conditions of `Informer.PodMapAgrees`, which are
  necessary as well as sufficient.

## Model

| member | source | states |
|---|---|---|
| Pipeline.Conservation | pkg/adapters/ebpf/stats.go:188-210 | over every interleaving, from any first file, cumulative history bytes plus the snapshot in flight plus the live table plus what restarts dropped plus the intervals of torn writes equal the replayed base plus every decoded send, mod 2^64; only runs that restart ask anything of the first file, which may itself be torn, and any write may be cut; without a restart nothing is dropped or torn |
| Pipeline.SentAccounted | pkg/adapters/ebpf/stats.go:88-95 | in every reachable state every byte of a decoded send is in a record written, in flight, in the table or dropped by a restart, and in one of them only, mod 2^64 |
| Pipeline.TotalsAreSurvivors | pkg/adapters/ebpf/history.go:59-125 | over any run with any number of crashes, each cutting a write anywhere, the totals are the fold of the survivors of the writes before the last start and of everything recorded since, and the next restart makes them the fold of the survivors of all writes |
| Pipeline.TotalsSurviveRestarts | pkg/adapters/ebpf/history.go:59-125 | when every line lands on an intact file, over any number of restarts totals, cost and ring are the fold of the first file and of everything recorded since, and no recorded byte is lost |
| Accounts.HistoryIsSnapshots | pkg/adapters/ebpf/history.go:100-125 | in every reachable state the totals are what was read back plus the snapshots recorded since: bytes and cross-AZ bytes added mod 2^64, costs by float addition in order; each of the last 360 is in the ring with its own time, bytes, cross-AZ bytes, cost, execs and flow count |
| Accounts.HistorySinceStart | pkg/adapters/ebpf/history.go:100-125 | without a restart the base of those sums is the history the agent started with |
| Accounts.CrossConservation | pkg/adapters/ebpf/stats.go:188-210 | over every interleaving cumulative cross-AZ bytes plus those in flight, dropped by restarts and in torn writes equal the replayed base plus the cross-AZ bytes of every table taken, mod 2^64 |
| Accounts.RunExecs | pkg/adapters/ebpf/stats.go:54-58 | in every reachable state the exec counter is the number of samples of type 0 since the last reset, and each snapshot has that of its own interval, mod 2^64 |
| Pipeline.RingBounded | pkg/adapters/ebpf/history.go:121-124 | in every reachable state the ring is exactly the last min(360, n) intervals read back and recorded |
| Pipeline.ViewSkew | pkg/adapters/ebpf/stats.go:196-207 | in every reachable state the published snapshot is behind the ring by exactly the snapshots that failed to marshal since the last one that did not, less one between publish and record; with none of either both show the same interval |
| Pipeline.ReporterStep | pkg/adapters/ebpf/stats.go:192-207 | every step keeps the reporter's position, the published snapshot and the recorded count in agreement, also when a snapshot fails to marshal |
| Pipeline.StoppedForGood | pkg/adapters/ebpf/stats.go:192-195 | once the reporter sees the stop event, nothing more is taken, published, recorded or written until a restart |
| Pipeline.StopStaysSet | pkg/adapters/ebpf/stats.go:192-195 | once set the stop event stays set until a restart, and a reporter that waits and takes it is done |
| Pipeline.ResetBalanced | pkg/adapters/ebpf/stats.go:123-174 | taking a snapshot moves the table's bytes into it and loses none |
| Pipeline.RecordBalanced | pkg/adapters/ebpf/history.go:117-119 | recording moves the snapshot's bytes into the record written, once |
| Pipeline.SampleBalanced | pkg/adapters/ebpf/reader.go:132-137 | a sample adds its sent bytes to the account, and only a send does |
| Pipeline.RestartBalanced | pkg/adapters/ebpf/history.go:63-83 | a restart loses the table and the in-flight snapshot from the account of what was sent, and nothing else |
| Billing.BillingExact | pkg/adapters/ebpf/reader.go:65-88 | in every reachable state, for each row: an end that is not a pod has a zone iff some event of the row had its address absent at the name lookup and a pod's on a node of known zone at the zone lookups; an end's zone was found for the pod it is named after iff an event that found it had both lookups agree on the pod; the row is cross-AZ iff the last zoned events of its ends had different zones |
| Billing.StrangersCross | pkg/adapters/ebpf/stats.go:31-33 | a row between two ends that are not pods is cross-AZ iff the last zoned events of its ends both found late pods, in different zones |
| Billing.BillingSafe | pkg/adapters/ebpf/reader.go:65-88 | in every reachable state with undisturbed resolutions, a zone on an end of a row means that end is a pod and the zone was found for that pod at some event of the row; service and raw ends are never cross-AZ and cost 0 |
| Billing.SnapshotsBilled | pkg/adapters/ebpf/stats.go:133-171 | cumulative cost is the replayed cost and the costs of the recorded snapshots; every snapshot costs what its listed flows cost; each listed flow is billed exactly as its interval's events say, and one that costs anything has, if they were resolved undisturbed, a pod and that pod's zone on both ends |
| Billing.RowsLogged | pkg/adapters/ebpf/stats.go:64-95 | the rows are those of the events since the last reset, and events under one key have the same two endpoints |
| Billing.LateArrivalsBilled | pkg/adapters/ebpf/reader.go:125-128 | a run from any start, in which two pods arrive between the name and zone lookups of one send, has a cross-AZ row between two raw addresses |
| Attribution.UnlabelledFree | pkg/adapters/k8s/informer.go:16-24 | in every reachable state, after orderly deliveries, an end whose addresses only ever belonged to pods on nodes with neither zone label has no zone, and its row is not cross-AZ and costs nothing, however deliveries fall between lookups |
| Attribution.RunCaches | pkg/adapters/k8s/cache.go:36-91 | every cache a lookup sees is the fold of the deliveries made by then, and the lookups of one event see growing prefixes |
| Billing.ZoneFound | pkg/adapters/ebpf/reader.go:75-88 | an event carries a zone on an end exactly when the lookups found a pod at its address on a cached node of that zone, not "" or "unknown" |
| Billing.RowZoneIs | pkg/adapters/ebpf/stats.go:64-77 | a row's zone on an end is that of the last event of the row that had one, and empty iff none had |
| Erasure.NoiseErased | pkg/adapters/ebpf/reader.go:100-120 | short samples, RECV events and unknown types anywhere in a run change no snapshot, total, ring or file |
| Erasure.ExecErased | pkg/adapters/ebpf/stats.go:54-58 | deleting EXEC events anywhere changes only the exec counter and its copies, across any number of restarts when every line lands on an intact file |
| Erasure.ErasedFrom | pkg/adapters/ebpf/stats.go:54-58 | the same from any state, for every run whose restarts read back what was counted |
| Billing.RunTable | pkg/adapters/ebpf/stats.go:64-95 | in every reachable state the live table is the fold of the flow events since the last reset, and each snapshot took over the table of its own interval's events |
| FlowTable.TableIsGroupBy | pkg/adapters/ebpf/stats.go:64-95 | each row has its key's connect count and byte sum mod 2^64, the class of its first event, the last nonempty zone on each end and the time of its last event; no other rows exist |
| FlowTable.ApplyCommutes | pkg/adapters/ebpf/stats.go:64-95 | events on different keys commute |
| FlowTable.ApplyAddsBytes | pkg/adapters/ebpf/stats.go:88-95 | one event adds exactly its sent bytes to the sum over the table, mod 2^64 |
| FlowTable.SumRemove | pkg/adapters/ebpf/stats.go:137-145 | the sum over the map does not depend on the order rows are taken in |
| Snapshots.SnapshotTotals | pkg/adapters/ebpf/stats.go:135-168 | whatever the iteration order, totals are the sums over the map mod 2^64, and cross-AZ bytes are at most total bytes when nothing wraps; the time, exec count and price are those given |
| Snapshots.SnapshotFlows | pkg/adapters/ebpf/stats.go:127-157 | the flows show every row once, in non-increasing byte order, cross-AZ exactly when two known zones differ |
| Snapshots.CostErrorBound | pkg/adapters/ebpf/stats.go:35-41 | in a format whose normal range fits the rate and n, the cost of n flows in any order is within (1+u)^(n+3) - 1 of rate * CrossAZBytes / 10^9, relatively |
| Snapshots.FlowCostNear | pkg/adapters/ebpf/stats.go:35-41 | one flow's cost is the exact price after at most three roundings |
| Rounding.NearError | pkg/adapters/ebpf/stats.go:131-145 | a value after at most n roundings has relative error at most (1+u)^n - 1 |
| Stats.Aggregator.GetOrCreate | pkg/adapters/ebpf/stats.go:64-77 | finds or adds the key's cell, keeps sticky zones, changes no other row |
| Stats.Aggregator.RecordTCP | pkg/adapters/ebpf/stats.go:79-86 | one connect event applied to the table |
| Stats.Aggregator.RecordBytes | pkg/adapters/ebpf/stats.go:88-95 | one send event applied to the table |
| Stats.Aggregator.RecordExec | pkg/adapters/ebpf/stats.go:54-58 | counts one exec and leaves the table alone |
| Stats.Aggregator.SnapshotAndReset | pkg/adapters/ebpf/stats.go:123-174 | returns the interval of the table for some byte-ordered listing of its keys, and empties the table and the exec counter |
| Stats.Aggregator.Tick | pkg/adapters/ebpf/stats.go:196-207 | an undisturbed tick resets, publishes if the snapshot marshals, and hands the same interval to history and its file either way |
| Refinement.TickIsRun | pkg/adapters/ebpf/stats.go:196-207 | an undisturbed tick is the machine's reset, publish and record in a row |
| Stats.Aggregator.StartReporter | pkg/adapters/ebpf/stats.go:188-210 | the loop takes one snapshot per tick its select takes and stops at the first stop event taken, shows the last snapshot that marshalled, and history absorbs them all in order |
| Stats.ShownIsLast | pkg/adapters/ebpf/stats.go:197-204 | what is shown is the snapshot of the last tick that marshalled, or what was shown before |
| Stats.Aggregator.LatestJSON | pkg/adapters/ebpf/stats.go:176-183 | the last published snapshot, or the empty one before the first |
| Stats.SortKeys | pkg/adapters/ebpf/stats.go:131-133 | an ordering of the keys by bytes, each key once |
| FlowKey.KeyInjective | pkg/adapters/ebpf/stats.go:60-62 | distinct endpoints and ports never share a flow key |
| FlowKey.KeySplits | pkg/adapters/exporter/web_server.go:243-246 | a key is source, arrow, destination, colon and port, and splitting it on its arrow gives back exactly its two sides |
| FlowKey.NameParses | pkg/adapters/ebpf/reader.go:65-73 | names of pods, services and addresses can be told apart and read back |
| FlowKey.DottedParses | pkg/adapters/ebpf/reader.go:122-123 | a printed address parses to the same four octets |
| FlowKey.DottedOctets | pkg/adapters/ebpf/reader.go:122-123 | the printed address is the four octets in order with dots between |
| Text.DecIsDecimal | pkg/adapters/ebpf/stats.go:60-62 | numbers are printed in decimal, digit by digit |
| Json.RunQuoted | pkg/adapters/ebpf/history.go:68 | a quoted plain string is one finished value to the syntax check |
| Codec.RunObject | pkg/adapters/ebpf/history.go:68 | a printed line is accepted wherever a value may start and leaves what encloses it alone |
| Codec.RoundTrip | pkg/adapters/ebpf/history.go:15-22 | the strict reader gives back the interval that was printed |
| Codec.MarshalText | pkg/adapters/ebpf/history.go:15-22 | the line is the JSON object of the six tagged fields in order |
| Codec.StrictDecodes | pkg/adapters/ebpf/history.go:68 | the strict reader meets what replay relies on |
| Codec.GluedStaysUnfinished | pkg/adapters/ebpf/history.go:68-70 | text that is not finished stays unfinished whatever line or part of a line is glued to it |
| Codec.ProperPartUnfinished | pkg/adapters/ebpf/history.go:68-70 | a nonempty proper part of a line is not JSON |
| Codec.WholeThenMore | pkg/adapters/ebpf/history.go:68-70 | a line with more of another line after it is not JSON |
| Codec.LineLength | pkg/adapters/ebpf/history.go:65 | a line of the reporter is far below the scanner's limit |
| LogFile.ReplayReadsSurvivors | pkg/adapters/ebpf/history.go:63-83 | after any writes, each cut anywhere, replay reads exactly the intervals the reference tally says survive |
| LogFile.ReplayConcat | pkg/adapters/ebpf/history.go:64-81 | a closed part of the file without an overlong line is read apart from what follows |
| LogFile.ReplayLine | pkg/adapters/ebpf/history.go:66-70 | a line yields what its text decodes to, with or without a return and, at the end, a newline; malformed lines yield nothing |
| LogFile.ReplayStops | pkg/adapters/ebpf/history.go:64-66 | a line of 2^20 characters or more ends the replay |
| LogFile.SurviveOrGone | pkg/adapters/ebpf/history.go:63-83 | each record that survived before or was written since survives now or is gone, exactly once; a write takes away at most its own record and the one pending at the open end |
| LogFile.TornTail | pkg/adapters/ebpf/history.go:113-115 | a cut inside a line restores the state before that record; later appends lose exactly the first of them |
| LogFile.CutBeforeNewline | pkg/adapters/ebpf/history.go:113-115 | a cut just before the newline is counted once, then lost together with its successor |
| LogFile.AppendsSurviveIff | pkg/adapters/ebpf/history.go:85 | on any file the program left behind, appended intervals are all read back if and only if the file ends in a newline and no line is too long |
| LogFile.ReplayFull | pkg/adapters/ebpf/history.go:63-83 | a log whose writes all land is read back in full |
| History.RestartRefines | pkg/adapters/ebpf/history.go:59-125 | a restart yields the same byte totals, cost and ring as running on; `since` agrees exactly when the file held a stamp at the first start or the stamps coincide |
| History.RestartCountsSurvivors | pkg/adapters/ebpf/history.go:63-83 | after cut writes a restart counts exactly the surviving intervals |
| History.OpenedSince | pkg/adapters/ebpf/history.go:71-95 | `since` is the first time stamp read back, or the time of the start if there is none |
| History.RingIsLastOnes | pkg/adapters/ebpf/history.go:121-124 | the ring is the last min(360, n) of what was counted |
| History.IntervalSums | pkg/adapters/ebpf/history.go:117-118 | the byte totals are the sums over all intervals, mod 2^64 |
| History.CumulativeCostBound | pkg/adapters/ebpf/history.go:119 | in a format whose normal range fits the costs, the cumulative cost of n intervals is within (1+u)^n - 1 of their sum, relatively |
| History.HistoryStore.NewHistoryStore | pkg/adapters/ebpf/history.go:59-96 | fails exactly when the file cannot be opened for append; otherwise holds the fold of the replayed intervals |
| History.HistoryStore.Scan | pkg/adapters/ebpf/history.go:66-81 | the replay loop folds the decoded lines in order |
| History.HistoryStore.Record | pkg/adapters/ebpf/history.go:100-125 | adds the snapshot's bytes, cross-AZ bytes and cost to the totals, appends its six figures to the ring, and writes their line as far as it lands, counting the interval either way |
| History.HistoryStore.HistoryJSON | pkg/adapters/ebpf/history.go:127-144 | a copy of the totals and the ring, or the error when encoding fails |
| Cache.Store.SetPod | pkg/adapters/k8s/cache.go:36-40 | changes one pod entry and nothing else |
| Cache.Store.DeletePod | pkg/adapters/k8s/cache.go:42-46 | removes one pod entry and nothing else |
| Cache.Store.LookupPod | pkg/adapters/k8s/cache.go:48-53 | the entry, if present |
| Cache.Store.SetService | pkg/adapters/k8s/cache.go:55-59 | changes one service entry and nothing else |
| Cache.Store.DeleteService | pkg/adapters/k8s/cache.go:61-65 | removes one service entry and nothing else |
| Cache.Store.LookupService | pkg/adapters/k8s/cache.go:67-72 | the entry, if present |
| Cache.Store.SetNode | pkg/adapters/k8s/cache.go:74-78 | changes one node entry and nothing else |
| Cache.Store.DeleteNode | pkg/adapters/k8s/cache.go:80-84 | removes one node entry and nothing else |
| Cache.Store.LookupNode | pkg/adapters/k8s/cache.go:86-91 | the entry, if present |
| Informer.StorePod | pkg/adapters/k8s/informer.go:45-60 | a pod with an IP is stored under it with its name, namespace and node; nothing else changes |
| Informer.StoreService | pkg/adapters/k8s/informer.go:79-97 | a service with a cluster IP other than "None" is stored under it; nothing else changes |
| Informer.StoreNode | pkg/adapters/k8s/informer.go:112-130 | a node is stored with its zone label, the old label if there is no new one, or "unknown"; nothing else changes |
| Informer.Deliver | pkg/adapters/k8s/informer.go:44-141 | each of the nine handlers has its effect on the cache; a tombstone has none |
| Informer.PodMapAgrees | pkg/adapters/k8s/informer.go:45-77 | the pod map is the IP index of live pods at every point if and only if live IPs stayed distinct, no IP changed or was cleared once set, deletes named the pod's IP, and no tombstone stood for a pod with an IP |
| Informer.ServiceMapAgrees | pkg/adapters/k8s/informer.go:79-110 | the same for services and cluster IPs, headless services owning none |
| Informer.NodeMapAgrees | pkg/adapters/k8s/informer.go:112-141 | the node map gives each live node its latest zone at every point if and only if no tombstone stood for a live node |
| Informer.CacheIsIndex | pkg/adapters/k8s/informer.go:44-110 | over every run the pod and service maps are the address indexes of the deliveries |
| AddressIndex.StepAgrees | pkg/adapters/k8s/informer.go:44-110 | a delivery keeps the index right if and only if it is faithful |
| AddressIndex.RunAgreesExactly | pkg/adapters/k8s/informer.go:44-110 | the index is right at every point of a run if and only if live addresses stay distinct and every delivery is faithful |
| AddressIndex.RunAgrees | pkg/adapters/k8s/informer.go:44-110 | with distinct addresses, the index is right at every point if and only if every delivery is faithful |
| Wire.LaidPacked | bpf/headers/events.h:11-23 | C alignment leaves no gap between the members of the event struct |
| Wire.SampleRoundTrip | pkg/adapters/ebpf/reader.go:21-31 | the packed little-endian decode inverts the 48-byte C struct for all field values and any padding |
| Wire.OctetsInMemoryOrder | pkg/adapters/ebpf/reader.go:122-123 | the printed octets are the address bytes in network order |
| Wire.PortBigEndian | pkg/adapters/ebpf/reader.go:33-35 | the swapped port is the big-endian reading of its two bytes |
| Wire.ClassExact | pkg/adapters/ebpf/reader.go:37-63 | a decoded address is internal exactly in the private and loopback ranges, and never unknown |
| Reader.SampleBecomesFlow | pkg/adapters/ebpf/reader.go:100-137 | from the bytes the probe wrote to the recorded flow: each end named and zoned by its own address, port in network order, class of the destination |
| Reader.SampleDispatch | pkg/adapters/ebpf/reader.go:100-120 | a sample of type 0 counts an exec, 1 and 2 become flows, 3 and anything else leave no trace |
| Reader.RawDispatch | pkg/adapters/ebpf/reader.go:100-112 | the same read off the 41st byte of a sample of at least 48 |
| Resolution.LivePodResolved | pkg/adapters/ebpf/reader.go:65-88 | after faithful deliveries with distinct pod IPs and no missed delete of a live node, a live pod's address is named after that pod and has the zone label of that pod's live node, the old label if there is no new one, and none if there is neither or it is "unknown" |
| Resolution.LiveServiceResolved | pkg/adapters/ebpf/reader.go:65-73 | after faithful deliveries a live service's cluster IP is named after that service unless a pod has the address, and has no zone |
| Resolution.UnknownAddress | pkg/adapters/ebpf/reader.go:65-88 | an address of no live pod or service is reported as it is, without a zone |
| Resolution.NeverKept | pkg/adapters/k8s/informer.go:83-96 | whatever is delivered, no pod is stored without an address and no headless service at all |
| Resolution.ZoneIsLabel | pkg/adapters/ebpf/reader.go:75-88 | a zone found, the pod at one moment and its node at a later one, means that node had a zone label |
| Reader.ResolveName | pkg/adapters/ebpf/reader.go:65-73 | pod name, else service name, else the address, each lookup seeing what was delivered before it |
| Reader.ResolveZone | pkg/adapters/ebpf/reader.go:75-88 | the zone of the pod's node, or empty, each lookup seeing what was delivered before it |
| Reader.HandleSample | pkg/adapters/ebpf/reader.go:100-137 | one sample has its dispatched effect on the aggregator, whatever the informers deliver between its lookups, and counts one exec exactly if its type byte is 0 |
| Reader.ReadEvents | pkg/adapters/ebpf/reader.go:90-139 | the loop folds the samples and deliveries in order, counts the samples of type 0 as execs, and ends without error exactly when the ring was closed |
| Refinement.ReaderIsRun | pkg/adapters/ebpf/reader.go:90-139 | whatever the loop leaves in the aggregator and the cache, some run of the machine leaves |
| Refinement.ArrivalIsRun | pkg/adapters/ebpf/reader.go:100-137 | one sample with the deliveries between its lookups is the run of those deliveries and the sample that sees the caches they left |
| Tracer.EventsPaired | bpf/tracer.bpf.c:58-101 | in every interleaving, with full maps, missed returns and drops, an event carries the process and socket of its own call; a connect's call returned 0, a receive's a positive count, which is its bytes; no call makes two |
| Tracer.CallRecorded | bpf/tracer.bpf.c:58-101 | undisturbed, with room in its map and the ring, a call that succeeds makes one event with its own socket, one that fails makes none, and its key is gone |
| EndToEnd.CallBecomesFlow | bpf/tracer.bpf.c:84-101 | in every interleaving the sample of a connect becomes a flow from the source to the destination of the socket of a call that returned 0; that of a receive becomes nothing |
| EndToEnd.SendBecomesFlow | bpf/tracer.bpf.c:108-130 | a send becomes a flow named and zoned by its socket's addresses in their order, with the destination's port and class and the bytes asked for |
| Tracer.KeysAccounted | bpf/tracer.bpf.c:16-30 | every map key belongs to a thread inside the call or one whose return probe was missed; the maps stay within capacity |
| Tracer.StepInv | bpf/tracer.bpf.c:58-180 | every helper call of every probe keeps the pairing invariant |
| Tracer.ExitUndisturbed | bpf/tracer.bpf.c:146-180 | undisturbed, the helper calls of an exit probe have the effect that both exit programs are proved to have |
| Tracer.StaleSocket | bpf/tracer.bpf.c:62 | were updating a present key to fail, a stale key would lend its socket to a later call |
| Tracer.Programs.HandleConnectEntry | bpf/tracer.bpf.c:58-64 | if its key is there or the map has fewer than 10240 keys stores the socket under it and keeps the rest; else changes nothing |
| Tracer.Programs.HandleConnectExit | bpf/tracer.bpf.c:67-101 | clears the key; if the call succeeded and the ring has room, emits one CONNECT event with the addresses and ports of the stored socket |
| Tracer.Programs.HandleSend | bpf/tracer.bpf.c:108-130 | emits a SEND event with the socket's addresses and ports and the requested size if the ring has room |
| Tracer.Programs.HandleExec | bpf/tracer.bpf.c:33-55 | emits an EXEC event with zero addresses, ports and bytes if the ring has room |
| Tracer.Programs.HandleRecvEntry | bpf/tracer.bpf.c:137-143 | if its key is there or the map has fewer than 10240 keys stores the socket under it and keeps the rest; else changes nothing |
| Tracer.Programs.HandleRecvExit | bpf/tracer.bpf.c:146-180 | clears the key; if bytes were received and the ring has room, emits a RECV event with the stored socket's addresses and ports and that size |
| Bitfield.ReadBitfield | bpf/headers/bpf_core_read.h:90-115 | the macro as code computes the read function |
| Bitfield.LoadValue | bpf/headers/bpf_core_read.h:90-115 | a unit's value is its bytes as a number in the machine's byte order |
| Bitfield.WriteBitfield | bpf/headers/bpf_core_read.h:121-147 | the macro as code changes memory exactly as the write function says |
| Bitfield.ReadBit | bpf/headers/bpf_core_read.h:90-115 | a read fetches the field's own bits of memory, then zero or sign extends |
| Bitfield.WrittenField | bpf/headers/bpf_core_read.h:121-147 | a write puts the value's low bits into the field's own bits |
| Bitfield.WrittenElsewhere | bpf/headers/bpf_core_read.h:121-147 | a write changes no other bit of memory |
| Bitfield.ReadAfterWrite | bpf/headers/bpf_core_read.h:90-147 | read after write is the value truncated to 64-rshift bits, sign-extended if signed |
| Bitfield.TruncateValue | bpf/headers/bpf_core_read.h:109-113 | that truncation is the value modulo 2^width, or its two's complement reading |
| Bitfield.WriteBack | bpf/headers/bpf_core_read.h:90-147 | writing back what was read changes nothing |
| Bitfield.WriteTwice | bpf/headers/bpf_core_read.h:121-147 | the last write wins |
| Bitfield.WriteLeavesOthers | bpf/headers/bpf_core_read.h:90-147 | a write never changes the read of a bit-disjoint field, even in overlapping units of other offsets or sizes |
| Bitfield.ProbedIsDirect | bpf/headers/bpf_core_read.h:46-82 | the probed read equals the direct read for every memory, size, sign and byte order |
| Bitfield.ProbedFault | bpf/headers/bpf_core_read.h:72-82 | after a fault a field reads as zero |
| PointerChase.CoreReadRuns | bpf/headers/bpf_core_read.h:399-426 | the expansion makes one read per accessor, left to right, each from the address fetched before |
| PointerChase.CoreReadMeansArrow | bpf/headers/bpf_core_read.h:501-529 | the result is src->a->b->... when every link is readable, and zero otherwise as long as the null page cannot be read |
| PointerChase.RdPRuns | bpf/headers/bpf_core_read.h:402-416 | the recursive pointer reads leave the temporary at the end of their path |
| PointerChase.ChaseSnoc | bpf/headers/bpf_core_read.h:379-396 | following a path from the front is following its last link last |

## Left out

- General JSON decoding: only syntax is modelled in full; what a conforming decoder makes of valid JSON that is not a printed line is left to the decoder.
- NaN, infinities and subnormals: the rate and all costs are finite; parsing the rate from the environment is not modelled.
- HTTP serving, the terminal display, the dashboard script other than its split, process wiring and signals.
- The Kubernetes client, the ring-buffer library, the file system beyond append and cut, and the eBPF loader.
- Changes to a live `struct sock` while it is read: the programs of `Tracer` read its addresses and ports as one value; `PointerChase` says what the read macros fetch.
- Real time: when ticks fall is left to the runs of `Pipeline` and the inputs of `Stats.Aggregator.StartReporter`.
- Stats.Aggregator.LatestJSON: returns the snapshot, not its JSON text.
- History.HistoryStore.HistoryJSON: returns the summary, not its JSON text.
- Erasure.ExecErased: says nothing about the text of the file, which repeats the exec counts, nor about restarts after cut writes, where a longer count moves the cut.
- PointerChase.CoreReadMeansArrow: the nine-accessor limit of the macros is not modelled; the result holds for every length.
- Agreement of counted bytes with bytes on the wire or with a cloud bill: the requested size is what the code counts.
