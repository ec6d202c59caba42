# Client Access verification model

A Dafny model of the Client Access controller: the packet program and its table publication, the control plane that
plans generations and survives failures, the revocation of accelerated flows, evidence fusion and policy compilation,
and the schedules and approvals that feed it. `dafny verify dfyconfig.toml` checks everything.

## What is modelled

The parts are layered, and the guarantees one layer assumes are proved by the layer above it.

* **Datapath.** `Datapath` is the packet program and the publisher as one interleaved machine: any number of CPUs,
  every map access one step, the inactive slot rebuilt key by key. `DatapathSafety` proves slot isolation, coherence of
  the verdict cache, that every mark is justified, the exact reservation count and progress over every run. It assumes
  the grace period (`GraceElapsed`) and that a policy generation never changes its meaning (`KeepsMeaning`).
  `Discipline` discharges the second for every run whose publications are those of a monotone log. `DatapathOverlap` and
  `OverlapWitness` say what a packet is marked with when others touch its record meanwhile. `Backend` is the same program
  for one undisturbed packet and the publisher as imperative code over one object, with the full outcome of a packet in
  its contract; `SoloRun` proves that this is what the machine does when nothing interferes, in both directions.
  `PendingCounter` and `RateWindow` are the two lock-free packed counters under any interleaving; `Admission` runs the
  first inside the interleaved machine, `SubjectWindows` the windows of all subjects with their creation and clearing.
  `PacketParse` and `Prefix` are the header parser and the in-place masking of prefixes.
* **Control plane.** `Kernel` wraps the maps, the TC attachments (`Attachments`) and the nftables scope as the
  command-line tools expose them, each call failing at will, and keeps logs of publications. `ApplicationPlane` plans
  generations and reconciles, `Acceleration` keeps the offload state and revokes, `Authorization` plans and commits
  transitions, and `Controller` runs whole attempts, restarts, lost maps and outside interference. That a generation
  never changes its meaning is a precondition of every publication here and proved of every attempt;
  `EndToEnd.DaemonKeepsDiscipline` hands the daemon's log to the interleaved machine.
* **Revocation helper.** `FlowIndex` is the chained hash index against a plain test of all candidates; `Revocation` the
  conntrack scan, the bounded verify-and-delete loop and the garbage collection.
* **Classification and policy.** `ClassGraph`, `Fusion` and `Observations` are evidence fusion over the category tree;
  `AppPolicy` flattens hierarchical rules; `Tables` looks the result up; `EndToEnd` joins rules, publication and mark.
  `SnapshotText` and `SnapshotRoundTrip` are the text format between the two sides, on top of `Scanner`.
* **Time, approvals, access.** `Schedule`, `Lease`, `LeaseProperties` and `AccessPlane`.

`Common`, `Text`, `Decimal`, `Sorting`, `Hints` and `PackedWord` hold what several parts share.

## What the model found

* The datapath's merge of a prefix hint and a port hint knows only the recorded category of a class. It never
  contradicts the controller's fusion, but gives up on some pairs the controller fuses;
  `Tables.DatapathMergeAgainstFusion` says exactly which, `Tables.DatapathGivesUpEarly` is one.
* A cached verdict is checked and read in two accesses. A packet whose record another packet refreshes in between gets
  the verdict of the last writer's generation (`DatapathOverlap.MarkFollowsLastWriter`), which is its own snapshot's
  exactly when the two agree on the flow. `OverlapWitness.OverlappingRefreshShows` is a run in which they do not: a
  newer packet refreshes after a publication. Publishing nothing from capture to mark is not enough either: in
  `OverlapWitness.OlderPacketShows` a packet of the older generation is still inside. What is enough is that no packet
  of another generation refreshes the record in between (`DatapathOverlap.UndisturbedMark`), for which it is enough that
  all packets inside are of one generation and nothing is published (`DatapathOverlap.QuietMark`).
* The numbering of generations begins again exactly when neither the maps nor the daemon hold the last ones: at a
  restart over maps without a publication, or when the pins are lost before a restarted daemon has read them.
  `Controller.RestartOverLostPins` is a run that publishes and enforces two policies under generation 1;
  `ApplicationPlane.Application.NumberingContinues` is the exact condition.
* The rate window follows any change of the clock's second. The bound can be relied on exactly when no take returns to
  a second whose window was left before (`RateWindow.BoundExact`), which a clock that never runs behind the window
  ensures; `RateWindow.StaleClockBreaksBound` is a run without one.
* A created lease survives the next refresh only while its stored numbers fit 32 bits;
  `LeaseProperties.CreatedLeaseSurvives` is the exact condition.
* An authorization key without a committed entry plans no transition, so a new identity that starts out denied is
  published without a revocation (`Authorization.NewKeyPlansNothing`).
* An application action that was not asked to enforce is recorded as succeeded even when neutralizing failed: a
  recorded success is one exactly for actions asked to enforce (`Controller.SuccessIsTruthful`). `Attempt` therefore
  states the truth of success for those, and for the others that of the outcome commit uses.

## Assumptions

* The 50 ms wait before the inactive slot is cleared outlasts every packet that captured it.
* There is one publisher, and a publication that is reported as failed did not replace the config record.
* The generation floors are readable whenever the pinned maps exist, and the pins appear and disappear together.
* Verdict and generation of a flow record change in one atomic step.
* A deleted or replaced flow record, and a cleared rate window, stays readable for the packets that found it, and its
  memory is not used for another one meanwhile.
* A backend run that reports COMPLETE has evicted the flows it was asked about; `Revocation` proves that the helper
  reports it only when its last conntrack dump shows none.
* Fewer than 2^32 publications, and fewer than 2^32 approvals.

## Model

| member | source | states |
|---|---|---|
| DatapathSafety.SlotIsolation | src/bpf-snapshot.c:405-479 | in every run with the grace period respected, each packet in flight reads from a slot that is still exactly the table released with the config record it copied |
| DatapathSafety.UnpublishedSyncIsInvisible | src/bpf-snapshot.c:415-484 | every publisher step short of publishing, and every failure before it, leaves the config record, the active slot and the releases as they were |
| DatapathSafety.ReleaseIsTheSnapshot | src/bpf-snapshot.c:430-479 | a publication flips the slot and releases exactly the entries of the snapshot it was given |
| DatapathSafety.VerdictCacheCoherent | src/client-access-bpf.c:562-583 | in every reachable state each classified flow record holds the verdict that its generation's policies give for its subject and class |
| DatapathSafety.EveryMarkJustified | src/client-access-bpf.c:657-784 | every mark is the captured record's unknown or optimistic verdict, a lookup in the captured table, or a coherent cached verdict, and a cached verdict of the captured generation equals the uncached lookup |
| DatapathSafety.CachedMarkIsUncachedLookup | src/client-access-bpf.c:706-728 | between two publications every cached mark equals an uncached lookup in the captured table, for any interleaving |
| DatapathOverlap.MarkFollowsLastWriter | src/client-access-bpf.c:718-726 | whatever happens between a packet's check of a record and its re-read, it emits one mark with the verdict of the record's last writer, which is its own snapshot's exactly when both generations agree on the flow |
| DatapathOverlap.CachedMarkExact | src/client-access-bpf.c:718-726 | over every run a mark from a record is the packet's own snapshot's verdict exactly when the record's generation gives the flow that verdict |
| DatapathOverlap.UndisturbedMark | src/client-access-bpf.c:718-726 | if no packet of another generation refreshes the record in between, the mark is the uncached lookup in the packet's own snapshot, across any publications |
| DatapathOverlap.QuietMark | src/client-access-bpf.c:718-726 | with packets of one generation inside and nothing published, every mark from a record is that of the packet's own snapshot |
| DatapathOverlap.RecordFollowsLastWriter | src/client-access-bpf.c:718-724 | a record's generation is that of the last packet that refreshed it, and its subject and class never change |
| DatapathOverlap.CheckIsOwn | src/client-access-bpf.c:718-724 | when a packet goes on to re-read a record, the record is of the packet's own generation |
| OverlapWitness.OverlappingRefreshShows | src/client-access-bpf.c:718-726 | a concrete disciplined run with a publication in which a packet is marked with another snapshot's verdict |
| OverlapWitness.OlderPacketShows | src/client-access-bpf.c:718-726 | a concrete disciplined run in which that happens although nothing is published from the packet's capture to its mark |
| SoloRun.UndisturbedIsIngress | src/client-access-bpf.c:635-785 | from every reachable state a packet without interference emits the mark and leaves the flow table that the sequential program promises, and nothing else changes |
| SoloRun.IngressIsUndisturbed | src/client-access-bpf.c:635-785 | every mark and flow table the sequential program may produce is that of some such run |
| SoloRun.RunKeepsUnshared | src/client-access-bpf.c:531-583 | in every run no two flows share a record |
| Discipline.LoggedRunIsDisciplined | root/usr/share/ucode/client_access/reconcile.uc:26-46 | a run that waits out the grace period and publishes a monotone log never changes what a generation means |
| Discipline.RecordsFollowTheLog | src/client-access-bpf.c:562-583 | every classified record then holds the verdict some publication of its generation gives for its subject and class |
| Discipline.MarksFollowTheLog | src/client-access-bpf.c:718-726 | and so does every mark from a record |
| DatapathSafety.ReservationsExact | src/client-access-bpf.c:749-781 | the pending count is the number of packets holding a reservation, and zero when no packet is inside |
| Admission.PendingIsReserved | src/client-access-bpf.c:495-529 | with the reservation loop of every packet run step by step inside the machine, the low half of the packed word is the number of packets inside that hold a reservation and never exceeds the limit |
| Admission.RunKeepsCoupled | src/client-access-bpf.c:749-781 | a packet holds a reservation exactly when its CPU holds the counter, in every run |
| Admission.DataIsARun | src/client-access-bpf.c:495-529 | such a run makes the machine's own steps, with the loop's outcome as the admission test |
| Admission.CounterIsARun | src/client-access-bpf.c:495-529 | and the counter's own steps |
| DatapathSafety.EveryStepProgresses | src/client-access-bpf.c:635-785 | each step of a packet lowers a rank of at most thirty whatever the others do, so every packet leaves |
| DatapathSafety.RunKeepsInv | src/client-access-bpf.c:635-785 | the whole invariant (isolation, coherence, justified marks, exact reservations) holds in every run |
| DatapathSafety.StepKeepsInv | src/client-access-bpf.c:635-785 | each single step of a packet or of the publisher keeps the invariant |
| DatapathSafety.MoveAllowed | src/client-access-bpf.c:635-785 | one packet step changes the shared state only by coherent inserts, coherent refreshes, removals, and one justified mark, and keeps the reservation count |
| DatapathSafety.PublishKeepsInv | src/bpf-snapshot.c:468-479 | publishing keeps the invariant and only extends history when a generation keeps its meaning |
| DatapathSafety.SyncKeepsInv | src/bpf-snapshot.c:422-467 | clearing, filling, aborting, disabling and expiring keep the invariant and stay aside of what packets see |
| DatapathSafety.SettledRun | src/client-access-bpf.c:706-728 | while one generation is in flight only that generation is written and emitted |
| Tables.VerdictDependsOnPolicies | src/client-access-bpf.c:217-231 | the datapath's verdict lookup depends on the policy entries alone |
| Tables.LongestPrefixIsLongest | src/client-access-bpf.c:408-424 | the trie lookup answers with the hint of the longest stored prefix of the address, and with none only if none is stored |
| Tables.DatapathMergeAgainstFusion | src/client-access-bpf.c:373-399 | the datapath's merge never settles on anything but the controller's fusion, and gives up early exactly when one hint is a category above the other that the other does not record |
| Tables.DatapathGivesUpEarly | src/client-access-bpf.c:391-398 | a concrete class tree where the controller fuses two hints and the datapath reports a conflict |
| PendingCounter.CounterExact | src/client-access-bpf.c:495-529 | for any CPUs and interleaving the low half is the number of holders and never exceeds the limit, and the high half is the observed maximum |
| PendingCounter.PeakIsReached | src/client-access-bpf.c:510-516 | the recorded peak is reached by some prefix of the run and exceeded by none |
| PendingCounter.ReleaseKeepsInv | src/client-access-bpf.c:522-529 | a holder's subtraction is exact and never borrows from the peak half |
| PendingCounter.StepKeepsInv | src/client-access-bpf.c:495-529 | every compare-and-swap step keeps the counter exact |
| RateWindow.WindowExact | src/client-access-bpf.c:451-473 | the stored count is the number of takes since the last reset, never exceeds the limit and never carries into the window half |
| RateWindow.RateBound | src/client-access-bpf.c:451-473 | when no take uses a clock behind the stored window, at most `limit` takes succeed in any one second |
| RateWindow.StaleClockBreaksBound | src/client-access-bpf.c:462-468 | a concrete run with a clock that runs behind exceeds the bound |
| RateWindow.BoundExact | src/client-access-bpf.c:451-473 | no take returns to a second whose window was left exactly when the bound holds at every point of the run, however often any idle CPU asks in the current second |
| RateWindow.NoReturnBounds | src/client-access-bpf.c:451-473 | without such a return at most `limit` takes succeed in any one second, even if the clock runs behind |
| RateWindow.ReturnOverdraws | src/client-access-bpf.c:462-468 | after any such return `limit` further attempts overdraw the second |
| RateWindow.NeverBehindNeverReturns | src/client-access-bpf.c:451-473 | a clock that never runs behind the stored window never returns to a second |
| SubjectWindows.WindowIsARateWindow | src/client-access-bpf.c:475-493 | however CPUs look up, create, take from and clear the windows of all subjects, each window by itself is a run of the rate window |
| SubjectWindows.WindowBound | src/client-access-bpf.c:475-493 | each window's count is exact, and without a return at most `limit` takes succeed in it in any one second |
| SubjectWindows.WindowsPerClear | src/bpf-snapshot.c:468-474 | a subject has had at most one window more than its window was cleared |
| SubjectWindows.SubjectRateBound | src/client-access-bpf.c:475-493 | over every run with `k` resets of a subject's window at most `limit * (k + 1)` takes of it succeed in any one second |
| Backend.Maps.Sync | src/bpf-snapshot.c:384-504 | success publishes exactly the snapshot in the other slot, and any failure leaves config and active tables unchanged |
| Backend.Maps.Rebuild | src/bpf-snapshot.c:422-474 | clears and fills only the inactive slot, and resets the subject windows for a new classifier generation |
| Backend.Maps.ClearSlot | src/bpf-snapshot.c:373-382 | empties one slot key by key, or fails, and never touches the other |
| Backend.Maps.FillSlot | src/bpf-snapshot.c:430-467 | fills an empty slot with exactly the entries, refusing a repeated key |
| Backend.Maps.Disable | src/bpf-runtime.c:28-55 | only the enable flag can change |
| Backend.Maps.Ingress | src/client-access-bpf.c:634-785 | one packet between the steps of others: which packets are marked, with which verdict, what happens to its flow record, to no other, and that the pending count returns to its value |
| Backend.Maps.MarkUsable | src/client-access-bpf.c:718-726 | a packet whose flow has a usable record is marked with the active table's verdict for the flow's class |
| Backend.Maps.EnforceFlow | src/client-access-bpf.c:706-784 | a usable record gives the active table's verdict and is refreshed, a pending one the optimistic verdict, any other is classified anew |
| Backend.Maps.ClassifyFlow | src/client-access-bpf.c:749-784 | admission, reservation and classification leave the pending count as it was and end admitted or shed |
| Backend.Maps.ClassifyReserved | src/client-access-bpf.c:753-784 | after a reservation exactly one release happens on every path |
| Backend.Maps.TryTerminal | src/client-access-bpf.c:562-583 | an admitted flow is always terminal and gets its class's verdict from the active table |
| Backend.Maps.BudgetExhausted | src/client-access-bpf.c:551-560 | one examined packet exhausts the budget under every configuration |
| Backend.Maps.LoadShed | src/client-access-bpf.c:585-632 | the unclassified verdict with at most one new record, or the existing record brought up to date |
| Backend.Maps.UseRecord | src/client-access-bpf.c:718-726 | the verdict emitted for a terminal record is the active table's, whatever generation the record had |
| Backend.Maps.AdmitClassification | src/client-access-bpf.c:475-493 | one take from the global window and one from the subject's own |
| Backend.Maps.RateTake | src/client-access-bpf.c:451-473 | succeeds unless the window's second is full |
| Backend.Maps.Reserve | src/client-access-bpf.c:495-520 | takes one unit below the limit and raises the peak |
| Backend.Maps.Release | src/client-access-bpf.c:522-529 | gives back one unit and keeps the peak |
| Backend.Maps.TrackFlow | src/client-access-bpf.c:731-747 | correlation-only mode adds at most one classless record |
| Backend.Maps.SecondPacketIsClassified | src/client-access-bpf.c:749-784 | the first packet of an admitted flow is optimistic, the second gets the policy's verdict for the class |
| PacketParse.ParseFlow | src/client-access-bpf.c:255-371 | a buffer parses exactly when it opens with the headers of some frame whose lengths fit, and yields that frame's key fields |
| PacketParse.ParseLink | src/client-access-bpf.c:260-284 | Ethernet with at most two VLAN tags (both directions) |
| PacketParse.ParseV4 | src/client-access-bpf.c:285-317 | unfragmented IPv4 headers with options (both directions) |
| PacketParse.ParseV6 | src/client-access-bpf.c:318-339 | IPv6 headers without extensions (both directions) |
| PacketParse.ParseTcp | src/client-access-bpf.c:344-357 | TCP headers with options inside the declared length (both directions) |
| PacketParse.ParseUdp | src/client-access-bpf.c:358-367 | UDP headers with a consistent length (both directions) |
| PacketParse.LinkReadBack | src/client-access-bpf.c:260-284 | a buffer with these type fields is an encoded link header |
| PacketParse.V4ReadBack | src/client-access-bpf.c:285-317 | a buffer with these fields is an encoded IPv4 header |
| PacketParse.TcpReadBack | src/client-access-bpf.c:344-357 | a buffer with this data offset is an encoded TCP header |
| Prefix.CanonicalizeInPlace | src/bpf-snapshot.c:213-222 | the IPv6 branch keeps the first bits of the address in place and zeroes the rest |
| Prefix.MaskedAddress | src/bpf-snapshot.c:213-222 | kept, masked and zero bytes make the canonical address |
| Prefix.MaskWordBits | src/bpf-snapshot.c:202-211 | the IPv4 branch keeps the first bits of the word and zeroes the rest |
| Prefix.CanonicalIdempotent | src/bpf-snapshot.c:200-222 | a canonical prefix stays as it is |
| Prefix.CanonicalDecidesPrefix | src/bpf-snapshot.c:200-222 | two addresses have one canonical form exactly when they agree on the prefix |
| SnapshotText.Serialize | root/usr/share/ucode/client_access/bpf_runtime.uc:76-104 | the text is the sections' lines in order, each ended by a newline |
| SnapshotText.ParseSnapshot | src/bpf-snapshot.c:224-371 | accepts exactly when every line is accepted in turn and a CONFIG line was seen |
| SnapshotRoundTrip.PrintAndParse | src/bpf-snapshot.c:224-371 | for every printable snapshot the parser rebuilds what was printed, with canonical prefixes |
| SnapshotRoundTrip.LinesParse | src/bpf-snapshot.c:224-371 | the printed lines parse section by section to the same content |
| SnapshotRoundTrip.MacParses | src/bpf-snapshot.c:68-78 | a printed hardware address is read back |
| SnapshotRoundTrip.FusedHintParses | src/bpf-snapshot.c:155-175 | every hint that fusion can produce passes the parser unchanged |
| SnapshotRoundTrip.ConfigLineParses | src/bpf-snapshot.c:239-273 | a printed CONFIG line within the limits is read back |
| SnapshotRoundTrip.SubjectLineParses | src/bpf-snapshot.c:274-288 | a printed SUBJECT line is read back |
| SnapshotRoundTrip.PolicyLineParses | src/bpf-snapshot.c:343-358 | a printed POLICY line is read back |
| SnapshotRoundTrip.PortLineParses | src/bpf-snapshot.c:289-306 | a printed PORT line is read back |
| SnapshotRoundTrip.Prefix4LineParses | src/bpf-snapshot.c:307-324 | a printed PREFIX4 line is read back canonicalized |
| SnapshotRoundTrip.Prefix6LineParses | src/bpf-snapshot.c:325-342 | a printed PREFIX6 line is read back canonicalized |
| Scanner.ScanNumbersPrinted | root/usr/share/ucode/client_access/bpf_runtime.uc:80-103 | numbers printed with `%d` are scanned back by as many `%u` |
| Scanner.LinesOfJoined | src/bpf-snapshot.c:231-238 | printed lines are read back one by one |
| Attachments.Tc.DetachExcept | src/bpf-tc.c:119-175 | success leaves the program only at kept places, and foreign or kept attachments survive even a failure |
| Attachments.Tc.PrunePlace | src/bpf-tc.c:139-171 | one coordinate: removed only if owned and not kept |
| Attachments.Tc.Prune | src/bpf-tc.c:177-199 | an unknown interface to keep is refused before anything is detached |
| Attachments.Tc.Attach | src/bpf-tc.c:250-298 | success puts the program at the interface's coordinate without displacing another program |
| Attachments.Tc.Detach | src/bpf-tc.c:206-249 | never removes another program |
| Attachments.Tc.VerifyInterfaces | src/bpf-tc.c:74-117 | accepts exactly when every coordinate is readable and no owned one is left over |
| Attachments.Tc.VerifyAttachments | src/bpf-health.c:56-74 | accepts exactly when the program is confirmed at each expected interface and nowhere else |
| Kernel.System.Publish | src/bpf-snapshot.c:384-504 | a publication that follows the last numbered one is logged and enabled, a failed one changes nothing |
| Kernel.System.Ensure | src/bpf-object.c:91-150 | keeps the maps with their content, or starts over with empty maps while the numbering goes on |
| Kernel.System.Health | src/bpf-health.c:28-82 | succeeds exactly when the backend can be inspected, is enabled with these generations, and every coordinate read confirms attachment at exactly these interfaces |
| Kernel.System.Generations | src/bpf-runtime.c:69-84 | the floors are the config record's generations whenever the maps exist |
| Kernel.NextKeepsMeaning | root/usr/share/ucode/client_access/reconcile.uc:26-46 | a publication that follows the last one never changes what a generation meant to the datapath |
| Kernel.MeaningOfSnapshot | root/usr/share/ucode/client_access/desired.uc:20-40 | what a generation means is decided by the policy signature alone, whatever classifier it is published with |
| Kernel.LogExtends | root/usr/share/ucode/client_access/reconcile.uc:26-46 | generations never decrease and never change signature along the log |
| ApplicationPlane.Application.RaiseFloors | root/usr/share/ucode/client_access/executor.uc:63-75 | after planning and raising the floors the planned publication follows the last one |
| ApplicationPlane.Application.NumberingContinues | root/usr/share/ucode/client_access/reconcile.uc:28-46 | a daemon that applied nothing yet continues earlier numbering for every desired state exactly when its own generations or the floors reach the last ones |
| ApplicationPlane.Application.Apply | root/usr/share/ucode/client_access/application_reconcile.uc:76-328 | keeps the recorded signatures equal to the last publication and the last generations remembered, publishes at most the planned publication, and success means applied under the planned generations with nonempty interfaces |
| ApplicationPlane.Application.Install | root/usr/share/ucode/client_access/application_reconcile.uc:188-328 | loading, attaching, publishing and finishing keep the agreement on every failure path |
| ApplicationPlane.Application.Bind | root/usr/share/ucode/client_access/application_reconcile.uc:188-232 | loading and attaching, which leave everything attached when nothing is in the way |
| ApplicationPlane.Application.Complete | root/usr/share/ucode/client_access/application_reconcile.uc:234-328 | publishing and finishing, which succeed when everything is attached and no call fails |
| ApplicationPlane.Application.PublishIfDue | root/usr/share/ucode/client_access/application_reconcile.uc:234-268 | publishes when changed or repairing, and the planned publication is then the last one |
| ApplicationPlane.Application.Finish | root/usr/share/ucode/client_access/application_reconcile.uc:269-328 | signatures are recorded only after scope and exact interface set, otherwise nothing stays applied |
| ApplicationPlane.Application.Neutralize | root/usr/share/ucode/client_access/application_reconcile.uc:43-63 | whatever fails nothing is claimed any more, and success means disabled, detached and out of scope |
| ApplicationPlane.Application.RestoreScope | root/usr/share/ucode/client_access/application_reconcile.uc:65-74 | the previous scope with an untouched datapath, or nothing at all |
| ApplicationPlane.Application.KeepPrevious | root/usr/share/ucode/client_access/application_reconcile.uc:155-186 | a failure is never reported as success and retains only what was enabled before |
| ApplicationPlane.NotIn | root/usr/share/ucode/client_access/application_reconcile.uc:20-30 | exactly the target interfaces that are not attached yet |
| Acceleration.OffloadCapability | root/usr/share/ucode/client_access/runtime.uc:24-82 | ACTIVE exactly for one canonical software flowtable with a backend |
| Acceleration.ParseDeadline | root/usr/share/ucode/client_access/sfo_manager.uc:12-19 | the deadline is always within its bounds |
| Acceleration.DeadlineRoundTrip | root/usr/share/ucode/client_access/sfo_manager.uc:12-19 | every admissible deadline written in decimal is the one parsed |
| Acceleration.Manager.Reconcile | root/usr/share/ucode/client_access/sfo_manager.uc:64-118 | ACTIVE needs capability, backend, healthy tracking and no baseline due, and is only re-entered through a successful baseline |
| Acceleration.Manager.ReconcileGc | root/usr/share/ucode/client_access/sfo_manager.uc:44-62 | can only degrade, and then demands a baseline |
| Acceleration.Manager.RevokeTransitions | root/usr/share/ucode/client_access/sfo_manager.uc:120-199 | ACTIVE afterwards means no published restriction is unrevoked, and each transition's outcome |
| Acceleration.Manager.RevokeNext | root/usr/share/ucode/client_access/sfo_manager.uc:138-197 | one transition: what is reported and that ACTIVE means it was revoked |
| Acceleration.Manager.RevokeOne | root/usr/share/ucode/client_access/sfo_manager.uc:166-196 | targeted revocation, else a baseline, else degraded |
| Acceleration.Manager.RevokeBroadly | root/usr/share/ucode/client_access/sfo_manager.uc:121-137 | a restriction without a subject costs a baseline, whose failure degrades |
| Acceleration.Manager.Absorb | root/usr/share/ucode/client_access/sfo_manager.uc:30-42 | a reported hardware flow is never forgotten |
| Authorization.PlanTransitions | root/usr/share/ucode/client_access/lease.uc:422-449 | one transition for exactly each key whose verdict changed |
| Authorization.EffectiveSnapshot | root/usr/share/ucode/client_access/lease.uc:394-420 | the loops compute the snapshot whose meaning SnapshotMeaning states |
| Authorization.PolicyInForce | root/usr/share/ucode/client_access/lease.uc:412-418 | each policy's verdict is in force in the snapshot, or allow while the plane is off |
| Authorization.AccessInForce | root/usr/share/ucode/client_access/lease.uc:399-407 | each identity's access verdict is in the snapshot under its application subject |
| Authorization.SnapshotMeaning | root/usr/share/ucode/client_access/lease.uc:394-420 | the snapshot answers for every key: default, identities, unknown subject and policies each with the verdict in force, and nothing else |
| Authorization.Advance | root/usr/share/ucode/client_access/commit.uc:21-29 | exactly the entries of the planes that succeeded are taken over |
| Authorization.CommittedIsLatestPublished | root/usr/share/ucode/client_access/commit.uc:21-48 | per key the committed snapshot holds what the latest attempt that published the key's plane wanted |
| Authorization.RestrictionStaysPlanned | root/usr/share/ucode/client_access/lease.uc:422-449 | a committed allow that is to become a deny is planned as restrictive in every attempt until its plane publishes |
| Authorization.PublishedRestrictionIsCommitted | root/usr/share/ucode/client_access/commit.uc:21-48 | once published it is committed and plans nothing more |
| Authorization.NewKeyPlansNothing | root/usr/share/ucode/client_access/lease.uc:425-428 | a key without a committed entry plans no transition |
| Controller.Daemon.Attempt | root/usr/sbin/client-accessd:212-292 | one attempt: generations do not go back, at most the planned publication is made, success asked to enforce is the truth and happens whenever nothing is in the way, ACTIVE leaves nothing unrevoked, authorization advances by exactly the planes that succeeded |
| Controller.Daemon.ExecuteApplication | root/usr/share/ucode/client_access/executor.uc:61-119 | a success with tracking means the datapath realizes the desired state |
| Controller.Daemon.CheckHealth | root/usr/share/ucode/client_access/executor.uc:86-109 | a failed health check takes the plane down, a passed one proves the evidence |
| Controller.Daemon.ExecuteAcceleration | root/usr/share/ucode/client_access/executor.uc:121-177 | ACTIVE afterwards leaves nothing unrevoked and re-entering it costs a baseline |
| Controller.Daemon.ExecuteAccess | root/usr/share/ucode/client_access/executor.uc:39-59 | an unready plane fails, an unchanged one without repair succeeds |
| Controller.Daemon.AllConverged | root/usr/share/ucode/client_access/executor.uc:164-177 | an unpublished or unrevoked transition fails the attempt |
| Controller.Daemon.Commit | root/usr/share/ucode/client_access/commit.uc:31-72 | committed state follows the evidence of the attempt |
| Controller.Daemon.Restart | root/usr/share/ucode/client_access/executor.uc:26-37 | a restart forgets the daemon's state and neutralizes, and numbering begins again exactly when the maps hold no publication |
| Controller.Daemon.LosePins | root/usr/share/ucode/client_access/reconcile.uc:28-36 | when the pins are lost the numbering goes on exactly when the daemon's own generations reach the last ones |
| Controller.Daemon.FirstAttempt | root/usr/share/ucode/client_access/executor.uc:61-119 | from nothing an enforceable attempt succeeds, and publishes under generation 1 |
| Controller.RestartOverLostPins | root/usr/share/ucode/client_access/reconcile.uc:28-46 | a reboot and a restart after which a second policy is published and enforced under the generation of the first |
| Controller.SuccessIsTruthful | root/usr/share/ucode/client_access/executor.uc:21-24 | definition of the recorded outcome: it stands for an enforcing result exactly for actions that were asked to enforce |
| Controller.Daemon.Run | root/usr/sbin/client-accessd:294-311 | over any attempts, restarts, lost maps and interference generations never decrease or change meaning, also across replaced maps while maps or daemon hold the last ones, and ACTIVE means nothing outstanding |
| FlowIndex.MatchingTuplesHashAlike | sfo/client-access-sfoctl.c:127-171 | a supported flow and a tuple it matches hash the same bytes |
| FlowIndex.HashFields | sfo/client-access-sfoctl.c:116-171 | hashing field after field is hashing the joined bytes |
| FlowIndex.Candidates.Index | sfo/client-access-sfoctl.c:173-192 | every bucket head and link leads to the newest older candidate of its bucket |
| FlowIndex.Candidates.Mark | sfo/client-access-sfoctl.c:331-345 | one chain walk sets the same presence flags and gives the same answer as testing every candidate |
| FlowIndex.Candidates.WalkChain | sfo/client-access-sfoctl.c:335-343 | a chain walk ends and finds exactly the matches of its bucket |
| FlowIndex.HitsShareBucket | sfo/client-access-sfoctl.c:237-277 | every match lies in the bucket of the entry |
| FlowIndex.HeadIsNewest | sfo/client-access-sfoctl.c:186-190 | a bucket head is the newest candidate of the bucket |
| Revocation.Collect | sfo/client-access-sfoctl.c:194-230 | the wanted flow records in order and indexed, or a failure when they do not fit |
| Revocation.ScanEntry | sfo/client-access-sfoctl.c:309-348 | one conntrack entry: counted, collected when selected, or an overflow |
| Revocation.ScanDump | sfo/client-access-sfoctl.c:309-366 | without overflow the collected entries, counts and presence flags are those of the whole dump |
| Revocation.Delete | sfo/client-access-sfoctl.c:368-387 | stops at the first refusal, and attempts add up to deleted, absent and refused |
| Revocation.VerifyAndDelete | sfo/client-access-sfoctl.c:500-550 | COMPLETE exactly when one of three passes saw nothing left, after passes that deleted all they saw in time, within the deadline |
| Revocation.Revoke | sfo/client-access-sfoctl.c:478-558 | a targeted revocation is COMPLETE exactly when its candidates fit and the loop over them ends clean |
| Revocation.CleanMeansNoneMatches | sfo/client-access-sfoctl.c:513-533 | a clean pass leaves no entry that any candidate matches and no hardware offload |
| Revocation.CleanBaselineMeansNothingOffloaded | sfo/client-access-sfoctl.c:640-672 | a clean baseline leaves no offloaded entry at all |
| Revocation.CollectGarbage | sfo/client-access-sfoctl.c:560-625 | success removes exactly the idle records without a conntrack entry, failure removes no other |
| ClassGraph.ValidateClassGraph | root/usr/share/ucode/client_access/classification_ir.uc:115-134 | no error exactly for graphs whose chains are finite and whose parents are categories |
| ClassGraph.ChainHasError | root/usr/share/ucode/client_access/classification_ir.uc:115-134 | one class's walk reports an error exactly when its chain is cyclic or dangling |
| ClassGraph.CategoryIsAncestor | root/usr/share/ucode/client_access/classification_observation.uc:47-56 | true exactly for categories at or above the class, also on cyclic graphs |
| ClassGraph.RuntimeCategoryId | root/usr/share/ucode/client_access/classification_ir.uc:93-102 | the nearest category at or above a class |
| ClassGraph.WalkIsNearest | root/usr/share/ucode/client_access/classification_ir.uc:93-113 | the guarded walk finds the nearest class with a property, if there is one |
| Fusion.HintForClass | root/usr/share/ucode/client_access/classification_ir.uc:136-152 | the hint of a class, or of its category for ports |
| Fusion.MergeClaims | root/usr/share/ucode/client_access/classification_observation.uc:58-104 | the loop computes the fold the properties below are about |
| Fusion.MergeMeaning | root/usr/share/ucode/client_access/classification_observation.uc:58-104 | fusion yields the deepest class exactly when the claims lie on one root path, and a conflict otherwise |
| Fusion.DeepestUnique | root/usr/share/ucode/client_access/classification_observation.uc:58-104 | there is only one deepest class |
| Fusion.MergeOrderIndependent | root/usr/share/ucode/client_access/classification_observation.uc:58-104 | claims with the same hints fuse alike in any order and multiplicity |
| Fusion.MergeOfSummaries | root/usr/share/ucode/client_access/classification_observation.uc:200-215 | fusing summaries equals fusing the claims they summarise |
| Observations.DomainClaims | root/usr/share/ucode/client_access/classification_observation.uc:106-124 | the loop keeps the best-scoring entries |
| Observations.DomainEntriesAreMostSpecific | root/usr/share/ucode/client_access/classification_observation.uc:106-124 | exactly the entries of the highest positive score in order |
| Observations.Resolve | root/usr/share/ucode/client_access/classification_observation.uc:172-226 | one result per key with live evidence, equal to fusing its claims |
| Observations.TwoLevelFusion | root/usr/share/ucode/client_access/classification_observation.uc:194-215 | fusing per observation and then per key equals fusing every raw claim of the key at once |
| AppPolicy.CompileRule | root/usr/share/ucode/client_access/app_policy.uc:60-95 | a rule's effect and error, failing closed |
| AppPolicy.ActiveVerdict | root/usr/share/ucode/client_access/app_policy.uc:101-111 | deny wins among active rules |
| AppPolicy.ResolveVerdict | root/usr/share/ucode/client_access/app_policy.uc:113-128 | the nearest deciding class, else the default, also on cyclic parents |
| AppPolicy.WalkDecides | root/usr/share/ucode/client_access/app_policy.uc:113-128 | the resolved verdict is the one the hierarchy means |
| AppPolicy.MeansIsUnique | root/usr/share/ucode/client_access/app_policy.uc:113-128 | the hierarchy means one verdict only |
| AppPolicy.CompileIdentities | root/usr/share/ucode/client_access/app_policy.uc:179-212 | which identities are usable |
| AppPolicy.ValidIdentitiesDistinct | root/usr/share/ucode/client_access/app_policy.uc:179-212 | usable identities have distinct names and subjects |
| AppPolicy.CompileRules | root/usr/share/ucode/client_access/app_policy.uc:234-276 | the rule index, the identities that fail closed, whether all rules are clean, and an instant until which all take effect alike |
| AppPolicy.FlattenIdentity | root/usr/share/ucode/client_access/app_policy.uc:292-304 | exactly one entry per class with the resolved verdict |
| AppPolicy.TableAnswersHierarchy | root/usr/share/ucode/client_access/app_policy.uc:278-305 | the datapath's lookup on the flat table returns what the hierarchy defines, for every class number |
| AppPolicy.Compile | root/usr/share/ucode/client_access/app_policy.uc:130-324 | the whole compilation has that property for every usable identity at every instant before the announced transition, and is without errors exactly when every identity is usable and every rule readable and placed |
| AppPolicy.AnnouncedHolds | root/usr/share/ucode/client_access/app_policy.uc:60-95 | a rule takes effect unchanged until its announced transition |
| AppPolicy.OverlayApplication | root/usr/share/ucode/client_access/lease.uc:359-385 | an approval allows its class and everything below it, never the reserved classes |
| AppPolicy.OverlaidAnswers | root/usr/share/ucode/client_access/lease.uc:359-385 | the overlaid list answers allow at and below an approved class and the hierarchy's verdict everywhere else, for every class number |
| EndToEnd.PublishedTableAnswers | src/client-access-bpf.c:217-231 | the lookup in a published table is the one the compiled list answers |
| EndToEnd.HierarchyIsPublished | root/usr/share/ucode/client_access/executor.uc:111-119 | truthful success means the active tables give, for every class number, allow where approved and the hierarchy's verdict everywhere else |
| EndToEnd.MarkOfClassifiedFlow | src/client-access-bpf.c:718-726 | a packet of a classified flow is then marked with the verdict the configured rules and approvals put in force |
| EndToEnd.DaemonKeepsDiscipline | root/usr/share/ucode/client_access/reconcile.uc:26-46 | packets interleaved with the publication of a daemon's log keep the whole datapath invariant |
| Schedule.ParseWindow | root/usr/share/ucode/client_access/policy.uc:35-74 | the split intervals cover a minute exactly when the window does, modulo the week |
| Schedule.AddDayMeaning | root/usr/share/ucode/client_access/policy.uc:19-26 | one day's interval, cut at the end of the week, covers exactly that day's window |
| Schedule.CompileWindows | root/usr/share/ucode/client_access/policy.uc:76-86 | the table covers exactly the minutes of some valid window, and no errors exactly when all are valid |
| Schedule.ScheduleState | root/usr/share/ucode/client_access/policy.uc:93-98 | active exactly when some interval covers the minute |
| Schedule.NextBoundary | root/usr/share/ucode/client_access/policy.uc:100-112 | the nearest boundary, between 1 and 10080 minutes ahead |
| Schedule.ConstantBeforeBoundary | root/usr/share/ucode/client_access/policy.uc:100-112 | the state is constant on every minute before it |
| Schedule.NextEpochSound | root/usr/share/ucode/client_access/policy.uc:132-141 | the state holds until the announced epoch |
| Schedule.EvaluateSchedule | root/usr/share/ucode/client_access/policy.uc:114-142 | when evaluation fails, the present state, and until when it lasts |
| Schedule.SafetyDelayMs | root/usr/share/ucode/client_access/policy.uc:279-292 | the timer never sleeps past an announced transition |
| AccessPlane.CompileIdentity | root/usr/share/ucode/client_access/policy.uc:155-214 | an identity's verdict, and an instant until which its schedule's state lasts |
| AccessPlane.AnnouncedHolds | root/usr/share/ucode/client_access/policy.uc:155-214 | until that instant the verdict does not change |
| AccessPlane.Compile | root/usr/share/ucode/client_access/policy.uc:216-277 | one verdict per identity, all of which hold until the announced transition |
| AccessPlane.OverlayAccess | root/usr/share/ucode/client_access/lease.uc:338-357 | an approval turns the identity's verdict into allow |
| AccessPlane.UniqueVerdict | root/usr/share/ucode/client_access/model.uc:52-105 | the verdict of an owner, deny when unknown or duplicate |
| AccessPlane.GroupBindings | root/usr/share/ucode/client_access/model.uc:19-51 | each address with all its owners in order |
| AccessPlane.Project | root/usr/share/ucode/client_access/model.uc:19-106 | the exceptions are exactly the addresses whose verdict differs from the default |
| AccessPlane.PublishAccess | root/usr/share/nftables.d/table-pre/30-client-access.nft:38-51 | every packet gets the verdict the configuration intends for its address, in both list modes |
| Lease.LeaseStatus | root/usr/share/ucode/client_access/lease.uc:76-138 | invalid, expired or active |
| Lease.ParseDatabase | root/usr/share/ucode/client_access/lease.uc:144-202 | a refresh: valid, active, unambiguous leases in target order |
| Lease.Create | root/usr/share/ucode/client_access/lease.uc:204-281 | grants exactly the grantable requests that fit, replacing the target's older lease |
| Lease.Revoke | root/usr/share/ucode/client_access/lease.uc:283-295 | removes exactly the named lease |
| LeaseProperties.LeaseIdInjective | root/usr/share/ucode/client_access/lease.uc:254-257 | an id decides its epoch and sequence |
| LeaseProperties.RefreshIsFilter | root/usr/share/ucode/client_access/lease.uc:144-202 | on a clean database a refresh only filters |
| LeaseProperties.RefreshDropsExactly | root/usr/share/ucode/client_access/lease.uc:144-202 | it drops exactly the expired and invalid leases |
| LeaseProperties.RefreshIsClean | root/usr/share/ucode/client_access/lease.uc:144-202 | whatever the journal held the result is clean |
| LeaseProperties.RefreshIdempotent | root/usr/share/ucode/client_access/lease.uc:144-202 | refreshing twice at one instant is refreshing once |
| LeaseProperties.CreateKeepsInv | root/usr/share/ucode/client_access/lease.uc:204-281 | creation keeps the database bounded, sorted and unambiguous |
| LeaseProperties.RevokeRemovesExactly | root/usr/share/ucode/client_access/lease.uc:283-295 | revocation succeeds exactly for a known id and removes exactly that lease |
| LeaseProperties.RunKeepsInv | root/usr/share/ucode/client_access/lease.uc:140-295 | over every run with fewer than 2^32 creations at most 256 leases in ascending unique target order with unique ids |
| LeaseProperties.CreatedLeaseSurvives | root/usr/share/ucode/client_access/lease.uc:76-138 | a created lease survives a refresh exactly while its clocks are in range and it has not run out |

## Left out

- Processes, ubus, uci, files, pipes, the `fw4` and `nft` command lines and libbpf, netlink and conntrack calls: their outcomes are inputs or arbitrary.
- Kernel memory ordering, torn writes of the two verdict fields, and publishers outside this controller.
- The rate windows inside the interleaved machine: their refusals and full maps are arbitrary outcomes there; the windows themselves are `RateWindow` and `SubjectWindows`.
- A change of the pending limit while packets hold reservations.
- The other bits of the packet mark: only whether a verdict is marked and which.
- Packet, byte, flow and revocation statistics, status projection, diagnostics and error texts.
- JSON: signatures are records, and journal entries that are not objects are not modelled.
- Local time zones and daylight saving: a fixed offset, and an abstract end of the day that is an input.
- IPv6 address text and `inet_pton`: functions given to the parser.
- Signs and base prefixes in `%2x` and in prefix lengths, numbers beyond 64 bits in `%u`, and NUL bytes in snapshot text.
- Regular-expression details of domain patterns, and the DNS observation transport and store.
- The scan of the ruleset text behind the offload topology: its findings are inputs of `OffloadCapability`.
- The reason, ordering and id texts of transitions, and the order in which changed keys are visited.
- Runtime lowering of fused evidence beyond the snapshot text, and its memory limit.
- The approval calls of the daemon around one reconciliation, with their rollback: compositions of the modelled steps.
- Allocation failures in the helper, which take the same path as an overflow.
- Backend.Maps.Ingress: one packet without interference; interference is in DatapathSafety.RunKeepsInv, and SoloRun.UndisturbedIsIngress ties the two.
- Controller.Daemon.ExecuteAccess: the access tables are published by AccessPlane.PublishAccess; here their transaction just succeeds or fails.
- AppPolicy.Compile: the bounds of the resource limits, the schema version and the two global verdicts with their error texts.
- Acceleration.OffloadCapability: the scan of the ruleset text is an input.
- Schedule.EvaluateSchedule: a fixed offset stands for local time.
- Authorization.SnapshotMeaning: identities named `__default__` or `__unknown__`, whose keys would be those of the two special entries.
