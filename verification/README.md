# Verified model of the cluster optimizer

This project models the decision logic of the cluster optimizer in Dafny and proves what
its guardrails promise. The Kubernetes, CRI, Prometheus and config-map calls appear as
small state records and fault oracles; every statement below holds for all inputs and all
fault patterns unless it says otherwise.

The parts, from the bottom up:

- **Placement** (`Constraints`, `Packer`, `Binpack`): the first-fit packer. `Binpack` runs
  it over mutable node states, as the Go code does, and is proved equal to the functional
  packer in `Packer`. `PackingProofs`, `OrderProofs`, `SurvivalProofs` and `TopologyProofs`
  say what a placement means: soundness, accounting, prefix stability, order independence,
  survival by substitution, bounded skew, and one pod per anti-affinity domain.
  `ReplayProofs` extends survival to every predicate. `AdmissionProofs` spells out what a node
  asks of a pod.
- **Capacity** (`Usage`, `Capacity`, `CapacityEngine`): effective footprints, DaemonSet and
  pinned charges, headroom, the upward search with the survival gate, and the verdict.
  `CapacityEngine` holds the loops, `Capacity` the functions they are proved against.
  `CapacityProofs`, `VerdictProofs` and `ClassificationProofs` state what a verdict is worth;
  `HeadroomProofs`, `ExtendedProofs` and `LossProofs` where it promises too much, on the pools
  worked out in `SmallPools`; `DrainProofs` what it says of the node that is drained.
  `DemandProofs` and `SnapshotProofs` state a release in the snapshot's own nodes, pods and
  readings.
- **Cordons** (`Cordon`, `CordonProtocol`, `Drain`, `DrainRuns`): claim, reap and release on an API
  server with failing calls; a transition system of passes, crashes, operator edits,
  readiness flips and clock steps, with invariants over every run; a whole nudger pass; and
  the proof that any history of passes is a run of that system.
- **Request tuning** (`Tuning`, `Sidecars`): the analyzer's firing rules, the targets derived from
  their evidence, and the planner's capped trim iterated over passes; in pods of one container
  and beside other containers.
- **Authorisation** (`Classifier`, `Planner`, `Applier`): layered target resolution, the
  planner's gates, the halt switch (`HaltSwitch`), and the patches that reach the cluster.
  `AuthorisationProofs` spells out when a finding is acted on and an action patched,
  `ContainerProofs` what a patch does to the container it is written to.
- **Image garbage collection** (`ImageGC`): the capped largest-first choice and its accounts.

`Basics` and `Sorting` hold shared definitions and lemmas about ordering, stable sorting and
permutations. Times are integers in nanoseconds; a stored annotation is an instant truncated
to the second (section 5.6 of RFC 3339), or unreadable.

Run `dafny verify dfyconfig.toml` in this directory.

## Where the code differs from its description

The model follows the code. Each difference is stated exactly.

- Unmodelled constraints are said always to escalate. With no schedulable node the search
  never runs, so the pool is determinate and can be actionable
  (`ClassificationProofs.UnmodelledButActionable`, exact condition in `StatusPartition`).
- Nodes hosting something immovable are said always to be kept. They are only sorted first,
  and the search may stop before them all (`PinnedHostReleased`). Whatever the workload, the
  verdict keeps as many nodes if and only if the floor covers them or at most one is schedulable
  (`HostsKeptExactly`; for one given workload see `KeepsPinnedHostsExactly`). Kept means counted:
  which node is drained is the nudger's choice, and hosting something immovable does not keep a
  node from it.
- Losing the largest node is said to be the loss that decides the capacity question. On unequal
  nodes it need not be (`LossProofs.LargestLossMisleads`). On two nodes it decides for every
  workload if and only if the largest node can replace the other (`GateReachesExactly`); on
  more, it does whenever the nodes are interchangeable (`ReplayProofs.GateReadmitsAnyLoss`).
- The reaper is said never to touch a node without markers. It decides from the listing and
  releases the object it reads later, so a marker removed in between is acted on
  (`Cordon.StrippedBetweenListAndGet`; exact condition in `UnmarkedLeftAlone`).
- TTL plus cooldown is counted from stamps. The stamp is the clock as the pass read it on
  starting (`internal/nudger/nudger.go:150`), cut to the second; the cordon is written later
  (`internal/nudger/nudger.go:516-526`). For a cordon stamped t and written at w the documented
  distance is guaranteed if and only if w is t, a whole second, and, when there is a cooldown,
  the TTL is whole seconds too (`CordonProtocol.PromiseExactly`). With a whole-second TTL the
  exact shortfall is the delay of w after the cut stamp while that is within the TTL; past it
  the whole TTL is lost, and up to a second of the cooldown (`WholeSecondRateBound`,
  `ShortfallIsReached`).
- A planned patch is said to lower a container's request. The planner computes the request of a
  whole pod, from all pods and the replicas that are ready
  (`internal/collector/collector.go:230-233`, `internal/collector/collector.go:457-482`), and the
  patch writes the trimmed figure to one container. A container beside others can be raised
  (`ContainerProofs.SidecarRaised`), and so can a single one during a rollout (`RolloutRaises`).
  Where there can be a plan, every one lowers it if and only if it requests no less than that figure
  (`LowersExactly`); with every pod ready, if and only if no other container requests the
  resource (`AloneExactly`). Repeated passes take it to what the others request, and to its target
  if and only if they request less than that (`Sidecars.TargetReachedExactly`).
- A report's target is per container while its evidence is per pod. In pods of several containers
  a recommendation can recur for ever or flip over (`Sidecars.ReportRecurs`); it is quiet for every
  usage if and only if the others request little enough (`QuietExactly`).
- Live apply is documented to lower requests. The analyzer reports every trim with low confidence
  and the policy in use (`cmd/cluster-optimizer/main.go:144`) asks for high, so no usage finding
  is ever planned (`Planner.AnalyzerPlansExactly`).
- The verdict is called stricter than the nudger's own simulation. It is about the largest nodes
  first, while the least loaded node is drained: the nodes left may not hold the workload
  (`DrainProofs.DrainedAgainstGate`). On two nodes they do for every workload if and only if the
  other can replace the drained one (`DrainCoveredExactly`), and on interchangeable nodes always
  (`AnyDrainReadmits`).
- Every relocatable pod is said to have budget headroom. A budget without listed labels, empty or
  selecting by expressions, never blocks (`Drain.BudgetHonouredExactly`), and a listed empty value
  matches a pod without the label (`SelectorReadExactly`).
- A confidence minimum other than low, medium or high has rank zero and gates nothing
  (`Planner.ConfidenceGateExactly`).
- The zero planner policy is documented as the most conservative. It lacks the default's
  persistence gates, so it can act on a finding that no recorded run confirms, and its budget of
  one is then spent (`Planner.ZeroPlanDiverges`). The default plans what the zero policy plans
  for the confirmed findings alone (`DefaultPlansConfirmed`); the plans agree if and only if no
  finding passes the zero policy's gates or three recorded runs confirm the first that does
  (`ZeroPlanExactly`).
- A headroom of 100 percent or more withholds nothing, although the configuration accepts it.
  The promised bound holds of every pool if and only if the percentage is below one hundred
  (`HeadroomProofs.HeadroomKeptExactly`, input in `HeadroomIgnored`).
- Pinned pods are charged to their host so that it never looks empty, but not their extended
  resources. A node's offer of one is safe from every workload if and only if its DaemonSet
  and pinned pods ask for none of it (`ExtendedProofs.ExtKeptExactly`, input in
  `GpuPromisedTwice`).

## Model

| member | source | states |
|---|---|---|
| `Binpack.RunFit` | internal/binpack/binpack.go:162-223 | the node-state loop over mutable objects returns, for every node and pod list, exactly the placement of the functional packer: assignments, rejections with votes and reason, and unmodelled reasons; what an assignment and a rejection mean is `AdmissionProofs` |
| `Binpack.PackAll` | internal/binpack/binpack.go:197-219 | running the mutable states over a pod list refines the fold of one-pod placements, from any starting occupancy |
| `Binpack.PlacePod` | internal/binpack/binpack.go:199-218 | one pod goes on the first state that admits it and only that state changes, by that pod; when none admits it no state changes and every node has voted |
| `Binpack.Probe` | internal/binpack/binpack.go:200-212 | the scan stops at the first admitting node, having recorded one vote for each earlier node |
| `Binpack.Admits` | internal/binpack/binpack.go:263-300 | the refusal reason is the first failing predicate in the code's order, taints to spread, against all current states |
| `Binpack.NodeState.LocalRefusal` | internal/binpack/binpack.go:263-290 | counters kept incrementally (used CPU, memory, pods, extended) refuse a pod exactly when the sums over the occupants do |
| `Binpack.NodeState.Assign` | internal/binpack/binpack.go:247-255 | assigning appends one occupant and every counter still equals the sum over the occupants |
| `Binpack.CountDomains` | internal/binpack/binpack.go:460-490 | the local count map has one entry per topology domain present on any node, holding the number of matching same-namespace pods other than the incoming one |
| `Binpack.SatisfiesSpread` | internal/binpack/binpack.go:452-510 | the loop over constraints allows the node exactly when every hard constraint allows it, including minDomains and nodes that lack the key |
| `Binpack.DominantReason` | internal/binpack/binpack.go:558-569 | whatever order the vote map is walked in, the result is the one dominant reason |
| `Binpack.CollectIndeterminate` | internal/binpack/binpack.go:168-180 | the collected reasons are the sorted, duplicate-free list of unmodelled reasons of the pods |
| `Packer.FirstFit` | internal/binpack/binpack.go:197-219 | the index is the least one whose node gives no refusal, or the node count if all refuse |
| `Packer.VotesTotal` | internal/binpack/binpack.go:200-218 | a pod refused by the first n nodes carries exactly n votes |
| `Packer.Dominant` | internal/binpack/binpack.go:556-569 | for a non-empty vote bag the dominant reason has the most votes and is least by name among those |
| `Packer.DominantUnique` | internal/binpack/binpack.go:556-569 | no two reasons can both be dominant |
| `AdmissionProofs.VerdictExactly` | internal/binpack/binpack.go:263-300 | a node admits a pod if and only if, spelled out over their fields, it has room in CPU, memory, extended resources and pod slots, tolerations cover its taints, selector and affinity terms are met, required anti-affinity keeps its distance and every hard spread constraint holds |
| `AdmissionProofs.StaticExactly` | internal/binpack/binpack.go:263-300 | the reasons untolerated_taint, node_selector and node_affinity, in that order, exactly when the taints, the selector, the affinity terms refuse |
| `AdmissionProofs.AssignedIsAdmitted` | internal/binpack/binpack.go:197-219 | every assigned pod sits on a node each of whose taints but preferences is tolerated by effect, key and value, whose labels it selects, and one of whose affinity terms holds operator by operator |
| `AdmissionProofs.RejectedForCause` | internal/binpack/binpack.go:212-218 | a vote for a taint, selector or affinity refusal has a node with that ground behind it; where no node has it there is no such vote |
| `AdmissionProofs.SelectorExactly` | internal/binpack/binpack.go:526-545 | a label selector picks exactly the label sets with every listed label that meet every expression, operator by operator; an absent one picks none |
| `AdmissionProofs.ParseExactly` | internal/binpack/binpack.go:385-420 | the number compared by Gt and Lt is the one the signed decimal numeral denotes, within 64 bits, and anything else is no number |
| `AdmissionProofs.SpreadExactly` | internal/binpack/binpack.go:452-510 | a hard spread constraint allows a node exactly when, counting the pod in, its domain exceeds no other by more than maxSkew, or holds at most maxSkew in all where domains are too few |
| `AdmissionProofs.ApartExactly` | internal/binpack/binpack.go:421-448 | a required anti-affinity term allows a node exactly when no other pod in scope that its selector picks is on any node of the same domain |
| `AdmissionProofs.PackedLargestFirst` | internal/binpack/binpack.go:228-245 | pods are packed in the order of memory, then CPU, both descending, then key |
| `PackingProofs.PackSound` | internal/binpack/binpack.go:153-221 | from sound nodes, every node stays sound after any pod list: reserved plus placed CPU, memory, pods and extended resources within allocatable, and every occupant passes the taint, selector and affinity predicates |
| `PackingProofs.EveryPodAccounted` | internal/binpack/binpack.go:197-219 | with distinct keys every pod is either assigned to a node it really sits on, or rejected, never both |
| `PackingProofs.AccountsAddUp` | internal/binpack/binpack.go:197-219 | assignments plus rejections equals the number of pods |
| `PackingProofs.EveryRejectionVoted` | internal/binpack/binpack.go:212-218 | every rejection carries one vote per node and its reason is the dominant vote |
| `PackingProofs.PrefixStable` | internal/binpack/binpack.go:197-221 | for pods with only node-local predicates, appending nodes leaves every earlier node at least the occupants it had and never turns an assigned pod into a rejected one, at every step |
| `PackingProofs.PrefixKeepsAssignments` | internal/binpack/binpack.go:197-221 | a pod placed on the shorter node list is placed on the same node on the longer one |
| `PackingProofs.MoreNodesStillFit` | internal/binpack/binpack.go:197-221 | a full placement stays full when nodes are appended |
| `OrderProofs.FitIgnoresOrder` | internal/binpack/binpack.go:225-245 | with distinct keys any reordering of the pods gives the same assignments, unmodelled reasons and rejections; with at least one node the whole result is identical |
| `OrderProofs.IndeterminateExactly` | internal/binpack/binpack.go:168-180 | a placement is indeterminate if and only if some pod carries an unmodelled constraint, for every node list including none |
| `OrderProofs.ReasonsExactly` | internal/binpack/binpack.go:168-180 | the reasons a placement lists are those some pod carries, each once, in name order |
| `OrderProofs.FitAccounts` | internal/binpack/binpack.go:162-223 | over a whole placement: assigned and rejected split the pods, every rejection has one vote per node, and its reason is dominant |
| `SurvivalProofs.FitIsValid` | internal/binpack/binpack.go:162-223 | a full placement is a valid assignment of exactly these pods to exactly these nodes |
| `SurvivalProofs.SurvivesOtherLoss` | internal/capacity/capacity.go:453-484 | if everything packs without node w, and w dominates x in net CPU, memory, pod slots, extended resources and node-level predicates, an assignment that respects capacity and node-level predicates also exists without x |
| `SurvivalProofs.HomogeneousSurvivesAnyLoss` | internal/capacity/capacity.go:348-358 | in a homogeneous pool, packing after one loss implies such an assignment after any single loss |
| `ReplayProofs.PackReplays` | internal/binpack/binpack.go:197-221 | a full pass is a sequence of admissions, each by the chosen node, under every predicate and against all nodes |
| `ReplayProofs.ReplayElsewhere` | internal/capacity/capacity.go:453-484 | the whole sequence of admissions, spread and anti-affinity included, can be repeated with w in the place of a node that w dominates and stands in for: it has a topology value where that node has one and shares it with the same other nodes |
| `ReplayProofs.ReadmitOtherLoss` | internal/capacity/capacity.go:453-484 | if everything packs without w, and w dominates x and stands in for it, every pod can be admitted again, one by one and under every predicate, by exactly the nodes left without x |
| `ReplayProofs.AnyLossReadmitted` | internal/capacity/capacity.go:348-358 | in a homogeneous pool whose nodes differ for each topology key all or not at all, packing after one loss means every pod can be admitted again after any single loss |
| `TopologyProofs.PackKeepsSkew` | internal/binpack/binpack.go:452-510 | if every pod matching a hard spread selector carries the constraint, every pass keeps max minus min over all domains within maxSkew, puts no matching pod on a node without the key, and caps every domain at maxSkew while there are fewer than minDomains domains |
| `TopologyProofs.FitKeepsSkew` | internal/binpack/binpack.go:197-213 | the same bound holds after every intermediate step of a placement, not only at the end |
| `TopologyProofs.PackKeepsOnePerDomain` | internal/binpack/binpack.go:421-448 | pods of one namespace that carry and match a required anti-affinity term never share a topology domain |
| `TopologyProofs.AntiAffinityNeedsDomains` | internal/binpack/binpack.go:421-448 | pigeonhole: a full placement of k such pods needs at least k domains, hence at least k nodes |
| `Usage.Effective` | internal/usage/resolve.go:204-215 | never below the request; below-actionable evidence leaves the request unchanged; otherwise the figure covers the observed usage with the headroom percentage added, to within the one unit that the integer division drops |
| `Usage.Coverage` | internal/usage/usage.go:111-122 | the ratio of the keys with a reading to all keys, zero for no keys, and never outside zero to one |
| `Usage.FourFifths` | internal/usage/resolve.go:24-26 | the ratio reaches the minimum coverage exactly when at least 80 of every 100 keys have a reading |
| `Usage.UsableExactly` | internal/usage/resolve.go:24-26 | a source is used exactly when it answered and at least four fifths of the positions asked for, if any, have a reading |
| `Usage.Resolve` | internal/usage/resolve.go:124-190 | which provider's readings are used for each mode and each failure, and that any non-empty result covers at least 80% of the pods |
| `CapacityEngine.FindPinnedHosts` | internal/capacity/capacity.go:215-224 | the host set is exactly the pool's nodes carrying a pod that cannot move and is not a DaemonSet pod |
| `CapacityEngine.Accumulate` | internal/capacity/capacity.go:241-282 | one scan yields the movable pods in order, the componentwise worst DaemonSet footprint, and each host's pinned footprint |
| `CapacityEngine.SplitPlaceable` | internal/capacity/capacity.go:288-298 | schedulable nodes in sorted order, and the number of unusable nodes that host something pinned |
| `Capacity.WorstIndex` | internal/capacity/capacity.go:465-484 | the chosen node is the first one that no other node exceeds in memory then CPU |
| `CapacityEngine.DropWorst` | internal/capacity/capacity.go:465-484 | the in-place scan removes exactly that node and keeps the order of the rest |
| `CapacityEngine.TryCount` | internal/capacity/capacity.go:338-361 | one round of the search: whether n nodes answer it, and how |
| `CapacityEngine.RunSearch` | internal/capacity/capacity.go:333-362 | the loop with its breaks and continues is the upward search |
| `CapacityEngine.RankBlockers` | internal/capacity/capacity.go:522-549 | whatever order the map is walked in, the ranked blocker list is the same |
| `CapacityEngine.BlockerRankUnique` | internal/capacity/capacity.go:522-549 | any listing of the blocking reasons sorts to the same ranking, so the report is stable across runs |
| `CapacityEngine.ProbeBelow` | internal/capacity/capacity.go:402-435 | the blockers and the binding constraint reported are those of a placement on one node fewer than recommended, stranded nodes excluded |
| `CapacityEngine.BindingMeans` | internal/capacity/capacity.go:402-435 | one node below the recommendation, stranded nodes aside, a predicate is named as binding, and blockers are listed, if and only if the workload, fully modelled, does not fit there, and then no predicate rejects more pods; otherwise the survival rule, the floor or an unmodelled constraint is named |
| `CapacityEngine.TopBlocker` | internal/capacity/capacity.go:522-549 | the first ranked blocker rejects at least as many pods as any other reason |
| `CapacityEngine.BlockerExactly` | internal/capacity/capacity.go:522-549 | a blocker counts every rejection for its reason and shows the first three rejected pods in order |
| `CapacityEngine.RankedByPods` | internal/capacity/capacity.go:522-549 | blockers are ranked by the number of pods they reject, then by reason |
| `CapacityEngine.Conclude` | internal/capacity/capacity.go:364-441 | the verdict fields assigned step by step, binding constraint included, are those of the verdict function |
| `CapacityEngine.AnalyzePool` | internal/capacity/capacity.go:200-442 | a pool's verdict as computed by the loops equals the verdict of the pool's abstract description |
| `CapacityEngine.GroupNodes` | internal/capacity/capacity.go:152-162 | every node is filed under its own pool, in input order |
| `CapacityEngine.GroupActivePods` | internal/capacity/capacity.go:157-170 | active pods are grouped by node, finished and unscheduled ones dropped |
| `CapacityEngine.ListPools` | internal/capacity/capacity.go:171-176 | the sorted pool names, independent of map order |
| `CapacityEngine.PoolNamesExactly` | internal/capacity/capacity.go:150-186 | the pools analysed are exactly those some node is in, each once, in name order |
| `CapacityEngine.Analyze` | internal/capacity/capacity.go:150-198 | current nodes = all nodes of the snapshot = minimum safe + removable cluster-wide, indeterminate pools included; the report is actionable only when every pool is |
| `CapacityEngine.VerdictBalanced` | internal/capacity/capacity.go:364-390 | per pool, current = minimum safe + removable, except an indeterminate pool, whose nodes are all kept by the caller |
| `CapacityEngine.SumsBalance` | internal/capacity/capacity.go:177-197 | the per-pool balance adds up over any list of pools |
| `CapacityEngine.PoolsPartition` | internal/capacity/capacity.go:150-176 | the pools' sizes add up to the number of nodes: every node is in exactly one pool |
| `CapacityProofs.SearchMeaning` | internal/capacity/capacity.go:336-362 | the search returns the least size that passes the gate, exhausts exactly when none does, and is unknown exactly when some movable pod is unmodelled and a node is placeable |
| `CapacityProofs.ExactThreshold` | internal/capacity/capacity.go:333-362 | node-local pods, survival gate off: n is a true threshold, every smaller size fails and every larger one passes |
| `CapacityProofs.DropsTheFirst` | internal/capacity/capacity.go:465-484 | on a list sorted largest first the dropped node is the first, so survivors of growing sizes are prefixes of one list |
| `CapacityProofs.SurvivalThreshold` | internal/capacity/capacity.go:345-361 | with that order and node-local pods, the two-part gate is upward closed and n is its exact threshold |
| `CapacityProofs.UnpinnedIsLargestFirst` | internal/capacity/capacity.go:225-236 | a pool without pinned hosts is sorted largest first |
| `CapacityProofs.UnpinnedThreshold` | internal/capacity/capacity.go:225-361 | so for every pool without pinned hosts the search result is the exact threshold of the gate, survival on or off |
| `CapacityProofs.GateSurvivesAnyLoss` | internal/capacity/capacity.go:348-361 | if a size above one passes the survival gate in a homogeneous pool, losing any one retained node leaves an assignment that respects capacity and node-level predicates |
| `LossProofs.RoomyNodeTakesAll` | internal/binpack/binpack.go:197-221 | a list of nodes of which one alone accepts and has room for a whole workload of node-local pods takes all of it, wherever first fit puts each pod |
| `LossProofs.CoveredExactly` | internal/capacity/capacity.go:453-484 | on two nodes, packing without one covers the loss of the other for every workload if and only if the dropped node offers at least the room of the other and refuses no pod that it accepts |
| `LossProofs.GateReachesExactly` | internal/capacity/capacity.go:348-361 | the survival gate on a pool of two nodes covers the loss it does not try, for every workload, if and only if the largest node can so replace the other |
| `LossProofs.LargestLossMisleads` | internal/capacity/capacity.go:453-484 | a pool whose derived minimum of two passes the gate although losing the node that is not the largest leaves its only pod nowhere to go |
| `DrainProofs.DrainReadmits` | internal/nudger/nudger.go:348-380 | if the gate passes at n nodes and one more is there, draining any of the n leaves nodes that admit the whole workload again under every predicate, where the extra node dominates the drained one and stands in for it |
| `DrainProofs.AnyDrainReadmits` | internal/nudger/nudger.go:348-380 | so on interchangeable nodes with one to spare draining any of them leaves room for the workload |
| `DrainProofs.DrainCoveredExactly` | internal/nudger/nudger.go:348-353 | with a verdict that keeps one of two nodes, draining the one it is about leaves a valid assignment for every workload if and only if the other node can replace it |
| `DrainProofs.DrainedAgainstGate` | internal/nudger/nudger.go:396-475 | a concrete cluster in which the verdict keeps one node and the nudger chooses the larger one to drain, while the node left does not hold the workload |
| `ReplayProofs.GateReadmitsAnyLoss` | internal/capacity/capacity.go:348-361 | the same with every predicate in force: the survival gate, passed on interchangeable nodes, means every pod can be admitted again after losing any one of them |
| `CapacityProofs.AntiAffinityFloor` | internal/capacity/capacity.go:336-362 | k mutually repelling pods force a search result of at least k, and k+1 with node-loss survival |
| `CapacityProofs.VerdictKeepsAntiAffinityFloor` | internal/capacity/capacity.go:372-390 | a determinate verdict keeps at least min(k, current nodes) |
| `VerdictProofs.CountedNodesFit` | internal/capacity/capacity.go:238-331 | on every retained node that receives a pod, the raw requests of its DaemonSet, pinned and assigned pods together fit allocatable minus headroom in CPU and memory and the pod cap |
| `VerdictProofs.EveryPodHasANode` | internal/capacity/capacity.go:336-362 | when the search finds n, every relocatable active pod of the pool is assigned to one of the first n schedulable nodes |
| `VerdictProofs.ReleaseIsSound` | internal/capacity/capacity.go:333-390 | main result: a verdict that gives back any node rests on a size n, with n plus stranded hosts no larger than what it keeps, at which every relocatable active pod is assigned to the first n schedulable nodes, every receiving node stays within headroom with its DaemonSet and pinned pods counted, and the placement still holds after losing the worst node when survival is asked |
| `SnapshotProofs.ReleaseRestsOnDemand` | internal/capacity/capacity.go:200-441 | from the snapshot alone: a verdict that gives back a node of a pool can keep that many ready, uncordoned nodes of it, on which every running pod with a controller has a seat that suits it, and no receiving node is asked for more than it carries with headroom, each pod counted at the larger of request and observed usage with usage headroom, DaemonSet and uncontrolled pods included; and the same without the largest of them where survival is asked for |
| `SnapshotProofs.SizesExactly` | internal/capacity/capacity.go:372-388 | what a verdict keeps and releases is the derived size raised to the floor, two by default, and capped by the pool, and nothing when the search is unanswered |
| `SnapshotProofs.BindingExactly` | internal/capacity/capacity.go:389-441 | what a verdict names as holding the pool: the floor when it raised the size, otherwise the blockers and binding found one node lower |
| `SnapshotProofs.SearchOrder` | internal/capacity/capacity.go:211-236 | the search takes hosts of uncontrolled pods first, then the most memory, then the most CPU, then the name |
| `SnapshotProofs.ActionableExactly` | internal/capacity/capacity.go:364-440 | a verdict can be acted on if and only if its search was answered and its fidelity is historical_p95, recommender or sampled_rollup |
| `SnapshotProofs.ImmovableExactly` | internal/capacity/capacity.go:211-224 | the immovable count is the number of pool nodes that host a running pod with neither a controller nor a DaemonSet |
| `DemandProofs.SizedByDemand` | internal/usage/resolve.go:204-215 | the pool analysis sizes movable and pinned pods alike at the larger of request and usage times a hundred plus the usage headroom, percent, where the fidelity spans time, and at the request otherwise |
| `DemandProofs.BurdenFits` | internal/capacity/capacity.go:494-510 | on every node of a placement that receives a pod, residents and arrivals at observed demand fit the allocatable less headroom and the pod cap |
| `VerdictProofs.LoadIsPlaced` | internal/binpack/binpack.go:247-255 | the load read off the assignment map equals what the packer charged to the node |
| `VerdictProofs.RawBelowSim` | internal/capacity/capacity.go:494-510 | raw requests assigned to a node never exceed the simulated footprint |
| `VerdictProofs.DaemonBelowMax` | internal/capacity/capacity.go:271-282 | each node's own DaemonSet footprint is within the pool-wide reservation |
| `VerdictProofs.PinnedCharged` | internal/capacity/capacity.go:261-268 | each node's raw pinned requests are within the reservation charged to it |
| `HeadroomProofs.WithholdExactly` | internal/capacity/capacity.go:512-518 | of a positive capacity the configured percentage is withheld as promised if and only if it is below one hundred |
| `HeadroomProofs.HeadroomKeptExactly` | internal/capacity/capacity.go:300-331 | for every configuration: the promise that no receiving node is loaded beyond allocatable times (100 - headroom) / 100 holds of every pool if and only if the percentage is below one hundred |
| `HeadroomProofs.HeadroomIgnored` | internal/capacity/capacity.go:512-518 | a concrete pool with headroom 100 whose actionable verdict releases a node while the kept node is loaded past the promised bound |
| `ExtendedProofs.AssignedExtFits` | internal/binpack/binpack.go:263-290 | where an assigned pod asks for an extended resource, the node's pods together stay within what it offers beyond its reservation |
| `ExtendedProofs.ExtKeptExactly` | internal/capacity/capacity.go:300-321 | no extended resource is reserved for DaemonSet and pinned pods, so a node's offer of one is safe from every workload if and only if they ask for none of it |
| `ExtendedProofs.GpuPromisedTwice` | internal/capacity/capacity.go:243-269 | a concrete actionable verdict that gives a GPU node back and moves its pod to the node whose only GPU a bare pod holds |
| `ClassificationProofs.StatusPartition` | internal/capacity/capacity.go:364-441 | a pool is indeterminate if and only if it has a placeable node and an unmodelled movable pod, and then releases nothing and is not actionable; otherwise the three statuses are decided by removable and derived exactly, and the minimum is at least min(derived, current) and min(floor, current) |
| `ClassificationProofs.UnmodelledButActionable` | internal/capacity/capacity.go:336-374 | a concrete pool with an unmodelled pod and no schedulable node whose verdict is actionable: the escalation the code comments describe does not happen there |
| `ClassificationProofs.PinnedHostsFirst` | internal/capacity/capacity.go:211-236 | every prefix of the searched list holds only pinned hosts or holds all of them |
| `ClassificationProofs.PinnedHostCounts` | internal/capacity/capacity.go:288-298 | stranded pinned hosts are among the pinned hosts, and the usable ones are among the placeable nodes |
| `ClassificationProofs.KeepsPinnedHostsExactly` | internal/capacity/capacity.go:372-388 | the verdict keeps as many nodes as there are pinned hosts if and only if the floor does, or no size below the usable pinned hosts passes the gate |
| `ClassificationProofs.HostsKeptExactly` | internal/capacity/capacity.go:211-236 | the verdict keeps as many nodes as there are pinned hosts, whatever the movable workload, if and only if the floor covers them or at most one usable node hosts something pinned |
| `ClassificationProofs.PinnedHostReleased` | internal/capacity/capacity.go:211-236 | a concrete actionable verdict with two pinned hosts and minimum one, so pinned hosts are preferred, not always kept |
| `Cordon.ClaimThenRelease` | internal/nudger/cordon.go:94-110 | claim then release restores an unmarked node's schedulability and leaves only the reap stamp |
| `Cordon.NothingStaleRemains` | internal/nudger/cordon.go:135-182 | after a pass has handled a node, a marker remains only on a node it left alone, of its own run or younger than the TTL with a readable stamp |
| `Cordon.UnmarkedLeftAlone` | internal/nudger/cordon.go:135-222 | a node unmarked at write time keeps its schedulability if and only if the decision taken from the listing was not a release, or the recorded prior value agrees; if listing and write see the same marker it is untouched |
| `Cordon.StrippedBetweenListAndGet` | internal/nudger/cordon.go:160-208 | a concrete race: the markers go between the list and the get, and the release uncordons a node that carries none |
| `Cordon.ApiServer.ClaimCordon` | internal/nudger/cordon.go:94-110 | one write sets the markers, the prior value and unschedulable together, or nothing |
| `Cordon.ApiServer.ReleaseCordon` | internal/nudger/cordon.go:194-208 | the object as read back, whatever another client has made of it since the listing, gets its prior schedulability back and loses its markers in one write, or is left as found |
| `Cordon.ApiServer.StripMarkers` | internal/nudger/cordon.go:212-222 | markers are removed from the object as read back and the reap stamped; its schedulability is untouched |
| `Cordon.ApiServer.ReapListed` | internal/nudger/cordon.go:135-189 | after the loop every node and every result list is what per-node handling says, for any pattern of failing calls and of writes by others between the listing and the read |
| `Cordon.ApiServer.ReapOne` | internal/nudger/cordon.go:136-187 | one iteration decides on the listed copy, writes to the object read back, changes only its node and files the node in the one list its outcome calls for |
| `Cordon.ApiServer.ReapStaleCordons` | internal/nudger/cordon.go:123-189 | the whole pass: nothing when the TTL is not positive or the listing fails, otherwise every node handled and reported |
| `Cordon.ReportedExactly` | internal/nudger/cordon.go:56-68 | a node is in a result list if and only if its outcome is the one that list reports |
| `Cordon.OutcomeExactly` | internal/nudger/cordon.go:123-192 | under what a node is reported, by its marker, its run, its schedulability, the age of its stamp and the writes that fail |
| `Cordon.ReapedExactly` | internal/nudger/cordon.go:194-235 | what became of a node in each list: held ones as they were; uncordoned ones with the schedulability the claim recorded; those and cleared ones without markers, stamped to the second, and otherwise unchanged |
| `Cordon.ClaimedExactly` | internal/nudger/cordon.go:94-110 | what a claim leaves in each field of the node |
| `Cordon.ErrorFreePassLeavesNothingStale` | internal/nudger/cordon.go:112-189 | after a live pass whose calls on a node succeed, whatever others write meanwhile, no other run's cordon of age at least the TTL, or with an unreadable stamp, remains on it, and a node that was listed without a marker is unchanged |
| `Cordon.RaceExactly` | internal/nudger/cordon.go:160-208 | over a whole pass, a node whose markers are gone when it is read back keeps its schedulability if and only if the listing did not call for a release, or the release restores that very value |
| `CordonProtocol.StepKeepsInv` | internal/nudger/cordon.go:94-222 | each of claim, reap, crash, dry run, halted pass, operator edit, readiness flip and clock advance keeps the ownership invariant |
| `CordonProtocol.AlwaysAttributed` | internal/nudger/cordon.go:11-33 | over every run, at every intermediate state, every node the tool made unschedulable carries its marker and run, and no operator cordon carries one |
| `CordonProtocol.OperatorCordonsStand` | internal/nudger/cordon.go:112-182 | no step except the operator's own uncordon ever lifts an operator's cordon |
| `CordonProtocol.AlwaysRate` | internal/nudger/nudger.go:348-380 | over every run without outside uncordons, each cordon so far is still accounted for: standing and blocking its pool, or reaped and benching it |
| `CordonProtocol.CordonRateBound` | internal/nudger/nudger.go:348-380 | when one pool is cordoned twice, the first cordon stamped t and written at w, the second is both stamped and written no earlier than the reap allows: after the TTL has run from the stamp cut to the second and the cordon is written, then the cooldown counted from the reap's own stamp; with a non-positive TTL never again |
| `CordonProtocol.BoundIsReached` | internal/nudger/cordon.go:94-110 | the bound cannot be improved: for every positive TTL, every cooldown and every t and w with t at most w there is a run whose second cordon is written exactly then |
| `CordonProtocol.PromiseExactly` | internal/nudger/cordon.go:36-53 | the documented distance of TTL plus cooldown between two cordons is guaranteed for one stamped t and written at w, over all runs, if and only if w is t, a whole second, and, when there is a cooldown, the TTL is whole seconds too |
| `CordonProtocol.WholeSecondRateBound` | internal/nudger/cordon.go:36-53 | for a whole-second TTL the distance between the writes is at least TTL plus cooldown less a stated shortfall: the delay of the write after the cut stamp, or, for a write later than the TTL, the whole TTL and what the reap's stamp cuts off the cooldown |
| `CordonProtocol.ShortfallIsReached` | internal/nudger/cordon.go:94-110 | and for every t and w some run falls short by exactly that much |
| `Drain.ScanPods` | internal/nudger/nudger.go:252-302 | each node's load is the sum over the active pods on it, with the tool's own pods counted but not offered for eviction |
| `Drain.LoadIsBound` | internal/nudger/nudger.go:283-305 | a node is loaded with the requests of every pod bound to it that is neither finished nor terminating, the tool's own included; it hosts the tool exactly when one of them is in its namespace; and what a drain would move are the others with a controller that is no DaemonSet |
| `Drain.PoolHealth` | internal/nudger/nudger.go:206-250 | each pool's exact numbers of schedulable and unusable nodes and its recent-reap flag, for any order of the node map |
| `Drain.FindCandidates` | internal/nudger/nudger.go:343-392 | a node is a candidate if and only if it is schedulable, does not host the tool, and its pool has an actionable verdict, no unusable node, no recent reap, and more schedulable nodes than the minimum |
| `Drain.FindRoom` | internal/nudger/nudger.go:462-476 | some node with room, or none has room, for any order |
| `Drain.SimulatePacking` | internal/nudger/nudger.go:434-482 | success yields an assignment within every node's free CPU and memory; failure yields a placed prefix and a pod that no node can host after it |
| `Drain.CheckBudgets` | internal/nudger/nudger.go:590-635 | blocked if and only if some pod's namespace has an unreadable budget list or an exhausted budget whose label selector, not empty, matches the pod; for any namespace order |
| `Drain.BudgetHonouredExactly` | internal/nudger/nudger.go:612-634 | an exhausted budget keeps every pod it is for if and only if its selector lists a label or its expressions leave no pod at all |
| `Drain.SelectorReadExactly` | internal/nudger/nudger.go:623-634 | a selector without expressions is read as it is meant if and only if it lists a label and asks for no empty value |
| `Drain.RequestsConserved` | internal/nudger/nudger.go:434-482 | summed over the receiving nodes, what arrives is exactly what the drained node gives up |
| `Drain.TryCandidate` | internal/nudger/nudger.go:412-497 | a candidate is taken only with movable pods, a feasible assignment and no blocking budget; it is passed over only for want of one of these |
| `Drain.PickTarget` | internal/nudger/nudger.go:402-503 | the chosen node is a candidate, and every candidate with less requested CPU, or equal CPU and less memory, had grounds to be passed over; none chosen means all had |
| `Drain.ChooseTarget` | internal/nudger/nudger.go:172-510 | the same, stated of the node and pod snapshot the pass read |
| `Drain.ClaimAndEvict` | internal/nudger/nudger.go:512-552 | the target is read back, cordoned unless it is cordoned already, and its pods are evicted; a failed read or claim stops the pass; whatever the node became meanwhile, a claim takes exactly one node out of its pool's schedulable set |
| `Drain.EvictAll` | internal/nudger/nudger.go:534-552 | every pod is tried once and the error count is exactly the number refused |
| `Drain.ClaimLeavesRest` | internal/nudger/nudger.go:516-526 | a claim removes exactly one node from its pool's schedulable set |
| `Drain.NudgePods` | internal/nudger/nudger.go:115-555 | whole pass, for any failures and for foreign writes at any read-back: nothing when halted, the switch stated case by case, and nothing in a dry run; otherwise the repair, then at most one cordon, on a node chosen under every gate, of a pool that keeps its minimum, and evictions of exactly its movers |
| `Drain.CandidateExactly` | internal/nudger/nudger.go:354-386 | a node is a drain source if and only if its pool has an actionable verdict, no unready, cordoned or recently reaped node and more nodes than the verdict keeps, and the tool is not on it |
| `Drain.BlockedExactly` | internal/nudger/nudger.go:612-634 | budgets stand in the way exactly when a pod's namespace has an unreadable list, or an exhausted budget all of whose listed labels, at least one, the pod has |
| `Drain.ChosenMeans` | internal/nudger/nudger.go:388-485 | the drained node passed every gate, has pods to move, no budget in the way, and a placement of them on other schedulable nodes beside all that is bound there; every less loaded source was unsuited |
| `Drain.NothingMeans` | internal/nudger/nudger.go:388-500 | without a target there are fewer than two schedulable nodes, or every source has nothing to move, a budget in the way, or a dead end of the packing |
| `Drain.PassMeans` | internal/nudger/nudger.go:115-532 | node by node, what a pass wrote: its repairs and, where the target could be read back, was not cordoned and the write succeeded, one stamped claim |
| `DrainRuns.PassIsRun` | internal/nudger/nudger.go:115-532 | every undisturbed pass, for any failures, any permitted target and any time taken before the claim is written and after it, ends in the same nodes and the same cordon as a run of the protocol: start, one reap step per node, choose, wait, claim, wait |
| `DrainRuns.HistoryIsRun` | internal/nudger/nudger.go:115-555 | any sequence of passes that take time and have the effect their contract states, interleaved with operator edits, readiness flips and waits, is a run of the protocol |
| `DrainRuns.PassesKeepTheirDistance` | internal/nudger/nudger.go:348-380 | so the writes of two passes that cordon in one pool keep the rate bound, whatever happens in between short of an outside uncordon |
| `DrainRuns.PassesStayAttributed` | internal/nudger/cordon.go:11-33 | and in every such history each marker is complete and remembers a schedulable node |
| `Tuning.AnalyzeUsage` | internal/analyzer/analyzer.go:160-213 | the loop's findings are those of the four firing rules, workload by workload in order |
| `Tuning.FiresExactly` | internal/analyzer/analyzer.go:174-208 | when each rule fires, as linear bounds on usage and request without rounding |
| `Tuning.FindingsExactly` | internal/analyzer/analyzer.go:160-213 | a finding carries its workload's namespace, kind and name, the figures per replica of its resource, and the confidence of its rule, and there is one exactly when the rule fires on them |
| `Tuning.AllFindingsExactly` | internal/analyzer/analyzer.go:160-213 | a report holds a finding exactly when some workload has it |
| `Tuning.TargetExactly` | cmd/cluster-optimizer-ui/main.go:1675-1719 | the target of a rule that fires is the least multiple of its step at or above the stated multiple of the usage |
| `Tuning.RoundUp` | cmd/cluster-optimizer-ui/main.go:1711-1719 | the least multiple of the step at or above the value |
| `Tuning.MemoryTrimQuiet` | internal/analyzer/analyzer.go:186-195 | applying an over-provisioned memory target lands strictly between usage and request, and neither memory rule fires there |
| `Tuning.MemoryRaiseQuiet` | internal/analyzer/analyzer.go:174-184 | applying a below-usage target covers usage, raises the request, and neither memory rule fires there |
| `Tuning.CPUTrimQuiet` | cmd/cluster-optimizer-ui/main.go:1675-1709 | applying an over-provisioned CPU target lands strictly between usage and request, and the CPU rule does not fire there |
| `Tuning.OneStepQuiet` | cmd/cluster-optimizer-ui/main.go:1675-1719 | for every workload whose pods have one container and every finding of the analyzer with a usage of at least zero, applying its derived target silences every rule on that resource |
| `Sidecars.TrimQuietExactly` | cmd/cluster-optimizer-ui/main.go:1675-1709 | a trim target written to a container requesting own beside others requesting rest is quiet for every usage if and only if the stated bounds on own and rest hold (for memory: rest is 0 or the pod is small) |
| `Sidecars.QuietExactly` | cmd/cluster-optimizer-ui/main.go:1675-1719 | for each rule: every report of the analyzer, applied to one container of the pod, silences the resource, for every workload and usage, if and only if the other containers request at most 0 MiB (trim), 49m (CPU) or 151 MiB, or 157 to 161 MiB (raise) |
| `Sidecars.CPUReportRecurs` | internal/analyzer/analyzer.go:201-208 | a CPU report that is not silenced by its target comes back unchanged for ever: the workload with the target applied is reported again with the same target |
| `Sidecars.ReportRecurs` | internal/analyzer/analyzer.go:201-208 | a concrete pod of two containers of 1000m using 100m whose report recurs |
| `Tuning.ProposalBounds` | internal/plan/plan.go:258-284 | for any positive policy: a proposal is at or above target and floor, strictly below the current request, and cuts at most the cap; and it is zero exactly in the four stated cases |
| `Tuning.TrimConverges` | internal/plan/plan.go:258-284 | under the one-half cap, k passes give exactly max(target, ceil(c / 2^k)) |
| `Tuning.TrimArrives` | internal/plan/plan.go:258-284 | k passes reach the target if and only if c is at most target times 2^k |
| `Tuning.TrimStaysAbove` | internal/plan/plan.go:258-284 | for any positive policy every pass stays between target and start, and stops moving exactly at the target or when the cap rounds to nothing |
| `Tuning.TrimSettles` | internal/plan/plan.go:258-284 | for any positive policy some pass no later than c changes nothing more |
| `Tuning.TrimAgreesWithAnalyzer` | internal/analyzer/analyzer.go:174-195 | for pods of one container: the memory control loop never falls below usage in the analyzer's sense, and its end point triggers no further finding |
| `Tuning.CPUTrimAgreesWithAnalyzer` | internal/analyzer/analyzer.go:201-208 | for pods of one container: the CPU control loop's end point triggers no further finding |
| `Sidecars.OwnConverges` | internal/plan/plan.go:258-284 | under the one-half cap, k passes that read the whole pod's request leave the container at exactly the larger of its target and the k-th halving of its distance to what the others request |
| `Sidecars.OwnSettles` | internal/plan/plan.go:258-284 | and once 2^k exceeds that distance it stays at its target, the others' request or one above that, whichever the start decides |
| `Sidecars.TargetReachedExactly` | internal/plan/plan.go:258-284 | repeated trims bring the container to its target from every request above it if and only if the other containers request less than that target |
| `Sidecars.TrimRaises` | internal/plan/plan.go:23-27 | a container at or above its target that requests less than the others do is raised, pass by pass, to what they request |
| `Sidecars.RestAgreesExactly` | internal/analyzer/analyzer.go:186-208 | where the trims come to rest the analyzer has nothing left to trim, whatever the usage and start, if and only if the other containers request at most 50m of CPU or 63 MiB |
| `Sidecars.NeverBelowUsage` | internal/analyzer/analyzer.go:174-184 | at no pass does the pod's memory request fall below usage in the analyzer's sense, whatever the other containers request |
| `Classifier.BuildIndex` | internal/classifier/classifier.go:95-108 | the index keeps the cluster's targets by namespace and workload, the last one winning, and the namespaces opted in by label |
| `Classifier.ByKeyExactly` | internal/classifier/classifier.go:95-110 | the target held for a namespace and workload is the last one listed for them that names this cluster or none |
| `Classifier.EffectiveTarget` | internal/classifier/classifier.go:172-204 | the walk over the layers returns the merge of the layers present, and nothing when none supports the rule |
| `Classifier.FieldsAreLayered` | internal/classifier/classifier.go:206-220 | every metadata field of the merge is the first non-empty one in specificity order |
| `Classifier.OptInExactly` | internal/classifier/classifier.go:172-204 | opt-in is required if and only if the rule is supported, but by no target of the specific namespace |
| `Classifier.OptInForIndex` | internal/classifier/classifier.go:172-204 | for any index: no target means no layer supports the rule; a target that needs opt-in is returned only for a namespace that has it |
| `Classifier.WildcardsIrrelevantWithoutOptIn` | internal/classifier/classifier.go:172-204 | for a namespace without the label, adding or removing any namespace-wildcard targets changes nothing |
| `Planner.ApplyDefaults` | internal/plan/plan.go:286-312 | every missing limit and a missing confidence is filled with the default's own value and every other field is kept, so the result is positive throughout, no later division is by zero, and the persistence settings are never touched |
| `Planner.ZeroFilledIn` | internal/plan/plan.go:286-312 | filled in, the zero policy is the default policy without its persistence gates |
| `Planner.PoliciesOnOne` | internal/plan/plan.go:131-193 | on a finding that three recorded runs agree on, the zero and the default policy decide alike; on any other the default does not act |
| `Planner.DefaultPlansConfirmed` | internal/plan/plan.go:131-193 | the actions planned under the default are those the zero policy plans for the sub-list of findings seen at least three times, and none without recorded runs |
| `Planner.ZeroPlanExactly` | internal/plan/plan.go:69-120 | the plan under the zero policy is the default's if and only if no finding passes the zero policy's gates, or recorded runs confirm the first one that does |
| `Planner.ZeroPlanDiverges` | internal/plan/plan.go:69-120 | two findings for which the zero policy plans the first, never seen before, and the default the second |
| `Planner.Evaluate` | internal/plan/plan.go:137-190 | one finding's gates, in the code's order, decide between an action, a skip reason and being ignored |
| `Planner.Build` | internal/plan/plan.go:131-193 | the loop with its early break produces the plan of the whole finding list |
| `Planner.IndexExactly` | internal/plan/plan.go:314-320 | a workload is found under its namespace, kind and name, the last of that name |
| `AuthorisationProofs.ManagedGateExactly` | internal/classifier/classifier.go:137-149 | a trim finding is skipped as managed exactly when its namespace is one of the six, starts with kube- or ends in -system or -operator, or its workload has one of the fourteen names; any other gets past the gate |
| `AuthorisationProofs.PlansSparePlatform` | internal/plan/plan.go:131-193 | no action of a plan stems from a finding on such a namespace or workload |
| `AuthorisationProofs.ActsExactly` | internal/plan/plan.go:131-193 | a finding is acted on if and only if every gate, spelled out over finding, layers, policy, recorded runs and workload, lets it through |
| `AuthorisationProofs.ActionSays` | internal/plan/plan.go:205-284 | and the action then names the workload, the container of the most specific layer that names one, the request per replica and the proposal computed from usage, headroom, floor and cap, for one resource |
| `Planner.TrimIsBounded` | internal/plan/plan.go:205-256 | a planned trim is at least the floor, below the per-replica request, and within the cap |
| `Planner.PlannedActionsSafe` | internal/plan/plan.go:131-193 | every action of a plan comes from a finding that met the confidence, recurrence, target, rule, container and not-provider-managed gates, carries that workload's request per ready replica and the policy's proposal for it, and sets exactly one resource below that request within floor and cap |
| `Planner.PlanAccounts` | internal/plan/plan.go:131-193 | there are at most MaxActions actions, every trim finding visited becomes exactly one action or one skip, and stopping early means the budget is full |
| `Planner.PlanIsPrefix` | internal/plan/plan.go:131-193 | a plan holds the actions of the findings acted on, in their order, up to the action budget |
| `Planner.ConfidenceGateExactly` | internal/plan/plan.go:122-170 | the confidence gate can refuse anything if and only if the configured minimum is low, medium or high: a misspelt minimum disables it |
| `Planner.AnalyzerPlansExactly` | internal/plan/plan.go:131-193 | no usage finding of the analyzer is ever planned, for any cluster, targets and recorded runs, if and only if the policy asks for more than low confidence, as the default does |
| `Applier.PatchLog.PatchWorkload` | internal/applier/applier.go:199-239 | a patch is sent only for a known kind and a non-zero request |
| `Applier.ApplyOne` | internal/applier/applier.go:115-150 | one action's gates decide its outcome and whether a patch is issued |
| `Applier.Apply` | internal/applier/applier.go:98-152 | the walk over the plan, with the halt switch case by case and both live gates: a halted run reports every action as halted and sends nothing; otherwise exactly the actions that pass the gates are sent |
| `Applier.HaltByCase` | internal/applier/applier.go:175-192 | an unreadable halt map or the value true lets no patch out; a missing map, a missing key and any other value let a live run proceed; without both live gates nothing is sent |
| `Applier.OutcomeExactly` | internal/applier/applier.go:98-152 | what is reported of an action: applied exactly when it was sent and not refused, and otherwise the first ground |
| `AuthorisationProofs.PatchedExactly` | internal/applier/applier.go:98-229 | an action is patched if and only if both live gates are set, the switch is off, its kind is one of the three, it has a figure, it is not the platform's own, and its namespace is labelled where a wildcard needs it |
| `Applier.HaltStopsExactly` | internal/applier/applier.go:98-113 | the switch is on if and only if no plan, whatever the cluster answers, gets a single patch out of a live run |
| `Applier.IssuedMeetsGates` | internal/applier/applier.go:115-150 | every issued patch is of the plan and passed the gates |
| `Applier.EveryPatchAuthorised` | internal/applier/applier.go:98-152 | for any findings, targets and occurrences: every patch issued for the built plan met every planner gate, carries its workload's own figures within the bounds, with both live switches set, no halt, a workload that is not provider-managed and, when authorised by a namespace wildcard, an opted-in namespace |
| `Applier.PatchesWithinBudget` | internal/applier/applier.go:98-152 | the patches issued never exceed MaxActions |
| `ContainerProofs.LowersExactly` | internal/plan/plan.go:205-251 | every plan, for every usage and every positive policy, is below the container's own request if and only if that is at least the pod request the planner computes from all pods and ready replicas, or no plan is possible |
| `ContainerProofs.NeverLowersExactly` | internal/plan/plan.go:258-284 | under a given policy no plan, for any usage, is below the container's own request if and only if that is at most what floor and cap leave of the computed pod request |
| `ContainerProofs.AloneExactly` | internal/plan/plan.go:205-251 | with every pod ready, every plan lowers the container if and only if no other container requests the resource, or the pod requests too little for a plan |
| `ContainerProofs.PatchSets` | internal/applier/applier.go:193-229 | a planned patch sets its one figure on the named container and leaves everything else of the template as it was; it lowers the container exactly when the figure is below its request |
| `ContainerProofs.PatchLowersContainer` | internal/applier/applier.go:98-152 | every patch a live run issues lowers the one container it names, and changes nothing else of the template, where that container alone requests the resource and every pod is ready |
| `ContainerProofs.PassIsNextOwn` | internal/plan/plan.go:205-251 | one planner pass over a workload takes the named container exactly where the trim of the whole pod's request takes it |
| `ContainerProofs.SidecarRaised` | internal/plan/plan.go:23-27 | a live run on the analyzer's own finding that patches a container from 200m up to 500m, and in later passes to 650m and 725m |
| `ContainerProofs.RolloutRaises` | internal/plan/plan.go:229-246 | with one container and one of three pods ready, no plan the default limits allow lowers it, and a usage at which the plan raises 400m to 600m |
| `ImageGC.Split` | internal/imagegc/imagegc.go:120-142 | in use plus candidates equals total, and the candidates are exactly the unreferenced images |
| `ImageGC.UnreferencedExactly` | internal/imagegc/imagegc.go:112-142 | the candidates are exactly the images that no container names by ID or tag, as resolved reference or as written, each as often as listed |
| `ImageGC.ImageInUse` | internal/imagegc/imagegc.go:180-190 | an image counts as in use if its id or any tag is named |
| `ImageGC.SortBySize` | internal/imagegc/imagegc.go:143-150 | the candidates, largest first |
| `ImageGC.LargestFirstIsBest` | internal/imagegc/imagegc.go:143-156 | no selection of k candidates frees more bytes than the first k |
| `ImageGC.RemoveAll` | internal/imagegc/imagegc.go:158-178 | for any removal failures: removed plus errors is the number tried, bytes are those of the removed ones, and only they leave the runtime |
| `ImageGC.AcceptedExactly` | internal/imagegc/imagegc.go:158-178 | the removals accounted for are exactly those of the chosen images that the runtime does not refuse |
| `ImageGC.Runtime.RemoveImage` | internal/imagegc/imagegc.go:43-47 | a refused removal leaves the store as it was |
| `ImageGC.Reclaim` | internal/imagegc/imagegc.go:93-178 | whole pass: nothing below the threshold or when listing fails; the chosen images are the best admissible selection within the cap; dry run reports their bytes and removes nothing; live accounts for each |
| `ImageGC.ReferencedSurvives` | internal/imagegc/imagegc.go:112-142 | an image that a container references is still present afterwards |

## Left out

- Kubernetes, CRI, Prometheus, DynamoDB and HTTP calls: inputs are snapshots, and calls that
  can fail are fault oracles.
- Integer width: quantities, counts and times are unbounded integers; the 64-bit products of
  millicores, MiB and nanoseconds stay far below overflow for real clusters.
- Byte-to-MiB rounding, quantity parsing, disk percentages and the regular expressions over
  evidence text: the integers they yield are passed directly.
- Explanatory strings: details, the wording of a binding constraint, not-feasible reasons, finding
  prose and log lines. Error lists hold node names only.
- Library sorts: the stable sorts are a stable sort function; where the library sort is not
  stable (image sizes, equally loaded drain candidates) any sorted order is allowed.
- Usage.Coverage: the ratio is a real number, not a rounded floating-point one; with fewer than
  2^50 pods the comparison with 0.80 comes out the same.
- SurvivalProofs.SurvivesOtherLoss: the assignment respects capacity and node-level predicates;
  spread and anti-affinity carry over when the nodes also stand alike in the topology, which is
  `ReplayProofs.ReadmitOtherLoss`.
- SurvivalProofs.HomogeneousSurvivesAnyLoss: the same; see `ReplayProofs.AnyLossReadmitted`.
- CapacityProofs.GateSurvivesAnyLoss: the same; see `ReplayProofs.GateReadmitsAnyLoss`.
- LossProofs.GateReachesExactly: about two nodes, of which the one not dropped can take a pod
  that asks for nothing; for longer lists the condition is sufficient (`SurvivesOtherLoss`).
- PackingProofs.PrefixStable: restricted to pods without spread or anti-affinity terms, since
  an extra domain changes what those predicates allow on earlier nodes.
- TopologyProofs.PackKeepsOnePerDomain: about pods that themselves carry the term, because the
  code checks the incoming pod's terms against earlier occupants and not the reverse.
- CordonProtocol.CordonRateBound: the node set is fixed, passes do not overlap, run identifiers
  are distinct, the clock never goes back, nobody edits annotations or uncordons from outside,
  and operators cordon only nodes without a marker; a re-cordoned marked node cannot be told
  from the tool's own. Inside a pass the chosen node meets the nudger's guards as one step.
- LossProofs.CoveredExactly: about two nodes; for longer lists see `ReplayProofs.ReadmitOtherLoss`.
- DrainProofs.AnyDrainReadmits: about the nodes left holding the workload, not about a further
  loss after the drain.
- ContainerProofs.SidecarRaised: init containers and limits are not part of a template here.
- DrainRuns.PassesKeepTheirDistance: about the histories described next; over every run, with
  passes that die and edits inside a pass, it is `CordonProtocol.CordonRateBound`.
- DrainRuns.HistoryIsRun: the passes of a history run one after the other and to their end, and
  nobody rewrites a node in the middle of one; passes that die, and operator edits and readiness
  flips between a pass's start and its claim, are part of the protocol itself.
- SnapshotProofs.ReleaseRestsOnDemand: about CPU, memory and pod slots, in a snapshot of distinct
  node names and pods and of readings that are not negative; extended resources are
  `ExtendedProofs`, spread and anti-affinity `TopologyProofs`.
- Drain.NudgePods: pod evictions do not change the pod list of the same pass.
- Node zones, owner names, labels on pods other than those matched by selectors, and soft
  scheduling preferences do not influence the modelled decisions.
- `sortRollups`, pod garbage collection, the API-instruction remediator, the UI, the store and
  the collector: easier laws of the same kind, or presentation and plumbing.
