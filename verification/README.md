# Verified model of the workload variant autoscaler

The autoscaler decides how many replicas of an inference server to run, and on which accelerators.
This project models the three parts of it that compute something, and proves what they promise.

1. **Queueing analysis and sizing.** An inference server is a finite birth-death chain whose service
   rate depends on the batch size. The chain is solved in place, with rescues when a number
   overflows; latency metrics come from the solution; a binary search turns a latency target into a
   largest request rate; a replica count follows. The search is only right if the metrics rise with
   the rate. That is proved here for every queue and batch size, by a likelihood-ratio argument. It
   follows that a sized allocation meets the latency targets whose metric rises, that the rate it was sized for is the largest
   that does, up to one search step, and that fewer replicas would not do.
2. **Greedy allocation under limited capacity.** Servers wait in a priority queue, move through their
   candidate allocations and are re-inserted when refused; what is left is shared by one of three
   best-effort policies. Conservation of units, termination, first-fit, fairness, the exact order of
   service, equivalence of the two timings and agreement with the unlimited solver are proved over
   whole runs.
3. **Capacity analysis as a control loop.** Replica metrics are aggregated per variant, a removal is
   simulated, targets are chosen and written, pass after pass. The two recommendations are proved to
   exclude each other and not to flap, and invariants are proved over every sequence of passes.

`dafny verify dfyconfig.toml` checks the whole project.

## How the model reads

- Floating-point numbers are reals. `Mul` and `Div` are ordinary multiplication and division under a
  name, so that proofs can hide them.
- Names are identifiers. Iterating over a Go map is picking elements in any order; sorting with the
  library is a method of which only "sorted, same elements" is known to its callers.
- The overflow rescues fire any finite number of times, at any state, by nondeterministic choice.
- Objects that the program updates are classes (`MM1ModelStateDependent`, `MM1KModel`,
  `QueueAnalyzer`, `Solver`, `SystemState`, `Controller`). The solver's `available` map and the
  servers' allocations are fields; queue entries, tickets and allocations are values in them.
- Results whose names end in "InFigures" state what an operation computes from its raw inputs alone:
  parameters, thresholds, costs, counts and the program's constants written out as numbers.
- `hide` in a proof withholds a definition from the verifier there; nothing is assumed.

## What turned out different from what one would expect

- **A constant latency metric inverts the search.** The direction of the metric is read off the two
  ends of the rate range, and equal ends count as "not increasing". For a server that takes one
  request at a time, or whose decode time does not depend on the batch, the inter-token latency is
  constant: a target that every rate meets is then rejected, and a target that no rate meets is
  accepted. `RisesExactlyWhen` says exactly for which servers a metric rises, `ConstantMetricInverted` what
  happens otherwise, and `ConstantMetricExample` shows it on one server. The time to first token of
  a loaded server always rises, because its queue is ten times its batch.
- **Effective concurrency without input tokens.** It subtracts the prefill constant even when no
  prefill takes place, so it does not invert the service time. `ConcurrencyRoundTrip` gives the
  exact condition, `ConcurrencyRoundTripFails` a case.
- **Decode-only requests of one token.** Their batch time counts one decode, but the effective
  concurrency counts none and divides by zero: it is the batch limit as soon as the service time
  exceeds the prefill constant, and nothing before. The inter-token latency is then, as a rule, the
  same at every rate, and the inversion above applies. `ConcurrencyWithoutSlope` and
  `RisesExactlyWhen` give the conditions, `SingleTokenAtLimit` a case.
- **A throughput target is missed by the blocked share.** Replicas are counted so that their arrivals
  add up to the target, but each turns away the requests that find its queue full, a share that is
  never zero. `DeliveredShort` gives the delivered rate exactly: the target times one minus that
  share.
- **A capacity-only pass can ask for fewer replicas without a safe removal.** Targets start from the
  ready replicas, which may be fewer than the current ones. `AsksForFewer` states exactly when a
  target is below the current count, `UnreadyLowersTarget` shows a case.
- **Scaling to zero separates the two solvers.** A server without load and without a minimum has
  candidates that name no accelerator. The unlimited solver picks one; the greedy solver looks the
  accelerator up, does not find it and drops the server, although the candidate needs no units.
  With ample capacity the two agree on a server exactly when its first candidate can be looked up
  (`GreedyRefinesUnlimited`, `GreedyRefinesByServer`); `ZeroLoadDiffers` shows the case. What
  happens to such a server in general is part of `Settled`: it is dropped at the first candidate
  that cannot be looked up, after every candidate before it was refused.
- **A queueing model with room for one customer is never valid.** Its utilization is read from a
  probability vector that is still zero. `Solve` states that a solve is valid exactly when the rates
  are in range and there is room for two.
- **A missing model-based target reads as zero.** `ArbitrationKeepsOne` states exactly when a running
  variant is arbitrated down to nothing, `AbsentTargetStopsVariant` shows a case.

## Model

| member | source | states |
|---|---|---|
| Sums.AverageShiftsUp | pkg/analyzer/utils.go:22-23 | Why the search's demand for a monotone function is met: when weights shift upwards by likelihood ratio, the weighted average of a nondecreasing sequence does not fall, and rises when the shift is strict and the sequence is not constant. |
| BirthDeath.Stationary | pkg/analyzer/mm1modelstatedependent.go:69-112 | The solved probabilities are non-negative, positive under traffic, sum to one, and balance flow between neighbouring states. |
| BirthDeath.BalanceDetermines | pkg/analyzer/mm1modelstatedependent.go:69-112 | A vector that sums to one and balances the flow, with the last rate once the batch is full, is the solved one, and the solved one is such a vector. |
| BirthDeath.StatisticsInFigures | pkg/analyzer/mm1modelstatedependent.go:38-67 | From any such vector: throughput is the arrivals not turned away, the numbers in system and in service are sums over the states, and times are these over throughput. |
| BirthDeath.ThroughputIsServiceRate | pkg/analyzer/mm1modelstatedependent.go:59-59 | Arrivals that are not turned away equal the service rates weighed by the state probabilities. |
| BirthDeath.TimePerCustomerIsMean | pkg/analyzer/mm1modelstatedependent.go:59-61 | Little's law quotients are averages over the states an arrival finds. |
| BirthDeath.MeanMonotone | pkg/analyzer/mm1modelstatedependent.go:38-67 | The average of a nondecreasing quantity over those states rises with the arrival rate, strictly if it is not constant. |
| BirthDeath.ServTimeMonotone | pkg/analyzer/mm1modelstatedependent.go:61-61 | Average service time rises with the arrival rate, for every room and batch size. |
| BirthDeath.WaitTimeMonotone | pkg/analyzer/mm1modelstatedependent.go:60-65 | Average waiting time rises with the arrival rate, strictly when there is room to wait, is zero when there is none, and is never negative, so the clamp has no effect. |
| BirthDeath.ThroughputMonotone | pkg/analyzer/mm1modelstatedependent.go:59-59 | Throughput rises strictly with the arrival rate when larger batches are served at higher rates. |
| BirthDeath.ServTimeBounds | pkg/analyzer/mm1modelstatedependent.go:44-61 | Average service time lies between the batch time of one request and that of a full batch. |
| StateDependentModel.MM1ModelStateDependent.constructor | pkg/analyzer/mm1modelstatedependent.go:15-25 | A new model satisfies the invariant that every later solve keeps. |
| StateDependentModel.MM1ModelStateDependent.Rescale | pkg/analyzer/mm1modelstatedependent.go:84-87 | The rescue in the recurrence keeps the entries proportional to the unscaled chain. |
| StateDependentModel.MM1ModelStateDependent.RescaleAndSum | pkg/analyzer/mm1modelstatedependent.go:96-104 | The rescue in the normalising loop keeps the proportion and recomputes the partial sum to match. |
| StateDependentModel.MM1ModelStateDependent.ComputeWeights | pkg/analyzer/mm1modelstatedependent.go:73-90 | However often the rescue fires, the recurrence ends proportional to the unscaled chain. |
| StateDependentModel.MM1ModelStateDependent.SumWeights | pkg/analyzer/mm1modelstatedependent.go:92-105 | The sum is the total weight under the factor that the rescues left. |
| StateDependentModel.MM1ModelStateDependent.ComputeProbabilities | pkg/analyzer/mm1modelstatedependent.go:70-116 | Rescaling is transparent: the result is the stationary distribution computed without it. |
| StateDependentModel.MM1ModelStateDependent.Occupancy | pkg/analyzer/mm1modelstatedependent.go:44-57 | The one-pass trick for the number in service equals the sum of min(i, batch) times the probability of i. |
| StateDependentModel.MM1ModelStateDependent.ComputeStatistics | pkg/analyzer/mm1modelstatedependent.go:38-67 | Every statistic left in the object is that of the chain; the clamp on the waiting time is never taken. |
| StateDependentModel.MM1ModelStateDependent.Solve | pkg/analyzer/queuemodel.go:27-37 | After any history, a solve is valid exactly when the rates are in range and there is room for two customers; a valid one depends on the arrival rate alone, an invalid one changes no statistic. |
| StateDependentModel.SolveEach | pkg/analyzer/queuemodel.go:27-37 | A sequence of solves ends with what its last call determines. |
| ClosedForm.GeometricSum | pkg/analyzer/mm1kmodel.go:59-64 | The geometric-sum identity behind the closed form. |
| ClosedForm.EmptyProbabilityIsReciprocal | pkg/analyzer/mm1kmodel.go:59-64 | The closed-form probability of an empty system is one over the total weight, at every utilization including one. |
| ClosedForm.ClosedFormAgrees | pkg/analyzer/mm1kmodel.go:50-71 | The closed form is the distribution of the recurrence with a single rate. |
| ClosedForm.SingleRateServTime | pkg/analyzer/mm1kmodel.go:86-86 | With a single rate the state-dependent service time is its reciprocal. |
| ClosedForm.MM1KModel.ComputeProbabilities | pkg/analyzer/mm1kmodel.go:51-71 | The loop leaves that distribution in the vector, summing to one. |
| ClosedForm.MM1KModel.ComputeStatistics | pkg/analyzer/mm1kmodel.go:74-92 | The statistics equal those of the state-dependent chain with one rate. |
| ClosedForm.MM1KModel.Solve | pkg/analyzer/mm1kmodel.go:32-48 | Validity is utilization below the room; a valid solution agrees with the state-dependent model in every field but the utilization. |
| RateSearch.WithinToleranceMeaning | pkg/analyzer/utils.go:12-20 | For a positive target, within tolerance means inside the relative band around it. |
| RateSearch.SearchContract | pkg/analyzer/utils.go:26-70 | For every function: errors exactly as described; the result is in range; each indicator is given exactly under its condition; otherwise the value is within tolerance or the last bracket, of width range over two to the iterations, holds the result and the target. |
| RateSearch.SearchInFigures | pkg/analyzer/utils.go:8-9 | The tolerance is a millionth and an exhausted search has cut its range into 2^100 parts, written out. |
| RateSearch.IndicatorMeaning | pkg/analyzer/utils.go:24-24 | For a rising function, below means that every value exceeds the target and above that none reaches it. |
| RateSearch.IndicatorMeaningDecreasing | pkg/analyzer/utils.go:24-24 | The same for a falling function. |
| Latency.BatchTimeLinear | pkg/analyzer/queueanalyzer.go:105-112 | The batch time is linear in the batch size, with the slope that the effective concurrency divides by except for a decode-only request of one token. |
| Latency.BatchTimeInFigures | pkg/analyzer/queueanalyzer.go:102-113 | The batch time from prefill and decode parameters and token counts, in each of its three cases. |
| Latency.RangeInFigures | pkg/analyzer/queueanalyzer.go:115-122 | Rates are batch sizes over batch times; the range goes from 0.001 of one request per its time to 0.999 of a full batch per its time; the room is queue plus batch. |
| Latency.RatesSpeedUp | pkg/analyzer/queueanalyzer.go:102-113 | Larger batches are served at higher rates. |
| Latency.RangeNotEmpty | pkg/analyzer/queueanalyzer.go:115-118 | For all non-negative parameters with positive batch times the search range is not empty, so the search cannot fail on it. |
| Latency.ServTimesAreBatchTimes | pkg/analyzer/queueanalyzer.go:102-113 | The rates encode the batch time of min(customers, batch) requests in every state. |
| Latency.ServTimeWithin | pkg/analyzer/queueanalyzer.go:102-113 | For all such parameters the average service time lies between the batch times of one and of a full batch. |
| Latency.ConcurrencyRoundTrip | pkg/analyzer/queueanalyzer.go:292-302 | Where the divisor is positive, the effective concurrency put back into the batch time returns the service time exactly when there are input tokens or no prefill constant; it then lies between one and the batch limit, so the clamp has no effect. |
| Latency.ConcurrencyWithoutSlope | pkg/analyzer/queueanalyzer.go:296-302 | Where the divisor is zero the effective concurrency is the batch limit or nothing: which of them, in terms of the parameters. |
| Latency.SingleTokenAtLimit | pkg/analyzer/queueanalyzer.go:106-111 | A decode-only server of one-token requests whose inter-token latency is that of a full batch at every rate. |
| Latency.ConcurrencyRoundTripFails | pkg/analyzer/queueanalyzer.go:258-298 | A server on which the round trip fails. |
| Latency.MetricsMonotone | pkg/analyzer/queueanalyzer.go:268-290 | Both latency metrics rise with the arrival rate, for every queue size, batch size and non-negative parameters. |
| Latency.LatencyInFigures | pkg/analyzer/queueanalyzer.go:257-302 | The metrics from the parameters: the concurrency that explains the service time gives the inter-token latency as its decode time and the time to first token as waiting plus its prefill time. |
| Latency.TimesInFigures | pkg/analyzer/queueanalyzer.go:120-122 | The times come from the chain with room for the queue and a batch. |
| Latency.ITLStrict | pkg/analyzer/queueanalyzer.go:281-290 | Exactly when the inter-token latency differs between two rates, with a positive divisor and with a zero one. |
| Latency.AboveAssumedBase | pkg/analyzer/queueanalyzer.go:296-302 | Bounds on the prefill constant that decide whether the service time exceeds what the effective concurrency subtracts. |
| Latency.TTFTStrict | pkg/analyzer/queueanalyzer.go:268-279 | Exactly when the time to first token differs between two rates. |
| QueueAnalyzer.RisesExactlyWhen | pkg/analyzer/utils.go:45-51 | Exactly which servers make a metric rise over the search range, and, for decode-only requests with a prefill constant, bounds on that constant that decide it. |
| QueueAnalyzer.MeetsDownward | pkg/analyzer/queueanalyzer.go:236-238 | Taking the smaller of the rates keeps every objective that was met. |
| QueueAnalyzer.ConstantMetricInverted | pkg/analyzer/utils.go:45-51 | On a metric that does not rise, a target is rejected exactly when every rate comfortably meets it. |
| QueueAnalyzer.ConstantMetricExample | pkg/analyzer/utils.go:45-51 | One server where a target of 5 is rejected and a target of 1 accepted while the latency is 2 at every rate. |
| QueueAnalyzer.QueueAnalyzer.BuildModel | pkg/analyzer/queueanalyzer.go:99-131 | The built object holds the room, the rates as batch sizes over batch times, and the range from 1 over the time of one request to 999 times the full batch over its time, per second. |
| QueueAnalyzer.QueueAnalyzer.Analyze | pkg/analyzer/queueanalyzer.go:134-174 | Fails exactly outside (0, 999 times the full batch over its time] or without room for two; otherwise reports the metrics of the rate, whatever was solved before. |
| QueueAnalyzer.ReportInFigures | pkg/analyzer/queueanalyzer.go:147-172 | The reported metrics from the solved probabilities: throughput per second, numbers and times by Little's law, and a utilization that needs no clamp. |
| QueueAnalyzer.QueueAnalyzer.EvalTTFT | pkg/analyzer/queueanalyzer.go:270-279 | Re-solving the shared model computes the time to first token as a function of the rate alone. |
| QueueAnalyzer.QueueAnalyzer.EvalITL | pkg/analyzer/queueanalyzer.go:283-290 | The same for the inter-token latency. |
| QueueAnalyzer.QueueAnalyzer.Eval | pkg/analyzer/queueanalyzer.go:268-290 | Either metric, evaluated by re-solving, is that function of the rate. |
| QueueAnalyzer.QueueAnalyzer.BinarySearch | pkg/analyzer/utils.go:26-70 | Though every evaluation re-solves the one shared model, the search computes what it would on a function of the rate. |
| QueueAnalyzer.QueueAnalyzer.Halve | pkg/analyzer/utils.go:53-70 | The same for its loop. |
| QueueAnalyzer.SearchRejects | pkg/analyzer/queueanalyzer.go:204-228 | Exactly when the search finds nothing. |
| QueueAnalyzer.SearchMeets | pkg/analyzer/queueanalyzer.go:204-228 | What the search finds meets the target of a rising metric, and every rate of the range more than one search step above it misses the target or meets it only within tolerance. |
| QueueAnalyzer.LargestOfAll | pkg/analyzer/queueanalyzer.go:230-238 | The smallest of the three rates is the largest that all targets together allow, up to one search step. |
| QueueAnalyzer.LargestRateInFigures | pkg/analyzer/queueanalyzer.go:181-238 | The same in figures: every rate up to 0.999 of a full batch per batch time that is above by more than 2^-100 of the range misses a target by its last millionth, or exceeds nine tenths of the range under a throughput target. |
| QueueAnalyzer.UnsearchedRates | pkg/analyzer/queueanalyzer.go:204-234 | The rates of targets that are not set are 999 times the full batch over its time, and the rate of a throughput target nine tenths of that. |
| QueueAnalyzer.MeetsFigures | pkg/analyzer/utils.go:53-70 | Meeting a target means within 1.000001 times the target, or at most 2^-100 of the range above a rate that meets it. |
| QueueAnalyzer.QueueAnalyzer.MaxRateFor | pkg/analyzer/queueanalyzer.go:204-228 | A target is refused exactly when it is out of reach (inverted for a constant metric); a rate that is returned meets a rising metric's target and is the largest, up to one search step. |
| QueueAnalyzer.QueueAnalyzer.Size | pkg/analyzer/queueanalyzer.go:185-255 | Fails exactly for a negative target, no room for two, or a rejected target; the sized rate meets every active target whose metric rises, every larger rate of the range, by more than one search step, misses a target or the throughput margin, the rates of targets that are not set are the top of the range in figures, and the reported and achieved values are those of the sized rate. |
| Sizing.CeilIsLeast | pkg/core/allocation.go:140-141 | The replica count is the least that is at least one, at least the minimum, and carries the rate. |
| Sizing.SetupInFigures | pkg/core/allocation.go:77-113 | The configured batch, or the profiled one rescaled and rounded down to at least one; ten places to wait per place in the batch; the profile's parameters and the load's request size. |
| Sizing.CountFigures | pkg/core/allocation.go:131-160 | From requests per minute or tokens per second: the replicas carry what is asked for, any smaller count allowed does not, and the latencies are those of one replica's share. |
| Sizing.CreateLoadedAllocation | pkg/core/allocation.go:77-163 | Nothing is returned exactly when a target is negative or rejected; otherwise the replica count is least for the requests per minute or the tokens per second asked for, the per-replica rate is below the sized rate, cost is unit price times instances times replicas, the sized rate is the largest that the targets allow, and the reported latencies are those of the per-replica rate and honour the targets. |
| Sizing.ServiceLevelGuarantee | pkg/core/allocation.go:119-160 | End to end: a time-to-first-token target is met within tolerance or within one search step; so is an inter-token target when its metric rises, in particular when the batch holds two requests, decoding slows with the batch, and there is a prefill or its constant is at most what one request adds. |
| Sizing.FewerReplicasFail | pkg/core/allocation.go:131-141 | If fewer replicas carried the load at some rate of the range, that rate would exceed the sized one, and beyond one search step a target would be missed. |
| Sizing.DeliveredShort | pkg/core/allocation.go:131-148 | The delivered rate is the rate sized for times one minus the share of requests turned away, which lies strictly between zero and one; so a throughput target is missed by that share. |
| Sizing.NotSaturated | pkg/core/allocation.go:254-256 | An allocation is not saturated by the load it was sized for, nor, under a throughput target, by arrivals that ask for no more tokens. |
| Sizing.SaturatedInFigures | pkg/core/allocation.go:254-256 | Saturation compares requests per minute with 60000 times rate per msec times replicas. |
| GreedyModel.HeldByPick | pkg/core/system.go:271-300 | Units held by a set of servers do not depend on the order of visiting them. |
| GreedyModel.GrantConserves | pkg/solver/greedy.go:143-145 | Granting to a server without allocation keeps available plus held equal to capacity, and nothing negative. |
| GreedyModel.UnitsInFigures | pkg/solver/greedy.go:122-140 | What must exist for an allocation to be looked up, and that a replica takes instances times multiplicity. |
| GreedyModel.HeldInFigures | pkg/core/system.go:278-292 | What a server holds of a kind, from its allocation, model and accelerator. |
| GreedyModel.ConservedInFigures | pkg/solver/greedy.go:143-145 | For any list of the servers that hold something, what is left and the units each holds sum to the capacity, and nothing left is negative. |
| GreedyAllocate.BinarySearchFunc | pkg/solver/greedy.go:160-162 | On a sorted queue the search finds the first position that does not come before the entry. |
| GreedyAllocate.ReinsertSorted | pkg/solver/greedy.go:160-162 | Re-insertion keeps the queue sorted. |
| GreedyAllocate.HeadIsPreferred | pkg/solver/greedy.go:74-85 | What queue order means: priority, then larger loss, then dearer candidate. |
| GreedyAllocate.StepKeepsDeltas | pkg/solver/greedy.go:147-159 | A round keeps the delta of every queued entry the penalty of losing its current candidate. |
| GreedyAllocate.EveryRound | pkg/solver/greedy.go:113-164 | After any number of rounds the queue is in order, every delta is current, units are conserved and never overdrawn, refusals stand, and the run still leads to the same end. |
| GreedyAllocate.StepProgress | pkg/solver/greedy.go:113-164 | Every round uses up remaining work, so the loop ends. |
| GreedyAllocate.RunKeeps | pkg/solver/greedy.go:107-166 | Over the whole run units are conserved and never overdrawn, and at the end no candidate of an unallocated server fits in what is left. |
| GreedyAllocate.RunAddsCandidates | pkg/solver/greedy.go:142-146 | A run only adds allocations, each a candidate of its server exactly as asked for. |
| GreedyAllocate.HeadServed | pkg/solver/greedy.go:115-146 | If the candidate at the head of the queue fits, its server ends the run with exactly that. |
| GreedyAllocate.RunSplits | pkg/solver/greedy.go:107-166 | Serving a queue is serving its first priority group to the end and then the rest: re-insertion never crosses a priority boundary. |
| GreedyAllocate.MakePriorityGroups | pkg/solver/greedy.go:321-341 | The loops compute the maximal runs of equal priority. |
| GreedyAllocate.ModesAgree | pkg/solver/greedy.go:89-103 | On a sorted list, serving everybody at once and serving group by group leave the same allocations and the same units. |
| GreedyAllocate.RunServesAll | pkg/solver/greedy.go:142-146 | With capacity for every current candidate that can be looked up, each such server gets exactly that, every other one is left without, and exactly the demand is used up. |
| BestEffort.ScaledPriced | pkg/solver/greedy.go:206-211 | Scaling by replicas keeps the cost equal to unit price times instances times replicas. |
| BestEffort.ScaledInFigures | pkg/solver/greedy.go:206-211 | Cost and value of a scaled allocation are in proportion to its replicas. |
| BestEffort.RunMaximallyShares | pkg/solver/greedy.go:192-223 | The exhaustive policy conserves units, gives each server at least one and strictly fewer replicas than asked, and stops only when not one more fits. |
| BestEffort.RunMaximallyInTurn | pkg/solver/greedy.go:192-223 | Servers are served in order: each gets, from what those before it ended up leaving, its first candidate of which a replica fits, with as many replicas as fit and are asked for, or nothing if none fits. |
| RoundRobin.VisitKeeps | pkg/solver/greedy.go:262-299 | One turn keeps the invariant of the rounds: a member still in has one replica per turn, one that left has no room, and counts are fair. |
| RoundRobin.RoundsBounded | pkg/solver/greedy.go:261-300 | The number of rounds is bounded by the units there were, so the rounds end. |
| RoundRobin.RoundsShare | pkg/solver/greedy.go:237-316 | At the end of the rounds best effort is done as above, without any cap in the loop, and members of the same kind and size differ by at most one replica, the earlier not behind. |
| RoundTurns.VisitInTurn | pkg/solver/greedy.go:262-299 | A visit keeps the record of all turns: what was left at each, who took a replica and who could not. |
| RoundTurns.TurnsEnd | pkg/solver/greedy.go:239-316 | At the end every member has a share of the first candidate that fitted at its first turn, with a replica for exactly the rounds in which one more fitted in what all turns before had left; who could take nothing at its first turn has nothing. |
| GreedyFates.RunAccounts | pkg/solver/greedy.go:107-166 | No server is lost: it is given up with every candidate refused; or it has the first of its candidates that fitted, those before it still refused; or it was dropped without an allocation at a candidate that cannot be looked up, those before it still refused. |
| GreedyFairness.RunByPriority | pkg/solver/greedy.go:107-166 | Servers are given up in order of priority. |
| GreedyRefinement.GreedyRefinesUnlimited | pkg/solver/solver.go:61-79 | When capacity covers every first candidate, a server gets an allocation of exactly the value the unlimited solver picks if its first candidate can be looked up, and otherwise none. |
| GreedyRefinement.GreedyRefinesByServer | pkg/solver/solver.go:61-79 | The same in terms of the server's candidates of least value. |
| GreedyRefinement.ZeroLoadDiffers | pkg/core/allocation.go:259-268 | A server scaled to zero, on which the two solvers differ although it needs no units. |
| GreedySolver.Solver.Allocate | pkg/solver/greedy.go:107-166 | The loop computes the run. |
| GreedySolver.Solver.AllocateMaximally | pkg/solver/greedy.go:194-223 | The loop computes the exhaustive run, first entry first. |
| GreedySolver.Solver.ServeOneMaximally | pkg/solver/greedy.go:197-221 | The first candidate of which a replica fits is cut down to what fits. |
| GreedySolver.Solver.AllocateEqually | pkg/solver/greedy.go:239-316 | The rounds terminate, keep the promises of best effort, are fair, and give every member exactly what its turns allow. |
| GreedySolver.Solver.InitialRounds | pkg/solver/greedy.go:242-257 | The tickets start the invariant of the rounds. |
| GreedySolver.Solver.UpdateMembers | pkg/solver/greedy.go:301-315 | In any order, every member that got something ends with its scaled candidate. |
| GreedySolver.Solver.BestEffortBy | pkg/solver/greedy.go:169-190 | Each policy keeps the promises of best effort and shares exactly as it should: one server after the other, in rounds among all, or in rounds within each priority group in order; the two round-robin policies are fair. |
| GreedySolver.Solver.AllocateGroups | pkg/solver/greedy.go:176-181 | The groups are shared with one after the other, in their order, each from what the one before left. |
| GreedySolver.Solver.ServeAndShare | pkg/solver/greedy.go:92-94 | Serving a list and sharing the rest: conservation, well-formed allocations, every server settled, fair shares among those the run gave up on, and the policy's exact sharing from what the run left. |
| GreedySolver.Solver.AllocateEntries | pkg/solver/greedy.go:89-103 | The same promise for both timings and all four policies; without best effort both timings give the run of the whole list; shares in rounds are fair among everybody left over or within each priority; the stores between the phases and groups are as the schedule of the timing says. |
| GreedySolver.Solver.SortedCandidates | pkg/solver/greedy.go:56-63 | The candidates of a server, cheapest first, none lost. |
| GreedySolver.Solver.BuildEntries | pkg/solver/greedy.go:41-87 | One entry per server with candidates, in queue order, with its first delta. |
| GreedySolver.Solver.SolveGreedy | pkg/solver/greedy.go:35-104 | From full capacity, under every policy and timing: units conserved, each allocation a candidate as asked or cut down, every server settled, everybody whose first candidate can be looked up served as asked when capacity is ample, the round-robin policies fair, and the whole schedule of phases, groups and turns exact. |
| GreedySchedule.BetterPriorityFirst | pkg/solver/greedy.go:192-196 | Two units and two servers that each ask for three: the better priority gets both. |
| GreedySolver.Solver.SolveUnlimited | pkg/solver/solver.go:63-79 | Every server with a candidate below the largest float gets one of least value. |
| GreedySolver.Solver.CheapestOf | pkg/solver/solver.go:66-74 | The running minimum over the candidates. |
| SystemAccounts.SystemState.AllocateByType | pkg/core/system.go:271-300 | The recount by kind equals, in units and cost, the sum over all servers, with the capacity as limit. |
| SystemAccounts.RecountWithinLimits | pkg/core/system.go:271-300 | When units are conserved, count is at most limit and the difference is what the solver had left. |
| SystemAccounts.RecountInFigures | pkg/core/system.go:271-300 | For any list of all servers the count of a kind is the sum of the units each holds, and the limit its capacity. |
| SystemAccounts.GreedyWithinLimits | pkg/core/system.go:271-300 | After any greedy solution the recount of every kind is within its limit. |
| CapacityAnalysis.AnalyzeVariant | internal/capacity/analyzer.go:130-188 | The loop describes the variant: counts, average spare capacity over non-saturated replicas, maxima, saturated pods. |
| CapacityAnalysis.SaturatedOrCounted | internal/capacity/analyzer.go:153-168 | Every replica is either listed as saturated or counted. |
| CapacityAnalysis.SaturatedInFigures | internal/capacity/analyzer.go:153-160 | The pods listed are exactly those of replicas whose cache usage or queue reaches its threshold, in order. |
| CapacityAnalysis.LoadInFigures | internal/capacity/analyzer.go:153-168 | The load is counted and summed over exactly the replicas strictly below both thresholds. |
| CapacityAnalysis.MaximaInFigures | internal/capacity/analyzer.go:170-176 | No replica exceeds the maxima, and they are zero or some replica's. |
| CapacityAnalysis.VariantInFigures | internal/capacity/analyzer.go:130-188 | Counts, averages, listed pods and maxima of a variant from its replicas and the thresholds alone. |
| CapacityAnalysis.GroupByVariant | internal/capacity/analyzer.go:53-69 | Every variant gets its replicas in their original order. |
| CapacityAnalysis.VariantReplicas | internal/capacity/analyzer.go:53-69 | These are exactly the replicas with the variant's name. |
| CapacityAnalysis.LoadRegroups | internal/capacity/analyzer.go:80-87 | The load of a set of variants plus one more is the load of them together. |
| CapacityAnalysis.AnalyzeModelCapacity | internal/capacity/analyzer.go:26-127 | Weighing per-variant averages by counts, in any order of variants, gives the averages and recommendations of the flat list of replicas. |
| CapacityAnalysis.AnalysisInFigures | internal/capacity/analyzer.go:80-119 | Averages, scale-up and the simulated removal from replicas, thresholds and triggers alone; zero averages when every replica is saturated. |
| CapacityAnalysis.QueueSaturates | internal/capacity/analyzer.go:155-156 | A replica with a long queue is not counted, and no scale-up follows. |
| CapacityAnalysis.IsScaleDownSafe | internal/capacity/analyzer.go:226-281 | Safe exactly when the same load on one non-saturated replica less keeps both spare margins; scale-down is never initiated. |
| CapacityAnalysis.SafeExcludesScaleUp | internal/capacity/analyzer.go:108-119 | With non-negative loads a safe removal and a scale-up are never recommended together. |
| CapacityAnalysis.RemovalDoesNotFlap | internal/capacity/analyzer.go:219-281 | However the load is spread over one replica less, scale-up is triggered exactly when the removal had been called unsafe. |
| CapacityTargets.FindCheapest | internal/capacity/analyzer.go:333-347 | The variant to grow: cheapest without a decision in flight, ties by name. |
| CapacityTargets.FindDearest | internal/capacity/analyzer.go:357-375 | The variant to shrink: dearest with two ready replicas and no decision in flight, ties by name. |
| CapacityTargets.StandingTargets | internal/capacity/analyzer.go:313-330 | Ready replicas, or the decision in flight. |
| CapacityTargets.CalculateCapacityTargets | internal/capacity/analyzer.go:291-391 | A target for every analyzed variant and no other, as the rules say; current counts without analysis. |
| CapacityTargets.StateInFigures | internal/capacity/analyzer.go:307-311 | The state of a variant is the last one given for it. |
| CapacityTargets.TargetsInFigures | internal/capacity/analyzer.go:313-388 | Every target from costs, names, ready counts and states alone: who grows, who shrinks, and what stays. |
| CapacityTargets.CheapGrows | internal/capacity/analyzer.go:341-351 | Of two settled variants at costs 5 and 20 the cheaper grows. |
| CapacityTargets.TargetsIgnoreOrder | internal/capacity/analyzer.go:341-374 | The targets do not depend on the order of the variant analyses. |
| CapacityTargets.AtMostOneMoves | internal/capacity/analyzer.go:332-388 | Apart from decisions in flight at most one variant leaves its ready count, by exactly one, and down only when safe and from at least two. |
| CapacityTargets.AsksForFewer | internal/capacity/analyzer.go:313-330 | Exactly when a target is below the current count; replicas that are not ready are enough. |
| CapacityTargets.UnreadyLowersTarget | internal/capacity/analyzer.go:315-317 | Three replicas of which one is ready get a target of one although no removal is safe. |
| CapacityTargets.ArbitrationIsSafe | internal/capacity/analyzer.go:470-535 | Exactly when a variant shrinks or grows, to what count, when an override is reported, and which side a decision is credited to. |
| CapacityTargets.ArbitrationKeepsOne | internal/capacity/analyzer.go:425-427 | Exactly when a running variant is arbitrated to nothing. |
| CapacityTargets.AbsentTargetStopsVariant | internal/capacity/analyzer.go:425-427 | A running variant that the optimizer does not mention, arbitrated to nothing. |
| CapacityTargets.ArbitrateWithModelBased | internal/capacity/analyzer.go:399-441 | One arbitrated decision per state, in order. |
| CapacityTargets.PressureBlocksShrinking | internal/capacity/analyzer.go:501-509 | When the load triggers scale-up no arbitrated decision goes below the current count. |
| ControlLoop.ConvertTargets | internal/controller/variantautoscaling_controller.go:541-600 | Exactly one decision per target, with its target, the counts it was made on, and the action telling which of the two is larger. |
| ControlLoop.Controller.BuildVariantStates | internal/controller/variantautoscaling_controller.go:504-537 | The states carry the current and desired counts of the variants. |
| ControlLoop.Controller.ApplyDecisions | internal/controller/variantautoscaling_controller.go:784-822 | Exactly the targets of writable variants are written as desired counts. |
| ControlLoop.Controller.Reconcile | internal/controller/variantautoscaling_controller.go:602-684 | One pass is a step of the loop; without metrics it changes nothing. |
| ControlLoop.RunStaysPositive | internal/capacity/analyzer.go:313-390 | Over every run from unset or positive counts, every target is at least one. |
| ControlLoop.RunHoldsInFlight | internal/capacity/analyzer.go:319-330 | Over every run a desired count is kept until the current count has caught up. |
| ControlLoop.SettledIsQuiet | internal/capacity/analyzer.go:384-388 | A caught-up variant with all replicas ready is left alone while the load neither presses nor allows a removal. |
| ControlLoop.PassTarget | internal/capacity/analyzer.go:313-388 | What a pass aims at for a variant: the decision in flight, or its ready replicas, one more only under pressure, one less only when safe. |
| ControlLoop.RunDoesNotFlap | internal/capacity/analyzer.go:219-281 | Of two passes of a run of which the later sees the same load on one replica less, the later is pressed exactly when the earlier called the removal unsafe; if the earlier took a replica away, the later adds none. |

## Left out

- Floating-point rounding, infinities and NaN: the model computes with reals. Where a division would be by zero (time averages without arrivals) the result is left arbitrary. `Timed` excludes negative parameters and batches that take no time. Where the effective concurrency divides by zero, a non-zero numerator gives an infinity, which the clamp removes; servers for which it is zero over zero at every rate (a service time that equals the assumed base whatever the batch) are excluded by `WellPosed`, and at a single rate, which a decode-only server of one-token requests can have, zero over zero is read as zero.
- GreedySolver.Solver.AllocateMaximally, AllocateEqually: scaling a candidate in place also changes the server's own candidate list, which a second solve without recomputing candidates would see; candidates are values here.
- GreedySolver.Solver.SolveGreedy: negative capacities, multiplicities, instance counts and replica counts are excluded by `WellFormed`.
- Lookups at the start of `CreateAllocation` and the zero-load branch: one scan and one formula; `CreateLoadedAllocation` starts where a load has been found.
- `Solver.Solve` beyond its choice of algorithm (snapshots and differences of allocations), `Scale`, `ReAllocate`, `TransitionPenalty`, the accelerator power curve, and the registries of models and service classes: settled by reading one branch.
- Human-readable reasons, timestamps, model and namespace labels, logging, metric emission, and the safety net that re-emits old counts.
- Reading Kubernetes objects and Prometheus queries: a pass receives replicas, counts and writable variants as its observation. The fallback to status when a deployment cannot be read is part of the observed current counts.
- Parsing and merging of configuration, environment flags, TLS and backoff.
