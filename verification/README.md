# Drivebrain: verified models

Drivebrain is the on-car software of a driverless race car. This Dafny project models the parts of it whose
correctness is a matter of algorithm and protocol, and proves what they promise. `dafny verify dfyconfig.toml`
checks the whole project.

| file | models |
|---|---|
| `Trapezoid`, `TrapezoidalProfile`, `ProfileRuns`, `ProfileLimits` | the steering column's online motion profile, re-solved every tick |
| `SteeringLoop`, `SteeringTracking` | the steering command loop: fault and seed latches, gating, arming, engagement, and the way to the target |
| `Matching`, `AssociationGate` | greedy one-to-one matching, and the Mahalanobis gate |
| `SlamTypes`, `SlamFrontend`, `FrontendInvariants`, `CandidateEvidence`, `DetectionPlaces`, `FrontendEffects` | the SLAM frontend |
| `GraphSlam`, `Slam`, `Confirmation`, `SlamHistory` | the SLAM backend's bookkeeping, the protocol between both sides, what a new landmark takes over whole runs, and what runs leave behind |
| `LidarCluster` | grid-accelerated Euclidean clustering |
| `OmsStream`, `LittleEndian` | the packet parser of the ground speed sensor's TCP stream |
| `Compression`, `BayerCodec`, `RangeCodec` | the recorded image and range codecs with their decoders |
| `Odometry`, `DeadReckoning` | clock mapping, dead reckoning, pose history and lookup |
| `PathPlanner` | track midpoints and their greedy order |
| `McapLogger`, `BroadcastQueue` | the logger's and the live telemetry server's queues |
| `ConeClassifier` | camera-to-cone matching and fusion |
| `Wrappers`, `Sequences`, `Arithmetic` | shared helpers |

## How the model is made

Code that changes objects step by step is a class whose methods state their whole new state through a
specification function; what the system promises is then proved about those functions, over every run where
runs matter. Threads are state machines over atomic steps: one locked region, or one message written or
sent, is one step. A pass of the steering loop takes the lock of the commanded angle twice; a command that
falls between is part of the pass's input.

Floating point is modelled over `real`; a number or pose that may be infinite or NaN is an `Option`, `None`
when it is not finite. The square root is a parameter `sqrt` constrained by `s >= 0` and `s * s == x`.
Distances are compared by their squares (`CandidateEvidence.SquaredGateIsGate` shows this decides the same).
The solver (iSAM2), zstd and the triangulation are parameters: an arbitrary outcome, a pair of functions of
which one undoes the other, and given half-edge arrays. Clock readings, sensor readings and parameter values
are inputs of the step that reads them. Counters, ids and nanosecond times are unbounded integers except
where their width decides the result: the unsigned age and frame gaps, the odometry stamp, the 32-bit range
differences, the 8-bit image differences and the packed cell key are modelled at their width.

Some fields record history and are read by no operation: a candidate's `sightings` and `vantages`, the
`log`, `accepted`, `exitAt` and `swaps` of the queues, and what the backend has handed to the solver.

## Where the code does less than its documentation says

- That planning anew on every tick is exact (comms/src/KrakenComms.cpp:312-313) holds for every accepted
  tuning, but with a cruise speed of at most 1e-6 deg/s, which the tuning check accepts, the plan leaves out the
  time of the cruise phase and the reference jumps over its distance.
- That arming holds the column until an angle is commanded (comms/src/KrakenComms.cpp:538): arming is
  compared with the last tick that was not gated, so disarming and re-arming while feedback is lost does not hold.
- That a parked car cannot confirm a landmark (slam/include/SlamFrontend.hpp:172-173) needs a positive baseline
  and a threshold above 1: the threshold is also compared on matches that add no evidence, so two looks from
  the same place confirm a cone whose first detection was already enough.
- Samples are stamped no later than their receipt only while the host time is not negative. On a host whose
  clock was never set, a sensor that restarts gives a negative one, which wraps, and samples with a proper host
  time are refused from then on (`Odometry.RestartedClockStopsUpdates`).
- On any host, a sensor that restarts has its samples refused until its new clock has caught up with the old
  one, less the drift allowance (`Odometry.SetBackRefusesIff`).
- The decoders refuse frames above 512 MiB, which the encoders write (`BayerCodec.OversizedImageIsRefused`).
- `log_params` reports success also while no writer runs; its message is then written only if logging is
  started again (`McapLogger.PushIsWrittenIff`).

## Model

| member | source | states |
|---|---|---|
| `Trapezoid.PlanIsShaped` | comms/src/KrakenComms.cpp:319-335 | the solved plan is a trapezoid, described without square root or division: ramp to the peak, cruise, brake to rest, at the limits, and its three distances sum to the signed distance to the goal |
| `Trapezoid.ShapeIsUnique` | comms/src/KrakenComms.cpp:324-335 | a start has only one such trapezoid, so that description determines every number of the plan |
| `Trapezoid.RestIsShaped` | comms/src/KrakenComms.cpp:324-364 | the rest of a plan, stopped at any moment of any phase, is again the trapezoid from there |
| `Trapezoid.RestContinues` | comms/src/KrakenComms.cpp:343-364 | following a plan for t and then its rest for u is following it for t + u, in and across all phases |
| `Profile.FramesAgree` | comms/src/KrakenComms.cpp:315-321 | when only braking is left and both travel directions fit, both give the same motion, so the tie in the choice does not matter |
| `Profile.StepThenStep` | comms/src/KrakenComms.cpp:309-365 | re-solving is exact: a step of dt1 and one of dt2 give the position and velocity of one step of dt1 + dt2, for every state and every tuning the validity check accepts |
| `Profile.StepTakesItsTime` | comms/src/KrakenComms.cpp:329-342 | each step takes exactly its own time off the planned remaining time, down to 0 |
| `Profile.ArrivedIffNoTimeIsLeft` | comms/src/KrakenComms.cpp:338-342 | the remaining time is never negative, and 0 exactly at rest on the goal |
| `Profile.AccelerationIsRate` | comms/src/KrakenComms.cpp:343-365 | at every moment before the end the acceleration given is the rate at which the velocity has been changing for some time, and the position has changed by the mean of the velocities |
| `ProfileRuns.RunIsOneStep` | comms/src/KrakenComms.cpp:312-313 | however a duration is cut into ticks, the reference ends where one step of the whole duration ends |
| `ProfileRuns.ArrivesExactlyOnTime` | comms/src/KrakenComms.cpp:312-313 | a run of ticks is at rest on the goal exactly when the ticks sum to at least the remaining time planned at its start |
| `ProfileLimits.StepWithinLimits` | comms/src/KrakenComms.cpp:309-365 | for every tuning the validity check accepts, one step changes the velocity by at most acceleration * dt and stays below max(speed, cruise); with a cruise speed above 1e-6 it travels at most that times dt |
| `ProfileLimits.RunWithinLimits` | comms/src/KrakenComms.cpp:309-365 | the same limits, for the same tunings, over any sequence of goals and tick lengths |
| `ProfileLimits.TravelIsBoundedIffCruiseIsUsable` | comms/src/KrakenComms.cpp:335-335 | the travel limit holds for all states and goals exactly when the cruise speed is above 1e-6; the tuning check accepts less |
| `ProfileLimits.SlowCruiseJumps` | comms/src/KrakenComms.cpp:335-342 | with a smaller cruise speed the cruise distance is jumped over: a concrete start, goal and tick exceed the travel limit |
| `ProfileLimits.SlowJump` | comms/src/KrakenComms.cpp:335-342 | the start at rest, goal and tick of that jump: the last degree of the move is passed over in no time |
| `ProfileLimits.StopPointNeverCrosses` | comms/src/KrakenComms.cpp:315-317 | for a constant goal the point where the column would stop if it braked now reaches the goal but never crosses it |
| `Profile.TrapezoidalProfile.Step` | comms/src/KrakenComms.cpp:309-365 | overwrites the state with the next reference, for every state and dt |
| `Profile.TrapezoidalProfile.Trajectory` | comms/src/KrakenComms.cpp:343-361 | the sample of the plan at dt, phase by phase |
| `Profile.TrapezoidalProfile.Reset` | comms/src/KrakenComms.cpp:367-370 | restarts the profile at a position and velocity, at zero acceleration |
| `SteeringLoop.KrakenComms.SetAngle` | comms/src/KrakenComms.cpp:205-209 | the commanded angle is clamped to the configured range |
| `SteeringLoop.KrakenComms.UpdateTuning` | comms/src/KrakenComms.cpp:282-307 | a parameter message changes what it names in the tuning, all together, and only if the result has positive cruise and acceleration and no negative deadband; else the whole old tuning stays |
| `SteeringLoop.KrakenComms.Latch` | comms/src/KrakenComms.cpp:493-523 | the fault latch on a reset after seeding, and the retried seed attempt |
| `SteeringLoop.KrakenComms.Hold` | comms/src/KrakenComms.cpp:536-541 | arming takes the column's angle as the command |
| `SteeringLoop.KrakenComms.RunOnce` | comms/src/KrakenComms.cpp:493-579 | one pass of the loop: the new latches, clocks, command and reference, and what is sent to the motor, with the angle another thread commands between the hold and the read of the target; what is sent is a step of the profile toward the target sent, from the last reference or, on engagement, from the moving column |
| `SteeringLoop.DrivesIff` | comms/src/KrakenComms.cpp:493-575 | over every run: a tick drives the motor exactly when the motor was seeded at some tick, no reset was seen since, the column angle is fresh and steering is armed; so a latched fault keeps every later output neutral |
| `SteeringLoop.SeedsOnce` | comms/src/KrakenComms.cpp:518-523 | the motor is seeded at most once in a run |
| `SteeringLoop.ReferenceStaysNearColumn` | comms/src/KrakenComms.cpp:550-566 | from engagement on, the reference is never faster than the top speed, for every tuning, and where every cruise speed is usable it stays within the top speed times the elapsed time of where the column was, on the first tick and later, whatever commands and tunings arrive |
| `SteeringLoop.StaysNearIffCruiseIsUsable` | comms/src/KrakenComms.cpp:550-566 | engaging never makes the reference jump, in any run with a fixed tuning, exactly when the cruise speed is above 1e-6; the tuning check accepts less |
| `SteeringLoop.HoldsIff` | comms/src/KrakenComms.cpp:536-546 | the angle a driving tick targets: one commanded between its hold and its read of the target; else the column's angle, exactly when no earlier ungated tick leaves the loop armed; else the last command; always in the configured range |
| `SteeringLoop.DrivesToLastCommand` | comms/src/KrakenComms.cpp:536-546 | over every run a driving tick targets the last angle commanded since the last tick that held the column, that tick's own commands included, or else the column's angle on that tick |
| `SteeringLoop.SomeTickHolds` | comms/src/KrakenComms.cpp:536-541 | a driving tick holds the column or some earlier one did |
| `SteeringLoop.LastCommandIs` | comms/src/KrakenComms.cpp:205-209 | the last command of a stretch of events is one of them with none after it, and there is none exactly when no event commands an angle |
| `SteeringLoop.RearmingWhileGatedDoesNotHold` | comms/src/KrakenComms.cpp:527-541 | disarming and re-arming while feedback is lost is not noticed: a run in which the loop then drives to the old angle instead of holding the column |
| `SteeringTracking.ReferenceStepsToTarget` | comms/src/KrakenComms.cpp:542-575 | every driving tick steps the profile toward the very target it sends, which lies in the configured range, for the time since the last one or for one period on engagement |
| `SteeringTracking.TracksTarget` | comms/src/KrakenComms.cpp:542-575 | over every run, from engagement on and while target and limits stay the same, the reference is on one move that starts from the moving column: the time that remains to the target falls by the time elapsed, however the ticks divide it, and the reference rests on the target exactly from when the planned time is over |
| `SteeringTracking.GoesOnIff` | comms/src/KrakenComms.cpp:550-579 | a tick goes on with the last reference exactly when the tick before it drove; else it engages anew |
| `SteeringTracking.AttemptsIff` | comms/src/KrakenComms.cpp:518-523 | a seed is attempted exactly on ticks with a fresh column angle, until one is accepted, at least half a second after every earlier attempt |
| `SteeringTracking.ClampIsNearest` | comms/src/KrakenComms.cpp:205-209 | clamping gives the one angle of the range that is nearest |
| `SteeringTracking.UpdateIsTakenWhole` | comms/src/KrakenComms.cpp:260-291 | each parameter a message names takes its value and the others stay, when the result is valid; else all stay |
| `Matching.GreedyIsTheStableMatching` | slam/src/SlamFrontend.cpp:40-54 | the greedy choice is the unique one-to-one set of links in which every link left out shares a side with an earlier chosen one |
| `Matching.SortedIsOrdered` | slam/src/SlamFrontend.cpp:40-42 | sorting orders the links by (distance, detection, target) |
| `Matching.MatchesAreSound` | slam/src/SlamFrontend.cpp:30-54 | matches join unused detections to targets within the gate, and no side is matched twice |
| `Matching.MatchesAreOrdered` | slam/src/SlamFrontend.cpp:40-54 | matches come in order of (distance, detection, target), which is the order in which new ids are handed out |
| `Matching.MatchesAreTheStableMatching` | slam/src/SlamFrontend.cpp:28-55 | nearest_neighbor's result is the only stable matching of the in-gate pairs of an initially unused detection and a target |
| `Matching.LeftOutIsOutbid` | slam/src/SlamFrontend.cpp:40-54 | an in-gate pair is matched, or a matched pair of the same detection or target is closer, or as close and first by detection, then target |
| `Matching.NearestNeighbor` | slam/src/SlamFrontend.cpp:28-55 | returns those matches in order and marks exactly the matched detections as used |
| `Matching.TakeClosest` | slam/src/SlamFrontend.cpp:44-54 | takes the sorted pairs greedily, each whose detection and target are both free, and marks those detections |
| `Matching.CollectLinks` | slam/src/SlamFrontend.cpp:30-38 | the in-gate pairs of unused detections, row by row |
| `AssociationGate.DetFactors` | slam/src/SlamFrontend.cpp:65-68 | the determinant of the innovation covariance is the product of its variances along and across the lever |
| `AssociationGate.InnovationSpreads` | slam/src/SlamFrontend.cpp:65-68 | the covariance maps every vector as drift of the car's pose, seen at the lever, plus detection noise do |
| `AssociationGate.QuadSplits` | slam/src/SlamFrontend.cpp:65-68 | its quadratic form is the frames times that of one frame's drift, plus that of the detection noise |
| `AssociationGate.InvertibleIff` | slam/src/SlamFrontend.cpp:65-70 | the covariance is invertible exactly when there is position drift or detection noise, whatever the lever and the age, and never has a negative determinant |
| `AssociationGate.SolveIsInverse` | slam/src/SlamFrontend.cpp:70-70 | where the covariance is invertible, the pivoted decomposition solves for a vector that the covariance maps back |
| `AssociationGate.DistanceIs` | slam/src/SlamFrontend.cpp:62-71 | with drift in position or detection noise the squared distance is the innovation times whatever drift and detection noise, at the lever from the car to the landmark, map to the innovation |
| `AssociationGate.SingularDistance` | slam/src/SlamFrontend.cpp:70-70 | with neither drift in position nor detection noise only the innovation along the larger diagonal entry counts, and nothing when that is 0 |
| `AssociationGate.DistanceIsNonNegative` | slam/src/SlamFrontend.cpp:62-71 | the squared distance is never negative, whatever the configured noise |
| `AssociationGate.DistanceShrinksWithAbsence` | slam/src/SlamFrontend.cpp:226-235 | whatever the configured noise, the distance never increases as more frames pass since the landmark was seen: an associable detection stays associable |
| `DetectionPlaces.GateOnlyWidens` | slam/src/SlamFrontend.cpp:226-235 | in every configuration and map, the distance the first stage compares is never negative, and does not increase with the frame count while the landmark is not seen |
| `FrontendEffects.MapDistanceIs` | slam/src/SlamFrontend.cpp:216-235 | the distance the first stage compares is from the detection in odom to where the inverse map pose puts the landmark, with the configured noise and the drift of the frames since the landmark was last observed, at least of one |
| `SlamTypes.InverseUndoes` | slam/src/SlamFrontend.cpp:216-220 | inverting a pose undoes it, both ways |
| `SlamTypes.PosePlacesCar` | slam/src/SlamFrontend.cpp:110-113 | a pose takes the origin to the car and what is ahead of it along its heading |
| `SlamTypes.PoseIsIsometry` | slam/src/SlamFrontend.cpp:110-113 | a pose keeps distances and the sense of rotation |
| `FrontendEffects.AcceptedIff` | slam/src/SlamFrontend.cpp:99-104 | a frame is accepted exactly when its pose is finite and it is newer than the last accepted one; then it is counted, and its time and pose are emitted; else nothing changes |
| `Frontend.UsableArePlaced` | slam/src/SlamFrontend.cpp:106-117 | the usable detections are, in order, exactly those with finite position and confidence and an admitted confidence, each where the car saw it and where the frame's pose takes that in odom |
| `FrontendEffects.MapMatchingIsStable` | slam/src/SlamFrontend.cpp:209-238 | the first stage makes the one stable matching of unused detections to the map's landmarks at distances within the gate, and only when there is a map that is not newer than the frame |
| `FrontendEffects.IndicesAre` | slam/src/SlamFrontend.cpp:285-288 | a candidate stage considers exactly the candidates with, or without, an id, in order |
| `FrontendEffects.CandidateMatchingIsStable` | slam/src/SlamFrontend.cpp:285-298 | the other stages make the one stable matching of unused detections to those candidates by their distance in odom, within the candidate gate |
| `FrontendEffects.MapMatchesAreReported` | slam/src/SlamFrontend.cpp:236-241 | the first stage reports each match with the landmark's id and where the car saw the detection |
| `FrontendEffects.GraphMatchesAreReported` | slam/src/SlamFrontend.cpp:249-253 | the second stage reports each match with the candidate's id and where the car saw the detection |
| `FrontendEffects.FrameReports` | slam/src/SlamFrontend.cpp:119-126 | a frame emits all that its three stages report, in the order of the stages, each going on from the one before |
| `FrontendEffects.GraphStageSees` | slam/src/SlamFrontend.cpp:298-305 | the second stage gives each matched candidate its detection as one more sighting, seen now, and moves it to the mean of them all; id and evidence stay, and so does every other candidate |
| `FrontendEffects.ThirdStageSees` | slam/src/SlamFrontend.cpp:262-305 | the third stage does the same with the unconfirmed candidates, adds the detection's confidence as evidence exactly when the car is at least the baseline from the last evidence, and gives an id exactly when the evidence reaches the threshold |
| `FrontendEffects.FrameSettles` | slam/src/SlamFrontend.cpp:309-333 | at the end of a frame each unused detection starts an unconfirmed candidate where it is in odom, with its confidence as evidence from the car's place, and of all candidates exactly those seen within 3 s, or 1 s once in the graph, stay, in order |
| `FrontendEffects.FrameRecords` | slam/src/SlamFrontend.cpp:131-136 | a frame records its number for exactly the landmarks it observes |
| `FrontendEffects.MapIsTakenIff` | slam/src/SlamFrontend.cpp:141-155 | a map is taken exactly when its pose and landmarks are finite, no id is reserved or repeated, and both its time and its sequence number are above those of the map in use |
| `Frontend.WithMapTook` | slam/src/SlamFrontend.cpp:157-168 | taking a map replaces the map, raises the next id no further than above the map's ids, and drops exactly the candidates it names; all others stay unchanged, in order |
| `FrontendEffects.TakenMapKeepsRest` | slam/src/SlamFrontend.cpp:161-165 | so every candidate without an id stays, and the graph's ids are the old ones less the map's |
| `FrontendEffects.ConeMapPlaces` | slam/src/SlamFrontend.cpp:171-207 | the cone map has exactly each landmark of the map where the map has it, marked optimised, and each candidate in the graph where the map's pose takes it, not so marked |
| `Frontend.SlamFrontend.ProcessFrame` | slam/src/SlamFrontend.cpp:94-139 | the whole new state and the emitted observations of a frame; a rejected frame changes nothing |
| `Frontend.SlamFrontend.RunStages` | slam/src/SlamFrontend.cpp:119-126 | the three matching stages in order of trust, sharing the used marks |
| `Frontend.SlamFrontend.UsableDetections` | slam/src/SlamFrontend.cpp:106-117 | the finite detections of admitted confidence, exactly those and in order, each placed in odom by the frame's pose |
| `Frontend.SlamFrontend.SetMap` | slam/src/SlamFrontend.cpp:141-169 | accepts a map exactly when it is finite, newer, and has distinct ids below the reserved one; then the next id goes up as far as needed, the candidates the map names go and all others stay as they are, in order; a rejected map changes nothing |
| `Frontend.SlamFrontend.CheckLandmarks` | slam/src/SlamFrontend.cpp:148-155 | the landmark checks hold exactly when ids are distinct and everything is finite |
| `Frontend.SlamFrontend.ConeMap` | slam/src/SlamFrontend.cpp:171-207 | the cones of the map and of in-graph candidates, sorted by id |
| `Frontend.SlamFrontend.MatchMapped` | slam/src/SlamFrontend.cpp:209-244 | stage 1, with the frames since each landmark was seen and the map entries it touches |
| `Frontend.SlamFrontend.MatchGraph` | slam/src/SlamFrontend.cpp:246-256 | stage 2: in-graph candidates |
| `Frontend.SlamFrontend.MatchUnconfirmed` | slam/src/SlamFrontend.cpp:258-280 | stage 3: unconfirmed candidates |
| `Frontend.SlamFrontend.ConfirmMatch` | slam/src/SlamFrontend.cpp:268-278 | evidence only from a new vantage point, and promotion with the next id at the threshold |
| `Frontend.SlamFrontend.MatchCandidates` | slam/src/SlamFrontend.cpp:282-307 | matches candidates of one kind and folds the detections into their positions |
| `Frontend.SlamFrontend.AbsorbMatches` | slam/src/SlamFrontend.cpp:298-305 | the running mean, count and last-seen time of each matched candidate |
| `Frontend.SlamFrontend.SpawnCandidates` | slam/src/SlamFrontend.cpp:309-320 | a new candidate for every unused detection, in order |
| `Frontend.SlamFrontend.PruneCandidates` | slam/src/SlamFrontend.cpp:322-333 | keeps, in order, exactly the candidates seen within 3 s, or within 1 s once in the graph |
| `FrontendInvariants.ProcessKeepsSound` | slam/src/SlamFrontend.cpp:94-139 | every frame keeps ids distinct, handed out and disjoint from the map's, and emits each landmark at most once: InMap names the map, InGraph the graph's candidates, New the next ids in order |
| `FrontendInvariants.ConfirmKeeps` | slam/src/SlamFrontend.cpp:258-280 | promotion hands out consecutive ids and keeps in-graph ids distinct |
| `DetectionPlaces.EachDetectionHasOnePlace` | slam/src/SlamFrontend.cpp:119-128 | for each usable detection exactly one holds: the map stage matches it, the in-graph stage does, the unconfirmed stage does, or it stays unused; no stage matches it twice, and the first two report each of their matches, in order, with the detection's measurement |
| `DetectionPlaces.SpawnedAreUnused` | slam/src/SlamFrontend.cpp:309-320 | the candidates a frame starts are those of the unused detections, one each, in order |
| `DetectionPlaces.PlacesAddUp` | slam/src/SlamFrontend.cpp:119-128 | InMap and InGraph observations, matches of unconfirmed candidates and new candidates add up to the usable detections |
| `DetectionPlaces.MapComesFirst` | slam/src/SlamFrontend.cpp:123-124 | a detection within the map gate of a landmark is never left to candidates unless an earlier link of that stage took the landmark |
| `DetectionPlaces.GraphComesBeforeUnconfirmed` | slam/src/SlamFrontend.cpp:123-126 | nor is one within the gate of an in-graph candidate left to unconfirmed ones, unless that candidate was taken |
| `DetectionPlaces.MarksCount` | slam/src/SlamFrontend.cpp:50-52 | matching marks exactly one unused detection per match |
| `DetectionPlaces.SpawnsForUnused` | slam/src/SlamFrontend.cpp:312-317 | as many candidates are spawned as detections were left unused |
| `CandidateEvidence.SightedIsMean` | slam/src/SlamFrontend.cpp:300-302 | folding in a detection keeps the position exactly the mean of all detections matched to the candidate |
| `CandidateEvidence.ProcessKeepsCandidatesSound` | slam/src/SlamFrontend.cpp:258-333 | every frame keeps all positions means, unpromoted evidence below the threshold except on a candidate just created, and evidence from vantages where the car was, each the baseline from the one before and worth at most 1 |
| `CandidateEvidence.ConfirmMatchedKeepsSound` | slam/src/SlamFrontend.cpp:258-280 | a candidate is promoted only from the baseline away from its last evidence, or when the detection that created it sufficed |
| `CandidateEvidence.ConfirmMatchedAnnounces` | slam/src/SlamFrontend.cpp:258-280 | every New observation names an unconfirmed candidate in the gate of a detection, whose position and evidence absorb that detection, and carries its measurement |
| `CandidateEvidence.PromotesIff` | slam/src/SlamFrontend.cpp:269-276 | exactly when a match promotes a pending candidate |
| `Confirmation.NewIsEarned` | slam/src/SlamFrontend.cpp:258-280 | after any run from the start, every New observation is of an unconfirmed candidate whose evidence was gathered where the car has been; with a threshold above 1 the car is at least the baseline away from there and the evidence reaches the threshold; and that evidence is from at least as many vantages as the threshold, each the baseline from the one before |
| `Confirmation.LingeringConfirmsNothing` | slam/include/SlamFrontend.hpp:171-173 | with a threshold above 1, a run whose places are all less than the baseline apart announces no landmark |
| `Confirmation.TwoLooksConfirm` | slam/src/SlamFrontend.cpp:269-278 | with a threshold of at most 1, two frames of one cone from the same place announce it |
| `Confirmation.StandingCarConfirmsNothingIff` | slam/include/SlamFrontend.hpp:171-173 | a car that stands still never gets a landmark confirmed, in any run, exactly when the baseline is positive and the threshold above 1, or no detection can be usable or in a gate; the header promises it for every configuration |
| `CandidateEvidence.PrunedIff` | slam/src/SlamFrontend.cpp:322-331 | a candidate survives pruning exactly when seen within 3 s, or within 1 s once in the graph |
| `CandidateEvidence.AgesDoNotUnderflow` | slam/src/SlamFrontend.cpp:329-329 | the unsigned age of every candidate of a sound state is its true age |
| `CandidateEvidence.SquaredGateIsGate` | slam/src/SlamFrontend.cpp:269-298 | comparing squared distances, as the model does, decides the gates the code writes on distances |
| `GraphBackend.UpdateKeepsWellFormed` | slam/src/GraphSlam.cpp:51-167 | every update, whatever the observations and the solver's outcome, keeps the graph closed and conserved: keys inserted once, factors over inserted keys, one prior on the first pose, one odometry factor from each pose to the next, one factor per admitted observation, pending poses the pose count modulo 5; a failure is absorbing |
| `GraphBackend.NewKeyIsFresh` | slam/src/GraphSlam.cpp:106-110 | inserting the key of an admitted new landmark never meets an existing key, so it cannot throw |
| `GraphBackend.FlushedKnowsLandmarks` | slam/src/GraphSlam.cpp:156-158 | after a solve every landmark has a key in the solver, so estimating it cannot throw |
| `GraphBackend.AdmissionIs` | slam/src/GraphSlam.cpp:79-116 | each observation is counted under exactly one verdict: not finite, repeated in the frame, new though known or known though new, or admitted; the admitted ones and no others become measurements from the frame's pose, in order |
| `GraphBackend.UpdateIs` | slam/src/GraphSlam.cpp:118-166 | what an update does: the frame's keys and factors join the others; on every fifth frame the solver takes over all that is pending unless its first call throws; a map comes out exactly when it solves, and any throw is a failure |
| `GraphBackend.LandmarksAreEstimates` | slam/src/GraphSlam.cpp:156-158 | a solved map has one landmark for each known id, in order, at the estimate of that id |
| `GraphBackend.GraphSlam.Update` | slam/src/GraphSlam.cpp:51-167 | the whole new graph, the map emitted and the admission counts |
| `GraphBackend.GraphSlam.AddFrame` | slam/src/GraphSlam.cpp:64-121 | the pose, its factor and the admitted observations, each rejection counted by its reason |
| `GraphBackend.GraphSlam.RunSolver` | slam/src/GraphSlam.cpp:132-166 | what is handed over, the map with the next sequence number, and failure in the solve or in an estimate; a failing landmark estimate has used up its sequence number |
| `GraphBackend.GraphSlam.EstimateLandmarks` | slam/src/GraphSlam.cpp:156-158 | all known landmarks, each once, in order of id and at the estimate of its own id |
| `AssociationProtocol.StepKeepsInStep` | slam/src/GraphSlam.cpp:190-198 | one scan keeps both sides sound; while the backend has not failed it knows exactly the ids handed out and admits all it receives |
| `AssociationProtocol.EmittedIsAdmitted` | slam/src/GraphSlam.cpp:85-116 | of an emitted frame nothing is rejected as non-finite, duplicate or unconfirmed, and admitted equals received |
| `AssociationProtocol.SolvedMapIsTakenIff` | slam/src/SlamFrontend.cpp:141-155 | the frontend takes a solved map exactly when its numbers are finite and no id is the reserved one; sequence and timestamp never stand in the way |
| `AssociationProtocol.EveryScanIsDelivered` | slam/src/GraphSlam.cpp:190-198 | over every run of scans and solver outcomes, every scan is delivered in full |
| `AssociationProtocol.EachIdIsAnnouncedOnce` | slam/src/SlamFrontend.cpp:275-277 | over every run each id is announced as New exactly once, in increasing order without gaps |
| `AssociationProtocol.CandidatesStaySound` | slam/src/SlamFrontend.cpp:94-169 | over every run, maps included, candidate positions stay means of their detections, and evidence is from vantages the car has been at, each the baseline from the one before and worth at most 1 |
| `AssociationProtocol.ConeMapIncreases` | slam/src/SlamFrontend.cpp:171-207 | the cone map lists map and in-graph landmarks, each once, by strictly increasing id |
| `AssociationProtocol.ReachableGraphIsWellFormed` | slam/src/GraphSlam.cpp:51-167 | every graph reachable from an empty one by any observations and outcomes is well-formed; its factors number its poses plus its admitted observations |
| `SlamHistory.SolvedMapReachesFrontend` | slam/src/GraphSlam.cpp:190-202 | a solve gives a map of the frame's time and the next sequence number with the solver's pose and every landmark handed out at its own estimate, and the frontend takes it exactly when the pose and all estimates are finite; without a solve both maps stay |
| `SlamHistory.LastObservedIsLast` | slam/src/SlamFrontend.cpp:131-133 | over every run the frame count grows by the frames emitted, and the frame recorded for a landmark is the last of them that observes it |
| `SlamHistory.AgeIsFramesSince` | slam/src/SlamFrontend.cpp:226-230 | after any run from the start the drift the gate allows a landmark is that of the frames since the last one that observed it |
| `AssociationProtocol.SlamStack.Update` | slam/src/GraphSlam.cpp:177-202 | one scan through the two objects: their new states and the cone map |
| `LidarCluster.CellKeyIsInjective` | perception/src/LidarFilter.cpp:42-45 | different 32-bit cells have different packed keys |
| `LidarCluster.NearIff` | perception/src/LidarFilter.cpp:146-149 | points are near exactly when at most 0.25 m apart |
| `LidarCluster.NearIsAdjacent` | perception/src/LidarFilter.cpp:117-122 | points within the tolerance lie in cells at most one apart on each axis |
| `LidarCluster.LookupIsCell` | perception/src/LidarFilter.cpp:140-144 | looking a neighbour cell up lists exactly the points in that cell |
| `LidarCluster.NearIsInNineCells` | perception/src/LidarFilter.cpp:140-148 | the nine cells around a point hold every point near it |
| `LidarCluster.BuildGrid` | perception/src/LidarFilter.cpp:112-123 | every point is listed under the key of its cell, and only there |
| `LidarCluster.VisitCell` | perception/src/LidarFilter.cpp:144-152 | marks and lists, once each, the unvisited points of a cell that are near |
| `LidarCluster.VisitNeighbors` | perception/src/LidarFilter.cpp:140-154 | the 3x3 lookup finds exactly what a scan of all points would: every unvisited point near the current one |
| `LidarCluster.Grow` | perception/src/LidarFilter.cpp:127-156 | the breadth-first search from an unvisited point visits exactly its connected component |
| `LidarCluster.Cluster` | perception/src/LidarFilter.cpp:101-168 | the clusters are exactly the connected components of 3 to 1000 points, each listed once, in order of first point |
| `LidarCluster.ClusteredIffComponentAdmitted` | perception/src/LidarFilter.cpp:158-161 | a point is in some cluster exactly when its component has 3 to 1000 points, and the cluster lists exactly that component |
| `LidarCluster.ClustersAreDisjoint` | perception/src/LidarFilter.cpp:124-155 | no point is in two clusters |
| `OmsStream.OmsComms.Connected` | comms/src/OMSComms.cpp:37-55 | a new connection starts with an empty stream |
| `OmsStream.OmsComms.ParsePackets` | comms/src/OMSComms.cpp:90-117 | logs the frames of all complete packets and keeps the rest; a malformed header keeps the stream and reports it |
| `OmsStream.OmsComms.LogFrames` | comms/src/OMSComms.cpp:107-112 | the frames of one packet, in order |
| `OmsStream.OmsComms.HandleReceive` | comms/src/OMSComms.cpp:73-87 | appends and parses; a malformed header ends the connection |
| `OmsStream.FramesLieInPacket` | comms/src/OMSComms.cpp:97-112 | every frame copied lies inside its packet, and an accepted packet consumes at least 160 bytes |
| `OmsStream.ParseOfConcat` | comms/src/OMSComms.cpp:90-117 | parsing more bytes logs the same frames first and goes on from what was left; a malformed verdict stands |
| `OmsStream.ChunkingDoesNotMatter` | comms/src/OMSComms.cpp:73-117 | within a connection the frames logged and the verdict depend only on the bytes received, not on how reads cut them; the tail kept is under 65548 bytes |
| `OmsStream.RestIsIncomplete` | comms/src/OMSComms.cpp:94-104 | what is kept holds no complete packet and is under 65548 bytes |
| `OmsStream.ParseUndoesPrint` | comms/src/OMSComms.cpp:90-117 | parsing the print of any packets gives their frames in order, with nothing left |
| `OmsStream.AcceptedIsPrinted` | comms/src/OMSComms.cpp:97-115 | a stream is accepted only if it is the print of valid packets, whose frames are logged, and an incomplete rest |
| `LittleEndian.Le32UndoesU32` | comms/include/OMSComms.hpp:29-36 | the little-endian layout and its reading are inverse |
| `LittleEndian.U32Is` | comms/include/OMSComms.hpp:29-36 | the first byte is the least significant |
| `BayerCodec.OrderFillsImage` | comms/src/ImageCompression.cpp:10-36 | the four planes fill exactly width * height slots, for every size |
| `BayerCodec.OrderHasNoRepeats` | comms/src/ImageCompression.cpp:14-34 | no pixel is stored twice |
| `BayerCodec.InOrder` | comms/src/ImageCompression.cpp:14-34 | every pixel is stored |
| `BayerCodec.OrderAt` | comms/src/ImageCompression.cpp:10-36 | where each pixel is stored: red plane, the greens of its rows, the other greens, blue, each row by row |
| `BayerCodec.SplitAt` | comms/src/ImageCompression.cpp:10-36 | each pixel's value is stored at that place |
| `BayerCodec.SplitIsInjective` | comms/src/ImageCompression.cpp:10-36 | an image is determined by its planes |
| `BayerCodec.SplitPlane` | comms/src/ImageCompression.cpp:15-19 | one plane, written row by row at the running offset |
| `BayerCodec.SplitBayerImage` | comms/src/ImageCompression.cpp:10-36 | the image's values in plane order |
| `BayerCodec.ComputeDifferences` | comms/src/ImageCompression.cpp:38-45 | the differences modulo 256 despite C's signed remainder, the first element as it is |
| `BayerCodec.CompressBayerImage` | comms/src/ImageCompression.cpp:62-72 | what is handed to zstd |
| `BayerCodec.MergePlane` | scripts/decompress_mcap.py:63-67 | one plane put back without disturbing the pixels of the others |
| `BayerCodec.MergePlanes` | scripts/decompress_mcap.py:61-68 | the planes put back: splitting the result gives them again, whatever the image held before |
| `BayerCodec.DecodeBayer` | scripts/decompress_mcap.py:56-68 | an error for a bad size or content, else the image whose planes are the cumulative sums |
| `BayerCodec.BayerRoundTrip` | scripts/decompress_mcap.py:56-68 | for every width and height, odd ones included, decoding an encoded image gives it back exactly when it is within 512 MiB, and an error otherwise |
| `BayerCodec.OversizedImageIsRefused` | scripts/decompress_mcap.py:47-49 | an image of 512 MiB and one byte, which the encoder writes, is refused |
| `Compression.SumsUndoDifferences` | scripts/decompress_mcap.py:60-60 | cumulative sums modulo the word size undo differences, so no two images share an encoding |
| `Compression.DifferencesUndoSums` | comms/src/ImageCompression.cpp:38-45 | and differences undo sums, so no two encodings share an image |
| `Compression.ValueIsPreviousPlusDifference` | comms/src/ImageCompression.cpp:38-45 | each value is the one before plus its difference, modulo the word size; the first is its own difference |
| `Compression.DecompressedIff` | scripts/decompress_mcap.py:47-53 | a compressed content comes back exactly when its size is within the bound |
| `RangeCodec.RangeDifferences` | comms/src/RangeCompression.cpp:18-24 | the differences against the previous range, with 32-bit wrap-around |
| `RangeCodec.EncodedAt` | comms/src/RangeCompression.cpp:18-31 | four bytes for each range, least significant first, hold what it adds to the range before, modulo 2^32 |
| `RangeCodec.CompressRangeImage` | comms/src/RangeCompression.cpp:9-34 | no data for a missing or empty image, else the compressed differences |
| `RangeCodec.WordsOfBytes` | scripts/decompress_mcap.py:73-75 | reading the words of written bytes gives them back |
| `RangeCodec.EncodingUndoesDecoding` | scripts/decompress_mcap.py:73-75 | every content of whole words is the encoding of the ranges it decodes to |
| `RangeCodec.DecodingIsInjective` | scripts/decompress_mcap.py:73-75 | so no two contents decode to the same ranges |
| `RangeCodec.RangeRoundTrip` | scripts/decompress_mcap.py:71-76 | decoding encoded ranges gives them back exactly when their bytes are within 512 MiB, and an error otherwise |
| `RangeCodec.OversizedRangesAreRefused` | scripts/decompress_mcap.py:47-49 | an image of one range more than 512 MiB hold, which the encoder writes, is refused |
| `Odometry.Odometry.HostTime` | estimation/src/Odometry.cpp:107-114 | the new clock offset and the host stamp, with the cast to uint64 |
| `Odometry.Odometry.Measure` | estimation/src/Odometry.cpp:36-42 | velocity of base_link: zero at standstill, held while invalid, else the sensor's less the yaw rate crossed with the sensor's place |
| `Odometry.Odometry.Trim` | estimation/src/Odometry.cpp:51-55 | the entries of the last second, never dropping the newest |
| `Odometry.Odometry.Update` | estimation/src/Odometry.cpp:27-61 | the whole new state; an accepted sample moves the pose by the mean of the last twist and its own, for the time between the stamps; a sample no newer than the last only moves the clock offset |
| `Odometry.Odometry.LowerBound` | estimation/src/Odometry.cpp:80-82 | the first entry not before the timestamp |
| `Odometry.Odometry.PoseAt` | estimation/src/Odometry.cpp:63-100 | the sample at the timestamp, or the interpolation of its two neighbours, or nothing outside the buffer |
| `Odometry.OffsetIsMinimum` | estimation/src/Odometry.cpp:110-112 | over every history the offset is the minimum of all receive - sample times, each allowed 2000 ns of drift per later sample, rejected samples included |
| `Odometry.StampedByReceiptIff` | estimation/src/Odometry.cpp:107-114 | a sample is stamped no later than its receipt exactly when its host time is not negative; else the stamp wraps above every signed time |
| `Odometry.RestartedClockStopsUpdates` | estimation/src/Odometry.cpp:107-114 | a host whose clock is 10 s past its epoch and a sensor that restarts after 100 s: the next sample is stamped after its receipt and accepted, and once the host time is positive again it is refused |
| `Odometry.WrappedStampStopsUpdates` | estimation/src/Odometry.cpp:31-34 | after a wrapped stamp no sample with a proper host time is accepted any more |
| `Odometry.TrackAscends` | estimation/src/Odometry.cpp:32-49 | accepted stamps are strictly increasing |
| `Odometry.AcceptsIff` | estimation/src/Odometry.cpp:31-34 | a sample is accepted exactly when its stamp is above 0 and above every stamp accepted before |
| `Odometry.SetBackRefusesIff` | estimation/src/Odometry.cpp:107-114 | how long a sensor clock that is set back, as by a restart, keeps all samples refused: exactly until it has caught up with its last reading before, less 2000 ns for each sample since |
| `Odometry.OffsetDrifts` | estimation/src/Odometry.cpp:110-112 | while the sensor's clock reads low the offset stays the one from before, plus 2000 ns for each sample |
| `Odometry.RestartIsRefused` | estimation/src/Odometry.cpp:31-34 | with the host's clock set, a sensor that restarts after 100 s: its first sample a second later is refused |
| `Odometry.BufferIsRecentTrack` | estimation/src/Odometry.cpp:49-55 | the buffer is exactly the accepted samples within 1 s of the newest, in order |
| `Odometry.LookupAnswersIff` | estimation/src/Odometry.cpp:75-85 | a lookup answers exactly inside the buffer's range, and a buffered sample is found exactly |
| `Odometry.AnswerIsUnique` | estimation/src/Odometry.cpp:80-99 | there is only one right answer |
| `Odometry.LookupInBufferIsLookupInTrack` | estimation/src/Odometry.cpp:75-99 | what the buffer answers is what a lookup among all samples ever accepted answers |
| `DeadReckoning.TrackIsReckoned` | estimation/src/Odometry.cpp:36-49 | over every history the accepted samples are, in order, the track: it starts at the origin, and each later pose is the one before moved by the mean of the two samples' twists for the seconds between their stamps; a sample's twist is zero at standstill, the one before while its status is bad, else the sensor's less the yaw rate crossed with the sensor's place |
| `DeadReckoning.ConstantTwistIsOneMove` | estimation/src/Odometry.cpp:44-46 | with a motion that adds up, a constant measurement makes one move of the whole time, however many samples there are and however they are spaced |
| `DeadReckoning.StandstillKeepsPose` | estimation/src/Odometry.cpp:41-46 | while the car stands still its pose does not change, whatever else the sensor says |
| `Odometry.BetweenIsStrict` | estimation/src/Odometry.cpp:88-99 | between two samples each coordinate lies strictly between theirs unless they are equal; the yaw lies so on an arc of at most half a turn from the first yaw to the direction of the second |
| `Odometry.BetweenIsElapsedFraction` | estimation/src/Odometry.cpp:88-99 | between two samples position and yaw have gone exactly the fraction of the time elapsed |
| `PathPlanner.CollectMidpoints` | planning/src/PathPlanner.cpp:58-88 | the midpoints of the kept half-edges, in order |
| `PathPlanner.EachEdgeGivesOneMidpoint` | planning/src/PathPlanner.cpp:58-88 | with paired half-edges, every interior blue-yellow edge of at most 6 m gives exactly one midpoint, and no boundary or other edge gives any |
| `PathPlanner.TrackMidpointsAreHalfway` | planning/src/PathPlanner.cpp:84-87 | each midpoint is halfway between the cones at its edge's ends, in order of the edges |
| `PathPlanner.FindStart` | planning/src/PathPlanner.cpp:93-109 | the first nearest point strictly ahead |
| `PathPlanner.NearestAheadIsNearest` | planning/src/PathPlanner.cpp:93-109 | the start is ahead and no point ahead is nearer; none is returned only if none is ahead |
| `PathPlanner.AheadIff` | planning/src/PathPlanner.cpp:97-106 | ahead is on the heading's side of the vehicle, at any distance a float can hold |
| `PathPlanner.FindNext` | planning/src/PathPlanner.cpp:120-139 | the first cheapest feasible hop among the points left |
| `PathPlanner.BestNextIsBest` | planning/src/PathPlanner.cpp:120-139 | the chosen hop is feasible and no feasible one is cheaper; none is chosen only if none is feasible |
| `PathPlanner.HopIs` | planning/src/PathPlanner.cpp:124-151 | a hop of length l is feasible exactly when l^2 is from 1e-6 to 64 and its advance along the heading is above -0.3 l; it costs 2 l less that advance, and the next heading is its unit vector |
| `PathPlanner.OrderAhead` | planning/src/PathPlanner.cpp:93-152 | the in-place selection leaves exactly the specified arrangement and count |
| `PathPlanner.ArrangedIsGreedy` | planning/src/PathPlanner.cpp:113-152 | the selection permutes the points, keeps those placed, and every point it places is a best hop from the one before |
| `PathPlanner.PlanIsGreedy` | planning/src/PathPlanner.cpp:93-155 | path and rest rearrange the midpoints; at most 20 points, starting at the nearest ahead, each next one the cheapest feasible of those left, until none is feasible |
| `PathPlanner.PlanPath` | planning/src/PathPlanner.cpp:28-157 | the plan for a triangulation; nothing for fewer than three cones |
| `McapLogger.MCAPLogger.LogMessage` | core/src/MCAPLogger.cpp:244-259 | pushes and returns 0 while logging, else returns -1 and changes nothing |
| `McapLogger.MCAPLogger.LogParams` | core/src/MCAPLogger.cpp:307-321 | pushes whether or not logging is active |
| `McapLogger.MCAPLogger.InitLogging` | core/src/MCAPLogger.cpp:223-230 | logging on, writer running |
| `McapLogger.MCAPLogger.RequestStop` | core/src/MCAPLogger.cpp:232-237 | logging off; a writer that runs drains, and one not yet spawned will find logging off |
| `McapLogger.MCAPLogger.TakeBatch` | core/src/MCAPLogger.cpp:275-283 | the writer's locked region: take all, wait, or exit |
| `McapLogger.MCAPLogger.WriteNext` | core/src/MCAPLogger.cpp:285-301 | one message, on a new channel if its topic has none |
| `McapLogger.NothingIsLost` | core/src/MCAPLogger.cpp:244-321 | over every interleaving, written, in-flight and buffered messages together are all messages pushed, in order |
| `McapLogger.AcceptedIsWritten` | core/src/MCAPLogger.cpp:232-283 | once the writer has been joined, every message for which log_msg returned 0 is in the file |
| `McapLogger.DownWritesExactly` | core/src/MCAPLogger.cpp:271-321 | without a writer, the file holds exactly the messages pushed before its last exit |
| `McapLogger.PushIsWrittenIff` | core/src/MCAPLogger.cpp:307-321 | in every reachable state, parameters pushed now are in the file whenever the writer is down later, whatever happens in between, exactly when the writer is not down at the push |
| `McapLogger.PushedWhileDownWaits` | core/src/MCAPLogger.cpp:307-321 | parameters pushed while the writer is down stay out of the file unless logging is started again |
| `McapLogger.EarlyParamsAreNotWritten` | core/src/MCAPLogger.cpp:307-321 | parameters logged before logging was ever started: the call succeeds, and the message only waits in the buffer |
| `McapLogger.NothingIsWrittenWhileDown` | core/src/MCAPLogger.cpp:307-321 | so parameters pushed after the exit are never written unless logging is started again |
| `McapLogger.ChannelsAreTopics` | core/src/MCAPLogger.cpp:293-300 | two records share a channel exactly when they share a topic |
| `McapLogger.PushesAreKept` | core/src/MCAPLogger.cpp:244-259 | log_msg keeps and accepts a message exactly while logging is on, and parameters are kept always |
| `McapLogger.LoggingIff` | core/src/MCAPLogger.cpp:223-237 | over every interleaving logging is on exactly when a start has found the writer gone and no stop came since |
| `McapLogger.WriterCatchesUp` | core/src/MCAPLogger.cpp:271-301 | in every reachable state in which the writer is not down, its own steps get all that was pushed into the file, and then let it exit once logging is off |
| `BroadcastQueue.FoxgloveServer.SendLiveTelemMsg` | core/src/FoxgloveServer.cpp:342-348 | pushes, dropping the oldest of 256 |
| `BroadcastQueue.FoxgloveServer.TakeBatch` | core/src/FoxgloveServer.cpp:355-362 | the broadcast thread's locked region: swap, wait, or exit |
| `BroadcastQueue.FoxgloveServer.SendNext` | core/src/FoxgloveServer.cpp:363-366 | one message handed to the server: a single step of the state machine, between which others may fall |
| `BroadcastQueue.FoxgloveServer.BroadcastBatch` | core/src/FoxgloveServer.cpp:363-367 | sends the batch in order and clears it |
| `BroadcastQueue.QueueAndBroadcastAgree` | core/src/FoxgloveServer.cpp:342-368 | over every interleaving the queue is the last 256 messages since the last swap, and what was sent or is being sent is what the swaps took |
| `BroadcastQueue.DeliveredIff` | core/src/FoxgloveServer.cpp:344-346 | a message is delivered exactly when fewer than 256 others follow it before the next swap |
| `BroadcastQueue.DeliveredInOrder` | core/src/FoxgloveServer.cpp:352-368 | messages are delivered in the order they were enqueued, each at most once |
| `BroadcastQueue.ExitLeavesNothing` | core/src/FoxgloveServer.cpp:357-360 | when the thread exits, every message enqueued so far was sent or dropped for newer ones |
| `BroadcastQueue.LoggedAndRunning` | core/src/FoxgloveServer.cpp:342-348 | over every interleaving the log is the messages enqueued, in order, and the thread is asked to stop by a stop alone |
| `BroadcastQueue.ThreadCatchesUp` | core/src/FoxgloveServer.cpp:352-368 | until it has exited, the thread's own steps send its batch and then the whole queue, and then let it exit once asked to stop |
| `ConeClassifier.CollectPairs` | perception/src/ConeClassifier.cpp:217-226 | the pairs strictly within the match distance, cone by cone |
| `ConeClassifier.ColorCone` | perception/src/ConeClassifier.cpp:234-238 | a cone is recoloured exactly when the score beats the best so far |
| `ConeClassifier.ClassifyCamera` | perception/src/ConeClassifier.cpp:212-239 | one camera: all cones and scores after its matches |
| `ConeClassifier.Classify` | perception/src/ConeClassifier.cpp:206-243 | all cameras in order |
| `ConeClassifier.CameraMatchingIsStable` | perception/src/ConeClassifier.cpp:217-233 | a camera's matches are the unique stable matching of the pairs within 0.75 m |
| `ConeClassifier.ConeTakesBestMatch` | perception/src/ConeClassifier.cpp:209-240 | a cone ends with the colour and confidence of its best-scored match over all cameras, the first such in camera order, and keeps its own when none scores above 0 |

## Left out

- Rounding, overflow of floats and NaN beyond the finite flag; transcendental functions. Yaw wrapping and the
  integration of a twist are function parameters of the odometry model.
- The voltage output of the column-angle PID, telemetry, logging and rendering: arithmetic or plumbing that no
  modelled decision reads.
- SLAM colour voting, diagnostics, initial guesses, noise models and the rendering of the map.
- Lidar ground removal and feature extraction; point coordinates beyond 32-bit cell indices, for which the
  conversion in the code is undefined.
- The content of OMS frames, the sequence number and type of a packet, and reconnection timing: the parser
  does not look at them.
- A Bayer image without pixels, on which the encoder reads outside its input.
- The conversion of the ground speed sensor's units, and the choice of a pose for integrating a twist: twists are in
  metres and radians per second, and the motion is any function of pose, twist and time.
- Waiting with a timeout in the pose lookup: the lookup is modelled at the moment the wait ends.
- Triangulation itself, and its failure on collinear points.
- Opening a second file with the same logger, which the application does not do, and starting a writer while
  one that was never joined is left over; the moved-from buffer is taken to be empty.
- Placing a camera's detections on the ground, and cameras without a model, which the classifier skips.
- The vehicle controllers, power limiter, interpolation tables, DBC and protobuf reflection, and the
  simulation: short branches or library plumbing.
- BroadcastQueue.FoxgloveServer.BroadcastBatch: sends the whole batch at once, while the state machine
  interleaves single sends with other steps.
- SteeringLoop.ReferenceStaysNearColumn: the clock a tick reads is assumed not to go back, as a steady clock.
- SteeringLoop.KrakenComms.UpdateTuning: the gains of the PID, which no modelled decision reads, are left out.
- SteeringLoop.KrakenComms.RunOnce: states the reference and target of a driving tick; the voltage the PID makes
  of them is left out.
- BayerCodec.BayerRoundTrip: assumes zstd's decompression undoes its compression.
- RangeCodec.RangeRoundTrip: assumes zstd's decompression undoes its compression.
