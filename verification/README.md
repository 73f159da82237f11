# Joint-state pipeline: model and proofs

RTDDS-Hub publishes the joint states and the IMU readings of a robot on DDS.  In simulation
mode a real-time thread samples a joint trajectory, numbers and stamps the samples, and passes
them through an eight-slot ring to a thread that publishes them.  In real mode one thread per
source drains the robot's pipes, parses length-prefixed frames and publishes batches.  This
project models that pipeline and proves what it guarantees from the trajectory polynomials up
to the samples written to DDS.

| file | models |
|---|---|
| `TrajectoryTypes`, `Shapes`, `RestToRest`, `TrajectoryLaws`, `ZeroDuration` | the cubic and quintic trajectories, the earlier headers, and durations of zero |
| `RobotModels`, `TrajectoryGenerators` | joint tables, shipped goals, the generator that clamps goal and time |
| `Timestamps`, `PdoFrames` | clock readings, nanosecond stamps, published stamps; frames and readings |
| `DdsEntities`, `Messages`, `Publishers` | life of the DDS entities, messages, the two publishers |
| `Drains`, `JointLoop`, `JointRuns`, `ImuLoop`, `ImuRuns` | the threads for the real robot, over mutable buffers and arrays |
| `SimPipeline`, `SimTheorems`, `StampRuns`, `Shutdown`, `SimRuntime` | simulation mode: step system, its theorems, runs with given clock readings, its end, and the objects that refine it |

The trajectories are polynomials over `real`.  Pure code is functions and lemmas; the
publishers, the readers, the loops, the ring and the threads' objects are classes whose methods
are proved against functions of the inputs, and the lemmas are about those functions.

How the main results hang together:

* The rest-to-rest motion is `q0 + (qf - q0) * Profile(t / T)`.  Monotonicity, the sharp speed
  bound and the second-order bound on the profile are proved by explicit sums of squares and by a
  positive quadrature rule for the remainder; everything about positions and velocities follows.
* `SimPipeline` lets producer, consumer, main thread, subscribers and signal handler interleave
  in any order.  `InvAlways` carries the invariant through every run, `SimTheorems` composes it
  with the trajectory results into statements about any two samples actually written, and
  `SimRuntime.Hub.Execute` shows that the imperative threads do what the step system says.
* `JointLoop.Loop.Run` proves the in-place loop, with one read buffer shared by all pipes and one
  message kept across batches, equal to a fold over the rounds; `JointRuns.SampleShowsRecords`
  (for the IMU, `ImuRuns.SampleShowsRecord`) then says what each written sample shows, in terms of
  the bytes read and of the decoder, and
  `JointRuns.RunJoints` runs the whole thread, from opening the pipes to releasing its publisher.

Where a property one would expect is not quite true of the code, the code is kept and the
exact condition is proved:

* `parse_frame` adds 4 to the prefix in 32 bits, so a frame of 2^32 bytes or more is rejected
  although its prefix is right (`CallIsExact`, `LongestPrefixRejected`), and it passes the length to
  the decoder as an `int`, so the decoder gets the payload's size exactly for payloads below
  2^31 bytes (`FrameRoundTrip`).  The loops read at most 512 bytes.
* The seconds of a published stamp are a signed 32-bit number.  A published stamp denotes its
  clock reading exactly below 2^31 seconds (`JoinSplit`, `SplitSeconds`, `NothingLost`).  The
  stamps of two readings are in order exactly when the second did not lose more nanoseconds to
  wrapping than passed between them (`ReadingsInOrder`; for readings less than 2^32 seconds
  apart: when both wrapped equally often, `NearStampsInOrder`).  `SamplesFollowStamps` carries
  this to any two samples written in any run, `StampsCanGoBack` is a run whose stamps go back,
  and by `ReadingsOccur` any two readings in order can be those of two written samples.
* The count of matched readers is a 32-bit number.  `GateOverflows` is a history whose sum is
  positive and whose gate is closed, `GateCount` says for each history when the gate is open, and
  `GateIsSign` in which ranges of sums the gate is their sign: exactly those of 32-bit numbers.
* The earlier generator clamps time from above only; for negative times it extrapolates, and it
  fills the same arrays exactly when nothing travels or the time is not negative, apart from
  times at which negative durations agree by chance (`EarlierArraysAgree`).
* `idl/sensor_msgs/msg/JointState.idl:18-19` asks that all joint states of a message are recorded
  at the same time, the header's.  The real joint loop stamps a batch with its first reading and
  repeats the older values of silent joints.  `SilentJointIsOld` and `OneBatchTwoTimes` are
  batches whose messages fail this; `SimultaneousIff` says exactly when a message meets it, and
  `SimultaneousIffComplete` that, where a batch's stamp is new, this is when the last reading of
  every joint in the batch carries that stamp.
* The generator accepts a duration of zero, and then reports no number at any time
  (`QuinticIsUndefined`, `CubicIsUndefined`, in IEEE 754 arithmetic); with a negative one the joint
  jumps (`JumpsWhenNegative`).
* A second `init_dds` with entities held leaks or misuses them: the life of the entities stays in
  order exactly when nothing was held (`InitDds`).

## Model

| member | source | states |
|---|---|---|
| TrajectoryTypes.CubicInterpolation | include/traj/TrajectoryTypes.hpp:9-25 | a cubic has the given positions and velocities at 0 and T if and only if it is the constructed one, for any T other than 0 |
| TrajectoryTypes.QuinticInterpolation | include/traj/TrajectoryTypes.hpp:34-58 | a polynomial of degree at most five meets the six end conditions on position, velocity and acceleration if and only if it is the constructed one |
| TrajectoryTypes.CubicVelocityIsDerivative | include/traj/TrajectoryTypes.hpp:18-25 | for any coefficients the velocity is the derivative of the position, with the remainder given |
| TrajectoryTypes.QuinticVelocityIsDerivative | include/traj/TrajectoryTypes.hpp:49-58 | the same for the quintic |
| TrajectoryTypes.QuinticAccelerationIsDerivative | include/traj/TrajectoryTypes.hpp:34-58 | the acceleration of the end conditions is the derivative of the velocity |
| Shapes.StrictlyIncreasing | include/traj/TrajectoryTypes.hpp:34-53 | the normalised shape is strictly increasing on [0, 1] |
| Shapes.SpeedBound | include/traj/TrajectoryTypes.hpp:34-58 | between two normalised times the shape rises by at most 15/8 (quintic) or 3/2 (cubic) of their distance |
| Shapes.RateBounds | include/traj/TrajectoryTypes.hpp:54-58 | the normalised velocity lies between 0 and that constant and reaches it half-way only |
| Shapes.DefectBound | include/traj/TrajectoryGenerator.hpp:29-34 | the normalised motion, continued at rest on both sides, stays within 3 h^2 of its tangent everywhere, seams included |
| RestToRest.AtAsProfile | include/traj/TrajectoryGenerator.hpp:25-41 | clamped position and velocity of either trajectory are the scaled profile and its rate |
| RestToRest.QuinticFormula | include/traj/TrajectoryTypes.hpp:34-58 | during the motion the reported position is home plus the travel times 10 u^3 - 15 u^4 + 6 u^5 with u = t / T, and the velocity its derivative |
| RestToRest.RestsOutside | include/traj/TrajectoryGenerator.hpp:29-34 | up to time 0 the joint rests at home, from T on at the goal |
| RestToRest.MovesMonotonically | include/traj/TrajectoryGenerator.hpp:17-35 | at all times, also negative and beyond T, and for any T other than 0, the joint never turns back and never leaves the interval between home and goal |
| RestToRest.MovesStrictly | include/traj/TrajectoryTypes.hpp:34-53 | on [0, T] it moves strictly when there is something to travel |
| RestToRest.ArrivesAtT | include/traj/TrajectoryGenerator.hpp:29-34 | for any T other than 0 a joint with something to travel is at the goal if and only if the time is at least 0 and at least T, and then it rests |
| RestToRest.JumpsWhenNegative | include/traj/TrajectoryGenerator.hpp:29-41 | with a negative duration the joint rests at home before time 0 and at the goal from then on |
| RestToRest.SpeedLimited | include/traj/TrajectoryTypes.hpp:9-58 | between any two times it moves at most 15/8 (3/2) times the travel over T times their distance |
| RestToRest.VelocityLimited | include/traj/TrajectoryTypes.hpp:22-58 | the reported velocity points to the goal, never exceeds that speed, and has it exactly at T/2 |
| RestToRest.VelocityIsDerivative | include/traj/TrajectoryGenerator.hpp:29-34 | for all times and steps, across both seams, the reported velocity is the derivative of the reported position with error at most 3 times the travel times h^2 / T^2 |
| RestToRest.VelocityIsLipschitz | include/traj/TrajectoryGenerator.hpp:29-34 | hence the reported velocity is Lipschitz continuous |
| RestToRest.Symmetric | include/traj/TrajectoryTypes.hpp:34-58 | position at t and at T - t add up to home plus goal, and the velocities are equal |
| TrajectoryLaws.TimeReversal | include/traj/TrajectoryTypes.hpp:34-58 | for arbitrary end conditions, the quintic played backwards is the quintic between the exchanged ends, with negated velocity |
| TrajectoryLaws.AgreesWithEarlier | include/TrajectoryTypes.hpp:30-43 | the earlier expanded coefficients and evaluators give the same quintic and the same values |
| TrajectoryLaws.EarlierClampAgrees | include/TrajectoryGenerator.hpp:25-34 | the one-sided clamp gives the same position, and the same velocity, if and only if there is nothing to travel or the time is not negative; with a negative duration T also the velocities from T on, and the cubic's position at 3T/2 |
| TrajectoryLaws.EarlierExtrapolates | include/TrajectoryGenerator.hpp:25-34 | before the duration, also at negative times, the earlier generator reports the polynomial itself |
| RobotModels.TablesWithinLimits | include/robots/RobotModel.hpp:22-80 | home and shipped goals of spot and ur5 lie within their joint limits |
| TrajectoryGenerators.TrajectoryGenerator.constructor | include/traj/TrajectoryGenerator.hpp:12-23 | builds, per joint, the trajectory from home to the clamped goal |
| TrajectoryGenerators.GoalIsClosest | include/traj/TrajectoryGenerator.hpp:17-41 | each joint goes from home to the value within its limits closest to the requested goal, in the requested time |
| ZeroDuration.QuinticIsUndefined | include/traj/TrajectoryTypes.hpp:34-58 | with a duration of zero of either sign every position and velocity of the quintic is NaN, at every time and for every goal |
| ZeroDuration.CubicIsUndefined | include/traj/TrajectoryTypes.hpp:9-25 | the same of the cubic |
| TrajectoryGenerators.TrajectoryGenerator.Compute | include/traj/TrajectoryGenerator.hpp:25-35 | fills both arrays with the plan's positions and velocities at the clamped time |
| TrajectoryGenerators.LimitsRespected | include/traj/TrajectoryGenerator.hpp:17-41 | for any goal and any duration other than 0, all positions at all times are within limits if and only if home is |
| TrajectoryGenerators.GoalHeld | include/traj/TrajectoryGenerator.hpp:12-35 | a goal within limits is held exactly from the end of the motion on |
| TrajectoryGenerators.ShippedGoalsReached | src/rt_trajectory_client.cpp:80-104 | spot and ur5 are at their shipped goals from five seconds on |
| TrajectoryGenerators.TrajectoryGenerator.EarlierCompute | include/TrajectoryGenerator.hpp:25-34 | fills both arrays with what the one-sided clamp gives |
| TrajectoryGenerators.EarlierArraysAgree | include/TrajectoryGenerator.hpp:25-34 | both generators fill the same positions, and the same velocities, if and only if no joint has anything to travel or the time is one of those |
| Timestamps.ToNsExact | src/rt_trajectory_client.cpp:15-18 | the 64-bit nanosecond count is exact if and only if the exact count fits |
| Timestamps.DiffIsExact | src/rt_trajectory_client.cpp:20-23 | the difference in seconds is the exact nanosecond difference over 10^9, also for negative nanosecond differences |
| Timestamps.JoinSplit | include/dds/JointStatePublisher.hpp:52-53 | joining and splitting a normalised time, of any size, returns it if and only if its seconds are in [0, 2^31) |
| Timestamps.SplitSeconds | include/dds/JointStatePublisher.hpp:52-53 | the published stamp denotes the nanosecond count if and only if its seconds fit |
| Timestamps.SplitOrder | include/dds/JointStatePublisher.hpp:52-53 | for counts that fit, the lexicographic order of the stamps is the order of the counts |
| Timestamps.OrderKeptBelow | include/dds/JointStatePublisher.hpp:52-53 | publishing keeps the order of all counts below n if and only if n is at most 2^31 seconds |
| Timestamps.OrderBreaks | include/dds/JointStatePublisher.hpp:52-53 | the count at which the published seconds turn negative |
| Timestamps.PublishedSeconds | src/rt_trajectory_client.cpp:15-18 | for every clock reading, what the published stamp says and what joining and splitting lose |
| Timestamps.NothingLost | src/rt_trajectory_client.cpp:15-18 | nothing is lost if and only if the reading is in [0, 2^31) seconds |
| Timestamps.StampsInOrder | include/dds/JointStatePublisher.hpp:52-53 | the stamps of any two counts are in order if and only if the second wrapped by no more nanoseconds than it is later |
| Timestamps.NearStampsInOrder | include/dds/JointStatePublisher.hpp:52-53 | for counts less than 2^32 seconds apart: if and only if both wrapped equally often |
| Timestamps.ReadingsInOrder | src/rt_trajectory_client.cpp:15-18 | the stamps of any two clock readings are in order if and only if the second lost no more nanoseconds than passed |
| Timestamps.ReadingsOutOfOrder | src/rt_trajectory_client.cpp:15-18 | two readings a nanosecond apart whose stamps are out of order |
| PdoFrames.CallIsExact | include/protobuf/pdo_utils.hpp:21-35 | the decoder is called if and only if the prefix is the length of the rest and the whole length is below 2^32 |
| PdoFrames.LongestPrefixRejected | include/protobuf/pdo_utils.hpp:28-32 | a right prefix that is rejected because the sum wraps |
| PdoFrames.FrameRoundTrip | include/protobuf/pdo_utils.hpp:15-35 | framing and checking gives the decoder the payload and its size if and only if it is shorter than 2^31 bytes |
| PdoFrames.AcceptedFrameUnique | include/protobuf/pdo_utils.hpp:21-35 | an accepted frame is the framing of its payload and of no other |
| PdoFrames.ParseFrame | include/protobuf/pdo_utils.hpp:21-35 | nothing for fewer than four bytes or a prefix, least significant byte first, other than the length of the rest; otherwise, below 2^31 bytes of payload, what the decoder makes of the payload and its length; only the first n bytes of the buffer matter |
| PdoFrames.ParseMeaning | include/protobuf/pdo_utils.hpp:21-35 | the same for frames of every length, with the size the decoder is then given |
| PdoFrames.ParseOfFrame | include/protobuf/pdo_utils.hpp:15-35 | parsing a framed payload decodes the payload |
| PdoFrames.ParseJointFrame | include/protobuf/pdo_utils.hpp:80-111 | for a carried record of type CIA402 or XT_MOTOR with motor data, position, velocity and torque of those data, and the record's time or else the present as stamp; without such data they keep their values |
| PdoFrames.JointReadingMeaning | include/protobuf/pdo_utils.hpp:80-111 | a frame gives a joint reading if and only if it carries a record with motor data, and then it is those data |
| PdoFrames.ParseImuFrame | include/protobuf/pdo_utils.hpp:58-77 | for a carried IMU record its quaternion, rate, acceleration and stamp, and otherwise nothing |
| PdoFrames.ImuReadingMeaning | include/protobuf/pdo_utils.hpp:58-77 | a frame gives an IMU reading if and only if it carries an IMU record, and then it is those data |
| DdsEntities.LiveIsBalance | include/dds/DdsPublisher.hpp:84-106 | if every call was allowed, each entity used was created once, and deleted once unless it is live |
| DdsEntities.DdsPublisher.InitDds | include/dds/DdsPublisher.hpp:40-82 | succeeds if and only if all four creations do, a failure with nothing held before leaves nothing held, and for every pattern of failures the life of the entities stays in order if and only if nothing was held |
| DdsEntities.DdsPublisher.Cleanup | include/dds/DdsPublisher.hpp:84-106 | from any state deletes exactly what is held, children first; from an orderly state every entity created has then been deleted exactly once, on its creator; with nothing held it makes no call |
| DdsEntities.CleanupInOrder | include/dds/DdsPublisher.hpp:84-106 | all calls of a cleanup of an orderly publisher are allowed and leave nothing live |
| DdsEntities.ChildrenFirst | include/dds/DdsPublisher.hpp:84-106 | if every call was allowed, whatever was created on an entity or uses it has been deleted before that entity |
| Publishers.GateIsSign | include/dds/DdsPublisher.hpp:34-37 | over all histories with sums in [lo, hi) the gate is the sign of the sum if and only if that range is one of 32-bit numbers |
| Publishers.GateCount | include/dds/DdsPublisher.hpp:123-133 | for each history the gate is open if and only if the sum modulo 2^32 is between 1 and 2^31 - 1 |
| Publishers.GateOverflows | include/dds/DdsPublisher.hpp:123-133 | two matches whose sum is positive close the gate |
| Publishers.JointStatePublisher.Init | include/dds/JointStatePublisher.hpp:25-44 | succeeds if and only if there is one name per joint and all entities are created, and then name and arrays have the robot's length; the life of the entities stays in order if and only if nothing was held |
| Publishers.JointStatePublisher.Publish | include/dds/JointStatePublisher.hpp:46-64 | exactly when the gate is open one sample is written, with the split stamp, the joint names and an empty frame, and the message's positions, velocities and efforts |
| Publishers.JointStatePublisher.Live | include/dds/JointStatePublisher.hpp:25-64 | over every history of matches and calls, exactly the messages published while the gate was open are written, in order |
| Publishers.JointStatePublisher.Destroy | include/dds/DdsPublisher.hpp:29 | afterwards every entity created has been deleted exactly once |
| Publishers.ImuPublisher.Publish | include/dds/ImuPublisher.hpp:36-62 | exactly when the gate is open one sample is written, with the split stamp and the message's orientation, angular velocity and linear acceleration |
| Drains.XddpReader.Open | include/rt/xddp_reader.hpp:27-48 | missing optional pipes stay closed; otherwise the first missing pipe ends the call with the descriptors up to it set |
| Drains.XddpReader.Register | src/joint_state_dds_real.cpp:39-51 | exactly the joints whose pipe is open and accepted are watched |
| Drains.Drain | src/joint_state_dds_real.cpp:94-101 | afterwards the front of the buffer is the last frame of the drain, whatever the buffer held before |
| Drains.LastFrameMeaning | src/joint_state_dds_real.cpp:94-101 | the last frame is the read before the first that delivers nothing |
| JointLoop.Loop.TakeEvent | src/joint_state_dds_real.cpp:89-116 | a drain whose last frame carries a record with motor data sets its joint's position, velocity and torque to those data, and the stamp if it is the batch's first; any other drain, and every other joint, changes nothing |
| JointLoop.EventReadingMeaning | src/joint_state_dds_real.cpp:94-109 | an event gives a reading if and only if the last read of its drain is a frame that carries a record with motor data, and then it is those data |
| JointLoop.Loop.TakeBatch | src/joint_state_dds_real.cpp:87-116 | after a batch every slot shows the joint's latest reading, and the stamp is the batch's first reading's |
| JointLoop.Loop.Run | src/joint_state_dds_real.cpp:68-122 | for any rounds the in-place loop leaves the slots, the number and the written samples that the fold over the rounds gives, and stops at the first round that is not running or fails |
| JointLoop.OneMessagePerFreshRound | src/joint_state_dds_real.cpp:118-121 | one message is handed to publish per batch with a parsed frame, and the k-th carries number k |
| JointLoop.MessageOfRound | src/joint_state_dds_real.cpp:108-121 | the message of such a batch is stamped with its first reading in event order and shows what every joint last said |
| JointLoop.LatestMeaning | src/joint_state_dds_real.cpp:103-116 | what a joint shows is the reading of an event after which it has none, and zero exactly if it never had one |
| JointLoop.FirstMeaning | src/joint_state_dds_real.cpp:103-116 | the stamp of a batch is that of the earliest event of a joint of the robot whose last frame parses |
| JointLoop.JointsAreIndependent | src/joint_state_dds_real.cpp:91-116 | what a joint shows does not depend on what arrived for other joints |
| JointLoop.CarriedOver | src/joint_state_dds_real.cpp:68-121 | a joint shows the batch's reading if the batch brought one, and otherwise what it showed before |
| JointLoop.SimultaneousIff | src/joint_state_dds_real.cpp:68-121 | the states of a message were all recorded at its stamp if and only if every joint's last reading in the batch, or, for a joint silent in it, its latest earlier reading, carries the stamp of the batch's first reading |
| JointLoop.SimultaneousIffComplete | src/joint_state_dds_real.cpp:68-121 | where no earlier reading has the batch's stamp: if and only if every joint of the robot has a reading in the batch and its last one carries the stamp of the first |
| JointLoop.SilentJointIsOld | src/joint_state_dds_real.cpp:68-121 | two batches after which a silent joint is published with its old reading under the new stamp |
| JointLoop.OneBatchTwoTimes | src/joint_state_dds_real.cpp:113-121 | one batch whose second joint is published under the stamp of the first |
| JointLoop.UnwatchedStayZero | src/joint_state_dds_real.cpp:39-68 | joints that no reported event names have position, velocity and effort exactly zero in every message |
| JointRuns.WrittenMessages | src/joint_state_dds_real.cpp:68-122 | the k-th sample written is the message of the k-th round, in the order of the rounds, that had a reading while the 32-bit count of matched readers was positive |
| JointRuns.WritingRoundsMeaning | src/joint_state_dds_real.cpp:118-121 | the rounds that write are exactly those |
| JointRuns.WritingRoundsTell | src/joint_state_dds_real.cpp:87-121 | the rounds that write are exactly those in which a joint's drain ends in a record with motor data while the 32-bit count of matched readers is positive |
| JointRuns.SampleOfRound | src/joint_state_dds_real.cpp:87-121 | every written sample carries its batch's first stamp and shows what every joint last said, and later samples come from later rounds |
| JointRuns.SampleShowsRecords | src/joint_state_dds_real.cpp:87-121 | over the bytes read and any decoder: every written sample shows of each joint the motor data of the record in the last frame of its most recent drain that ended in one, or zero, and is stamped by the first such record of its batch |
| JointRuns.UnwatchedSamplesZero | src/joint_state_dds_real.cpp:39-68 | joints whose pipe is not watched are exactly zero in every written sample |
| JointRuns.RunJoints | src/joint_state_dds_real.cpp:22-126 | the whole thread: a pipe that did not open or could not be watched is exactly zero in every sample written, the program is stopped exactly on a failed setup, and at its end every DDS entity has been deleted exactly once |
| ImuLoop.Loop.Run | src/imu_dds_real.cpp:56-89 | for any rounds the loop leaves the number and the written samples that the fold over the rounds gives |
| ImuLoop.HandedAreReadings | src/imu_dds_real.cpp:72-88 | the messages handed to publish are exactly the drains whose last frame parses, in order, numbered from zero |
| ImuLoop.HandedNumbered | src/imu_dds_real.cpp:84-88 | the k-th message handed to publish carries number k |
| ImuRuns.WakeReadingMeaning | src/imu_dds_real.cpp:72-85 | a drain gives a reading if and only if its last read is a frame that carries an IMU record, and then it is those data |
| ImuRuns.SampleShowsRecord | src/imu_dds_real.cpp:72-88 | over the bytes read and any decoder: the k-th sample written is of the k-th round whose drain ends in an IMU record while the count of matched readers is positive, and shows that record's quaternion as orientation, rate as angular velocity, acceleration as linear acceleration, and its stamp |
| ImuRuns.WritingRoundsMeaning | src/imu_dds_real.cpp:72-88 | the rounds that write are exactly those |
| ImuRuns.RunImu | src/imu_dds_real.cpp:18-93 | the whole thread: what it writes, nothing if the pipe is missing, and every DDS entity deleted exactly once at its end |
| SimPipeline.InvKept | src/rt_trajectory_client.cpp:52-73 | every step of every thread keeps the clock, numbering, ring, sample and thread invariants |
| SimPipeline.InvAlways | src/rtdds_hub_main.cpp:164-181 | the invariants hold after every run |
| SimTheorems.Conservation | include/rt/SharedBuffer.hpp:7-20 | in every reachable state each pushed sample is popped, in the ring, or dropped, and exactly one of these; popped then ring messages are the accepted samples in order |
| SimTheorems.MessageHeaders | src/rt_trajectory_client.cpp:58-59 | the accepted messages, and so the popped ones, carry their sample's number and the nanoseconds of its clock reading |
| SimTheorems.DroppedIffFull | src/rt_trajectory_client.cpp:70 | a pushed sample is missing for ever if and only if eight messages were outstanding when it was pushed |
| SimTheorems.GapFree | src/joint_state_dds_sim.cpp:33-39 | if the ring is never full at a push, the consumer gets samples 0, 1, 2, ... without a gap |
| SimTheorems.WrittenWhileOpen | src/joint_state_dds_sim.cpp:33-39 | in every run every popped message is handed to publish, in order, and exactly those handed over while the 32-bit count of matched readers was positive are written |
| SimTheorems.WrittenInOrder | src/joint_state_dds_sim.cpp:35-36 | the samples written come from the producer's samples in strictly increasing order |
| SimTheorems.SamplesAdvance | src/joint_state_dds_sim.cpp:32-39 | in every run, for any interleaving, clock, drops and subscribers, any two written samples show every joint moving on from home towards its clamped goal, in between, and for a positive duration no faster than its largest speed |
| SimTheorems.SamplesFollowStamps | src/rt_trajectory_client.cpp:52-73 | in every run and for every clock, for any two written samples: a joint changes by at most its largest speed times the time between the two clock readings and is at its goal exactly from the duration after the start on, at rest; each stamp is its clock reading exactly if that can be published; the stamps are in order if and only if the second reading lost no more than passed since the first; and for readings that can be published the same bounds hold of the stamps themselves |
| StampRuns.ReadingsOccur | src/joint_state_dds_sim.cpp:32-39 | any two clock readings in order are those of two samples written in some run |
| StampRuns.StampsCanGoBack | include/dds/JointStatePublisher.hpp:52-53 | a run that writes a sample with a stamp before that of an earlier one |
| SimTheorems.SamplesWithinLimits | include/traj/TrajectoryGenerator.hpp:12-35 | for a robot whose home is within limits every written sample is, for any goal and any duration other than 0 |
| SimTheorems.SamplesHoldGoal | include/traj/TrajectoryGenerator.hpp:12-35 | for a goal within limits a sample taken from the duration on shows exactly the goal |
| SimTheorems.ShippedSamples | src/rt_trajectory_client.cpp:80-104 | in every run of spot or ur5 with the shipped goals every written sample is within the joint limits, is on the polynomial of `QuinticFormula` from home to goal during the first five seconds, and is exactly the goal from then on |
| Shutdown.StaysStopped | src/rtdds_hub_main.cpp:14-17 | g_running never becomes true again |
| Shutdown.StopsOn | src/joint_state_dds_sim.cpp:22-27 | the flag goes off exactly on the signal, a publisher that cannot start, or a producer thread that cannot be started |
| Shutdown.StoppingIsBounded | src/rtdds_hub_main.cpp:164-181 | once stopped, in every continuation the threads take at most ten more steps, with at most one more push and one more publish |
| Shutdown.NoDeadlock | src/rtdds_hub_main.cpp:171-180 | until the program exits some thread can take a step |
| Shutdown.StoppedMeansExited | src/rtdds_hub_main.cpp:171-180 | a run in which no thread can step has exited, with both threads ended and at most eight messages left in the ring |
| Shutdown.ExitCode | src/rtdds_hub_main.cpp:164-181 | in every run the program exits only after the threads it started have ended, with code 0 if both were started and 1 if one could not be |
| SimRuntime.RtClient.Sample | src/rt_trajectory_client.cpp:54-68 | numbers and stamps the message and fills it with the plan's positions and velocities at the elapsed time, and zero efforts |
| SimRuntime.Hub.Execute | src/rtdds_hub_main.cpp:164-181 | for every legal schedule, with any of the four creations failing, the threads' objects end up exactly where the step system says; once the publishing thread has ended or the program has exited, every DDS entity created has been deleted exactly once |

## Left out

- Rounding: `double` is modelled by exact `real`, and `1e-9` by exactly 10^-9; the code states no error bound.
- TrajectoryGenerator.constructor: requires a duration other than 0, because `real` has no infinities or NaN; what the program does then is proved in `ZeroDuration` in their place.
- In the simulation system reading the matched count and writing the sample are one step, so a change of subscribers in between is not modelled.
- In the loops for the real robot the reads of a drain, the events of a wait and the clock are inputs, and a round's change of matched readers happens at its start.
- Handles carry numbers instead of addresses; a call on a null pointer counts as breaking the life of the entities.
- The boost queue is modelled by its contract, a bounded first-in first-out queue of which all eight slots can be used; its memory orders are not part of this model.
- The protobuf decoder is an arbitrary partial function of bytes and size; the `.proto` file is not part of this model.
- Fast DDS and Fast CDR: creations succeed or fail arbitrarily and written samples are recorded; QoS, types, registration, delivery and the generated IDL code are not modelled.
- `g_running` is read and written in one global order; relaxed memory order is not modelled.
- The monotonic clock is an arbitrary nondecreasing sequence of normalised readings; sleeping, periods, priorities and deadlines are not modelled.
- The real-mode branch of `main` only starts and joins its threads and is not modelled; nor are arguments, logging, sockets and closing of descriptors.
- `size_t` template parameters, CRTP and the listener class: the number of joints is a field, the kind of trajectory a datatype, and the matched count a field of each publisher.
- The earlier cubic, which has the same formulas as the present one.
- `DdsSubscriber`, which repeats the publisher's life cycle, and the older `src/dds` and `src/rt` programs, which the build does not use.
- Numbers of messages wrap at 2^64; the history in the simulation state identifies samples by an unbounded index beside them.
