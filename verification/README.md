# Klipper host software: a verified model of its hard core

This project models, in Dafny, the parts of the Klipper host software that turn a list of moves
into timed steps and carry them to the micro-controllers (MCUs), and proves what each of these parts is
for. One module stands for one component:

- `LookAhead`: the look-ahead motion planner. A backward pass over a growing queue keeps a real and a
  smoothed speed for every junction; a lazy flush hands out a prefix before later moves are known. The
  theorem is that everything handed out is feasible and continuous in speed, whatever moves arrive later.
  A corner is taken as fast as its limits allow (`CornerIs`).
- `Profiles`: what the planned speeds are, without the notions of the planner: the two profiles are the
  greatest within the limits, and every move cruises exactly as fast as they and the smoothed peak that
  governs it allow.
- `ToolTimes` and `ToolHead`: the time keeping around it, as functions with their theorems, and as the
  class that is proved to compute them. No move is ever appended inside time whose steps were
  generated, over any run of moves, flushes, dwells, timers, homing moves and changes of the scan time;
  after a flush of step generation every move has its steps; and a homing move never runs further
  ahead of the MCU than the drip time allows.
- `Trapq`: the trapezoid queue. Planned moves become entries that join in time, place and speed, and the
  list tiles time over any run of additions and finalizations. `RunIsSmooth` joins planner and queue.
- `Motion`, `Shaper` and `Extruder`: the convolutions over the list of moves. Neither the shaped nor the
  smoothed position depends on how the motion is cut up, the latter exactly as long as a cut does not
  change the pressure advance of a moving part; motion at constant speed comes out unchanged, or ahead by
  pressure advance times speed.
- `StepBisect`, `StepCompress` and `StepHistory`: the step compressor. What the bisection search returns
  is always accepted by `check_line`; an MCU with a 32-bit timer makes exactly the steps asked for, in
  order, never late and at most the allowed error early; the history answers where the stepper was.
- `BisectSearch`: what the bisection search loses. Its bounds exclude no longer sequence, apart from two
  cases that are named.
- `StepperSync`: the heap of move queue slots, which gives every command its earliest time to be sent.
- `SerialLink` and `SerialQueue`: the go-back-N protocol with four-bit sequence numbers over a lossy
  link, and the accounting of windows, bytes, command queues and notifications. No message leaves before
  its minimum clock.
- `Transmission` joins the two: over any run of flushes, transmissions and acknowledgements, the commands
  that reach an MCU never take more slots of its move queue than it has.
- `Framing`, `Vlq` and `Messages`: the CRC, the resynchronising framer, variable-length integers and
  messages, for C and for Python. Messages do not depend on how reads split the stream, and round trip.
- `BedMesh`: the zig-zag path with substituted points, undone by the code that rebuilds the matrix.
- `TrDispatch`: deadlines that follow the earliest status time of the other MCUs.
- `ReactorMutex`: the hand-over of a mutex between greenlets, under any interleaving.
- `Protocol` and `Basics`: the limits of the serial protocol, and small helpers.

## How the program is modelled

- Objects whose methods update fields are classes; each method is proved against a specification on
  values, and the theorems are about that specification. Code made of expressions is functions.
- Linked lists and dictionaries are sequences and maps. The heap and the pulse table are arrays.
- Times, speeds and positions are exact reals, planner speeds are squared; clocks and step counts are
  integers. Square roots are given, as a non-negative number with the right square. Where the code
  narrows a number (32-bit queues and timers, four-bit sequence numbers, variable-length integers,
  unsigned comparisons) the narrowing is written out; elsewhere no C arithmetic is taken to overflow.
- Clocks, estimates of MCU time, bytes that arrive and losses on the wire are inputs of the operations that
  read them, so that every statement holds for all of them.
- The state that only proofs need (what was requested, what was sent, what steps were generated) is in
  ghost fields of the classes.

## Where the code does less than its comments say

- `trapq.c` limits "the first null move" in length by testing the previous entry's time for zero. A move
  that really started at time 0 passes that test as well: `Trapq.AddKeepsTiling` gives the exact
  condition, `Trapq.ShortenedAfterTimeZero` a gap. The toolhead never appends at time 0.
- `kin_extruder.c` picks the pressure advance by the start time of a whole move. `Extruder.CutExactly` says
  when that makes a difference: exactly for a moving entry that spans a change of it and is cut behind that.
  The program appends no such entry, because it activates settings at the ends of planned moves
  (`Extruder.NeverInside`, `Extruder.NoneInsideIsHarmless`).
- `bed_mesh.py` checks the number of results only after substituted points were replaced. A list that is
  too short passes when results are missing at the end of the path for substituted points only, and
  their mean is wrong (`BedMesh.ProbeFinalize` has the exact condition, `BedMesh.ShortMeshIsWrong` a mesh).
  Both callers, `ProbePointsHelper` in `probe.py` and `RapidScanHelper`, run one probe per point of the
  path, so that only a probe that returns fewer results than it was run can bring such a list about.
- `compress_bisect_add` takes only smaller values of `add` when its bounds for the interval cross because no
  interval at all hits the window of the next step. That loses longer sequences with a greater `add`, but
  only when the window is narrower than the number of steps (`BisectSearch.RoundKeeps` is exact,
  `BisectSearch.NarrowWindowLoses` an example).
- Its comment gives 6 + 4 * sqrt(2) times the error by the square of the steps, about 11.66, as the greatest
  difference of `add` between valid sequences, and the code uses 11. For whole steps it is 12, which is
  attained (`BisectSearch.DeviationBound`), and the 11 does lose sequences (`BisectSearch.DeviationLoses`).
- In `serialqueue.c` the number up to which notifications are released is computed in unsigned
  arithmetic. It wraps, and releases all of them, for a data message while nothing was acknowledged
  (`SerialQueue.WakeSeqOnlyAcked` says exactly when, `SerialQueue.SerialQueue.HandleMessage` what follows).
- `clock_from_time` is said to give the nearest clock; before the conversion point, truncation gives the
  next one (`TrDispatch.ClockRoundTrip`).
- `trdispatch.c` compares a signed with an unsigned number: a deadline moves, and is sent, exactly when
  the new one is before the old one or at least the least extension after it. It moves back exactly when
  the new one is before the old one (`TrDispatch.DispatchedFollows`), which a corrected clock estimate
  can cause (`TrDispatch.DeadlineMovesBack`).

## Model

| member | source | states |
|---|---|---|
| LookAhead.NewMoveIsFresh | klipper/klippy/toolhead.py:15-49 | a new move of positive length starts with consistent limits: positive speed and accel, start limits still zero, and the smoothed change of speed at most the full one, for extrude-only moves exactly up to their fixed accel |
| LookAhead.NewMoveSpeed | klipper/klippy/toolhead.py:15-49 | a new move cruises at exactly the lower of the speed asked for and, when kinematic, the velocity limit; its changes of speed are those of its accel, and its least duration is that at cruise speed |
| LookAhead.LimitSpeedKeepsFresh | klipper/klippy/toolhead.py:50-57 | limiting speed and accel keeps a new move consistent and never raises its speed, accel or smoothed change of speed, which ends at most at the full one |
| LookAhead.LimitSpeedIsTimed | klipper/klippy/toolhead.py:50-57 | the least duration stays that at cruise speed, whatever the limits |
| LookAhead.CalcJunctionLinks | klipper/klippy/toolhead.py:62-92 | after a junction is computed, the start limit is at most both cruise limits and what the previous move can reach, and the smoothed limit is at most the previous smoothed limit plus its change |
| LookAhead.CornerIs | klipper/klippy/toolhead.py:62-92 | the start limit is the greatest squared speed at which, for both moves, the circle stays within the junction deviation and ends before the middle of the move at no more than its accel, and which the extruder, both cruise limits and the previous move allow; for reversals and extrude-only moves it stays 0 |
| LookAhead.PassBounds | klipper/klippy/toolhead.py:134-178 | at every move of the backward pass the smoothed speed is between zero and the real one, both within the move's limits, and no peak is below the smoothed speed where nothing is delayed |
| LookAhead.ChainBound | klipper/klippy/toolhead.py:143-156 | the speed handed down to delayed moves stays at or above their smoothed speed and at or below their start speed |
| LookAhead.HardCorner | klipper/klippy/toolhead.py:143-146 | a junction whose smoothed limit does not bind behind it is passed at exactly its own start limit |
| LookAhead.PlanContinuous | klipper/klippy/toolhead.py:143-172 | inside one planned queue the end speed of each move is the start speed of the next |
| LookAhead.PlanStops | klipper/klippy/toolhead.py:128-172 | the last move of a queue that is planned completely ends at rest |
| LookAhead.DistancesFit | klipper/klippy/toolhead.py:93-107 | squared speeds within one move's reach of each other give accel and decel distances that fit into the move |
| LookAhead.PlanFeasible | klipper/klippy/toolhead.py:93-172 | every planned move starts and ends at most at its positive cruise speed, keeps its limits, and has room for both phases, so that set_junction never divides by zero |
| LookAhead.PassMonotone | klipper/klippy/toolhead.py:134-178 | moves queued later can only raise the real and the smoothed speed of the pass |
| LookAhead.PassSettled | klipper/klippy/toolhead.py:134-178 | once a peak has been found, later moves change neither the smoothed speed in front of it nor how many moves are delayed |
| LookAhead.CutCommits | klipper/klippy/toolhead.py:147-152 | after a lazy cut, every continuation of the queue that is left starts at exactly the speed at which the moves handed out end |
| LookAhead.LazyCutIsPeak | klipper/klippy/toolhead.py:147-152 | a lazy flush only cuts at a peak that already has a speed |
| LookAhead.BatchChained | klipper/klippy/toolhead.py:127-178 | what one flush hands out is feasible and continuous in speed |
| LookAhead.FlushStepKeepsInv | klipper/klippy/toolhead.py:127-178 | a flush, lazy or not, keeps the invariant; a full one empties the queue and ends at rest |
| LookAhead.QueuedKeepsInv | klipper/klippy/toolhead.py:179-187 | adding a move keeps the invariant, whatever the junction with the one before |
| LookAhead.AddStepKeepsInv | klipper/klippy/toolhead.py:179-200 | add_move with the lazy flush it may trigger keeps the invariant |
| LookAhead.FlushesInTime | klipper/klippy/toolhead.py:179-200 | over any run a lazy flush is considered exactly when moves of the flush time have joined others since the last one |
| LookAhead.RunIsSafe | klipper/klippy/toolhead.py:113-200 | over any run of add_move and lazy or full flushes, all moves handed out have feasible plans, speed never jumps between consecutive ones, the first starts at rest, and after a full flush the last ends at rest |
| LookAhead.FlushKeepsMoves | klipper/klippy/toolhead.py:174-178 | flushing neither loses, repeats nor reorders a move |
| LookAhead.AddKeepsMoves | klipper/klippy/toolhead.py:179-200 | adding a move appends it to everything added before, with its length, accel and cruise limit unchanged |
| LookAhead.LookAheadQueue.PropagatePeak | klipper/klippy/toolhead.py:153-164 | the loop over the delayed moves gives each of them the plan of the specification and touches no other |
| LookAhead.LookAheadQueue.PlanQueue | klipper/klippy/toolhead.py:127-175 | the backward traversal finds the specified flush count and gives every move below it its specified plan |
| LookAhead.LookAheadQueue.Flush | klipper/klippy/toolhead.py:127-178 | the queue and everything sent change exactly as in the state machine of the run theorem; no move is lost |
| LookAhead.LookAheadQueue.Enqueue | klipper/klippy/toolhead.py:179-187 | the new move is linked to the last one and appended |
| LookAhead.LookAheadQueue.AddMove | klipper/klippy/toolhead.py:179-200 | add_move refines one step of the state machine of the run theorem |
| Profiles.PassIsGreatest | klipper/klippy/toolhead.py:134-142 | the speeds that the backward pass reaches, real and smoothed, are the greatest profiles within the limits of every move and within its change of speed of the next, ending at rest |
| Profiles.PlanIs | klipper/klippy/toolhead.py:134-178 | with these profiles given, and no other notion of the planner, a move cruises at exactly the least of the peak that governs it, its cruise limit and the mean of the real speeds it reaches, a delayed one at the least of that peak and the start speeds down to it; it starts and ends at the lower of that and the profile |
| Profiles.PeakIsSmoothed | klipper/klippy/toolhead.py:153-169 | at a peak twice the squared cruise speed is at most the sum of the smoothed speeds there plus its smoothed change, with equality unless the cruise limit or the mean of the real speeds binds |
| Profiles.FlushPlans | klipper/klippy/toolhead.py:127-178 | every move that any flush hands out, lazy or not, is planned so, whatever was queued before |
| Profiles.FirstRises | klipper/klippy/toolhead.py:143-172 | the queue never begins with a move that is delayed, so that every delayed one is governed by a peak of the same queue |
| Profiles.SingleMove | klipper/klippy/toolhead.py:127-178 | a single move reaches half of the lower of its real and smoothed change of speed, or its cruise limit, from rest to rest |
| Profiles.FlushCountIs | klipper/klippy/toolhead.py:147-178 | a lazy flush hands out all moves up to the last peak, in terms of the smoothed profile alone, that already has a speed, a full one all |
| Trapq.JunctionPhases | klipper/klippy/toolhead.py:93-107 | the durations that set_junction computes are not negative, the speeds of its three phases meet, and their distances add up to the length of the move |
| Trapq.SegmentsSmooth | klipper/klippy/chelper/trapq.c:119-164 | whatever phases are missing, the entries of one trapq_append join in time, place and speed and end after the sum of the durations at the sum of the distances |
| Trapq.ReachesEnd | klipper/klippy/toolhead.py:15-49 | along the direction of a move its length leads from its start to exactly its end |
| Trapq.PlannedMoveIsSmooth | klipper/klippy/toolhead.py:93-107 | with the numbers of set_junction for a feasible plan, the entries run from the start of the move to exactly its end position and end speed, each lasting a positive time |
| Trapq.BatchIsSmooth | klipper/klippy/toolhead.py:375-392 | a whole batch of planned moves becomes one motion without a jump in time, place or speed |
| Trapq.RunIsSmooth | klipper/klippy/toolhead.py:127-200 | for any run of the look-ahead queue, any stretch of the moves it handed out becomes such a motion |
| Trapq.OneMoveAt | klipper/klippy/chelper/trapq.c:97-116 | in a tiled list every time from its start to its end belongs to exactly one entry |
| Trapq.AddKeepsTiling | klipper/klippy/chelper/trapq.c:97-116 | the exact condition under which adding a move leaves no gap and no overlap |
| Trapq.NullStaysPut | klipper/klippy/chelper/trapq.c:100-111 | a null move stands still where the next one starts, until then, and counts as not moving |
| Trapq.ShortenedAfterTimeZero | klipper/klippy/chelper/trapq.c:104-108 | a move that started at time 0 shortens the next null move as well and leaves a gap that no entry covers |
| Trapq.RunTiles | klipper/klippy/chelper/trapq.c:97-199 | over any run of moves added at positive times, none before the end of the one before, and of finalizations at any times, the list tiles time |
| Trapq.EntryStays | klipper/klippy/chelper/trapq.c:97-199 | an entry stays in the list as long as it has not ended by the time of a finalization, whatever is added or finalized |
| Trapq.InstantStays | klipper/klippy/chelper/trapq.c:97-199 | over any such run an instant keeps the one entry that covers it, and no other, until it expires |
| Trapq.RunJoins | klipper/klippy/chelper/trapq.c:97-164 | moves that each start where the one before stopped join in place in the list, null moves included |
| Trapq.SmoothGoesIn | klipper/klippy/chelper/trapq.c:119-164 | the entries of one smooth motion are added as they are; at most one null move comes before them |
| Trapq.ExpiredExactly | klipper/klippy/chelper/trapq.c:173-186 | in a tiled list exactly the entries that have ended expire, so that every later time keeps its entry |
| Trapq.RetiredExactly | klipper/klippy/chelper/trapq.c:182-185 | the history receives exactly the expired entries that moved |
| Trapq.MovingIs | klipper/klippy/chelper/trapq.c:182-185 | an entry counts as moving exactly when it gets away from its start at some time |
| Trapq.RetiredInOrder | klipper/klippy/chelper/trapq.c:182-185 | the history is in order of time, the latest entry first |
| Trapq.PruneKeeps | klipper/klippy/chelper/trapq.c:187-198 | only old entries leave the history, from its end, and the latest always stays |
| Trapq.TrapQueue.CheckSentinels | klipper/klippy/chelper/trapq.c:76-92 | the tail sentinel takes time and place of the end of the list, or the never time when it is empty |
| Trapq.TrapQueue.AddMove | klipper/klippy/chelper/trapq.c:97-116 | the list becomes the specified list and the tail sentinel is invalidated |
| Trapq.TrapQueue.Append | klipper/klippy/chelper/trapq.c:119-164 | the list grows by the entries of the three phases |
| Trapq.TrapQueue.FinalizeMoves | klipper/klippy/chelper/trapq.c:167-199 | expired entries leave the list, those that moved enter the history latest first, and the history is pruned |
| Motion.HalvesDistance | klipper/klippy/chelper/trapq.c:24-28 | the second half of a move that is cut in two covers the distance the whole move covers after the cut |
| Shaper.AxisAlone | klipper/klippy/chelper/kin_shaper.c:68-75 | the position along an axis is that coordinate of the motion |
| Shaper.OneValue | klipper/klippy/chelper/kin_shaper.c:77-89 | entries that meet at an instant agree on the position there |
| Shaper.AxisPositionAcrossMoves | klipper/klippy/chelper/kin_shaper.c:77-89 | the walk through the list, from any entry, gives the position of the motion at the instant asked for |
| Shaper.CutPos | klipper/klippy/chelper/kin_shaper.c:68-89 | cutting an entry changes the position at no instant |
| Shaper.CalcPosition | klipper/klippy/chelper/kin_shaper.c:92-103 | the loop computes the weighted sum of the positions at all pulses |
| Shaper.CutKeepsShaped | klipper/klippy/chelper/kin_shaper.c:92-103 | the shaped position at an instant does not depend on how the motion is cut up, nor on the entry from which it is evaluated |
| Shaper.InitialIsBalanced | klipper/klippy/chelper/kin_shaper.c:28-61 | whatever weights and times are given, the pulses have unit weight and are balanced about time zero |
| Shaper.InitialIsReversed | klipper/klippy/chelper/kin_shaper.c:28-61 | every pulse has the share of the weights that its counterpart in the reversed table has, and pulses are as far apart as those |
| Shaper.ShaperPulses.ShiftPulses | klipper/klippy/chelper/kin_shaper.c:28-39 | every pulse is moved by the weighted mean of their times, in place |
| Shaper.ShaperPulses.InitShaper | klipper/klippy/chelper/kin_shaper.c:41-61 | a pulse table of up to five entries is reversed, normalised and shifted; any other count is refused and clears the table |
| Shaper.ShapedLine | klipper/klippy/chelper/kin_shaper.c:92-103 | what any pulses make of motion at constant speed |
| Shaper.IdentityOnSteady | klipper/klippy/chelper/kin_shaper.c:28-61 | with a table set up by init_shaper, motion at constant speed is not changed |
| Extruder.ShiftWeighted | klipper/klippy/chelper/kin_extruder.c:36-57 | the two antiderivatives belong to each other: integrating from a later time on is integrating the motion as seen from there |
| Extruder.PaMoveIntegrate | klipper/klippy/chelper/kin_extruder.c:60-87 | the integral over one move with its pressure advance, limited to the move, of the position weighted with the distance from the window's end |
| Extruder.PaRangeIntegrate | klipper/klippy/chelper/kin_extruder.c:90-116 | the walk to both sides adds up exactly the pieces of all moves of the list that fall into the window |
| Extruder.AreaOfOne | klipper/klippy/chelper/kin_extruder.c:90-116 | when all moves are parts of one quadratic motion, the sum over them is the closed form of that motion |
| Extruder.AreaOfOnes | klipper/klippy/chelper/kin_extruder.c:90-116 | the weights of a whole window add up to the square of half the smoothing time |
| Extruder.BaseCancels | klipper/klippy/chelper/kin_extruder.c:124-136 | the base position from which the area is taken does not matter for the result |
| Extruder.ExtruderCalcPosition | klipper/klippy/chelper/kin_extruder.c:124-136 | the stepper position is the weighted average over the window, or the nominal position when smoothing is off |
| Extruder.SameChosen | klipper/klippy/chelper/kin_extruder.c:69-77 | when no setting comes into force strictly inside a move, the same setting applies wherever the move is cut |
| Extruder.CutPiece | klipper/klippy/chelper/kin_extruder.c:60-87 | the integral over a move is the sum of the integrals over its two halves |
| Extruder.CutKeepsSmoothed | klipper/klippy/chelper/kin_extruder.c:36-136 | the smoothed position at an instant does not depend on how the motion is cut up, for every harmless cut: at the very end, without a change of pressure advance, or of a move that stands still |
| Extruder.CutShiftsBy | klipper/klippy/chelper/kin_extruder.c:60-136 | within the second half a cut shifts the smoothed position by the change of pressure advance times the speed |
| Extruder.CutExactly | klipper/klippy/chelper/kin_extruder.c:60-136 | the motion is the same at every instant and for every window exactly when the cut is harmless |
| Extruder.NoneInsideIsHarmless | klipper/klippy/chelper/kin_extruder.c:69-77 | every cut of a move is harmless when no setting comes into force strictly inside it |
| Extruder.EndIsAfter | klipper/klippy/kinematics/extruder.py:78-80 | the end of a planned move, extruding or not, at which a setting is activated, is between moves |
| Extruder.EntriesFollow | klipper/klippy/kinematics/extruder.py:233-248 | the entries for a move join in time, place and speed and lead from its start to its end in the proportions of the move of the toolhead, and pressure advance applies to all of them or to none |
| Extruder.AddedOrNull | klipper/klippy/chelper/trapq.c:97-199 | every entry of a list was added, or is a null move, to which no pressure advance applies |
| Extruder.NeverInside | klipper/klippy/kinematics/extruder.py:236-250 | when every setting comes into force between two moves of the toolhead, none is inside an entry of the extruder's list, whatever was added and finalized |
| Extruder.SpanningMoveDiffers | klipper/klippy/chelper/kin_extruder.c:69-77 | a move that did span an activation would be stepped differently once it is cut |
| Extruder.SmoothedUniform | klipper/klippy/chelper/kin_extruder.c:36-136 | at constant speed the stepper is ahead of the nominal position by pressure advance times speed, for any number of moves and any window |
| Extruder.SmoothedQuadratic | klipper/klippy/chelper/kin_extruder.c:36-136 | while the extruder accelerates evenly, smoothing adds a third of the way that the acceleration makes in half the smoothing time, for any number of moves that are parts of this motion |
| Extruder.AdvanceIs | klipper/klippy/chelper/kin_extruder.c:60-87 | pressure advance adds the advance times the speed at every instant of a move |
| Extruder.PressureAdvanceIs | klipper/klippy/chelper/kin_extruder.c:69-77 | the advance is that of the last setting in force at the start of the move, or of the first one; a move that is not to be advanced has none |
| StepBisect.IdivUp | klipper/klippy/chelper/stepcompress.c:69-73 | rounds up for either sign |
| StepBisect.IdivDown | klipper/klippy/chelper/stepcompress.c:75-79 | rounds down for either sign |
| StepBisect.Windows | klipper/klippy/chelper/stepcompress.c:87-96 | the windows of consecutive steps are not empty, disjoint and in order, and no wider than the allowed error |
| BisectSearch.WindowIs | klipper/klippy/chelper/stepcompress.c:87-96 | a time is in the window of a step exactly when it is not late, and early by at most the error and half the distance to the step before |
| StepBisect.FitsRunning | klipper/klippy/chelper/stepcompress.c:205-237 | steps that fall into their windows have positive intervals below 2^31 and increase |
| StepBisect.FitsIsOk | klipper/klippy/chelper/stepcompress.c:205-237 | a sequence whose steps all fall into their windows is accepted by check_line |
| StepBisect.CheckLine | klipper/klippy/chelper/stepcompress.c:205-237 | accepts exactly the sequences whose steps are in their windows with intervals in range |
| StepBisect.Tighten | klipper/klippy/chelper/stepcompress.c:129-137 | one round narrows the interval bounds to exactly those intervals that also meet the next window |
| StepBisect.Longest | klipper/klippy/chelper/stepcompress.c:118-140 | the inner loop finds the longest sequence for a given add between the outer bounds, and the largest interval for it |
| StepBisect.FurtherCoversMore | klipper/klippy/chelper/stepcompress.c:141-157 | what reaches further in time covers more steps, which is why the search compares how far sequences reach |
| StepBisect.FurthestIsLongest | klipper/klippy/chelper/stepcompress.c:141-157 | so the furthest sequence of the search is its longest |
| StepBisect.CompressBisectAdd | klipper/klippy/chelper/stepcompress.c:105-197 | for any increasing queue it terminates; its result passes check_line, fits the fields of the command, covers at least as many steps as any sequence of constant speed, and at least 16/17 of those of the longest sequence the search finds; the search goes through exactly the bisection of the range of add until everything is covered, no add is left, or a sequence is too long to be improved, and what it loses on the way is exactly as in `BisectSearch.SearchMisses` |
| BisectSearch.KeptIs | klipper/klippy/chelper/stepcompress.c:158-188 | exactly which intervals and adds a round goes on with, depending on whether its longest sequence came early at the next step |
| BisectSearch.AddLimitsAre | klipper/klippy/chelper/stepcompress.c:180-188 | the window of the next step excludes exactly the adds for which even the longest interval comes early, or the shortest late |
| BisectSearch.AddLimitsLoseNothing | klipper/klippy/chelper/stepcompress.c:182-188 | every sequence with an interval within the outer bounds and an add that the window of the next step excludes misses this window |
| BisectSearch.RoundKeeps | klipper/klippy/chelper/stepcompress.c:158-188 | a sequence within a round, and within the deviation of its add, that covers one more step stays within the bounds of the next round exactly when the round came early at that step, or when its add is smaller than that of the round; it is lost only with a window narrower than the number of steps |
| BisectSearch.DeviationBound | klipper/klippy/chelper/stepcompress.c:98-102 | two sequences that cover the same n steps have values of add no further apart than 12 times the error by n * n, whatever their intervals |
| BisectSearch.BisectedIs | klipper/klippy/chelper/stepcompress.c:190-193 | the next add is a quarter below the upper end of its range, so that the range shrinks by at least a quarter |
| BisectSearch.SearchMisses | klipper/klippy/chelper/stepcompress.c:105-197 | a sequence of any interval and add that covers more steps than the search finds was lost in a round that can be named: its add is between 11 and 12 times the error away, or the window is narrower than the number of steps, or the search stopped at a sequence of more than 512 steps |
| BisectSearch.NarrowWindowLoses | klipper/klippy/chelper/stepcompress.c:158-166 | such a window does lose a sequence: the steps of two close steps with a large error |
| BisectSearch.DeviationLoses | klipper/klippy/chelper/stepcompress.c:98-102 | the factor of 11 does lose a sequence: the only one that covers three given steps is 12 times the error by n * n away, and excluded |
| StepHistory.StepsAfterIs | klipper/klippy/chelper/stepcompress.c:586-612 | how many steps of a record are later than a clock, given the last one that is not |
| StepHistory.RootGrowing | klipper/klippy/chelper/stepcompress.c:602-606 | for growing intervals the root of the quadratic lies between the last step up to the clock and the next |
| StepHistory.RootShrinking | klipper/klippy/chelper/stepcompress.c:602-606 | the same for shrinking intervals |
| StepHistory.SolveIs | klipper/klippy/chelper/stepcompress.c:602-606 | the quadratic formula of the code, truncated, is the number of steps up to the clock |
| StepHistory.OffsetIs | klipper/klippy/chelper/stepcompress.c:598-609 | inside a record the code counts exactly the steps up to the clock, with or without acceleration |
| StepHistory.FindPastPosition | klipper/klippy/chelper/stepcompress.c:586-612 | for any contiguous history and any clock, the start position plus or minus the steps up to that clock |
| StepHistory.DropOldest | klipper/klippy/chelper/stepcompress.c:280-291 | without a record that ended by a clock, the history stays contiguous and answers that clock as before |
| StepHistory.FreeHistory | klipper/klippy/chelper/stepcompress.c:280-291 | expiring keeps a contiguous prefix and changes no answer for clocks from the given one on |
| StepCompress.PointsExact | klipper/klippy/chelper/stepcompress.c:87-96 | the distances computed from the 32-bit queue are the real ones, increasing and in range |
| StepCompress.EmitFaithful | klipper/klippy/chelper/stepcompress.c:376-398 | expanding the command answers the queued steps one for one, none late and none more than the error early |
| StepCompress.EmitIncreasing | klipper/klippy/chelper/stepcompress.c:376-398 | the clocks of the steps produced so far stay strictly increasing across commands |
| StepCompress.EmitPending | klipper/klippy/chelper/stepcompress.c:376-398 | what stays in the 32-bit queue is still within range of the new last step |
| StepCompress.NetSplit | klipper/klippy/chelper/stepcompress.c:586-612 | the net position splits into the steps up to a clock and those after it |
| StepCompress.NetOfRecord | klipper/klippy/chelper/stepcompress.c:346-374 | a history record stands for the net effect of its steps, at every clock |
| StepCompress.HistoryGrows | klipper/klippy/chelper/stepcompress.c:346-374 | a new record keeps the history contiguous and its answers equal to the steps produced |
| StepCompress.McuGrows | klipper/klippy/chelper/stepcompress.c:346-374 | one more command makes an MCU with a 32-bit timer execute exactly the steps of one more record |
| StepCompress.ClocksGrow | klipper/klippy/chelper/stepcompress.c:346-427 | every command, for direction or steps, is sent for the clock of the last step that the commands before it produce, only a single far step for its own |
| StepCompress.Stepper.AddMove | klipper/klippy/chelper/stepcompress.c:346-374 | one message and one history record are added, and stand for the same steps |
| StepCompress.Stepper.FlushOne | klipper/klippy/chelper/stepcompress.c:376-398 | one round shortens the queue by one command that follows on the last step, keeps every invariant and is never refused by check_line |
| StepCompress.Stepper.QueueFlush | klipper/klippy/chelper/stepcompress.c:376-398 | flushes until the queue is empty or the clock is reached, makes no command that follows on the clock or later, and never fails |
| StepCompress.Stepper.SetNextDir | klipper/klippy/chelper/stepcompress.c:411-427 | a change of direction adds exactly one command after all steps of the old one, to be sent with the clock of the last step produced; the same direction adds none |
| StepCompress.Stepper.SendDirection | klipper/klippy/chelper/stepcompress.c:411-427 | the command is sent at the clock of the last step, and the MCU has the new direction |
| StepCompress.Stepper.FlushFar | klipper/klippy/chelper/stepcompress.c:400-408 | a step too far for the queue is produced at exactly its clock |
| StepCompress.Stepper.QueueAppendFar | klipper/klippy/chelper/stepcompress.c:429-442 | all earlier steps are flushed before a far step |
| StepCompress.Stepper.QueueAppendExtend | klipper/klippy/chelper/stepcompress.c:446-480 | making room in the queue loses no step and leaves at most 65535 steps once there were 2000 more |
| StepCompress.Stepper.QueueAppend | klipper/klippy/chelper/stepcompress.c:482-498 | the pending step joins the steps asked for, near, far or after a change of direction |
| StepCompress.Stepper.Append | klipper/klippy/chelper/stepcompress.c:503-530 | a step is held back, and dropped together with its opposite when that comes within the filter time; the net number of steps asked for is conserved |
| StepCompress.Stepper.Flush | klipper/klippy/chelper/stepcompress.c:541-551 | flushes everything queued up to the clock, with the pending step when it is due, and keeps it pending when it is not; a full flush produces every step asked for |
| StepCompress.Stepper.HistoryExpire | klipper/klippy/chelper/stepcompress.c:293-298 | exactly the records that ended by the clock are freed from the end, and history stays right for every clock from it on |
| StepCompress.Stepper.PastPosition | klipper/klippy/chelper/stepcompress.c:586-612 | over any run of the stepper, the net number of steps produced up to the clock |
| StepperSync.RootIsLeast | klipper/klippy/chelper/stepcompress.c:750-771 | the root of the heap is its least element |
| StepperSync.HeapReplace | klipper/klippy/chelper/stepcompress.c:750-771 | the heap stays a heap and exactly one copy of its root is exchanged for the new clock |
| StepperSync.SlotCount | klipper/klippy/chelper/stepcompress.c:773-827 | the number of slots never changes |
| StepperSync.InUseIs | klipper/klippy/chelper/stepcompress.c:807-814 | the slots in use are one for each command that has reached the MCU and is not done |
| StepperSync.LateIsTaken | klipper/klippy/chelper/stepcompress.c:807-814 | slots that become free after a clock are all still in the heap while no transmission was given a later time |
| StepperSync.SlotsSuffice | klipper/klippy/chelper/stepcompress.c:773-827 | with transmission in order and not before the given times, at no clock are more slots in use than the MCU has |
| StepperSync.StepperSync.FindLowest | klipper/klippy/chelper/stepcompress.c:790-803 | the queue whose head is wanted first, or none |
| StepperSync.StepperSync.Enqueue | klipper/klippy/chelper/stepcompress.c:637-639 | a command joins the end of its stepper's list |
| StepperSync.StepperSync.TakeSlot | klipper/klippy/chelper/stepcompress.c:807-814 | a command gets the clock at which a slot is free first; if it needs one, it takes this one over and the heap follows |
| StepperSync.StepperSync.Flush | klipper/klippy/chelper/stepcompress.c:773-827 | always the most urgent head is taken, each stepper's commands in order and without loss, until none is due |
| StepperSync.StepperSync.NeverTooMany | klipper/klippy/chelper/stepcompress.c:773-827 | in every state of the object, the commands sent so far find a slot at any admissible times of arrival |
| Vlq.EncodePy | klipper/klippy/msgproto.py:42-47 | every integer takes one to five bytes |
| Vlq.EncodeC | klipper/klippy/chelper/msgblock.c:72-86 | every uint32 takes one to five bytes |
| Vlq.PyIsShortest | klipper/klippy/msgproto.py:42-47 | no other bytes that a parser reads as the value are fewer, for any integer |
| Vlq.CIsShortest | klipper/klippy/chelper/msgblock.c:72-86 | nor for C, for any uint32 |
| Vlq.ParseInt | klipper/klippy/chelper/msgblock.c:89-102 | parsing in 32 bits gives the unbounded value modulo 2^32 and stops at the same byte |
| Vlq.PyRoundTrip | klipper/klippy/msgproto.py:37-71 | for every integer of python, parsing its encoding uses exactly its bytes and gives it back modulo 2^32, and unchanged as long as 35 bits carry it |
| Vlq.CRoundTrip | klipper/klippy/chelper/msgblock.c:72-102 | every uint32 comes back from its encoding, whatever follows |
| Vlq.EncodersAgree | klipper/klippy/chelper/msgblock.c:72-86 | C and python write the same bytes, except for three bits of the first byte of large negative numbers |
| Vlq.MessageAllocAndEncode | klipper/klippy/chelper/msgblock.c:146-164 | a list of integers is encoded in order, or refused exactly when it does not fit |
| Vlq.MsgblockDecode | klipper/klippy/chelper/msgblock.c:105-119 | decodes the asked number of integers, and fails exactly when they do not end at the end of the payload |
| Vlq.DecodeEncoded | klipper/klippy/chelper/msgblock.c:105-164 | a list that was encoded decodes to itself, and to an error for any other number of integers |
| Messages.ParamRoundTrip | klipper/klippy/msgproto.py:37-81 | a parameter of any type comes back, with nothing but its own bytes used |
| Messages.ReceivedUnchanged | klipper/klippy/msgproto.py:37-71 | values within the range of their type come back unchanged |
| Messages.ParamsRoundTrip | klipper/klippy/msgproto.py:171-187 | a list of parameters comes back in order |
| Messages.MessageRoundTrip | klipper/klippy/msgproto.py:171-187 | a message in a block comes back as the same message with nothing left over |
| Messages.OtherLengthRefused | klipper/klippy/msgproto.py:284-291 | the same message with anything more or less in front of the trailer is refused |
| Framing.CrcStepsAgree | klipper/klippy/chelper/msgblock.c:18-31 | one byte changes the CRC the same in C and in python |
| Framing.CrcStepDivides | klipper/klippy/chelper/msgblock.c:18-31 | the shifts of one byte are eight divisions by the polynomial 0x8408 |
| Framing.CrcDetects | klipper/klippy/chelper/msgblock.c:18-31 | any change of a single byte changes the CRC |
| Framing.Crc16Ccitt | klipper/klippy/chelper/msgblock.c:18-31 | the loop of C computes the CRC of the whole buffer |
| Framing.Crc16CcittPy | klipper/klippy/msgproto.py:29-35 | the loop of python computes the same |
| Framing.FindSyncIsFirst | klipper/klippy/chelper/msgblock.c:58-68 | skipping goes to the first sync byte |
| Framing.MsgblockCheck | klipper/klippy/chelper/msgblock.c:34-69 | never reports more bytes than there are, and asks for more only for less than one message |
| Framing.CheckPacket | klipper/klippy/msgproto.py:243-262 | check_packet accepts, refuses and waits for exactly the blocks that msgblock_check does when it is in sync |
| Framing.Input.InputEvent | klipper/klippy/chelper/serialqueue.c:299-346 | after every read, however the stream was cut, the messages delivered are those of the whole stream, and there is room to read more |
| Framing.CheckStable | klipper/klippy/chelper/msgblock.c:34-69 | more input never changes the decision on bytes that could be decided |
| Framing.LoopSplit | klipper/klippy/chelper/serialqueue.c:327-345 | reading in two parts delivers the messages of reading at once |
| Framing.ChunkingIsIrrelevant | klipper/klippy/chelper/serialqueue.c:299-346 | two ways of cutting a byte stream, garbage included, deliver the same messages |
| Framing.FrameAccepted | klipper/klippy/chelper/serialqueue.c:483-490 | a built block is recognised wherever it starts a buffer, and carries its sequence bits and payload |
| Framing.AcceptedIsFrame | klipper/klippy/chelper/msgblock.c:34-69 | what is recognised as a block is exactly the frame of its sequence bits and payload |
| Framing.CorruptionDetected | klipper/klippy/chelper/msgblock.c:34-69 | a frame with any one byte between its length and its CRC changed is refused, whatever follows |
| Framing.FramesArrive | klipper/klippy/chelper/serialqueue.c:299-346 | a stream of built blocks delivers exactly these blocks |
| Framing.ResyncDelivers | klipper/klippy/chelper/msgblock.c:56-68 | after garbage one sync byte is enough to receive everything that follows |
| SerialLink.AckDecodesExactly | klipper/klippy/chelper/serialqueue.c:219-237 | in every reachable state each acknowledgement on its way decodes to the number the MCU meant |
| SerialLink.AcceptsExactly | klipper/klippy/chelper/serialqueue.c:483-486 | in every reachable state, for any block on the wire, the comparison of four bits by the MCU is a comparison of the whole numbers |
| SerialLink.BuildKeepsInv | klipper/klippy/chelper/serialqueue.c:444-508 | building a block keeps the invariant |
| SerialLink.RetransmitKeepsInv | klipper/klippy/chelper/serialqueue.c:395-441 | a retransmission keeps the invariant |
| SerialLink.DeliverKeepsInv | klipper/klippy/chelper/serialqueue.c:395-441 | a block reaching the MCU keeps the invariant |
| SerialLink.ReceiveAckKeepsInv | klipper/klippy/chelper/serialqueue.c:219-250 | an acknowledgement reaching the host keeps the invariant and moves the window exactly to it |
| SerialLink.RunInOrder | klipper/klippy/chelper/serialqueue.c:219-517 | in every run of losses, retransmissions and acknowledgements, what the MCU accepted is a prefix of what was built, each block once and in order, with at most twelve unacknowledged |
| SerialLink.StartInOrder | klipper/klippy/chelper/serialqueue.c:625-693 | the same from the initial state |
| SerialLink.RetransmitRecovers | klipper/klippy/chelper/serialqueue.c:395-441 | from any reachable state, one retransmission that gets through completes the transfer |
| SerialQueue.BlockLenIs | klipper/klippy/chelper/serialqueue.c:483-490 | the length that is accounted for a block is that of its header, all its messages and its trailer |
| SerialQueue.RetransmitFits | klipper/klippy/chelper/serialqueue.c:395-441 | the unacknowledged blocks fit into the buffer of a retransmission |
| SerialQueue.WakeSeqOnlyAcked | klipper/klippy/chelper/serialqueue.c:240-248 | the number up to which notifications are released is one before the next expected block for an acknowledgement, two before for a data message, and wraps to the greatest exactly for a data message with nothing acknowledged |
| SerialQueue.Raise | klipper/klippy/chelper/serialqueue.c:785-788 | sending may only raise a minimum clock, and changes nothing else |
| SerialQueue.RaisedJustEnough | klipper/klippy/chelper/serialqueue.c:785-788 | a message leaves at most 2^31 ticks before its own clock, and waits no longer than this requires; background messages are not held back |
| SerialQueue.SerialQueue.SendBatch | klipper/klippy/chelper/serialqueue.c:778-811 | a batch joins its queue in order, with raised minimum times, or is ignored when it has no bytes |
| SerialQueue.SerialQueue.MoveReady | klipper/klippy/chelper/serialqueue.c:534-547 | exactly the messages that are due become ready, in order: none of them was to wait longer, and the next one is |
| SerialQueue.SerialQueue.CheckSendCommand | klipper/klippy/chelper/serialqueue.c:511-579 | exactly what is due becomes ready; a block is sent exactly when there is room and a full block or an urgent message is ready; otherwise nothing becomes due before the clock it returns |
| SerialQueue.SerialQueue.RoomIs | klipper/klippy/chelper/serialqueue.c:513-524 | there is room exactly for fewer than twelve unacknowledged blocks that fit, with one more of any size, into the receive window of the MCU |
| SerialQueue.SerialQueue.PickMessage | klipper/klippy/chelper/serialqueue.c:450-464 | the head of a ready queue with the lowest request clock |
| SerialQueue.SerialQueue.FillBlock | klipper/klippy/chelper/serialqueue.c:448-481 | the most urgent message first at every turn, until none is ready or the next does not fit; notifications are noted in the same order |
| SerialQueue.SerialQueue.BuildAndSendCommand | klipper/klippy/chelper/serialqueue.c:444-508 | one block with the next sequence number joins the unacknowledged ones, with exactly the messages taken and its length accounted for |
| SerialQueue.SerialQueue.CommandEvent | klipper/klippy/chelper/serialqueue.c:582-608 | every block built is written, once and in order, in writes within the buffer, and carries the messages that left, until there is no room, or nothing due is upcoming and nothing ready is to be sent yet |
| SerialQueue.SerialQueue.RetransmitEvent | klipper/klippy/chelper/serialqueue.c:395-441 | all unacknowledged blocks are written again in order, within the buffer |
| SerialQueue.SerialQueue.UpdateReceiveSeq | klipper/klippy/chelper/serialqueue.c:158-216 | exactly the acknowledged blocks are dropped, with their bytes, and the length of the last of them is noted |
| SerialQueue.SerialQueue.HandleMessage | klipper/klippy/chelper/serialqueue.c:219-296 | the sequence number is decoded, bogus ones change nothing, and the window moves to it; an acknowledgement fires exactly the notifications of acknowledged blocks, a data message all but those of the last one, in order and once, except that a data message fires all while nothing was acknowledged |
| SerialQueue.SerialQueue.Wake | klipper/klippy/chelper/serialqueue.c:240-255 | notifications up to a block fire in order |
| Transmission.Link.FlushSteps | klipper/klippy/chelper/stepcompress.c:773-823 | a flush takes the most urgent commands until none is due and hands them to the serial queue in this order, with minimum clocks no lower; nothing else changes |
| Transmission.TimesOfFollow | klipper/klippy/chelper/serialqueue.c:444-481 | messages of a queue that leave in order reach the MCU in order and not before their minimum clocks |
| Transmission.SlotTimesFollow | klipper/klippy/chelper/stepcompress.c:807-814 | so do the commands among them that take slots |
| Transmission.Link.SlotsSuffice | klipper/klippy/chelper/stepcompress.c:773-827 | the commands that left the serial queue never take more slots of the MCU than it has, whenever they arrive in order and not before the clock estimated when they left |
| Transmission.Link.Queue | klipper/klippy/chelper/stepcompress.c:637-639 | a command joins a stepper's list and nothing else changes |
| Transmission.Link.SendOther | klipper/klippy/chelper/serialqueue.c:778-811 | a batch for another queue joins it and nothing else changes |
| Transmission.Link.Transmit | klipper/klippy/chelper/serialqueue.c:582-608 | blocks leave with messages in order until there is no room or nothing to send; nothing else changes |
| Transmission.Link.Receive | klipper/klippy/chelper/serialqueue.c:219-296 | the window moves to the acknowledged block, unless the message is bogus; nothing else changes |
| Transmission.Link.Run | klipper/klippy/chelper/stepcompress.c:773-827 | every run of commands queued, flushes, batches to other queues, transmissions and acknowledgements goes through states each of which follows from its event, and in each of which the slots suffice |
| ToolTimes.SpansOrdered | klipper/klippy/toolhead.py:379-392 | the moves of a batch follow each other in time without overlap |
| ToolTimes.SpanIs | klipper/klippy/toolhead.py:379-392 | each move takes exactly its three phases, from the end of all moves before it, whether it is kinematic or not |
| ToolTimes.FlushKeeps | klipper/klippy/toolhead.py:327-346 | step generation covers every flush, and in the main state leaves the time from print time on alone |
| ToolTimes.GeneratesTo | klipper/klippy/toolhead.py:327-346 | steps are generated exactly as far as the flush, and beyond it as far as stays within the flush time of step compression and a flush delay before print time |
| ToolTimes.MoveKeeps | klipper/klippy/toolhead.py:347-356 | advancing print time flushes everything a flush delay behind it, and step generation stays a flush delay behind it |
| ToolTimes.FlushTwice | klipper/klippy/toolhead.py:347-356 | flushing in batches makes no difference to any time: it is one flush to the end |
| ToolTimes.SyncKeeps | klipper/klippy/toolhead.py:357-366 | print time is moved ahead of the MCU and of everything generated, and never back |
| ToolTimes.SyncIsLeast | klipper/klippy/toolhead.py:357-366 | the print time is the least that leaves the start time ahead of the MCU and a flush delay for everything generated and for the kinematics |
| ToolTimes.SleepsWhenFlushed | klipper/klippy/toolhead.py:458-487 | the timer of the background flush is off only while every move appended so far is generated and flushed |
| ToolTimes.DripStepKeeps | klipper/klippy/toolhead.py:563-575 | a reading moves print time on by exactly a segment, or to the end, if it allows that wherever the move is; never further than it allows |
| ToolTimes.DripKeeps | klipper/klippy/toolhead.py:560-575 | a homing move advances in small steps, never further ahead of the MCU than the drip time allows after the last reading, by at least a segment for every reading that allows it, and ends early only when a reading says so or none is left |
| ToolTimes.AllAllowingIsEnough | klipper/klippy/toolhead.py:560-575 | readings that all allow it complete any homing move that is not longer than a segment for each |
| ToolTimes.QueuedKeeps | klipper/klippy/toolhead.py:367-390 | moves are appended one after the other from a time that no step generation has touched, resynchronised unless in the main state |
| ToolTimes.ProcessedKeeps | klipper/klippy/toolhead.py:367-396 | this, and after it all appended moves end by print time and the next flush of step generation covers them; a homing move is paced, and complete when enough readings allow it |
| ToolTimes.HandedOutKeeps | klipper/klippy/toolhead.py:127-178 | flushing the look-ahead queue hands all its moves on, and keeps everything in order |
| ToolTimes.AddedKeeps | klipper/klippy/toolhead.py:179-200 | a move joins the queue and the moves of a lazy flush are processed |
| ToolTimes.EmptiedKeeps | klipper/klippy/toolhead.py:397-403 | every move queued is appended, the queue is empty and the state asks for a new start; with nothing queued only the state changes |
| ToolTimes.StepsFlushedKeeps | klipper/klippy/toolhead.py:404-407 | every move appended so far has its steps generated, and nothing restarts before print time |
| ToolTimes.AskedKeeps | klipper/klippy/toolhead.py:408-414 | print time is safe to move at, everything queued is appended, and only the main state is kept; outside of it print time is at least the start time ahead of the MCU |
| ToolTimes.DweltKeeps | klipper/klippy/toolhead.py:542-545 | print time advances by at least the delay, from a time that is safe to move at |
| ToolTimes.FlushedOnKeeps | klipper/klippy/toolhead.py:472-482 | the background flush goes no further than one batch ahead of the MCU, until that is far enough or nothing is left |
| ToolTimes.HandledKeeps | klipper/klippy/toolhead.py:458-487 | a well filled main state is left alone; a low one is flushed and left, and then flushed on in the background |
| ToolTimes.NextCallIs | klipper/klippy/toolhead.py:458-487 | the handler is not called again exactly when everything is flushed, else after a positive time, when print time or the last flush is exactly at its low mark |
| ToolTimes.PausedKeeps | klipper/klippy/toolhead.py:415-432 | leaves the main state alone and every other one for the priming state |
| ToolTimes.PrimedKeeps | klipper/klippy/toolhead.py:447-457 | the priming state is left with everything handed out, every other state is left alone |
| ToolTimes.RescannedKeeps | klipper/klippy/toolhead.py:643-650 | the flush delay changes only after all steps were generated and flushed, to the longest of those registered, of which one is exchanged and no other is lost |
| ToolTimes.NotedKeeps | klipper/klippy/toolhead.py:657-663 | the times to be flushed and generated up to become the later ones, and the timer is woken |
| ToolTimes.TransmittedKeeps | klipper/klippy/toolhead.py:594-599 | a homing move is appended whole, or nothing is left in the queue |
| ToolTimes.HomedKeeps | klipper/klippy/toolhead.py:576-602 | a homing move that is accepted and not ended early is appended whole after all others, one cut short leaves no move behind, one refused adds none; enough readings that allow it complete it; all steps are generated at the end |
| ToolTimes.OperatedKeeps | klipper/klippy/toolhead.py:327-663 | every operation keeps the times in order, and moves none of them back |
| ToolTimes.RunKeeps | klipper/klippy/toolhead.py:327-663 | so does any run of operations, with any readings of the clock |
| ToolHead.ToolHead.AdvanceFlushTime | klipper/klippy/toolhead.py:327-346 | a flush changes the times as the theorems on them assume, and is noted |
| ToolHead.ToolHead.AdvanceMoveTime | klipper/klippy/toolhead.py:347-356 | the batches flush up to the goal, none of them longer than MOVE_BATCH_TIME |
| ToolHead.ToolHead.CalcPrintTime | klipper/klippy/toolhead.py:357-366 | changes print time alone, as `ToolTimes.SyncKeeps` describes |
| ToolHead.ToolHead.TrapqAppend | klipper/klippy/toolhead.py:380-388 | its precondition is the safety property: no append inside time whose steps were generated |
| ToolHead.ToolHead.UpdateDripMoveTime | klipper/klippy/toolhead.py:560-575 | the loop does with any readings what `ToolTimes.DripKeeps` describes |
| ToolHead.ToolHead.QueueMoves | klipper/klippy/toolhead.py:375-390 | the moves are appended one after the other, only the kinematic ones, each in time that is free |
| ToolHead.ToolHead.ProcessMoves | klipper/klippy/toolhead.py:367-396 | does with any moves what `ToolTimes.ProcessedKeeps` describes |
| ToolHead.ToolHead.LookaheadFlush | klipper/klippy/toolhead.py:127-178 | keeps the times in order, as `ToolTimes.HandedOutKeeps` describes |
| ToolHead.ToolHead.AddMove | klipper/klippy/toolhead.py:179-200 | keeps the times in order, as `ToolTimes.AddedKeeps` describes |
| ToolHead.ToolHead.FlushLookahead | klipper/klippy/toolhead.py:397-403 | keeps the times in order, as `ToolTimes.EmptiedKeeps` describes |
| ToolHead.ToolHead.FlushStepGeneration | klipper/klippy/toolhead.py:404-407 | keeps the times in order, as `ToolTimes.StepsFlushedKeeps` describes |
| ToolHead.ToolHead.GetLastMoveTime | klipper/klippy/toolhead.py:408-414 | keeps the times in order, as `ToolTimes.AskedKeeps` describes, and returns print time |
| ToolHead.ToolHead.Dwell | klipper/klippy/toolhead.py:542-545 | keeps the times in order, as `ToolTimes.DweltKeeps` describes |
| ToolHead.ToolHead.CheckPause | klipper/klippy/toolhead.py:415-432 | leaves the main state alone and every other one for the priming state |
| ToolHead.ToolHead.PrimingHandler | klipper/klippy/toolhead.py:447-457 | leaves the priming state by flushing, and every other state alone |
| ToolHead.ToolHead.FlushHandler | klipper/klippy/toolhead.py:458-487 | the loop keeps the times in order, as `ToolTimes.HandledKeeps` describes, and says when to come back |
| ToolHead.ToolHead.NoteStepGenerationScanTime | klipper/klippy/toolhead.py:643-650 | keeps the times in order, as `ToolTimes.RescannedKeeps` describes |
| ToolHead.ToolHead.TransmitDrip | klipper/klippy/toolhead.py:580-599 | keeps the times in order, as `ToolTimes.TransmittedKeeps` describes |
| ToolHead.ToolHead.DripMove | klipper/klippy/toolhead.py:576-602 | keeps the times in order, as `ToolTimes.HomedKeeps` describes |
| ToolHead.ToolHead.Run | klipper/klippy/toolhead.py:327-663 | any run of operations does what its operations should one after the other, and keeps the times in order |
| BedMesh.GeneratePoints | klipper/klippy/extras/bed_mesh.py:884-948 | refused exactly when points would be closer than one; else the zig-zag path over the grid, and the mode of the zero reference |
| BedMesh.GridInside | klipper/klippy/extras/bed_mesh.py:884-910 | every point of the grid is within the bounds of the mesh, and the last one misses the upper ones by less than a hundredth for each distance |
| BedMesh.GridExtent | klipper/klippy/extras/bed_mesh.py:663-668 | the bounds that are taken from the points are those of the grid |
| BedMesh.PathGroups | klipper/klippy/extras/bed_mesh.py:1006-1016 | the path visits for each base point in turn the point, or all that stand for it |
| BedMesh.GetStdPath | klipper/klippy/extras/bed_mesh.py:1006-1016 | the path is the concatenation of these groups, with the zero reference last |
| BedMesh.CollapseSubstitutes | klipper/klippy/extras/bed_mesh.py:672-698 | one value per base point comes back, as probed or the mean of the substitutes, exactly when no generated point is missing from a list that is not longer than the path |
| BedMesh.MeanIs | klipper/klippy/extras/bed_mesh.py:687-698 | the mean times the number of results is their sum |
| BedMesh.ShortLastGroup | klipper/klippy/extras/bed_mesh.py:687-698 | a list that is too short is accepted only when the last point was substituted, whose mean then counts what is missing as 0 |
| BedMesh.ShortMeshIsWrong | klipper/klippy/extras/bed_mesh.py:672-736 | for a mesh of three by three points on a level bed, a list with one of the two results for the last point missing is accepted, and halves the corner of the matrix |
| BedMesh.RebuildMatrix | klipper/klippy/extras/bed_mesh.py:709-736 | the zig-zag is undone: every row in order of its columns |
| BedMesh.ProbeFinalize | klipper/klippy/extras/bed_mesh.py:651-775 | accepted exactly when that holds and the numbers of rows and columns are right; row r, column c then holds the value of the base point at that place, relative to the reference |
| BedMesh.ValueIsHeight | klipper/klippy/extras/bed_mesh.py:672-698 | when the path was probed on a bed with a height at each point, that value is the height there, or the mean of the heights at the substitutes |
| BedMesh.MeshIsBed | klipper/klippy/extras/bed_mesh.py:651-775 | when the whole path, the zero reference included, was probed on a bed with a height at each point, the results are accepted, and row r, column c of the mesh is the height there, or the mean of those of the substitutes, above that of the zero reference |
| TrDispatch.Clock32Exact | klipper/klippy/chelper/msgblock.c:190-195 | a clock comes back from its low 32 bits exactly when it is within half a turn of the last one |
| TrDispatch.TimesTick | klipper/klippy/chelper/msgblock.c:197-202 | times of clocks differ by their ticks at the estimated frequency, and that of the conversion point is given |
| TrDispatch.DeadlineIs | klipper/klippy/chelper/trdispatch.c:112-114 | a deadline is the clock of the status time and the ticks until expiry, rounded to the nearest; before the conversion point up to one more |
| TrDispatch.UpdatedIs | klipper/klippy/chelper/trdispatch.c:89-92 | a report updates the MCU that it is from with its clock, and no other |
| TrDispatch.ClockRoundTrip | klipper/klippy/chelper/msgblock.c:197-209 | the time of a clock gives the clock back, or the next one before the conversion point |
| TrDispatch.LeastTwo | klipper/klippy/chelper/trdispatch.c:94-109 | one pass gives every MCU the earliest time among the others, its own when alone, for any number and any ties |
| TrDispatch.TrDispatch.Start | klipper/klippy/chelper/trdispatch.c:125-143 | starting twice or without MCUs changes nothing |
| TrDispatch.TrDispatch.SendTimeouts | klipper/klippy/chelper/trdispatch.c:111-119 | every deadline becomes exactly what the rule of extension makes of it, and exactly those that move are sent, in order |
| TrDispatch.TrDispatch.HandleTrsyncState | klipper/klippy/chelper/trdispatch.c:62-123 | a healthy report dispatches the earliest times of the others; the first bad one triggers every MCU once; after it nothing is sent |
| TrDispatch.ExtendedFollows | klipper/klippy/chelper/trdispatch.c:111-119 | the rule leaves every deadline at or less than the least extension before the time given; it moves back exactly when the new deadline is before the old one |
| TrDispatch.DispatchedFollows | klipper/klippy/chelper/trdispatch.c:94-119 | after a healthy report every deadline follows the earliest status time of the other MCUs, and every one that changed was sent |
| TrDispatch.TwoDispatched | klipper/klippy/chelper/trdispatch.c:94-119 | of two MCUs each follows the other |
| TrDispatch.DeadlineMovesBack | klipper/klippy/chelper/trdispatch.c:111-119 | a new clock estimate can move a deadline back |
| ReactorMutex.Mutex.EnterStep | klipper/klippy/reactor.py:75-80 | the lock is taken exactly when it is free; else the greenlet queues last, also during a hand-over |
| ReactorMutex.Mutex.WakeStep | klipper/klippy/reactor.py:81-86 | a woken greenlet takes the lock exactly when a hand-over is pending and it is first |
| ReactorMutex.Mutex.ExitStep | klipper/klippy/reactor.py:87-92 | the lock is handed to the first in the queue, or freed |
| ReactorMutex.StepKeeps | klipper/klippy/reactor.py:65-92 | every step of a greenlet keeps the mutex in order, and only entering lets one more wait |
| ReactorMutex.RunKeeps | klipper/klippy/reactor.py:65-92 | under any interleaving there are never two holders, a lock that is wanted is held or being handed to a greenlet that will be woken, and it is granted in the order of arrival |
| ReactorMutex.Mutex.Run | klipper/klippy/reactor.py:65-92 | any interleaving does what its steps should one after the other |

## Left out

- StepBisect.CompressBisectAdd: does not say that no accelerating sequence is longer than the result, because the code loses some; `BisectSearch.SearchMisses` says which. The result is compared with all sequences of constant speed and with all that the search finds.
- StepCompress.Stepper.QueueAppend: the choice between a free and a full buffer is an input, because the growth and compaction of the buffer itself are not modelled.
- StepCompress.Stepper.Append: the clock is an input, because its rounding from floating-point times is not modelled; step times have to increase, as itersolve produces them.
- StepHistory.FindPastPosition: uses an exact square root, because the rounding of the double-precision one is not modelled.
- SerialQueue.SerialQueue.HandleMessage: leaves out the retransmit timer, duplicate acknowledgements, the round-trip estimate and fast readers, because they only decide when a retransmission happens; `SerialLink` allows one at any time.
- StepperSync.StepperSync.Enqueue: takes a command of one to MESSAGE_PAYLOAD_MAX bytes with its clocks, as the encoder in `Vlq` makes it and the step compressor gives them; a refused command, of no bytes, is only logged there and not modelled further. That all steps are flushed first is `StepCompress.Stepper.Flush`.
- Transmission.Link.SlotsSuffice: takes the clock estimates of the serial queue as lower bounds of the clocks at which messages reach the MCU, because the accuracy of the estimate depends on the wire.
- SerialQueue.SerialQueue.CommandEvent: the idle time and bit times are inside the clock inputs, because they depend on the wire.
- SerialLink.StartInOrder: starts synchronised at sequence number 1, because the resynchronisation with a running MCU and the debug file mode give up the numbering by design.
- ToolHead.ToolHead.UpdateDripMoveTime: takes the readings of the clock as a finite list and counts its end as the signal to stop, because a wait that never ends has no result.
- ToolHead.ToolHead.LookaheadFlush: knows moves only by their durations, because `LookAhead` has the rest.
- ToolHead.ToolHead.CheckPause: has only the change of state, because the loop that pauses changes nothing but the clock.
- Trapq.RunIsSmooth: speaks of stretches queued without a break, because a resynchronisation of print time starts a new motion from rest.
- Shaper.AxisPositionAcrossMoves: requires the instant to lie within the list, because the stepper's active times exclude others and the code would leave the list.
- Extruder.PaRangeIntegrate: requires the window to lie within the list, for the same reason.
- BedMesh.GeneratePoints: is for rectangular beds; round beds, overshoot, the rapid scan path and the choice of the substituted points are not modelled, and any set of substitutes is allowed.
- BedMesh.ProbeFinalize: requires row coordinates below 10^9, beyond which rows would count as close; the rounding of x and y, which only logs use, and the meshes built from the matrix are not modelled.
- TrDispatch.TrDispatch.HandleTrsyncState: gets a decoded report; that other messages are ignored is left to the decoder in `Vlq`.
- Allocation, freeing, locks, threads, sockets, serial ports, CAN, logging and statistics: steps are atomic and memory does not run out.
- Homing resets and position markers of the step compressor, `stepcompress_set_invert_sdir` and `trapq_set_position`: they break contiguity of the history by design.
- `itersolve.c` and the kinematics: their search rests on floating-point tolerances; steps and limits are inputs.
- The extrusion accumulator of `ToolHead.move`: a skipped move leaves the commanded position unchanged and is added again later, so that there is no clean conservation law.
- `MessageParser.encode_msgblock`: it appends the CRC as a nested list; framing is taken from the C code.
- Timers of the reactor, mesh interpolation, move splitting, configuration, G-code registration, sensors and displays: they would add easy members only.
