# RelayController automation engine, modelled in Dafny

This project models the automation engine of the RelayController firmware: the
core loop in `main/core.c` and the relay and bit logic in `main/hardware.c`.
The engine keeps a configuration tree (`IOConfig`) of output and input
descriptors. It reacts to input edges and field-bus events with the actions
and access rules those descriptors list. It times outputs on a 100 ms and a
1 s tick, runs a daily scheduler, keeps the configuration consistent with the
controller model, and drives the relays and LEDs of the board.

Layout:

- `base.dfy`: Option, the C integer widths (`uint8_t`, `uint16_t`,
  `uint32_t`), first-match search, filtering and `%d` text.
- `ioconfig.dfy`: the descriptors, the controller capacity table, and the
  read-only lookups (`getOutputState`, `getInputState`, `outputExists`, …).
- `acl.dfy`: `checkACL`.
- `outputs.dfy`: `setOutput`, `setAllOff`, `outputsTimer` and
  `outputsTimerShot` as functions on the output list.
- `dispatch.dfy`: `processInputEvents` and the action chain `actionsTask`.
- `inputs.dfy`: `correctInput`, `processInput`, and the edge detection and
  sub-tick counters of `inputsTask`.
- `scheduler.dfy`: `initScheduler` and `processScheduler`.
- `reconcile.dfy`: `createIOConfig`, `correctIOConfig` and the field-bus
  slave lookups.
- `indicators.dfy`: `updateValues`.
- `hardware.dfy`:
  - the relay soft start (`setRelayValues`, `relayTask`) as class `Relays`,
    with the bit loop of `setRelayValues` as a method over the three words;
  - the RCV1B shift-register frame and the RCV2 LED levels of `updateStateHW`;
  - `readInputs`, `readServiceButtons` and `getControllerTypeText`.
- `engine.dfy`: the engine's mutable state, proved against the functions
  above:
  - the list loops of the engine (`setAllOff`, the two timer ticks, the two
    loops of `updateValues`, and the delete and add passes of
    `correctIOConfig`) as methods over the lists, each proved to give the
    list its function describes; the class methods assign their results to
    the fields;
  - class `Core`: the configuration lists, the effect log, the running chains
    and the button press times;
  - class `Scheduler`: the task list and the last scheduler minute;
  - class `Poller`: the `inputsTask` loop, with its remembered input bytes
    and its two counters.

Collaborators outside these two files become data:

- What the engine sends to the outside world is appended to an effect log.
  This covers publishing, the field-bus calls, board updates, configuration
  saving and reboot requests.
- Readings the engine takes become parameters. This covers the clock, the
  wall time, the scheduler-enabled flag, the field-bus mode and slave list,
  the "action on same slave" flag and the input bytes.

## Model

| member | source | states |
|---|---|---|
| Base.U8 | main/core.c:1757 | the value a `uint8_t` stores for an integer: unchanged in range, otherwise congruent modulo 256 |
| Base.U16 | main/core.c:1285 | the value a `uint16_t` stores: unchanged in range, otherwise congruent modulo 65536 |
| Base.Find | main/core.c:546-588 | the first-match walk over a cJSON list: the found index satisfies the test and no earlier one does; None means no element does |
| Base.Filter | main/core.c:1656-1675 | deleting the items that fail a test keeps exactly the items that pass it, no more of them than before; order and multiplicity are stated by FilterAppend and FilterCount |
| Base.FilterAll | main/core.c:1656-1675 | when every item passes, deleting the failing ones leaves the list as it was |
| Base.FilterAppend | main/core.c:1656-1675 | filtering a concatenation is filtering each part and concatenating, so the kept items keep their order |
| Base.FilterCount | main/core.c:1656-1675 | every item that passes is kept exactly as often as it occurs, and an item that fails is not kept at all |
| Base.Decimal | main/core.c:1710 | `%d` of a natural number is a non-empty string of decimal digits, a single digit for a number below 10 |
| Base.DecimalValue | main/core.c:1710 | the digits `%d` writes denote the number again, and only 0 is written with a leading 0 |
| IOModel.Capacity | main/core.c:43-50 | every controller model has at most 16 outputs, inputs and buttons, so every channel fits a 16-bit mask |
| IOModel.OutputState | main/core.c:495-514 | getOutputState is the state of the first local output with the id that has a string state, and "off" when there is none |
| IOModel.InputState | main/core.c:516-530 | getInputState is the state of the first input with the id that has a state, whatever its slave id, and "off" when there is none |
| IOModel.InputStateIgnoresSlave | main/core.c:521-528 | a remote input listed before a local one with the same id decides getInputState |
| IOModel.OutputExists | main/core.c:1581-1594 | outputExists: some output has this id and slave id, a missing id read as 255 and a missing slave id as 0; OutputExistsAppend states how it grows |
| IOModel.InputExists | main/core.c:1596-1609 | inputExists: the same test on the inputs; InputExistsAppend states how it grows |
| IOModel.ButtonExists | main/core.c:1611-1621 | buttonExists: some input has this id, whatever its slave id; InputExistsAppend states how it grows |
| IOModel.OutputStateSkipsSlaves | main/core.c:500-505 | getOutputState skips remote outputs, so the same pair reads "off" |
| IOModel.OutputExistsAppend | main/core.c:1581-1594 | appending an output keeps every existing (id, slave) pair and adds exactly the new one |
| IOModel.InputExistsAppend | main/core.c:1596-1621 | the same for inputExists, and for buttonExists, which compares ids only |
| Acl.CheckRulesDenied | main/core.c:687-720 | checkACL denies exactly when the walk reaches a well-formed rule that fires, with every earlier rule well-formed and passing |
| Acl.MalformedRuleAllows | main/core.c:714-717 | a malformed rule ends the walk with "not denied" when no earlier rule fired |
| Acl.SkippedRule | main/core.c:696-713 | a well-formed rule with an unknown type or io never fires, and the walk goes on to the next rule |
| Acl.DenyAndAllowOnInput | main/core.c:696-711 | a deny rule on an input state blocks exactly while the input reads that state; the allow rule blocks exactly while it does not |
| Acl.UnknownOutputReadsOff | main/core.c:700-702 | a rule on an output that no descriptor has compares against "off": "deny when off" denies |
| Acl.CheckRules | main/core.c:688-720 | the walk over the rules: denied at the first well-formed rule that fires, not denied at the first malformed one or at the end; CheckRulesDenied and MalformedRuleAllows state both ways |
| Acl.CheckAcl | main/core.c:682-686 | checkACL: a value that is not an array is never denied, and an array is walked as CheckRules says |
| OutputControl.Resolve | main/core.c:539-541 | "toggle" becomes "off" exactly when getOutputState reads "on", and "on" otherwise; any other value is kept |
| OutputControl.SetOutputList | main/core.c:545-588 | setOutput keeps the length of the output list |
| OutputControl.SetOutputWrites | main/core.c:553-585 | the first local target gets the new state (when it has a state field) and its countdown, and nothing else changes. getOutputState then reads the new value, and the timer published is the countdown as a uint8_t |
| OutputControl.SetOutputUnknownId | main/core.c:545-589 | with no local output of that id, setOutput changes nothing and still publishes, with timer 0 |
| OutputControl.ToggleTwice | main/core.c:539-541 | toggling changes the state that is read, and toggling twice restores it |
| OutputControl.SetOutputIdempotent | main/core.c:553-585 | setting the same value (other than "timer") twice equals setting it once |
| OutputControl.SetOutputTimer | main/core.c:553-585 | the countdown setOutput gives the first local target, 0 when no output has the id; SetOutputWrites and SetOutputUnknownId state both cases |
| OutputControl.SetOutputEffect | main/core.c:589 | publishOutput(0, id, value, timer) with the timer cut to a uint8_t; SetOutputWrites states its value |
| OutputControl.AllOffOutput | main/core.c:611-627 | one descriptor after setAllOff: one whose "timer" reads as a slave id > 0 is left to the remote command, every other is switched off with timer 0; AllOffReadsOff and AllOffUsesTimerAsSlave state what is read afterwards |
| OutputControl.AllOffList | main/core.c:609-629 | setAllOff treats every descriptor on its own: the descriptor at each position becomes that descriptor switched off |
| OutputControl.AllOffEffects | main/core.c:614-618 | setAllOff sends only "off" commands, each to a slave id > 0, at most one per output |
| OutputControl.AllOffReadsOff | main/core.c:619-627 | when no local output holds a nonzero value in "timer", every output reads "off" afterwards |
| OutputControl.AllOffIdempotent | main/core.c:600-631 | running setAllOff twice leaves the list as running it once |
| OutputControl.AllOffUsesTimerAsSlave | main/core.c:611-618 | setAllOff takes the slave id from the "timer" field. A local output with 5 seconds left is sent to slave 5 and stays on. A slave output with timer 0 is switched off locally |
| OutputControl.SlowTickList | main/core.c:922-973 | outputsTimer treats every descriptor on its own |
| OutputControl.SlowTickEffects | main/core.c:944-967 | outputsTimer publishes at most one notification per output |
| OutputControl.FastTickList | main/core.c:982-1024 | outputsTimerShot treats every descriptor on its own |
| OutputControl.Alternate | main/core.c:927-945 | one tick of a trigger or shooter with a timer: count down, and at 0 flip the state and reload from the new state's duration; AlternateRunsOut, TriggerPeriod and ShooterPeriod state its period |
| OutputControl.SlowTick | main/core.c:922-970 | one descriptor after the 1 s tick: a trigger alternates (or gets timer 1), any other output that is on with a countdown counts down and is off at 0; IdleOutputUntouched and CountdownRunsOut state the effect |
| OutputControl.FastTick | main/core.c:984-1021 | one descriptor after the 100 ms tick: a shooter alternates (or gets timer 1), a one-shot counts down and is off at 0; OneShotRunsOut and OneShotStaysOff state the effect |
| OutputControl.IdleOutputUntouched | main/core.c:949-970 | the 1 s tick neither changes nor publishes a non-trigger output that is off or has no countdown left |
| OutputControl.CountdownRunsOut | main/core.c:952-968 | a non-trigger output that is on with t seconds left stays on for t-1 ticks, and after tick t it is off with timer 0 |
| OutputControl.AlternateRunsOut | main/core.c:927-945 | an alternating countdown with t left only counts down for t-1 ticks; tick t flips the state and reloads the countdown from the new state's duration |
| OutputControl.TriggerTicks | main/core.c:924-948 | on a trigger with a timer, the 1 s tick is that alternation |
| OutputControl.ShooterTicks | main/core.c:984-1005 | on a shooter with a timer, the 100 ms tick is that alternation |
| OutputControl.TriggerPeriod | main/core.c:927-945 | a trigger with on time a and off time b stays on for a ticks, is off for the next b, and is back where it started after a+b |
| OutputControl.ShooterPeriod | main/core.c:986-1002 | the same period for a shooter on the fast tick |
| OutputControl.OneShotRunsOut | main/core.c:1006-1021 | a one-shot with t left keeps its state for t-1 fast ticks, and is off with timer 0 from tick t on |
| OutputControl.OneShotStaysOff | main/core.c:1009-1017 | an expired one-shot stays as it is |
| OutputControl.OneShotPulse | main/core.c:574-578 | a one-shot that setOutput switches on is off after exactly three fast ticks (0.3 s), and not before |
| OutputControl.LimitedOutputRunsOut | main/core.c:558-564 | an ordinary output with a limit of l seconds, switched on, stays on for exactly l slow ticks |
| OutputControl.SlowTicksAdd | main/core.c:916-974 | a+b slow ticks are a ticks followed by b ticks |
| OutputControl.FastTicksAdd | main/core.c:976-1025 | a+b fast ticks are a ticks followed by b ticks |
| OutputControl.SlowTickAgesOneShot | main/core.c:949-968 | the 1 s tick also counts down a one-shot that is on, and publishes it |
| Dispatch.DispatchFrame | main/core.c:723-806 | processInputEvents never changes the inputs and only appends to the effect log |
| Dispatch.SetOutputIo | main/core.c:532-590 | setOutput on the engine state: the resolved value goes to the output list and one publication is logged; SetOutputWrites and SingleActionSetsOutput state the result |
| Dispatch.SetAllOffIo | main/core.c:600-631 | setAllOff on the engine state: every descriptor as AllOffOutput says, and the remote commands logged; AllOffList and AllOffEffects state the result |
| Dispatch.SingleOutcome | main/core.c:757-774 | what an event's single action does: ignored on the same slave unless that is enabled, allOff, a remote command for slave id > 0, or setOutput; SameSlaveIgnored and SingleActionSetsOutput state it |
| Dispatch.Decide | main/core.c:729-791 | the first input listening for this slave and input, and its first event of this name, decide the outcome; SelectedDecides and UnheardEventOnlyPublishes state it |
| Dispatch.DispatchIo | main/core.c:723-806 | processInputEvents: carry out the decided outcome, then publish "on", "off" and a long press of input 16; DispatchFrame and PublishedLast state it |
| Dispatch.SelectedDecides | main/core.c:729-791 | only the first listening input and its first event with that name decide what happens |
| Dispatch.UnheardEventOnlyPublishes | main/core.c:734-805 | when no listening input has an event of that name, only the publication happens |
| Dispatch.DeniedEventOnlyPublishes | main/core.c:745-751 | a denying access rule stops the event; it is still published |
| Dispatch.PublishedLast | main/core.c:797-805 | the input is published exactly for "on", "off", and a long press of input 16, as the last effect |
| Dispatch.SingleActionSetsOutput | main/core.c:757-774 | an allowed event whose single action names a local output acts exactly as setOutput, then publishes |
| Dispatch.SameSlaveIgnored | main/core.c:761-771 | a single action on the slave the event came from is ignored, unless acting on the same slave is enabled; then it goes to that slave |
| Dispatch.ChainRestarts | main/core.c:775-785 | an event with any other number of actions (re)starts this input's chain from its first step; outputs, inputs and the other chains are untouched |
| Dispatch.RunStepsFrame | main/core.c:645-669 | the chain steps never touch the chains or the inputs, and only append to the effect log |
| Dispatch.StepIo | main/core.c:645-667 | one chain step: wait does nothing, allOff is setAllOff, an action on slave id > 0 is a remote command and any other is setOutput; RunStepsFrame and WaitsChangeNothing state it |
| Dispatch.ChainTick | main/core.c:638-673 | one iteration of actionsTask: wait a second while the duration lasts, else take the next step and its wait, else end; Engine.Core.RunChain states the whole run |
| Dispatch.RunSteps | main/core.c:645-669 | a chain's steps in order, waits aside; RunStepsAppend and RunStepsFrame state it |
| Dispatch.RunStepsAppend | main/core.c:645-669 | running two step lists one after the other equals running their concatenation |
| Dispatch.WaitsChangeNothing | main/core.c:647-652 | dropping every wait step leaves the outcome of a chain the same |
| Dispatch.EmptyChainEndsAtOnce | main/core.c:670-673 | a chain of no actions ends at its first iteration and does nothing |
| InputControl.InputBytes | main/core.c:1035-1037 | the poller reads 4 input bytes on an RCV1B or RCV2B, and 2 on any other model |
| InputControl.CorrectInput | main/core.c:808-832 | correctInput: the physical bit index to a logical input id per controller model, 255 for a bit that is no input; CorrectInputRange, CorrectInputInjective and Rcv1bLayout state it |
| InputControl.CorrectInputRange | main/core.c:808-832 | every bit the poller can deliver maps to an input id below 32, or to 255 (ignored) |
| InputControl.CorrectInputInjective | main/core.c:808-832 | distinct bits map to distinct ids |
| InputControl.Rcv1bLayout | main/core.c:816-825 | on an RCV1B, inputs 0..15 come from bits 16..31 and buttons 18..25 from bits 0..7; bits 8..13 are ignored |
| InputControl.HeldMs | main/core.c:892-896 | the corrected hold time, the clock difference modulo 2^32; it equals the source's signed difference exactly when the clock did not wrap below the press time |
| InputControl.HeldMsIsHoldTime | main/core.c:892-902 | for any hold shorter than 2^32 ms the measured time is the real one, and the release is a click exactly when the hold was under one second |
| InputControl.HeldAcrossWrapAsWritten | main/core.c:896 | as written, a two-second hold across the wrap of the 32-bit clock reads as a click |
| InputControl.EventFor | main/core.c:866-905 | the event a level change fires: a counting switch toggles, a switch follows the level, a button fires on release, a click under one second and a long press otherwise. The hold time is the corrected HeldMs, not the signed difference of core.c:896 (see "## Left out"); ButtonGesture states it |
| InputControl.EventForAsWritten | main/core.c:866-905 | the same classification with the signed difference of core.c:896; EventForAsWrittenDiffers and ButtonGestureAsWritten state it |
| InputControl.EventForAsWrittenDiffers | main/core.c:892-896 | the as-written and the corrected event agree unless the clock wrapped below the press time, and then the as-written one is always a click |
| InputControl.Counted | main/core.c:868-879 | a counting switch's "i" steps up and wraps to 0 at "ci", both read as uint8_t; CounterStaysBelowModulus and CounterWraps state it |
| InputControl.ProcessInputIo | main/core.c:834-914 | processInput keeps the 32-entry press-time table at 32 entries |
| InputControl.IgnoredBitChangesNothing | main/core.c:837-857 | a bit that is no input, or an id no input has, changes nothing |
| InputControl.ProcessInputFires | main/core.c:854-911 | processInput updates the first input with the corrected id. A button press only records the time. Any other event is dispatched from slave 0 and then recorded for the field-bus master |
| InputControl.ProcessInputSetsState | main/core.c:858-864 | afterwards that input holds "on" for level 1 and "off" for level 0, when it has a state field |
| InputControl.CounterStaysBelowModulus | main/core.c:868-879 | a counting switch keeps a counter; it stays below the modulus read as a uint8_t, is 0 when that reads as 0, and stays below the modulus itself when it fits a uint8_t |
| InputControl.CounterWraps | main/core.c:874-878 | the counter returns to 0 when it reaches the modulus |
| InputControl.ButtonGesture | main/core.c:888-905 | a button press fires nothing; the release fires "toggle" exactly when the hold was under a second, and "longpress" otherwise |
| InputControl.ButtonGestureAsWritten | main/core.c:888-905 | as written, a press fires nothing; a release fires "toggle" exactly when the hold was under a second while the clock did not wrap, and always "toggle" when it did: a 2 s hold from 2^32-1 ms reads as a click where the corrected one reads a long press |
| InputControl.ByteEdges | main/core.c:1051-1056 | the edges of byte i lie in bits i*8 .. i*8+7, at most one per bit |
| InputControl.ByteEdgesChanged | main/core.c:1052-1054 | every edge is a changed bit and carries the bit's old level, the complement of the new one |
| InputControl.ByteEdgesComplete | main/core.c:1049-1056 | every changed bit produces an edge |
| InputControl.BitXor | main/core.c:1049-1052 | a bit of the xor is set exactly when the two bits differ |
| InputControl.Edges | main/core.c:1048-1059 | every edge of a cycle is a bit the poller reads |
| InputControl.Remembered | main/core.c:1057 | the remembered bytes keep their count |
| InputControl.RememberedIsNew | main/core.c:1048-1059 | after a cycle the bytes read are remembered, and the unread ones keep their old value |
| InputControl.ProcessEdges | main/core.c:1048-1059 | processing a cycle's edges keeps the press-time table at 32 entries |
| InputControl.ByteEdgesNone | main/core.c:1050 | an unchanged byte produces no edge |
| InputControl.EdgesNone | main/core.c:1048-1059 | when no input byte changed, a cycle has no edge at all |
| InputControl.SubTick | main/core.c:1061-1070 | one cycle's counters: the 1 s tick every 10th cycle, the scheduler every 60th 1 s tick; CyclesCount states n cycles |
| InputControl.ProcessEdgesAppend | main/core.c:1048-1059 | processing the edges of one list and then of another is processing their concatenation, so the edge loop may be split at any byte or bit |
| InputControl.CyclesCount | main/core.c:1062-1070 | after n cycles of 100 ms, the 1 s tick has run n/10 times and the scheduler n/600 times, with the counters at n mod 10 and (n/10) mod 60 |
| Scheduling.InitTasks | main/core.c:1259-1270 | initScheduler treats every task on its own |
| Scheduling.InitTask | main/core.c:1259-1270 | one task after initScheduler: not done, a name ("Noname task" if none) and an enabled flag (false if none); InitTasksResets states it |
| Scheduling.InitTasksResets | main/core.c:1259-1270 | after initScheduler every task is not done and has a name and an enabled flag; an existing flag, the time and the actions are kept; running it twice equals running it once |
| Scheduling.RunTasks | main/core.c:1302-1385 | the walk marks done exactly the tasks that are due, and leaves every other task as it was |
| Scheduling.Due | main/core.c:1306-1342 | a task runs now when enabled, with a time that has come, not done, listed for today (or for every day) and within its grace (1 when none); GraceWindow and WeekdayFilter state it |
| Scheduling.TaskActionIo | main/core.c:1349-1377 | one task action: "svc" "reboot" without an output requests a restart, "out" is setOutput, "in" is processInputEvents from slave 0, anything else is skipped; Engine.Core.TaskAction states the in-place one |
| Scheduling.RunActions | main/core.c:1347-1379 | a task's actions in order; Engine.Scheduler.RunTaskActions states the in-place one |
| Scheduling.SchedulerTick | main/core.c:1273-1387 | processScheduler: nothing while disabled; otherwise re-initialise the tasks when the minute went back, then run every due task; DisabledSchedulerIdle, MidnightRearms and RunsOncePerDay state it |
| Scheduling.GraceWindow | main/core.c:1306-1342 | a task at 08:00 with 5 minutes of grace runs at 08:02 and 08:05 but not at 08:07; with the default grace it runs at 08:01 but not at 08:02 |
| Scheduling.WeekdayFilter | main/core.c:1322-1339 | a task that lists weekdays runs only on those days |
| Scheduling.DisabledSchedulerIdle | main/core.c:1281-1283 | a disabled scheduler changes nothing, not even the last minute |
| Scheduling.RunsOncePerDay | main/core.c:1306-1309 | a task that ran (and has a "done" field) is not due again before the tasks are re-initialised |
| Scheduling.NoDoneFieldRepeats | main/core.c:1381 | a task without a "done" field keeps none, so it runs again at every minute of its grace period |
| Scheduling.MissedTaskStaysMissed | main/core.c:1291-1342 | a task found past its grace period is never run by any later sequence of clock readings that does not go back (before midnight) |
| Scheduling.MidnightRearms | main/core.c:1291-1294 | when the minute goes back (midnight), a task done yesterday runs again once it is due |
| Reconcile.DefaultLayoutComplete | main/core.c:82-168 | the default layout has exactly the model's outputs 0..n-1, then its buttons 16.., then its switches 0..m-1 |
| Reconcile.CreateIOConfig | main/core.c:82-168 | the default layout with the switch events in place: outputs 0..n-1, then the service buttons, then the switches; DefaultLayoutComplete and DefaultSwitchDrivesOutput state it |
| Reconcile.CreateIOConfigAsWritten | main/core.c:82-168 | the default layout as written, whose switches have empty event arrays; DefaultSwitchDoesNothing and DefaultLayoutAsWrittenComplete state it |
| Reconcile.DefaultLayoutAsWrittenComplete | main/core.c:82-168 | the as-written default layout has exactly the same outputs, buttons and switches as the corrected one |
| Reconcile.ModelData | main/core.c:1543-1546 | a model name found in the capacity table gives that table row, whose counts fit 16 |
| Reconcile.TableNamesDistinct | main/core.c:43-50 | the table names are distinct, so the first-match lookup (slave checks) and the last-match one (adding slave channels) agree |
| Reconcile.SlaveExists | main/core.c:1570-1579 | isMbSlaveExists: some slave entry has this numeric slave id; PruneExactly states how it decides deletion |
| Reconcile.SlaveChannelExists | main/core.c:1536-1568 | isMbSlaveOutputExists / isMbSlaveInputExists: the first entry with this slave id and a known model decides whether the channel is below that model's count; PruneExactly states how it decides deletion |
| Reconcile.PruneOutput | main/core.c:1656-1675 | an output correctIOConfig deletes: a slave output on a field-bus slave, a local output with id > count, or on a master an output of an unknown slave or beyond its model; PruneExactly and PruneKeepsIdAtCapacity state it |
| Reconcile.PruneInput | main/core.c:1677-1700 | the same for inputs, where ids from 16 up (buttons) are never deleted; PruneExactly and AddedButtonsKept state it |
| Reconcile.CorrectIOConfig | main/core.c:1635-1804 | correctIOConfig: delete the failing descriptors, add the missing local and slave channels, save when forced or when anything changed; CorrectedHasEveryChannel, PruneExactly and CorrectIdempotent state it |
| Reconcile.AddOutputs | main/core.c:1705-1718 | adding missing outputs only appends, and afterwards outputs 0..n-1 of the slave exist |
| Reconcile.AddInputs | main/core.c:1720-1733 | adding missing inputs only appends, and afterwards inputs 0..n-1 of the slave exist |
| Reconcile.AddButtons | main/core.c:1735-1747 | adding missing buttons only appends, and afterwards buttons 16..16+n-1 exist |
| Reconcile.SlaveCounts | main/core.c:1759-1768 | a slave's channel counts fit 16, and are zero for an unknown model |
| Reconcile.AddSlave | main/core.c:1756-1795 | a listed slave's channels are only appended |
| Reconcile.AddSlaves | main/core.c:1753-1796 | the channels of all listed slaves are only appended |
| Reconcile.CorrectedHasEveryChannel | main/core.c:1705-1747 | after correctIOConfig every output, input and button of the controller model exists |
| Reconcile.PruneExactly | main/core.c:1653-1700 | correctIOConfig keeps exactly the descriptors that pass the prune tests |
| Reconcile.PruneKeepsIdAtCapacity | main/core.c:1667 | the output test is `id > count`: on an RCV1S an output with id 4 is kept and one with id 5 is deleted |
| Reconcile.AddOutputsNoop | main/core.c:1706-1707 | adding outputs is a no-op when they all exist |
| Reconcile.AddInputsNoop | main/core.c:1721-1722 | adding inputs is a no-op when they all exist |
| Reconcile.AddButtonsNoop | main/core.c:1736-1737 | adding buttons is a no-op when they all exist |
| Reconcile.AddedOutputsKept | main/core.c:1667 | the outputs correctIOConfig adds pass its own prune test |
| Reconcile.AddedInputsKept | main/core.c:1690-1692 | the inputs it adds pass its own prune test |
| Reconcile.AddedButtonsKept | main/core.c:1690 | the buttons it adds pass its own prune test |
| Reconcile.CorrectedSurvivesPruning | main/core.c:1653-1747 | without field-bus slaves, a second delete pass removes nothing correctIOConfig left behind |
| Reconcile.CorrectIdempotent | main/core.c:1635-1804 | without field-bus slaves, correcting a corrected configuration changes nothing and does not save |
| Reconcile.DefaultLayoutSurvivesPruning | main/core.c:82-168 | without field-bus slaves, the delete passes remove nothing from the default layout |
| Reconcile.DefaultLayoutNeedsNoCorrection | main/core.c:82-168 | the default layout needs no correction and is not saved |
| Reconcile.DefaultLayoutAsWrittenSurvivesPruning | main/core.c:82-168 | without field-bus slaves, the delete passes remove nothing from the as-written default layout |
| Reconcile.DefaultLayoutAsWrittenNeedsNoCorrection | main/core.c:82-168 | the as-written default layout needs no correction either and is not saved |
| Reconcile.DefaultSwitchDoesNothing | main/core.c:142-159 | as written, a default switch has no events: flipping it only publishes its state |
| Reconcile.DefaultSwitchDrivesOutput | main/core.c:135-159 | with the events in place, switching default input i on or off sets its output (i, or the last output) to the same state |
| Indicators.OutputMaskBits | main/core.c:336-353 | bit b of the relay word is set exactly when some local output with id b is on |
| Indicators.InputMaskBits | main/core.c:354-368 | bit b of the input LED word is set exactly when some local input with id b is on |
| Indicators.SetBit | main/core.c:348-349 | `setbit` on a uint16_t sets bit b; OutputMaskBits states the words it builds |
| Indicators.OutputMask | main/core.c:336-353 | the relay word, one bit per local output that is on; OutputMaskBits states it both ways |
| Indicators.InputMask | main/core.c:354-368 | the input LED word, one bit per local input that is on; InputMaskBits states it both ways |
| Indicators.UpdateValuesIo | main/core.c:325-374 | updateValues: missing states become "off", and the two words go to the board and the field-bus image; UpdateValuesDefaults and UpdateValuesReports state it |
| Indicators.DefaultedOutputs | main/core.c:341-343 | every output without a state gets "off"; nothing else changes |
| Indicators.DefaultedInputs | main/core.c:359-361 | every input without a state gets "off"; nothing else changes |
| Indicators.UpdateValuesDefaults | main/core.c:336-368 | after updateValues every descriptor has a state and nothing else of it changed; a second run leaves the lists alone |
| Indicators.UpdateValuesReports | main/core.c:370-373 | updateValues hands the board a relay word equal to its output LED word, with bit b set exactly when local output b is on, and an input LED word with bit b set exactly when local input b is on. It hands the same two words to the field-bus image |
| Hardware.SetValuesBits | main/hardware.c:442-457 | setRelayValues makes the request v. It resets the prepare and hold bits of every relay switched on, and keeps them for every other relay |
| Hardware.SetValues | main/hardware.c:442-457 | setRelayValues(v) on the three words: the request is v, and a relay switched on starts its soft start again; SetValuesBits states it |
| Hardware.SwitchWrites | main/hardware.c:443-455 | the PWM writes of setRelayValues in channel order, 0 for a relay switched off and full power for one switched on; SwitchWritesChannels states it |
| Hardware.SwitchWritesChannels | main/hardware.c:443-455 | setRelayValues writes 0 to exactly the relays switched off and 4096 to exactly the relays switched on, and nothing else |
| Hardware.TaskStepLeavesOffRelays | main/hardware.c:211-218 | a relayTask pass leaves the request alone and never touches a relay that is off |
| Hardware.TaskStep | main/hardware.c:211-218 | one relayTask pass: an on relay without its prepare bit gets it, and an on relay with it drops to the holding duty; SoftStartOrder and StepsKeepBits state it |
| Hardware.PulseWrites | main/hardware.c:214-216 | the writes of a relayTask pass, the holding duty to each relay it drops; PulseWritesChannels and PulsedOnce state it |
| Hardware.PulseWritesChannels | main/hardware.c:214-216 | a relayTask pass writes the holding duty 2000, exactly to the relays it drops to holding |
| Hardware.SoftStartOrder | main/hardware.c:211-217 | after a relay is switched on, the first pass only sets its prepare bit, and the second drops it to the holding duty |
| Hardware.StepsKeepBits | main/hardware.c:211-218 | relayTask passes never clear a holding bit |
| Hardware.PulsedOnce | main/hardware.c:214-216 | a relay is dropped to the holding duty at most once until it is switched again |
| Hardware.RelaysValidKept | main/hardware.c:442-457 | "every holding relay has had its prepare pass" is kept by setRelayValues and by relayTask |
| Hardware.Relays.constructor | main/hardware.c:28-30 | the request, prepare and hold words start at 0 |
| Hardware.SwitchPass | main/hardware.c:443-455 | the bit loop on the relay words gives SetValues and makes exactly the writes SwitchWrites lists |
| Hardware.Relays.SetRelayValues | main/hardware.c:442-457 | the bit loop leaves the words as SetValues says, and makes the writes SwitchWrites lists |
| Hardware.Relays.TaskPass | main/hardware.c:211-218 | the loop body leaves the words as TaskStep says, and makes the writes PulseWrites lists |
| Hardware.Relays.UpdateState | main/hardware.c:519-572 | an RCV1B gets its six-byte frame. An RCV2S or RCV2B gets setRelayValues and its LED levels. Every other model gets nothing, with the relay words untouched |
| Hardware.FromBits | main/hardware.c:530-535 | a bit string of length n reads as a number below 2^n |
| Hardware.ToBits | main/hardware.c:530-535 | the n low bits of a number form a string of length n |
| Hardware.ToFromBits | main/hardware.c:530-535 | reading a bit string and writing it back gives the same string |
| Hardware.FromToBits | main/hardware.c:530-535 | writing a number below 2^n as n bits and reading them back gives the same number |
| Hardware.JoinSplit | main/hardware.c:530-535 | splitting a word into its high and low byte and joining them gives the same word |
| Hardware.SplitJoin | main/hardware.c:530-535 | joining two bytes and splitting the word gives the same two bytes |
| Hardware.Rcv1bFrame | main/hardware.c:529-536 | an RCV1B frame has six bytes |
| Hardware.Rcv1bRoundTrip | main/hardware.c:529-536 | the RCV1B frame loses nothing: the three words can be read back from it, and every six-byte frame is the frame of its words |
| Hardware.Rcv2sLedsAsWritten | main/hardware.c:542-555 | an RCV2S drives ten LED channels as written |
| Hardware.Rcv2sLeds | main/hardware.c:542-560 | an RCV2S drives ten LED channels, as evidently intended |
| Hardware.Rcv2sOutputLedFollowsInput | main/hardware.c:553-560 | as written, when only input 0 is on, the LED of output 0 is lit; corrected, it stays dark. The as-written result is the corrected one with the two words swapped |
| Hardware.Rcv2sLedsAsWrittenDiffers | main/hardware.c:542-560 | as written, channels 0..5 are the corrected ones and channels 6..9 repeat input LEDs 0..3, so the two agree exactly when input and output LEDs 0..3 do |
| Hardware.Rcv2sLedsShowWords | main/hardware.c:542-560 | corrected, LED channel i < 6 is lit exactly when input LED i is on, and channel 6+i exactly when output LED i is on |
| Hardware.Rcv2bLeds | main/hardware.c:564-570 | an RCV2B drives 28 LED channels |
| Hardware.Rcv2bLedsShowWords | main/hardware.c:564-570 | on an RCV2B, input LED i lights channel i and output LED i lights channel 16+i; output LED bits 12..15 are not shown |
| Hardware.ReadInputs | main/hardware.c:574-595 | readInputs changes only the first `count` bytes of the buffer |
| Hardware.ReadInputsRanges | main/hardware.c:579-594 | a two-byte read on an RCV2 carries six and four inputs; an unknown model reads every byte as 0xFF (nothing pressed) |
| Hardware.ServiceButtons | main/hardware.c:596-627 | readServiceButtons: the inverted button bits of each model, bit i set when button i is pressed; Rcv1sButtons, Rcv1bButtons, Rcv2bButtons and OtherModelsNoButtons state each model |
| Hardware.Rcv1sButtons | main/hardware.c:603-608 | an RCV1S reports four buttons, the inverted high nibble of the first byte |
| Hardware.Rcv1bButtons | main/hardware.c:609-615 | an RCV1B reports six buttons: the inverted low nibble of the first byte, shifted up two, over the inverted top bits of the second |
| Hardware.Rcv2bButtons | main/hardware.c:616-622 | an RCV2B reports sixteen buttons: the inverted face bytes, the second byte high |
| Hardware.OtherModelsNoButtons | main/hardware.c:623-625 | the other models report no button |
| Hardware.ControllerTypeTextDistinct | main/hardware.c:630-644 | the known models have distinct names, and "UNKNOWN" names exactly the other values |
| Hardware.ControllerTypeText | main/hardware.c:630-644 | getControllerTypeText: the name of each known model and "UNKNOWN" for any other number; ControllerTypeTextDistinct states it |
| Engine.AllOffPass | main/core.c:609-629 | the loop leaves every output as AllOffOutput says and sends exactly the remote commands AllOffEffects lists, in list order |
| Engine.SlowTickPass | main/core.c:916-974 | the 1 s loop leaves every output as SlowTickList says and publishes what SlowTickEffects lists, in list order |
| Engine.FastTickPass | main/core.c:976-1025 | the 100 ms loop leaves every output as FastTickList says |
| Engine.CollectOutputs | main/core.c:336-353 | the output loop gives each output a state and collects the relay word of the defaulted list |
| Engine.CollectInputs | main/core.c:354-368 | the input loop gives each input a state and collects the input LED word of the defaulted list |
| Engine.DeleteRejected | main/core.c:1653-1700 | the back-to-front delete loop keeps exactly the items Filter keeps, in their order, and reports whether it deleted any |
| Engine.AddOutputsPass | main/core.c:1705-1718 | the add loop appends the outputs AddOutputs appends, and reports whether it appended any |
| Engine.AddInputsPass | main/core.c:1720-1733 | the add loop appends the inputs AddInputs appends, and reports whether it appended any |
| Engine.AddButtonsPass | main/core.c:1735-1747 | the add loop appends the buttons AddButtons appends, and reports whether it appended any |
| Engine.AddSlavesPass | main/core.c:1749-1796 | the slave loop adds the channels AddSlaves adds, slave by slave, and reports whether it added any |
| Engine.CorrectLayout | main/core.c:1635-1804 | the delete and add passes, in the source's order, give Reconcile.CorrectIOConfig's lists and its changed flag |
| Engine.Core.constructor | main/core.c:21-52 | the engine starts with the given lists, no effects, no chains, all 32 press times 0 and the relay words 0 |
| Engine.Core.SetOutput | main/core.c:532-590 | the in-place search and update leave the state as SetOutputIo says |
| Engine.Core.SetAllOff | main/core.c:600-631 | setAllOff leaves the state as SetAllOffIo says |
| Engine.Core.OutputsTimer | main/core.c:916-974 | outputsTimer gives the 1 s tick's list and appends its notifications; inputs and chains are untouched |
| Engine.Core.OutputsTimerShot | main/core.c:976-1025 | outputsTimerShot gives the 100 ms tick's list; nothing else changes |
| Engine.Core.ProcessInputEvents | main/core.c:723-806 | the in-place dispatch leaves the state as DispatchIo says |
| Engine.Core.Step | main/core.c:645-669 | one chain step leaves the state as StepIo says |
| Engine.Core.RunChain | main/core.c:633-680 | a registered chain runs all its steps in order and is removed; the seconds it waited are its waits added up |
| Engine.Core.ProcessInput | main/core.c:834-914 | the state and the press-time array end as ProcessInputIo says |
| Engine.HandToBoard | main/core.c:370 | after updateStateHW the relay words of an RCV2S or RCV2B have taken the relay word, and on other models they are untouched |
| Engine.Core.UpdateValues | main/core.c:325-374 | the lists and effects end as UpdateValuesIo says. On an RCV2S or RCV2B the relay words take the relay word, and on other models they are untouched |
| Engine.Core.CorrectIOConfig | main/core.c:1635-1804 | the lists end as Reconcile.CorrectIOConfig says, and the configuration is saved exactly when it reports a change |
| Engine.Core.TaskAction | main/core.c:1348-1378 | one scheduler action leaves the state as TaskActionIo says |
| Engine.Scheduler.constructor | main/core.c:1287 | the scheduler starts with the given tasks and last minute 0 |
| Engine.Scheduler.InitScheduler | main/core.c:1249-1271 | the in-place loop gives InitTasks of the task list |
| Engine.Scheduler.RunTaskActions | main/core.c:1347-1379 | a task's actions run in order, as RunActions says |
| Engine.Scheduler.RunDueTasks | main/core.c:1300-1385 | the walk leaves the engine and the task list as RunTasks says |
| Engine.Scheduler.ProcessScheduler | main/core.c:1273-1387 | the engine and the scheduler end as SchedulerTick says |
| Engine.QuietCycle | main/core.c:1048-1072 | a cycle with no input change that is not a 10th cycle only runs the fast tick and updateValues; the press times and the scheduler stay as they were |
| Engine.SchedulerCycle | main/core.c:1061-1072 | the 600th cycle runs the fast tick, then the slow tick, then the scheduler on the state the timers left, then updateValues |
| Engine.CycleIo | main/core.c:1044-1072 | one iteration of inputsTask on values: the cycle's edges through processInput, the 100 ms tick, every 10th cycle the 1 s tick, every 600th the scheduler, then updateValues; QuietCycle and SchedulerCycle state it |
| Engine.Poller.constructor | main/core.c:1030-1033 | the poller starts with both counters at 0 and all four remembered bytes at 0xFF |
| Engine.Poller.ScanBit | main/core.c:1052-1055 | one bit of the bit loop: a changed bit is one edge, with the bit's old level, processed by processInput; an unchanged bit is no edge and changes nothing |
| Engine.Poller.ScanByte | main/core.c:1051-1056 | the bit loop of one byte processes that byte's edges, lowest bit first |
| Engine.Poller.ScanStep | main/core.c:1049-1058 | one byte of the edge loop processes its edges and remembers the byte when it changed |
| Engine.Poller.ScanInputs | main/core.c:1048-1059 | the edge loop processes exactly the edges of the cycle, in order, and remembers the bytes as Remembered says |
| Engine.Poller.Cycle | main/core.c:1044-1072 | one iteration leaves the engine, the press times and the scheduler as CycleIo says, with the counters advanced as SubTick says |

## Left out

- The `!cJSON_IsArray(outputs/inputs)` early returns: the model's configuration always holds both arrays.
- A field that is present but has the wrong JSON type is treated as absent.
- The source crashes where it dereferences a missing field. The model uses these defaults instead:
  - an action without "action" does nothing;
  - an event without a name never matches;
  - an input without "type" is treated as a button;
  - a trigger without a state is published with an empty state;
  - a task without "actions" has none;
  - a slave without "model" has no channels;
  - a missing "i" counter is read as 0;
  - in setAllOff, an output with a numeric "slaveId" but no numeric "timer" reads slave id 0 and is switched off locally, and a remote output without "id" is commanded as output 0;
  - a trigger or shooter without an "on" or "off" duration reloads 0, and one without a state is not "on" and takes no state;
  - outputsTimer publishes an output without "id" as output 0;
  - a single action without "output" does nothing.
- cJSON lookups are case-insensitive; the model's fields are fixed keys. Adding a key that is already present adds a duplicate in cJSON; the model keeps one value.
- Publishing (MQTT and websocket payloads), the field-bus driver, `MBAddInputEvent`, `MBUpdateData`, `saveConfig` and rebooting are entries in the effect log, not transports.
- Semaphores, task creation and `vTaskDelete` are left out. So are the 100 ms and 1 s delays and the concurrency between `inputsTask`, `actionsTask`, `relayTask` and the network handlers. `Engine.Core.RunChain` runs a chain to its end without interleaving.
- The clock, the wall time, `getConfigValueBool("scheduler/enabled")`, `getMbMode`, `modbus/slaves` and `getActionOnSameSlave` are parameters.
- `initScheduler` also re-reads the scheduler object from storage; the model keeps the task list it has.
- `processInputEvents`' fourth argument `i` is unused in the source and is not modelled.
- `setbit` with a bit number outside 0..15 is assumed to leave the word unchanged.
- Each `uint16_t` bit mask is a sequence of 16 booleans, bit i being element i.
- The RCV1S branch of `updateStateHW` is left out, because `revByte` is not part of this model.
- The I2C, 595 and 165 bus transfers are left out: `setI2COut` calls are returned as lists of channel and level pairs, and shifted-out bytes as a frame.
- `createIOConfig` replaces the global tree and has no in-place method. `sendInfo`, `sendHello` and `getDeviceInfoJson` are reporting and are left out.
- `Engine.Poller.Cycle` takes the bytes `readInputs` returns as a parameter; `Hardware.ReadInputs` models that read separately.
- InputControl.EventFor: a button release is classified by the corrected hold time HeldMs (the clock difference modulo 2^32), not by the signed difference of core.c:896. The two differ only when the 32-bit clock wrapped below the press time, where the source always reads a click (row 2 of "## Findings"); InputControl.EventForAsWritten and InputControl.ButtonGestureAsWritten model the code as written.
- InputControl.ProcessInputIo: inherits the corrected classification of InputControl.EventFor for a release after the clock wrapped; so do InputControl.ProcessEdges, Engine.CycleIo and the methods of `Engine.Poller`.
- InputControl.ButtonGesture: states the corrected classification; the as-written one, which reads every release after a wrap as a click, is InputControl.ButtonGestureAsWritten.
- Engine.Core.ProcessInput: follows InputControl.ProcessInputIo, so it too uses the corrected hold time after a wrap of the clock.
- Hardware.Relays.UpdateState: on an RCV2S, LED channels 6..9 take the corrected `Rcv2sLeds` (output LEDs 0..3), not input LEDs 0..3 as main/hardware.c:553-555 writes them (row 3 of "## Findings"); Hardware.Rcv2sLedsAsWritten and Hardware.Rcv2sLedsAsWrittenDiffers model the code as written.
- `Engine.Core.RunChain`: requires that the input has a registered chain. In the source, a chain that is not running has no task.

## Findings

| source | as written | input that shows it | evidently intended | confidence | as-written member | corrected member |
|---|---|---|---|---|---|---|
| main/core.c:142-159 | `createIOConfig` builds the "on" and "off" events of each default switch but never adds them to their arrays. The switch ends up with an empty "events" array | any controller model; flip default input 0 on | input i switches output i (or the last output) on and off | not executed | Reconcile.DefaultSwitchDoesNothing | Reconcile.DefaultSwitchDrivesOutput |
| main/core.c:892-896 | the hold time is the 32-bit clock now minus the 32-bit press time, taken in signed 64-bit arithmetic, so it is negative when the clock wrapped | press at 2^32-1 ms, release at 2^32+1999 ms: a 2 s hold read as a click | the difference modulo 2^32, which is the real hold time | not executed | InputControl.ButtonGestureAsWritten | InputControl.ButtonGesture |
| main/hardware.c:553-560 | the RCV2S loop for LED channels 6..9 reads `inputsLeds`; the commented-out lines read `outputsLeds` | input 0 on and output 0 off: channel 6 (output 0's LED) is lit | channels 6..9 show the output LEDs | not executed | Hardware.Rcv2sLedsAsWrittenDiffers | Hardware.Rcv2sLedsShowWords |
