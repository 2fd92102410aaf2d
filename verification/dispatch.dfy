/** The event dispatcher `processInputEvents` (main/core.c:723-806) and the
    action chain `actionsTask` (main/core.c:633-680), as functions on the part
    of the engine state they touch: the output and input lists, the effect log
    and the running chains (one per input, named `actiontask_<input>` in the
    source). */
module Dispatch {
  import opened Base
  import opened IOModel
  import opened Acl
  import opened OutputControl

  /** A running actionsTask: the steps not yet taken and the seconds still to
      wait before the next one. */
  datatype Chain = Chain(steps: seq<Action>, wait: Word)

  /** The engine state an event can change. */
  datatype Io = Io(outputs: seq<Output>, inputs: seq<Input>, effects: seq<Effect>, chains: map<Byte, Chain>)

  /** setOutput(id, value) on the whole state. */
  function SetOutputIo(io: Io, id: Byte, value: string): Io {
    var v := Resolve(io.outputs, id, value);
    io.(outputs := SetOutputList(io.outputs, id, v),
        effects := io.effects + [SetOutputEffect(io.outputs, id, v)])
  }

  /** setAllOff() on the whole state. */
  function SetAllOffIo(io: Io): Io {
    io.(outputs := AllOffList(io.outputs), effects := io.effects + AllOffEffects(io.outputs))
  }

  /** setRemoteOutput: a command to a field-bus slave. */
  function RemoteIo(io: Io, slave: Byte, output: Byte, action: string): Io {
    io.(effects := io.effects + [RemoteOutputSet(slave, output, action)])
  }

  // ---------------------------------------------------------------------------
  // processInputEvents
  // ---------------------------------------------------------------------------

  /** What the dispatcher decides to do for an event. */
  datatype Outcome =
    | Nothing
    | AllOff
    | SetLocal(output: Byte, action: string)
    | SetRemote(slave: Byte, output: Byte, action: string)
    | StartChain(steps: seq<Action>)

  /** An input that answers events of (slave, input): this id, this slave id
      (absent counts as 0) and an events array. */
  predicate Listens(i: Input, slave: Byte, input: Byte) {
    i.id == Some(input as int) && ByteOr0(i.slaveId) == slave && i.events.Some?
  }

  predicate Named(e: Event, name: string) {
    e.name == Some(name)
  }

  /** The single action of an event, run inline. An action without a string
      "action" field, or a non-allOff one without a numeric "output", is
      dereferenced as NULL by the source; the model does nothing there. */
  function SingleOutcome(a: Action, slave: Byte, sameSlave: bool): Outcome {
    var sid := ByteOr0(a.slaveId);
    if a.action.None? then Nothing
    else if slave > 0 && sid == slave && !sameSlave then Nothing
    else if a.action.value == "allOff" then AllOff
    else if a.output.None? then Nothing
    else if sid > 0 then SetRemote(sid, U8(a.output.value), a.action.value)
    else SetLocal(U8(a.output.value), a.action.value)
  }

  /** The outcome of the event the dispatcher found. */
  function EventOutcome(e: Event, outs: seq<Output>, ins: seq<Input>, slave: Byte, sameSlave: bool): Outcome {
    if CheckAcl(e.acls, outs, ins) then Nothing
    else if e.actions.None? then Nothing
    else if |e.actions.value| == 1 then SingleOutcome(e.actions.value[0], slave, sameSlave)
    else StartChain(e.actions.value)
  }

  /** The first listening input and its first event with this name decide. */
  function Decide(outs: seq<Output>, ins: seq<Input>, slave: Byte, input: Byte, event: string, sameSlave: bool): Outcome {
    match Find(ins, (i: Input) => Listens(i, slave, input))
    case None => Nothing
    case Some(k) =>
      match Find(ins[k].events.value, (e: Event) => Named(e, event))
      case None => Nothing
      case Some(j) => EventOutcome(ins[k].events.value[j], outs, ins, slave, sameSlave)
  }

  /** Carrying out an outcome. Starting a chain replaces the one running for
      the same input. */
  function Perform(io: Io, input: Byte, o: Outcome): Io {
    match o
    case Nothing => io
    case AllOff => SetAllOffIo(io)
    case SetLocal(output, action) => SetOutputIo(io, output, action)
    case SetRemote(slave, output, action) => RemoteIo(io, slave, output, action)
    case StartChain(steps) => io.(chains := io.chains[input := Chain(steps, 0)])
  }

  /** "on"/"off" events are published whatever happened; so is a long press of
      input 16. */
  predicate Published(input: Byte, event: string) {
    event == "on" || event == "off" || (input == 16 && event == "longpress")
  }

  function PublishInput(io: Io, input: Byte, event: string): Io {
    if Published(input, event) then io.(effects := io.effects + [InputPublished(input, event, 0)]) else io
  }

  /** processInputEvents(slave, input, event) on the whole state. */
  function DispatchIo(io: Io, slave: Byte, input: Byte, event: string, sameSlave: bool): Io {
    PublishInput(Perform(io, input, Decide(io.outputs, io.inputs, slave, input, event, sameSlave)), input, event)
  }

  /** The dispatcher never changes the inputs and only appends to the effect
      log. */
  lemma DispatchFrame(io: Io, slave: Byte, input: Byte, event: string, sameSlave: bool)
    ensures DispatchIo(io, slave, input, event, sameSlave).inputs == io.inputs
    ensures var e := DispatchIo(io, slave, input, event, sameSlave).effects;
            |e| >= |io.effects| && e[..|io.effects|] == io.effects
  {
    var p := Perform(io, input, Decide(io.outputs, io.inputs, slave, input, event, sameSlave));
    assert p.effects[..|io.effects|] == io.effects;
  }

  /** `ins[k]` is the first listening input and `j` its first event with this
      name. */
  ghost predicate Selected(ins: seq<Input>, slave: Byte, input: Byte, event: string, k: nat, j: nat) {
    k < |ins| && Listens(ins[k], slave, input) &&
    (forall i :: 0 <= i < k ==> !Listens(ins[i], slave, input)) &&
    j < |ins[k].events.value| && Named(ins[k].events.value[j], event) &&
    (forall l :: 0 <= l < j ==> !Named(ins[k].events.value[l], event))
  }

  /** Only the selected event counts: later inputs and later events of the
      same name are never consulted. */
  lemma SelectedDecides(outs: seq<Output>, ins: seq<Input>, slave: Byte, input: Byte, event: string, sameSlave: bool, k: nat, j: nat)
    requires Selected(ins, slave, input, event, k, j)
    ensures Decide(outs, ins, slave, input, event, sameSlave) == EventOutcome(ins[k].events.value[j], outs, ins, slave, sameSlave)
  {
    var p := (i: Input) => Listens(i, slave, input);
    assert Find(ins, p) == Some(k);
    var q := (e: Event) => Named(e, event);
    assert Find(ins[k].events.value, q) == Some(j);
  }

  /** With no listening input, or no event of that name, nothing runs; the
      event is still published. */
  lemma UnheardEventOnlyPublishes(io: Io, slave: Byte, input: Byte, event: string, sameSlave: bool)
    requires forall k :: 0 <= k < |io.inputs| && Listens(io.inputs[k], slave, input) ==>
               forall j :: 0 <= j < |io.inputs[k].events.value| ==> !Named(io.inputs[k].events.value[j], event)
    ensures DispatchIo(io, slave, input, event, sameSlave) == PublishInput(io, input, event)
  {
  }

  /** A denying access rule stops the event: nothing but the publication. */
  lemma DeniedEventOnlyPublishes(io: Io, slave: Byte, input: Byte, event: string, sameSlave: bool, k: nat, j: nat)
    requires Selected(io.inputs, slave, input, event, k, j)
    requires CheckAcl(io.inputs[k].events.value[j].acls, io.outputs, io.inputs)
    ensures DispatchIo(io, slave, input, event, sameSlave) == PublishInput(io, input, event)
  {
    SelectedDecides(io.outputs, io.inputs, slave, input, event, sameSlave, k, j);
  }

  /** The input is published exactly for "on", "off", and a long press of input
      16, as the last effect. */
  lemma PublishedLast(io: Io, slave: Byte, input: Byte, event: string, sameSlave: bool)
    ensures var p := Perform(io, input, Decide(io.outputs, io.inputs, slave, input, event, sameSlave));
            DispatchIo(io, slave, input, event, sameSlave).effects ==
              p.effects + (if Published(input, event) then [InputPublished(input, event, 0)] else [])
  {
  }

  /** An allowed event whose single action names a local output switches it
      as setOutput does. */
  lemma SingleActionSetsOutput(io: Io, slave: Byte, input: Byte, event: string, sameSlave: bool, k: nat, j: nat, a: Action)
    requires Selected(io.inputs, slave, input, event, k, j)
    requires !CheckAcl(io.inputs[k].events.value[j].acls, io.outputs, io.inputs)
    requires io.inputs[k].events.value[j].actions == Some([a])
    requires a.action.Some? && a.action.value != "allOff" && a.output.Some? && ByteOr0(a.slaveId) == 0
    ensures DispatchIo(io, slave, input, event, sameSlave) ==
            PublishInput(SetOutputIo(io, U8(a.output.value), a.action.value), input, event)
  {
    SelectedDecides(io.outputs, io.inputs, slave, input, event, sameSlave, k, j);
  }

  /** An event from a slave whose single action targets that same slave is
      ignored unless acting on the same slave is enabled. */
  lemma SameSlaveIgnored(a: Action, slave: Byte)
    requires slave > 0 && ByteOr0(a.slaveId) == slave
    ensures SingleOutcome(a, slave, false) == Nothing
    ensures a.action.Some? && a.action.value != "allOff" && a.output.Some? ==>
            SingleOutcome(a, slave, true) == SetRemote(slave, U8(a.output.value), a.action.value)
  {
  }

  /** Any other number of actions, none included, (re)starts the chain of this
      input from its first step; outputs and the other chains are untouched. */
  lemma ChainRestarts(io: Io, slave: Byte, input: Byte, event: string, sameSlave: bool, k: nat, j: nat)
    requires Selected(io.inputs, slave, input, event, k, j)
    requires !CheckAcl(io.inputs[k].events.value[j].acls, io.outputs, io.inputs)
    requires io.inputs[k].events.value[j].actions.Some?
    requires |io.inputs[k].events.value[j].actions.value| != 1
    ensures var r := DispatchIo(io, slave, input, event, sameSlave);
            r.outputs == io.outputs && r.inputs == io.inputs &&
            input in r.chains && r.chains[input] == Chain(io.inputs[k].events.value[j].actions.value, 0) &&
            (forall other :: other in io.chains && other != input ==> other in r.chains && r.chains[other] == io.chains[other]) &&
            r.chains.Keys == io.chains.Keys + {input}
  {
    SelectedDecides(io.outputs, io.inputs, slave, input, event, sameSlave, k, j);
  }

  // ---------------------------------------------------------------------------
  // actionsTask
  // ---------------------------------------------------------------------------

  /** The seconds a step makes the chain wait: a "wait" step with a numeric
      duration, stored as a uint16_t. */
  function WaitOf(a: Action): Word {
    if a.action == Some("wait") && a.duration.Some? then U16(a.duration.value) else 0
  }

  /** What one step does to the state; a wait step and a step without a
      numeric output and a string action do nothing. Unlike the inline single
      action, the slave id is compared with 0 before it is truncated. */
  function StepIo(io: Io, a: Action): Io {
    if a.action == Some("wait") then io
    else if a.action == Some("allOff") then SetAllOffIo(io)
    else if a.output.Some? && a.action.Some? then
      if a.slaveId.Some? && a.slaveId.value > 0 then RemoteIo(io, U8(a.slaveId.value), U8(a.output.value), a.action.value)
      else SetOutputIo(io, U8(a.output.value), a.action.value)
    else io
  }

  /** One iteration of the actionsTask loop: wait a second, or take the next
      step, or end (None). */
  function ChainTick(io: Io, c: Chain): (Io, Option<Chain>) {
    if c.wait > 0 then (io, Some(Chain(c.steps, c.wait - 1)))
    else if |c.steps| == 0 then (io, None)
    else (StepIo(io, c.steps[0]), Some(Chain(c.steps[1..], WaitOf(c.steps[0]))))
  }

  /** The steps, in order, waits aside. */
  function RunSteps(io: Io, steps: seq<Action>): Io
    decreases |steps|
  {
    if |steps| == 0 then io else RunSteps(StepIo(io, steps[0]), steps[1..])
  }

  /** The seconds all waits of a step list add up to. */
  function TotalWait(steps: seq<Action>): nat {
    if |steps| == 0 then 0 else WaitOf(steps[0]) + TotalWait(steps[1..])
  }

  /** No step touches the chains or the inputs. */
  lemma {:induction false} RunStepsFrame(io: Io, steps: seq<Action>)
    ensures RunSteps(io, steps).chains == io.chains
    ensures RunSteps(io, steps).inputs == io.inputs
    ensures |RunSteps(io, steps).effects| >= |io.effects|
    ensures RunSteps(io, steps).effects[..|io.effects|] == io.effects
    decreases |steps|
  {
    if |steps| > 0 {
      var next := StepIo(io, steps[0]);
      RunStepsFrame(next, steps[1..]);
      assert next.effects[..|io.effects|] == io.effects;
    }
  }

  /** Running two step lists one after the other is running their
      concatenation. */
  lemma {:induction false} RunStepsAppend(io: Io, a: seq<Action>, b: seq<Action>)
    ensures RunSteps(io, a + b) == RunSteps(RunSteps(io, a), b)
    decreases |a|
  {
    if |a| > 0 {
      assert (a + b)[0] == a[0];
      assert (a + b)[1..] == a[1..] + b;
      RunStepsAppend(StepIo(io, a[0]), a[1..], b);
    } else {
      assert a + b == b;
    }
  }

  predicate NotWait(a: Action) {
    a.action != Some("wait")
  }

  /** A wait step changes nothing but the delay: dropping every wait step
      leaves the outcome of the chain the same. */
  lemma {:induction false} WaitsChangeNothing(io: Io, steps: seq<Action>)
    ensures RunSteps(io, steps) == RunSteps(io, Filter(steps, NotWait))
    decreases |steps|
  {
    if |steps| > 0 {
      WaitsChangeNothing(StepIo(io, steps[0]), steps[1..]);
      if NotWait(steps[0]) {
        assert Filter(steps, NotWait) == [steps[0]] + Filter(steps[1..], NotWait);
        assert ([steps[0]] + Filter(steps[1..], NotWait))[1..] == Filter(steps[1..], NotWait);
      } else {
        assert Filter(steps, NotWait) == Filter(steps[1..], NotWait);
      }
    }
  }

  /** An empty chain, as a zero-length action list starts, ends on its first
      iteration having done nothing. */
  lemma EmptyChainEndsAtOnce(io: Io)
    ensures ChainTick(io, Chain([], 0)) == (io, None)
  {
  }
}
