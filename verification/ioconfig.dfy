/** The configuration tree the automation engine works on (the `IOConfig`
    object of main/core.c, with its `outputs[]` and `inputs[]` arrays), written as
    typed records, together with the controller capacity table and the read-only
    lookups over the tree. */
module IOModel {
  import opened Base

  // ---------------------------------------------------------------------------
  // Controller models (enum controllerTypes) and their channel counts
  // ---------------------------------------------------------------------------

  type ControllerType = x: int | 0 <= x < 6
  const UNKNOWN: ControllerType := 0
  const RCV1S: ControllerType := 1
  const RCV1B: ControllerType := 2
  const RCV2S: ControllerType := 3
  const RCV2M: ControllerType := 4
  const RCV2B: ControllerType := 5

  datatype ControllerData = ControllerData(name: string, outputs: nat, inputs: nat, buttons: nat)

  /** The table `controllersData`, indexed by controller type. */
  const ControllersData: seq<ControllerData> := [
    ControllerData("UNKNOWN", 0, 0, 0),
    ControllerData("RCV1S", 4, 4, 4),
    ControllerData("RCV1B", 10, 16, 10),
    ControllerData("RCV2S", 4, 6, 4),
    ControllerData("RCV2M", 6, 8, 6),
    ControllerData("RCV2B", 12, 16, 12)
  ]

  function Capacity(t: ControllerType): (r: ControllerData)
    ensures r.outputs <= 16 && r.inputs <= 16 && r.buttons <= 16
  {
    ControllersData[t]
  }

  // ---------------------------------------------------------------------------
  // Descriptors
  // ---------------------------------------------------------------------------

  /** An output descriptor. `kind` is the JSON key "type" ("s", "t", "os",
      "shooter"); `onTime`/`offTime` are the keys "on"/"off" of a trigger or
      shooter output. */
  datatype Output = Output(
    id: Option<int>,
    slaveId: Option<int>,
    name: Option<string>,
    kind: Option<string>,
    state: Option<string>,
    timer: Option<int>,
    limit: Option<int>,
    onTime: Option<int>,
    offTime: Option<int>)

  /** An input descriptor. `kind` is "SW", "INVSW" or "BTN"; `count` and
      `modulus` are the counter keys "i" and "ci" of an INVSW input. */
  datatype Input = Input(
    id: Option<int>,
    slaveId: Option<int>,
    name: Option<string>,
    kind: Option<string>,
    state: Option<string>,
    events: Option<seq<Event>>,
    count: Option<int>,
    modulus: Option<int>)

  /** An event of an input: its name (key "event"), access rules and actions. */
  datatype Event = Event(name: Option<string>, acls: Option<seq<AclRule>>, actions: Option<seq<Action>>)

  /** An access rule: `io` is "input" or "output", `kind` (key "type") is
      "allow" or "deny". */
  datatype AclRule = AclRule(state: Option<string>, io: Option<string>, id: Option<int>, kind: Option<string>)

  /** One step of an event's action list. */
  datatype Action = Action(
    order: Option<int>,
    output: Option<int>,
    slaveId: Option<int>,
    action: Option<string>,
    duration: Option<int>)

  /** What the engine does to the world outside the configuration tree: the
      notifications it publishes and the calls into the field-bus and board
      collaborators. */
  datatype Effect =
    | OutputPublished(slave: Byte, output: Byte, state: string, timer: Byte)
    | InputPublished(input: Byte, state: string, inputSlave: Byte)
    | RemoteOutputSet(slave: Byte, output: Byte, action: string)
    | InputEventRecorded(input: Byte, event: string)
    | RebootRequested
    | ConfigSaved
    | BoardUpdated(outputBits: Bits16, inputLeds: Bits16, outputLeds: Bits16)
    | AggregateUpdated(outputBits: Bits16, inputBits: Bits16)

  // ---------------------------------------------------------------------------
  // Field readings used throughout core.c
  // ---------------------------------------------------------------------------

  /** An output that `getOutputState` and `setOutput` skip: its "slaveId" is a
      number greater than zero. */
  predicate IsRemote(o: Output) {
    o.slaveId.Some? && o.slaveId.value > 0
  }

  /** The pattern `uint8_t v = 0; if (number) v = valueint;` used for slave
      ids. Where the source reads `valueint` of a field without checking it,
      a missing field is read as 0 as well. */
  function ByteOr0(x: Option<int>): Byte {
    if x.Some? then U8(x.value) else 0
  }

  /** The pattern `uint8_t id = 255; if (number) id = valueint;`. */
  function IdOr255(id: Option<int>): Byte {
    if id.Some? then U8(id.value) else 255
  }

  // ---------------------------------------------------------------------------
  // getOutputState / getInputState
  // ---------------------------------------------------------------------------

  /** The descriptor getOutputState answers from: local, with this id and a
      string state. */
  predicate LocalWithState(o: Output, id: int) {
    !IsRemote(o) && o.id == Some(id) && o.state.Some?
  }

  /** getOutputState: the state of the first local output with this id that has
      a state; "off" when there is none. */
  function OutputState(outs: seq<Output>, id: Byte): (s: string)
    ensures (forall k :: 0 <= k < |outs| ==> !LocalWithState(outs[k], id)) ==> s == "off"
    ensures forall k :: 0 <= k < |outs| && LocalWithState(outs[k], id) &&
                        (forall j :: 0 <= j < k ==> !LocalWithState(outs[j], id)) ==>
                        s == outs[k].state.value
  {
    match Find(outs, (o: Output) => LocalWithState(o, id))
    case Some(k) => outs[k].state.value
    case None => "off"
  }

  predicate WithState(i: Input, id: int) {
    i.id == Some(id) && i.state.Some?
  }

  /** getInputState: the state of the first input with this id that has a
      state, whatever its slave id; "off" when there is none. */
  function InputState(ins: seq<Input>, id: Byte): (s: string)
    ensures (forall k :: 0 <= k < |ins| ==> !WithState(ins[k], id)) ==> s == "off"
    ensures forall k :: 0 <= k < |ins| && WithState(ins[k], id) &&
                        (forall j :: 0 <= j < k ==> !WithState(ins[j], id)) ==>
                        s == ins[k].state.value
  {
    match Find(ins, (i: Input) => WithState(i, id))
    case Some(k) => ins[k].state.value
    case None => "off"
  }

  /** getInputState ignores the slave id: a remote input listed before the
      local one with the same id decides the answer. */
  lemma InputStateIgnoresSlave(local: Input, remote: Input, id: Byte)
    requires local.id == Some(id as int) && local.slaveId.None? && local.state == Some("off")
    requires remote.id == Some(id as int) && remote.slaveId == Some(3) && remote.state == Some("on")
    ensures InputState([remote, local], id) == "on"
    ensures InputState([local], id) == "off"
  {
  }

  /** getOutputState skips remote outputs: the same pair reads "off". */
  lemma OutputStateSkipsSlaves(local: Output, remote: Output, id: Byte)
    requires local.id == Some(id as int) && local.slaveId.None? && local.state == Some("off")
    requires remote.id == Some(id as int) && remote.slaveId == Some(3) && remote.state == Some("on")
    ensures OutputState([remote, local], id) == "off"
  {
    assert IsRemote(remote);
    assert !LocalWithState([remote, local][0], id);
  }

  // ---------------------------------------------------------------------------
  // outputExists / inputExists / buttonExists
  // ---------------------------------------------------------------------------

  predicate OutputExists(outs: seq<Output>, id: int, slave: int) {
    exists k :: 0 <= k < |outs| && IdOr255(outs[k].id) == id && ByteOr0(outs[k].slaveId) == slave
  }

  predicate InputExists(ins: seq<Input>, id: int, slave: int) {
    exists k :: 0 <= k < |ins| && IdOr255(ins[k].id) == id && ByteOr0(ins[k].slaveId) == slave
  }

  /** buttonExists compares the id only, whatever the slave id. */
  predicate ButtonExists(ins: seq<Input>, id: int) {
    exists k :: 0 <= k < |ins| && IdOr255(ins[k].id) == id
  }

  /** Appending a descriptor keeps every existing one and adds exactly the new one. */
  lemma OutputExistsAppend(outs: seq<Output>, o: Output, id: int, slave: int)
    ensures OutputExists(outs + [o], id, slave) <==>
            OutputExists(outs, id, slave) || (IdOr255(o.id) == id && ByteOr0(o.slaveId) == slave)
  {
    if OutputExists(outs + [o], id, slave) && !(IdOr255(o.id) == id && ByteOr0(o.slaveId) == slave) {
      var k :| 0 <= k < |outs + [o]| && IdOr255((outs + [o])[k].id) == id && ByteOr0((outs + [o])[k].slaveId) == slave;
      assert k < |outs| && outs[k] == (outs + [o])[k];
    }
    if OutputExists(outs, id, slave) {
      var k :| 0 <= k < |outs| && IdOr255(outs[k].id) == id && ByteOr0(outs[k].slaveId) == slave;
      assert (outs + [o])[k] == outs[k];
    }
    if IdOr255(o.id) == id && ByteOr0(o.slaveId) == slave {
      assert (outs + [o])[|outs|] == o;
    }
  }

  lemma InputExistsAppend(ins: seq<Input>, i: Input, id: int, slave: int)
    ensures InputExists(ins + [i], id, slave) <==>
            InputExists(ins, id, slave) || (IdOr255(i.id) == id && ByteOr0(i.slaveId) == slave)
    ensures ButtonExists(ins + [i], id) <==> ButtonExists(ins, id) || IdOr255(i.id) == id
  {
    if InputExists(ins + [i], id, slave) && !(IdOr255(i.id) == id && ByteOr0(i.slaveId) == slave) {
      var k :| 0 <= k < |ins + [i]| && IdOr255((ins + [i])[k].id) == id && ByteOr0((ins + [i])[k].slaveId) == slave;
      assert k < |ins| && ins[k] == (ins + [i])[k];
    }
    if InputExists(ins, id, slave) {
      var k :| 0 <= k < |ins| && IdOr255(ins[k].id) == id && ByteOr0(ins[k].slaveId) == slave;
      assert (ins + [i])[k] == ins[k];
    }
    if IdOr255(i.id) == id && ByteOr0(i.slaveId) == slave {
      assert (ins + [i])[|ins|] == i;
    }
    if ButtonExists(ins + [i], id) && IdOr255(i.id) != id {
      var k :| 0 <= k < |ins + [i]| && IdOr255((ins + [i])[k].id) == id;
      assert k < |ins| && ins[k] == (ins + [i])[k];
    }
    if ButtonExists(ins, id) {
      var k :| 0 <= k < |ins| && IdOr255(ins[k].id) == id;
      assert (ins + [i])[k] == ins[k];
    }
    if IdOr255(i.id) == id {
      assert (ins + [i])[|ins|] == i;
    }
  }
}
