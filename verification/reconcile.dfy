/** The configuration builders of main/core.c: the default layout
    `createIOConfig` (core.c:82-168) and the reconciliation `correctIOConfig`
    (core.c:1635-1804) with the field-bus slave lookups it uses
    (core.c:1536-1579), as functions on the descriptor lists. */
module Reconcile {
  import opened Base
  import opened IOModel
  import opened OutputControl
  import opened Dispatch

  // ---------------------------------------------------------------------------
  // createIOConfig
  // ---------------------------------------------------------------------------

  /** A layout: the two descriptor lists of the configuration. */
  datatype Layout = Layout(outputs: seq<Output>, inputs: seq<Input>)

  /** Output `i` of the default layout, as correctIOConfig also adds it. */
  function DefaultOutput(i: nat): Output {
    Output(Some(i), None, Some("Out " + Decimal(i)), Some("s"), Some("off"), None, None, None, None)
  }

  /** An event with a single action on a local output. */
  function OneActionEvent(event: string, output: int, action: string): Event {
    Event(Some(event), None, Some([Action(Some(0), Some(output), None, Some(action), None)]))
  }

  /** Service button `i` (id 16 + i): a click toggles output `i`. */
  function DefaultButton(i: nat): Input {
    Input(Some(16 + i), None, Some("Svc " + Decimal(i)), Some("BTN"), None,
          Some([OneActionEvent("toggle", i, "toggle")]), None, None)
  }

  /** The output a default switch drives: its own number, capped at the last
      output. */
  function SwitchTarget(c: ControllerData, i: nat): int {
    if i > c.outputs - 1 then c.outputs - 1 else i
  }

  /** Switch `i` as createIOConfig evidently means it: "on" and "off" events
      driving its output. */
  function DefaultSwitch(c: ControllerData, i: nat): Input {
    Input(Some(i), None, Some("In " + Decimal(i)), Some("SW"), None,
          Some([OneActionEvent("on", SwitchTarget(c, i), "on"), OneActionEvent("off", SwitchTarget(c, i), "off")]),
          None, None)
  }

  /** Switch `i` as core.c:125-160 builds it: the two events are created but
      never put into their arrays, so the (first) "events" key holds an empty
      array. */
  function DefaultSwitchAsWritten(i: nat): Input {
    Input(Some(i), None, Some("In " + Decimal(i)), Some("SW"), None, Some([]), None, None)
  }

  /** createIOConfig with the switch events in place: the outputs, then the
      service buttons, then the switches. */
  function CreateIOConfig(t: ControllerType): Layout {
    var c := Capacity(t);
    Layout(seq(c.outputs, i requires 0 <= i < c.outputs => DefaultOutput(i)),
           seq(c.buttons, i requires 0 <= i < c.buttons => DefaultButton(i)) +
           seq(c.inputs, i requires 0 <= i < c.inputs => DefaultSwitch(c, i)))
  }

  /** createIOConfig as written. */
  function CreateIOConfigAsWritten(t: ControllerType): Layout {
    var c := Capacity(t);
    Layout(seq(c.outputs, i requires 0 <= i < c.outputs => DefaultOutput(i)),
           seq(c.buttons, i requires 0 <= i < c.buttons => DefaultButton(i)) +
           seq(c.inputs, i requires 0 <= i < c.inputs => DefaultSwitchAsWritten(i)))
  }

  /** The default layout has every local output 0..n-1, every input 0..m-1
      and every button 16..16+b-1 of the controller model, and nothing else. */
  lemma DefaultLayoutComplete(t: ControllerType)
    ensures var l := CreateIOConfig(t);
            var c := Capacity(t);
            |l.outputs| == c.outputs && |l.inputs| == c.buttons + c.inputs &&
            (forall i :: 0 <= i < c.outputs ==> OutputExists(l.outputs, i, 0)) &&
            (forall i :: 0 <= i < c.inputs ==> InputExists(l.inputs, i, 0)) &&
            (forall i :: 16 <= i < 16 + c.buttons ==> ButtonExists(l.inputs, i))
  {
    var l := CreateIOConfig(t);
    var c := Capacity(t);
    forall i | 0 <= i < c.outputs
      ensures OutputExists(l.outputs, i, 0)
    {
      assert IdOr255(l.outputs[i].id) == i;
    }
    forall i | 0 <= i < c.inputs
      ensures InputExists(l.inputs, i, 0)
    {
      assert IdOr255(l.inputs[c.buttons + i].id) == i;
    }
    forall i | 16 <= i < 16 + c.buttons
      ensures ButtonExists(l.inputs, i)
    {
      assert IdOr255(l.inputs[i - 16].id) == i;
    }
  }

  // ---------------------------------------------------------------------------
  // Field-bus slaves
  // ---------------------------------------------------------------------------

  /** An entry of "modbus/slaves". */
  datatype MbSlave = MbSlave(slaveId: Option<int>, model: Option<string>)

  /** The capacity table row of a model name. The names are distinct, so the
      first match (the slave lookups) and the last (correctIOConfig) agree. */
  function ModelData(model: Option<string>): (r: Option<ControllerData>)
    ensures r.Some? ==> r.value in ControllersData && Some(r.value.name) == model
    ensures r.Some? ==> r.value.outputs <= 16 && r.value.inputs <= 16
  {
    if model.None? then None
    else
      match Find(ControllersData, (d: ControllerData) => d.name == model.value)
      case Some(k) => Some(ControllersData[k])
      case None => None
  }

  lemma TableNamesDistinct()
    ensures forall a, b :: 0 <= a < b < |ControllersData| ==> ControllersData[a].name != ControllersData[b].name
  {
  }

  /** isMbSlaveExists: some entry has this numeric slave id. */
  predicate SlaveExists(slaves: seq<MbSlave>, sid: int) {
    exists k :: 0 <= k < |slaves| && slaves[k].slaveId == Some(sid)
  }

  /** isMbSlaveOutputExists / isMbSlaveInputExists: the first entry with this
      slave id whose model is in the table decides whether `id` is below that
      model's output (input) count; no such entry means no. */
  function SlaveChannelExists(slaves: seq<MbSlave>, id: int, sid: int, outputs: bool): bool {
    if |slaves| == 0 then false
    else if slaves[0].slaveId == Some(sid) && ModelData(slaves[0].model).Some? then
      var d := ModelData(slaves[0].model).value;
      id < (if outputs then d.outputs else d.inputs)
    else SlaveChannelExists(slaves[1..], id, sid, outputs)
  }

  // ---------------------------------------------------------------------------
  // correctIOConfig
  // ---------------------------------------------------------------------------

  /** An output correctIOConfig deletes: a slave output on a field-bus slave,
      a local output beyond the model (the test is `id > count`, so id = count
      survives), or on a field-bus master a slave output of an unknown slave
      or beyond that slave's model. */
  predicate PruneOutput(o: Output, t: ControllerType, mode: string, slaves: seq<MbSlave>) {
    var sid := ByteOr0(o.slaveId);
    var id := IdOr255(o.id);
    (mode == "slave" && sid > 0) ||
    (sid == 0 && id > Capacity(t).outputs) ||
    (mode == "master" && sid > 0 && !SlaveExists(slaves, sid)) ||
    (mode == "master" && sid > 0 && !SlaveChannelExists(slaves, id, sid, true))
  }

  /** The same for inputs, where ids from 16 up (buttons) are never deleted. */
  predicate PruneInput(i: Input, t: ControllerType, mode: string, slaves: seq<MbSlave>) {
    var sid := ByteOr0(i.slaveId);
    var id := IdOr255(i.id);
    id < 16 &&
    ((mode == "slave" && sid > 0) ||
     (sid == 0 && id > Capacity(t).inputs) ||
     (mode == "master" && sid > 0 && !SlaveExists(slaves, sid)) ||
     (mode == "master" && sid > 0 && !SlaveChannelExists(slaves, id, sid, false)))
  }

  /** The descriptors that survive the deleting pass. */
  function KeepOutput(t: ControllerType, mode: string, slaves: seq<MbSlave>): Output -> bool {
    (o: Output) => !PruneOutput(o, t, mode, slaves)
  }

  function KeepInput(t: ControllerType, mode: string, slaves: seq<MbSlave>): Input -> bool {
    (i: Input) => !PruneInput(i, t, mode, slaves)
  }

  function KeptOutputs(outs: seq<Output>, t: ControllerType, mode: string, slaves: seq<MbSlave>): seq<Output> {
    Filter(outs, KeepOutput(t, mode, slaves))
  }

  function KeptInputs(ins: seq<Input>, t: ControllerType, mode: string, slaves: seq<MbSlave>): seq<Input> {
    Filter(ins, KeepInput(t, mode, slaves))
  }

  /** An input correctIOConfig adds: a switch that is off, with no events. */
  function NewInput(i: nat): Input {
    Input(Some(i), None, Some("In " + Decimal(i)), Some("SW"), Some("off"), None, None, None)
  }

  /** A button correctIOConfig adds, named by its id. */
  function NewButton(id: nat): Input {
    Input(Some(id), None, Some(ButtonName(id)), Some("BTN"), None, None, None, None)
  }

  /** The name of an added button: "Svc " and its id in decimal. */
  function ButtonName(id: nat): string {
    "Svc " + Decimal(id)
  }

  function SlaveOutput(sid: Byte, i: nat): Output {
    Output(Some(i), Some(sid), Some("Sl " + Decimal(sid) + " Out " + Decimal(i)), None, Some("off"), None, None, None, None)
  }

  function SlaveInput(sid: Byte, i: nat): Input {
    Input(Some(i), Some(sid), Some("Sl " + Decimal(sid) + " In " + Decimal(i)), None, Some("off"), None, None, None)
  }

  /** The missing outputs 0..n-1 of slave `sid` (0 for the controller itself)
      appended in order, each checked against the list as it grows. */
  function AddOutputs(outs: seq<Output>, sid: Byte, n: nat): (r: seq<Output>)
    requires n <= 256
    ensures |r| >= |outs| && r[..|outs|] == outs
    ensures forall i :: 0 <= i < n ==> OutputExists(r, i, sid)
  {
    if n == 0 then outs
    else
      var prev := AddOutputs(outs, sid, n - 1);
      var o := if sid == 0 then DefaultOutput(n - 1) else SlaveOutput(sid, n - 1);
      if OutputExists(prev, n - 1, sid) then prev
      else
        forall i | 0 <= i < n
          ensures OutputExists(prev + [o], i, sid)
        {
          assert IdOr255(o.id) == n - 1 && ByteOr0(o.slaveId) == sid;
          OutputExistsAppend(prev, o, i, sid);
        }
        assert (prev + [o])[..|outs|] == prev[..|outs|];
        prev + [o]
  }

  /** The missing inputs 0..n-1 of slave `sid`. */
  function AddInputs(ins: seq<Input>, sid: Byte, n: nat): (r: seq<Input>)
    requires n <= 256
    ensures |r| >= |ins| && r[..|ins|] == ins
    ensures forall i :: 0 <= i < n ==> InputExists(r, i, sid)
  {
    if n == 0 then ins
    else
      var prev := AddInputs(ins, sid, n - 1);
      var x := if sid == 0 then NewInput(n - 1) else SlaveInput(sid, n - 1);
      if InputExists(prev, n - 1, sid) then prev
      else
        forall i | 0 <= i < n
          ensures InputExists(prev + [x], i, sid)
        {
          assert IdOr255(x.id) == n - 1 && ByteOr0(x.slaveId) == sid;
          InputExistsAppend(prev, x, i, sid);
        }
        assert (prev + [x])[..|ins|] == prev[..|ins|];
        prev + [x]
  }

  /** The missing buttons 16..16+n-1, whatever their slave id. */
  function AddButtons(ins: seq<Input>, n: nat): (r: seq<Input>)
    requires 16 + n <= 256
    ensures |r| >= |ins| && r[..|ins|] == ins
    ensures forall i :: 16 <= i < 16 + n ==> ButtonExists(r, i)
  {
    if n == 0 then ins
    else
      var prev := AddButtons(ins, n - 1);
      var b := NewButton(16 + n - 1);
      if ButtonExists(prev, 16 + n - 1) then prev
      else
        forall i | 16 <= i < 16 + n
          ensures ButtonExists(prev + [b], i)
        {
          assert IdOr255(b.id) == 16 + n - 1;
          if i < 16 + n - 1 {
            assert ButtonExists(prev, i);
            var k :| 0 <= k < |prev| && IdOr255(prev[k].id) == i;
            assert (prev + [b])[k] == prev[k];
          } else {
            assert (prev + [b])[|prev|] == b;
          }
        }
        assert (prev + [b])[..|ins|] == prev[..|ins|];
        prev + [b]
  }

  /** One more channel: the loops of correctIOConfig append channel `m` when
      the list built so far does not have it. */
  lemma AddOutputsStep(outs: seq<Output>, sid: Byte, m: nat)
    requires m < 256
    ensures AddOutputs(outs, sid, m + 1) ==
            if OutputExists(AddOutputs(outs, sid, m), m, sid) then AddOutputs(outs, sid, m)
            else AddOutputs(outs, sid, m) + [if sid == 0 then DefaultOutput(m) else SlaveOutput(sid, m)]
  {
  }

  lemma AddInputsStep(ins: seq<Input>, sid: Byte, m: nat)
    requires m < 256
    ensures AddInputs(ins, sid, m + 1) ==
            if InputExists(AddInputs(ins, sid, m), m, sid) then AddInputs(ins, sid, m)
            else AddInputs(ins, sid, m) + [if sid == 0 then NewInput(m) else SlaveInput(sid, m)]
  {
  }

  lemma AddButtonsStep(ins: seq<Input>, m: nat)
    requires 16 + m < 256
    ensures AddButtons(ins, m + 1) ==
            if ButtonExists(AddButtons(ins, m), 16 + m) then AddButtons(ins, m)
            else AddButtons(ins, m) + [NewButton(16 + m)]
  {
  }

  /** The channel counts of a slave's model: none for a model not in the
      table. */
  function SlaveCounts(s: MbSlave): (r: (nat, nat))
    ensures r.0 <= 16 && r.1 <= 16
  {
    var d := ModelData(s.model);
    if d.Some? then (d.value.outputs, d.value.inputs) else (0, 0)
  }

  /** The channels of one listed slave, when it has a numeric id. */
  function AddSlave(l: Layout, s: MbSlave): (r: Layout)
    ensures |r.outputs| >= |l.outputs| && r.outputs[..|l.outputs|] == l.outputs
    ensures |r.inputs| >= |l.inputs| && r.inputs[..|l.inputs|] == l.inputs
  {
    if s.slaveId.None? then l
    else
      var sid := U8(s.slaveId.value);
      Layout(AddOutputs(l.outputs, sid, SlaveCounts(s).0), AddInputs(l.inputs, sid, SlaveCounts(s).1))
  }

  /** The channels of every listed slave, in list order. */
  function AddSlaves(l: Layout, slaves: seq<MbSlave>): (r: Layout)
    ensures |r.outputs| >= |l.outputs| && r.outputs[..|l.outputs|] == l.outputs
    ensures |r.inputs| >= |l.inputs| && r.inputs[..|l.inputs|] == l.inputs
    decreases |slaves|
  {
    if |slaves| == 0 then l
    else
      var next := AddSlave(l, slaves[0]);
      var r := AddSlaves(next, slaves[1..]);
      assert r.outputs[..|l.outputs|] == r.outputs[..|next.outputs|][..|l.outputs|];
      assert r.inputs[..|l.inputs|] == r.inputs[..|next.inputs|][..|l.inputs|];
      r
  }

  /** The result of correctIOConfig: the new lists, and whether the
      configuration is saved (forced, or something was deleted or added). */
  datatype Reconciled = Reconciled(layout: Layout, changed: bool)

  function CorrectIOConfig(l: Layout, t: ControllerType, mode: string, slaves: seq<MbSlave>, force: bool): Reconciled {
    var c := Capacity(t);
    var outs := KeptOutputs(l.outputs, t, mode, slaves);
    var ins := KeptInputs(l.inputs, t, mode, slaves);
    var local := Layout(AddOutputs(outs, 0, c.outputs), AddButtons(AddInputs(ins, 0, c.inputs), c.buttons));
    var r := AddSlaves(local, slaves);
    Reconciled(r, force || |outs| < |l.outputs| || |ins| < |l.inputs| ||
                      |r.outputs| > |outs| || |r.inputs| > |ins|)
  }

  /** Existence survives appending. */
  lemma OutputExistsPrefix(a: seq<Output>, b: seq<Output>, id: int, sid: int)
    requires |a| <= |b| && b[..|a|] == a && OutputExists(a, id, sid)
    ensures OutputExists(b, id, sid)
  {
    var k :| 0 <= k < |a| && IdOr255(a[k].id) == id && ByteOr0(a[k].slaveId) == sid;
    assert b[k] == a[k];
  }

  lemma InputExistsPrefix(a: seq<Input>, b: seq<Input>, id: int, sid: int)
    requires |a| <= |b| && b[..|a|] == a
    ensures InputExists(a, id, sid) ==> InputExists(b, id, sid)
    ensures ButtonExists(a, id) ==> ButtonExists(b, id)
  {
    if InputExists(a, id, sid) {
      var k :| 0 <= k < |a| && IdOr255(a[k].id) == id && ByteOr0(a[k].slaveId) == sid;
      assert b[k] == a[k];
    }
    if ButtonExists(a, id) {
      var k :| 0 <= k < |a| && IdOr255(a[k].id) == id;
      assert b[k] == a[k];
    }
  }

  /** After correctIOConfig every channel of the controller model exists:
      outputs 0..n-1, inputs 0..m-1 and buttons 16..16+b-1. */
  lemma CorrectedHasEveryChannel(l: Layout, t: ControllerType, mode: string, slaves: seq<MbSlave>, force: bool)
    ensures var r := CorrectIOConfig(l, t, mode, slaves, force).layout;
            var c := Capacity(t);
            (forall i :: 0 <= i < c.outputs ==> OutputExists(r.outputs, i, 0)) &&
            (forall i :: 0 <= i < c.inputs ==> InputExists(r.inputs, i, 0)) &&
            (forall i :: 16 <= i < 16 + c.buttons ==> ButtonExists(r.inputs, i))
  {
    var c := Capacity(t);
    var outs := KeptOutputs(l.outputs, t, mode, slaves);
    var ins := KeptInputs(l.inputs, t, mode, slaves);
    var withInputs := AddInputs(ins, 0, c.inputs);
    var local := Layout(AddOutputs(outs, 0, c.outputs), AddButtons(withInputs, c.buttons));
    var r := AddSlaves(local, slaves);
    forall i | 0 <= i < c.outputs
      ensures OutputExists(r.outputs, i, 0)
    {
      OutputExistsPrefix(local.outputs, r.outputs, i, 0);
    }
    forall i | 0 <= i < c.inputs
      ensures InputExists(r.inputs, i, 0)
    {
      InputExistsPrefix(withInputs, local.inputs, i, 0);
      InputExistsPrefix(local.inputs, r.inputs, i, 0);
    }
    forall i | 16 <= i < 16 + c.buttons
      ensures ButtonExists(r.inputs, i)
    {
      InputExistsPrefix(local.inputs, r.inputs, i, 0);
    }
  }

  /** Every descriptor correctIOConfig keeps passed the prune tests, and every
      one it deletes failed them. */
  lemma PruneExactly(l: Layout, t: ControllerType, mode: string, slaves: seq<MbSlave>)
    ensures forall o :: o in KeptOutputs(l.outputs, t, mode, slaves) <==> o in l.outputs && !PruneOutput(o, t, mode, slaves)
    ensures forall i :: i in KeptInputs(l.inputs, t, mode, slaves) <==> i in l.inputs && !PruneInput(i, t, mode, slaves)
  {
  }

  /** The prune test is `id > count`: on an RCV1S (4 outputs) a local output
      with id 4, one past the last, is kept, and one with id 5 is deleted. */
  lemma PruneKeepsIdAtCapacity(o: Output, mode: string, slaves: seq<MbSlave>)
    requires o.slaveId.None? && mode != "slave"
    ensures !PruneOutput(o.(id := Some(4)), RCV1S, mode, slaves)
    ensures PruneOutput(o.(id := Some(5)), RCV1S, mode, slaves)
  {
  }

  /** Adding is a no-op when every channel already exists. */
  lemma {:induction false} AddOutputsNoop(outs: seq<Output>, sid: Byte, n: nat)
    requires n <= 256
    requires forall i :: 0 <= i < n ==> OutputExists(outs, i, sid)
    ensures AddOutputs(outs, sid, n) == outs
  {
    if n > 0 {
      AddOutputsNoop(outs, sid, n - 1);
    }
  }

  lemma {:induction false} AddInputsNoop(ins: seq<Input>, sid: Byte, n: nat)
    requires n <= 256
    requires forall i :: 0 <= i < n ==> InputExists(ins, i, sid)
    ensures AddInputs(ins, sid, n) == ins
  {
    if n > 0 {
      AddInputsNoop(ins, sid, n - 1);
    }
  }

  lemma {:induction false} AddButtonsNoop(ins: seq<Input>, n: nat)
    requires 16 + n <= 256
    requires forall i :: 16 <= i < 16 + n ==> ButtonExists(ins, i)
    ensures AddButtons(ins, n) == ins
  {
    if n > 0 {
      AddButtonsNoop(ins, n - 1);
    }
  }

  /** Everything AddOutputs appends for the controller itself survives
      pruning. */
  lemma {:induction false} AddedOutputsKept(outs: seq<Output>, t: ControllerType, mode: string, slaves: seq<MbSlave>, n: nat)
    requires n <= Capacity(t).outputs
    requires forall k :: 0 <= k < |outs| ==> !PruneOutput(outs[k], t, mode, slaves)
    ensures forall k :: 0 <= k < |AddOutputs(outs, 0, n)| ==> !PruneOutput(AddOutputs(outs, 0, n)[k], t, mode, slaves)
  {
    if n > 0 {
      AddedOutputsKept(outs, t, mode, slaves, n - 1);
      assert !PruneOutput(DefaultOutput(n - 1), t, mode, slaves);
    }
  }

  lemma {:induction false} AddedInputsKept(ins: seq<Input>, t: ControllerType, mode: string, slaves: seq<MbSlave>, n: nat)
    requires n <= Capacity(t).inputs
    requires forall k :: 0 <= k < |ins| ==> !PruneInput(ins[k], t, mode, slaves)
    ensures forall k :: 0 <= k < |AddInputs(ins, 0, n)| ==> !PruneInput(AddInputs(ins, 0, n)[k], t, mode, slaves)
  {
    if n > 0 {
      AddedInputsKept(ins, t, mode, slaves, n - 1);
      assert !PruneInput(NewInput(n - 1), t, mode, slaves);
    }
  }

  lemma {:induction false} AddedButtonsKept(ins: seq<Input>, t: ControllerType, mode: string, slaves: seq<MbSlave>, n: nat)
    requires 16 + n <= 256
    requires forall k :: 0 <= k < |ins| ==> !PruneInput(ins[k], t, mode, slaves)
    ensures forall k :: 0 <= k < |AddButtons(ins, n)| ==> !PruneInput(AddButtons(ins, n)[k], t, mode, slaves)
  {
    if n > 0 {
      AddedButtonsKept(ins, t, mode, slaves, n - 1);
      assert IdOr255(NewButton(16 + n - 1).id) == 16 + n - 1;
      assert !PruneInput(NewButton(16 + n - 1), t, mode, slaves);
    }
  }

  /** Without field-bus slaves, nothing correctIOConfig leaves behind is
      deleted by a second pass. */
  lemma CorrectedSurvivesPruning(l: Layout, t: ControllerType, mode: string, force: bool)
    ensures var once := CorrectIOConfig(l, t, mode, [], force).layout;
            KeptOutputs(once.outputs, t, mode, []) == once.outputs && KeptInputs(once.inputs, t, mode, []) == once.inputs
  {
    var c := Capacity(t);
    var once := CorrectIOConfig(l, t, mode, [], force).layout;
    var outs := KeptOutputs(l.outputs, t, mode, []);
    var ins := KeptInputs(l.inputs, t, mode, []);
    assert forall k :: 0 <= k < |outs| ==> !PruneOutput(outs[k], t, mode, []) by {
      forall k | 0 <= k < |outs| ensures !PruneOutput(outs[k], t, mode, []) {
        assert outs[k] in outs;
      }
    }
    assert forall k :: 0 <= k < |ins| ==> !PruneInput(ins[k], t, mode, []) by {
      forall k | 0 <= k < |ins| ensures !PruneInput(ins[k], t, mode, []) {
        assert ins[k] in ins;
      }
    }
    AddedOutputsKept(outs, t, mode, [], c.outputs);
    AddedInputsKept(ins, t, mode, [], c.inputs);
    AddedButtonsKept(AddInputs(ins, 0, c.inputs), t, mode, [], c.buttons);
    FilterAll(once.outputs, (o: Output) => !PruneOutput(o, t, mode, []));
    FilterAll(once.inputs, (i: Input) => !PruneInput(i, t, mode, []));
  }

  /** Without field-bus slaves, correcting a corrected configuration changes
      nothing and does not save. */
  lemma CorrectIdempotent(l: Layout, t: ControllerType, mode: string, force: bool)
    ensures var once := CorrectIOConfig(l, t, mode, [], force).layout;
            CorrectIOConfig(once, t, mode, [], false) == Reconciled(once, false)
  {
    var c := Capacity(t);
    var once := CorrectIOConfig(l, t, mode, [], force).layout;
    CorrectedSurvivesPruning(l, t, mode, force);
    CorrectedHasEveryChannel(l, t, mode, [], force);
    AddOutputsNoop(once.outputs, 0, c.outputs);
    AddInputsNoop(once.inputs, 0, c.inputs);
    AddButtonsNoop(once.inputs, c.buttons);
  }

  /** Without field-bus slaves, no descriptor of the default layout is
      deleted. */
  lemma DefaultLayoutSurvivesPruning(t: ControllerType, mode: string)
    ensures var l := CreateIOConfig(t);
            KeptOutputs(l.outputs, t, mode, []) == l.outputs && KeptInputs(l.inputs, t, mode, []) == l.inputs
  {
    var l := CreateIOConfig(t);
    var c := Capacity(t);
    forall k | 0 <= k < |l.outputs|
      ensures !PruneOutput(l.outputs[k], t, mode, [])
    {
      assert l.outputs[k] == DefaultOutput(k);
    }
    forall k | 0 <= k < |l.inputs|
      ensures !PruneInput(l.inputs[k], t, mode, [])
    {
      if k < c.buttons {
        assert l.inputs[k] == DefaultButton(k);
      } else {
        assert l.inputs[k] == DefaultSwitch(c, k - c.buttons);
      }
    }
    FilterAll(l.outputs, (o: Output) => !PruneOutput(o, t, mode, []));
    FilterAll(l.inputs, (i: Input) => !PruneInput(i, t, mode, []));
  }

  /** The default layout needs no correction. */
  lemma DefaultLayoutNeedsNoCorrection(t: ControllerType, mode: string)
    ensures CorrectIOConfig(CreateIOConfig(t), t, mode, [], false) == Reconciled(CreateIOConfig(t), false)
  {
    var l := CreateIOConfig(t);
    var c := Capacity(t);
    DefaultLayoutSurvivesPruning(t, mode);
    DefaultLayoutComplete(t);
    AddOutputsNoop(l.outputs, 0, c.outputs);
    AddInputsNoop(l.inputs, 0, c.inputs);
    AddButtonsNoop(l.inputs, c.buttons);
  }

  /** The layout createIOConfig builds as written has the same channels as
      the corrected one. */
  lemma DefaultLayoutAsWrittenComplete(t: ControllerType)
    ensures var l := CreateIOConfigAsWritten(t);
            var c := Capacity(t);
            |l.outputs| == c.outputs && |l.inputs| == c.buttons + c.inputs &&
            (forall i :: 0 <= i < c.outputs ==> OutputExists(l.outputs, i, 0)) &&
            (forall i :: 0 <= i < c.inputs ==> InputExists(l.inputs, i, 0)) &&
            (forall i :: 16 <= i < 16 + c.buttons ==> ButtonExists(l.inputs, i))
  {
    var l := CreateIOConfigAsWritten(t);
    var c := Capacity(t);
    forall i | 0 <= i < c.outputs
      ensures OutputExists(l.outputs, i, 0)
    {
      assert IdOr255(l.outputs[i].id) == i;
    }
    forall i | 0 <= i < c.inputs
      ensures InputExists(l.inputs, i, 0)
    {
      assert IdOr255(l.inputs[c.buttons + i].id) == i;
    }
    forall i | 16 <= i < 16 + c.buttons
      ensures ButtonExists(l.inputs, i)
    {
      assert IdOr255(l.inputs[i - 16].id) == i;
    }
  }

  /** Without field-bus slaves, no descriptor of the as-written default
      layout is deleted. */
  lemma DefaultLayoutAsWrittenSurvivesPruning(t: ControllerType, mode: string)
    ensures var l := CreateIOConfigAsWritten(t);
            KeptOutputs(l.outputs, t, mode, []) == l.outputs && KeptInputs(l.inputs, t, mode, []) == l.inputs
  {
    var l := CreateIOConfigAsWritten(t);
    var c := Capacity(t);
    forall k | 0 <= k < |l.outputs|
      ensures !PruneOutput(l.outputs[k], t, mode, [])
    {
      assert l.outputs[k] == DefaultOutput(k);
    }
    forall k | 0 <= k < |l.inputs|
      ensures !PruneInput(l.inputs[k], t, mode, [])
    {
      if k < c.buttons {
        assert l.inputs[k] == DefaultButton(k);
      } else {
        assert l.inputs[k] == DefaultSwitchAsWritten(k - c.buttons);
      }
    }
    FilterAll(l.outputs, (o: Output) => !PruneOutput(o, t, mode, []));
    FilterAll(l.inputs, (i: Input) => !PruneInput(i, t, mode, []));
  }

  /** The layout createIOConfig builds as written, with its switches' empty
      event arrays, needs no correction either. */
  lemma DefaultLayoutAsWrittenNeedsNoCorrection(t: ControllerType, mode: string)
    ensures CorrectIOConfig(CreateIOConfigAsWritten(t), t, mode, [], false) == Reconciled(CreateIOConfigAsWritten(t), false)
  {
    var l := CreateIOConfigAsWritten(t);
    var c := Capacity(t);
    DefaultLayoutAsWrittenSurvivesPruning(t, mode);
    DefaultLayoutAsWrittenComplete(t);
    AddOutputsNoop(l.outputs, 0, c.outputs);
    AddInputsNoop(l.inputs, 0, c.inputs);
    AddButtonsNoop(l.inputs, c.buttons);
  }

  // ---------------------------------------------------------------------------
  // What the default switches do
  // ---------------------------------------------------------------------------

  /** As written, a default switch has no events: flipping it only publishes
      its state, and its output never follows. */
  lemma DefaultSwitchDoesNothing(io: Io, t: ControllerType, i: Byte, event: string, sameSlave: bool)
    requires io.outputs == CreateIOConfigAsWritten(t).outputs && io.inputs == CreateIOConfigAsWritten(t).inputs
    requires i < Capacity(t).inputs
    ensures DispatchIo(io, 0, i, event, sameSlave) == PublishInput(io, i, event)
  {
    var c := Capacity(t);
    assert forall l :: 0 <= l < c.buttons ==> io.inputs[l] == DefaultButton(l);
    forall k | 0 <= k < |io.inputs| && Listens(io.inputs[k], 0, i)
      ensures forall j :: 0 <= j < |io.inputs[k].events.value| ==> !Named(io.inputs[k].events.value[j], event)
    {
      assert k >= c.buttons;
      assert io.inputs[k] == DefaultSwitchAsWritten(k - c.buttons);
    }
    UnheardEventOnlyPublishes(io, 0, i, event, sameSlave);
  }

  /** With the events in place, switching default input `i` on or off sets
      its output (output `i`, or the last one) to the same state. */
  lemma DefaultSwitchDrivesOutput(io: Io, t: ControllerType, i: Byte, event: string, sameSlave: bool)
    requires io.outputs == CreateIOConfig(t).outputs && io.inputs == CreateIOConfig(t).inputs
    requires i < Capacity(t).inputs && Capacity(t).outputs > 0
    requires event == "on" || event == "off"
    ensures var target := SwitchTarget(Capacity(t), i as nat) as Byte;
            var r := DispatchIo(io, 0, i, event, sameSlave);
            r == PublishInput(SetOutputIo(io, target, event), i, event) &&
            OutputState(r.outputs, target) == event
  {
    var c := Capacity(t);
    var k := c.buttons + i as nat;
    var j := if event == "on" then 0 else 1;
    var target := SwitchTarget(c, i as nat);
    assert io.inputs[k] == DefaultSwitch(c, i as nat);
    forall l | 0 <= l < k
      ensures !Listens(io.inputs[l], 0, i)
    {
      if l < c.buttons {
        assert io.inputs[l] == DefaultButton(l);
      } else {
        assert io.inputs[l] == DefaultSwitch(c, l - c.buttons);
      }
    }
    assert Selected(io.inputs, 0, i, event, k, j);
    var a := Action(Some(0), Some(target), None, Some(event), None);
    assert io.inputs[k].events.value[j].actions == Some([a]);
    SingleActionSetsOutput(io, 0, i, event, sameSlave, k, j, a);
    assert io.outputs[target] == DefaultOutput(target);
    forall l | 0 <= l < target
      ensures !Targets(io.outputs[l], target as Byte)
    {
      assert io.outputs[l] == DefaultOutput(l);
    }
    SetOutputWrites(io.outputs, target as Byte, event, target);
  }
}
