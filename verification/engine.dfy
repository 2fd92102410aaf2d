/** The engine of main/core.c as it runs: the shared configuration lists, the
    effect log and the running action chains are fields of `Core`, which the
    operations walk with loops and update in place, as the source does with
    its cJSON tree. Each method is proved against the function of the same
    operation in OutputControl, Dispatch, InputControl, Indicators, Scheduling
    and Reconcile, whose properties are proved there. */
module Engine {
  import opened Base
  import opened IOModel
  import opened OutputControl
  import opened Dispatch
  import opened InputControl
  import opened Indicators
  import opened Scheduling
  import opened Reconcile
  import opened Hardware

  /** One step of the deleting loop: removing item `i` when it fails `keep`,
      or keeping it, extends the filtered suffix by one. */
  lemma DeleteStep<T(!new)>(xs: seq<T>, keep: T -> bool, i: nat, r: seq<T>)
    requires i < |xs| && r == xs[..i + 1] + Filter(xs[i + 1..], keep)
    ensures i < |r| && r[i] == xs[i]
    ensures !keep(xs[i]) ==> r[..i] + r[i + 1..] == xs[..i] + Filter(xs[i..], keep)
    ensures keep(xs[i]) ==> r == xs[..i] + Filter(xs[i..], keep)
  {
    FilterFrom(xs, keep, i);
    var rest := Filter(xs[i + 1..], keep);
    assert xs[..i + 1] == xs[..i] + [xs[i]];
    assert r == xs[..i] + [xs[i]] + rest;
    if !keep(xs[i]) {
      assert r[..i] == xs[..i] && r[i + 1..] == rest;
    } else {
      assert r == xs[..i] + ([xs[i]] + rest);
    }
  }

  /** The deleting loop of correctIOConfig: from the back, every item that
      fails `keep` is removed from the array. */
  method DeleteRejected<T(!new)>(xs: seq<T>, keep: T -> bool) returns (r: seq<T>, deleted: bool)
    ensures r == Filter(xs, keep) && deleted == (|r| < |xs|)
  {
    r := xs;
    deleted := false;
    var i := |xs|;
    while i > 0
      invariant 0 <= i <= |xs|
      invariant r == xs[..i] + Filter(xs[i..], keep)
      invariant |r| <= |xs| && deleted == (|r| < |xs|)
    {
      i := i - 1;
      DeleteStep(xs, keep, i, r);
      if !keep(r[i]) {
        r := r[..i] + r[i + 1..];
        deleted := true;
      }
    }
    assert xs[0..] == xs;
  }

  /** The loop of setAllOff over the output array: every local output goes
      off with timer 0; an output with a numeric slave id gets a remote
      command instead. */
  method AllOffPass(outs: seq<Output>) returns (r: seq<Output>, sent: seq<Effect>)
    ensures r == AllOffList(outs) && sent == AllOffEffects(outs)
  {
    r := outs;
    sent := [];
    var k := 0;
    while k < |outs|
      invariant 0 <= k <= |outs| == |r|
      invariant forall j :: 0 <= j < k ==> r[j] == AllOffOutput(outs[j])
      invariant forall j :: k <= j < |outs| ==> r[j] == outs[j]
      invariant sent == AllOffEffects(outs[..k])
    {
      var o := r[k];
      var slave: Byte := 0;
      if o.slaveId.Some? {
        slave := ByteOr0(o.timer);
      }
      assert o == outs[k] && slave == AllOffSlave(o);
      AllOffEffectsStep(outs, k);
      if slave > 0 {
        sent := sent + [RemoteOutputSet(slave, ByteOr0(o.id), "off")];
      } else {
        r := r[k := o.(state := if o.state.Some? then Some("off") else None, timer := Some(0))];
      }
      assert r[k] == AllOffOutput(outs[k]);
      k := k + 1;
    }
    assert outs[..k] == outs;
    assert r == AllOffList(outs);
  }

  /** The loop of outputsTimer, the 1 s tick: each output ticks, and what it
      publishes is collected in order. */
  method SlowTickPass(outs: seq<Output>) returns (r: seq<Output>, sent: seq<Effect>)
    ensures r == SlowTickList(outs) && sent == SlowTickEffects(outs)
  {
    r := outs;
    sent := [];
    var k := 0;
    while k < |outs|
      invariant 0 <= k <= |outs| == |r|
      invariant forall j :: 0 <= j < k ==> r[j] == SlowTick(outs[j])
      invariant forall j :: k <= j < |outs| ==> r[j] == outs[j]
      invariant sent == SlowTickEffects(outs[..k])
    {
      assert outs[..k + 1][..k] == outs[..k];
      sent := sent + SlowTickEffect(r[k]);
      r := r[k := SlowTick(r[k])];
      k := k + 1;
    }
    assert outs[..k] == outs;
    assert r == SlowTickList(outs);
  }

  /** The loop of outputsTimerShot, the 100 ms tick. */
  method FastTickPass(outs: seq<Output>) returns (r: seq<Output>)
    ensures r == FastTickList(outs)
  {
    r := outs;
    var k := 0;
    while k < |outs|
      invariant 0 <= k <= |outs| == |r|
      invariant forall j :: 0 <= j < k ==> r[j] == FastTick(outs[j])
      invariant forall j :: k <= j < |outs| ==> r[j] == outs[j]
    {
      r := r[k := FastTick(r[k])];
      k := k + 1;
    }
    assert r == FastTickList(outs);
  }

  /** updateStateHW as updateValues uses it: the board takes the relay word
      (also as the output LED word) and the input LED word; what it sends out
      is not looked at again. */
  method HandToBoard(board: Relays, t: ControllerType, relays: Bits16, leds: Bits16)
    modifies board
    ensures board.State() == if t == RCV2S || t == RCV2B then SetValues(old(board.State()), relays) else old(board.State())
  {
    var u := board.UpdateState(t, relays, leds, relays);
  }

  /** The output loop of updateValues: a missing state becomes "off", and
      every local output that is on sets its bit of the relay word. */
  method CollectOutputs(outs: seq<Output>) returns (r: seq<Output>, relays: Bits16)
    ensures r == DefaultedOutputs(outs) && relays == OutputMask(r)
  {
    r := outs;
    relays := Zero16;
    var k := 0;
    while k < |outs|
      invariant 0 <= k <= |outs| == |r|
      invariant forall j :: 0 <= j < k ==> r[j] == OutputDefaulted(outs[j])
      invariant forall j :: k <= j < |outs| ==> r[j] == outs[j]
      invariant relays == OutputMask(DefaultedOutputs(outs)[..k])
    {
      var o := r[k];
      var slave := ByteOr0(o.slaveId);
      if o.state.None? {
        o := o.(state := Some("off"));
        r := r[k := o];
      }
      if o.id.Some? && slave == 0 && o.state == Some("on") {
        relays := SetBit(relays, o.id.value);
      }
      OutputMaskStep(DefaultedOutputs(outs), k);
      k := k + 1;
    }
    assert r == DefaultedOutputs(outs);
    assert DefaultedOutputs(outs)[..k] == r;
  }

  /** The input loop of updateValues: a missing state becomes "off", and
      every local input that is on sets its bit of the input LED word. */
  method CollectInputs(ins: seq<Input>) returns (r: seq<Input>, leds: Bits16)
    ensures r == DefaultedInputs(ins) && leds == InputMask(r)
  {
    r := ins;
    leds := Zero16;
    var k := 0;
    while k < |ins|
      invariant 0 <= k <= |ins| == |r|
      invariant forall j :: 0 <= j < k ==> r[j] == InputDefaulted(ins[j])
      invariant forall j :: k <= j < |ins| ==> r[j] == ins[j]
      invariant leds == InputMask(DefaultedInputs(ins)[..k])
    {
      var i := r[k];
      var slave := ByteOr0(i.slaveId);
      if i.state.None? {
        i := i.(state := Some("off"));
        r := r[k := i];
      }
      if i.id.Some? && slave == 0 && i.state == Some("on") {
        leds := SetBit(leds, i.id.value);
      }
      InputMaskStep(DefaultedInputs(ins), k);
      k := k + 1;
    }
    assert r == DefaultedInputs(ins);
    assert DefaultedInputs(ins)[..k] == r;
  }

  /** The loop of correctIOConfig adding the missing outputs 0..n-1 of slave
      `sid` (0: the controller itself), each appended when outputExists does
      not find it in the array as it grows. */
  method AddOutputsPass(outs: seq<Output>, sid: Byte, n: nat) returns (r: seq<Output>, added: bool)
    requires n <= 256
    ensures r == AddOutputs(outs, sid, n) && added == (|r| > |outs|)
  {
    r := outs;
    added := false;
    var i := 0;
    while i < n
      invariant 0 <= i <= n
      invariant r == AddOutputs(outs, sid, i) && added == (|r| > |outs|)
    {
      AddOutputsStep(outs, sid, i);
      if !OutputExists(r, i, sid) {
        r := r + [if sid == 0 then DefaultOutput(i) else SlaveOutput(sid, i)];
        added := true;
      }
      i := i + 1;
    }
  }

  /** The same loop for the missing inputs 0..n-1 of slave `sid`. */
  method AddInputsPass(ins: seq<Input>, sid: Byte, n: nat) returns (r: seq<Input>, added: bool)
    requires n <= 256
    ensures r == AddInputs(ins, sid, n) && added == (|r| > |ins|)
  {
    r := ins;
    added := false;
    var i := 0;
    while i < n
      invariant 0 <= i <= n
      invariant r == AddInputs(ins, sid, i) && added == (|r| > |ins|)
    {
      AddInputsStep(ins, sid, i);
      if !InputExists(r, i, sid) {
        r := r + [if sid == 0 then NewInput(i) else SlaveInput(sid, i)];
        added := true;
      }
      i := i + 1;
    }
  }

  /** The same loop for the missing buttons 16..16+n-1. */
  method AddButtonsPass(ins: seq<Input>, n: nat) returns (r: seq<Input>, added: bool)
    requires 16 + n <= 256
    ensures r == AddButtons(ins, n) && added == (|r| > |ins|)
  {
    r := ins;
    added := false;
    var j := 0;
    while j < n
      invariant 0 <= j <= n
      invariant r == AddButtons(ins, j) && added == (|r| > |ins|)
    {
      AddButtonsStep(ins, j);
      var b := NewButton(16 + j);
      if !ButtonExists(r, 16 + j) {
        r := r + [b];
        added := true;
      }
      j := j + 1;
    }
  }

  /** The slave loop of correctIOConfig: each listed slave with an id gets its
      missing outputs and inputs, in list order. */
  method AddSlavesPass(l: Layout, slaves: seq<MbSlave>) returns (r: Layout, added: bool)
    ensures r == AddSlaves(l, slaves)
    ensures added == (|r.outputs| > |l.outputs| || |r.inputs| > |l.inputs|)
  {
    r := l;
    added := false;
    var j := 0;
    while j < |slaves|
      invariant 0 <= j <= |slaves|
      invariant AddSlaves(r, slaves[j..]) == AddSlaves(l, slaves)
      invariant |r.outputs| >= |l.outputs| && |r.inputs| >= |l.inputs|
      invariant added == (|r.outputs| > |l.outputs| || |r.inputs| > |l.inputs|)
    {
      var s := slaves[j];
      assert slaves[j..][1..] == slaves[j + 1..];
      if s.slaveId.Some? {
        var sid := U8(s.slaveId.value);
        var counts := SlaveCounts(s);
        var outs, a := AddOutputsPass(r.outputs, sid, counts.0);
        var ins, b := AddInputsPass(r.inputs, sid, counts.1);
        r := Layout(outs, ins);
        added := added || a || b;
      }
      j := j + 1;
    }
    assert slaves[|slaves|..] == [];
  }

  /** The passes of correctIOConfig in their order: delete from the outputs,
      then from the inputs; add the controller's own outputs, inputs and
      buttons; add every slave's channels. The configuration has changed
      when forced or when any pass deleted or added something. */
  method CorrectLayout(l: Layout, t: ControllerType, mode: string, slaves: seq<MbSlave>, force: bool)
    returns (r: Reconciled, changed: bool)
    ensures r == Reconcile.CorrectIOConfig(l, t, mode, slaves, force) && changed == r.changed
  {
    changed := force;
    var outs, ins, deleted;
    outs, deleted := DeleteRejected(l.outputs, KeepOutput(t, mode, slaves));
    changed := changed || deleted;
    ins, deleted := DeleteRejected(l.inputs, KeepInput(t, mode, slaves));
    changed := changed || deleted;
    var c := Capacity(t);
    var outs2, ins2, ins3, added;
    outs2, added := AddOutputsPass(outs, 0, c.outputs);
    changed := changed || added;
    ins2, added := AddInputsPass(ins, 0, c.inputs);
    changed := changed || added;
    ins3, added := AddButtonsPass(ins2, c.buttons);
    changed := changed || added;
    var layout;
    layout, added := AddSlavesPass(Layout(outs2, ins3), slaves);
    changed := changed || added;
    r := Reconciled(layout, changed);
  }

  class Core {
    var outputs: seq<Output>
    var inputs: seq<Input>
    var effects: seq<Effect>
    var chains: map<Byte, Chain>
    /** `inputButtonsTime`: when each button was pressed, in ms. */
    const press: array<U32>
    /** The board the relay word is sent to. */
    const board: Relays
    const ctype: ControllerType
    /** Whether a single inline action may target the slave the event came
        from (the field-bus slave test of processInputEvents). */
    const sameSlave: bool

    function Snapshot(): Io
      reads this
    {
      Io(outputs, inputs, effects, chains)
    }

    constructor (t: ControllerType, same: bool, l: Layout)
      ensures Snapshot() == Io(l.outputs, l.inputs, [], map[])
      ensures ctype == t && sameSlave == same && press.Length == 32 && press[..] == seq(32, _ => 0)
      ensures board.State() == RelayState(Zero16, Zero16, Zero16)
      ensures fresh(press) && fresh(board)
    {
      outputs := l.outputs;
      inputs := l.inputs;
      effects := [];
      chains := map[];
      press := new U32[32](_ => 0);
      board := new Relays();
      ctype := t;
      sameSlave := same;
    }

    /** setOutput(id, value): "toggle" is resolved against the current state,
        the first local output with the id takes the value and its countdown,
        and the change is published. */
    method SetOutput(id: Byte, value: string)
      modifies this
      ensures Snapshot() == SetOutputIo(old(Snapshot()), id, value)
    {
      var v := value;
      if value == "toggle" {
        v := if OutputState(outputs, id) == "on" then "off" else "on";
      }
      ghost var outs0 := outputs;
      ghost var p := (o: Output) => Targets(o, id);
      var timer: Word := 0;
      var k := 0;
      while k < |outputs|
        invariant 0 <= k <= |outputs| && outputs == outs0 && timer == 0
        invariant forall j :: 0 <= j < k ==> !p(outs0[j])
      {
        var o := outputs[k];
        if !IsRemote(o) && o.id == Some(id as int) {
          var limit: Word := 0;
          if o.limit.Some? {
            limit := U16(o.limit.value);
          }
          if limit > 0 {
            timer := limit;
          }
          if o.kind == Some("t") && NamedNumber(o, v).Some? {
            timer := U16(NamedNumber(o, v).value);
          }
          if o.kind == Some("os") {
            timer := 3;
          }
          assert timer == HoldTime(o, v);
          outputs := outputs[k := o.(state := if o.state.Some? then Some(v) else None, timer := Some(timer))];
          assert Find(outs0, p) == Some(k);
          assert outputs == SetOutputList(outs0, id, v) && timer == SetOutputTimer(outs0, id, v);
          break;
        }
        k := k + 1;
      }
      if k == |outs0| {
        assert Find(outs0, p) == None;
        assert outputs == SetOutputList(outs0, id, v) && timer == SetOutputTimer(outs0, id, v);
      }
      assert v == Resolve(outs0, id, value);
      effects := effects + [OutputPublished(0, id, v, U8(timer))];
    }

    /** setAllOff: every local output goes off with timer 0; an output with a
        numeric slave id gets a remote command instead. */
    method SetAllOff()
      modifies this
      ensures Snapshot() == SetAllOffIo(old(Snapshot()))
    {
      var sent;
      outputs, sent := AllOffPass(outputs);
      effects := effects + sent;
    }

    /** outputsTimer, the 1 s tick, over the whole list. */
    method OutputsTimer()
      modifies this
      ensures outputs == SlowTickList(old(outputs)) && effects == old(effects) + SlowTickEffects(old(outputs))
      ensures inputs == old(inputs) && chains == old(chains)
    {
      var sent;
      outputs, sent := SlowTickPass(outputs);
      effects := effects + sent;
    }

    /** outputsTimerShot, the 100 ms tick, over the whole list. */
    method OutputsTimerShot()
      modifies this
      ensures outputs == FastTickList(old(outputs))
      ensures inputs == old(inputs) && effects == old(effects) && chains == old(chains)
    {
      outputs := FastTickPass(outputs);
    }

    /** processInputEvents(slave, input, event): carry out what the first
        listening input's event decides, then publish the event. */
    method ProcessInputEvents(slave: Byte, input: Byte, event: string)
      modifies this
      ensures Snapshot() == DispatchIo(old(Snapshot()), slave, input, event, sameSlave)
    {
      var o := Decide(outputs, inputs, slave, input, event, sameSlave);
      match o {
        case Nothing =>
        case AllOff => SetAllOff();
        case SetLocal(output, action) => SetOutput(output, action);
        case SetRemote(s, output, action) => effects := effects + [RemoteOutputSet(s, output, action)];
        case StartChain(steps) => chains := chains[input := Chain(steps, 0)];
      }
      if Published(input, event) {
        effects := effects + [InputPublished(input, event, 0)];
      }
    }

    /** One step of an action chain. */
    method Step(a: Action)
      modifies this
      ensures Snapshot() == StepIo(old(Snapshot()), a)
    {
      if a.action == Some("wait") {
      } else if a.action == Some("allOff") {
        SetAllOff();
      } else if a.output.Some? && a.action.Some? {
        if a.slaveId.Some? && a.slaveId.value > 0 {
          effects := effects + [RemoteOutputSet(U8(a.slaveId.value), U8(a.output.value), a.action.value)];
        } else {
          SetOutput(U8(a.output.value), a.action.value);
        }
      }
    }

    /** actionsTask for the chain registered for `input`: it waits out every
        wait, takes every step in order, and ends by removing itself. The
        result is the number of one-second waits. */
    method RunChain(input: Byte) returns (waited: nat)
      requires input in chains
      modifies this
      ensures var c := old(chains[input]);
              Snapshot() == RunSteps(old(Snapshot()), c.steps).(chains := old(chains) - {input}) &&
              waited == c.wait + TotalWait(c.steps)
    {
      ghost var io0 := Snapshot();
      ghost var c0 := chains[input];
      var c := chains[input];
      waited := 0;
      while c.wait > 0 || |c.steps| > 0
        invariant chains == io0.chains
        invariant RunSteps(Snapshot(), c.steps) == RunSteps(io0, c0.steps)
        invariant waited + c.wait + TotalWait(c.steps) == c0.wait + TotalWait(c0.steps)
        decreases |c.steps|, c.wait
      {
        if c.wait > 0 {
          c := Chain(c.steps, c.wait - 1);
          waited := waited + 1;
        } else {
          var a := c.steps[0];
          RunStepsFrame(Snapshot(), [a]);
          Step(a);
          c := Chain(c.steps[1..], WaitOf(a));
        }
      }
      chains := chains - {input};
    }

    /** processInput(raw, level) at clock `nowMs`: the first input with the
        corrected id takes the level; a button press only records the time;
        any other change is dispatched and recorded for the field-bus master. */
    method ProcessInput(raw: Byte, level: Byte, nowMs: nat)
      requires raw < 8 * InputBytes(ctype) && press.Length == 32
      modifies this, press
      ensures (Snapshot(), press[..]) == ProcessInputIo(old(Snapshot()), old(press[..]), ctype, raw, level, nowMs, sameSlave)
    {
      CorrectInputRange(ctype, raw);
      var c := CorrectInput(ctype, raw);
      if c == 255 {
        return;
      }
      ghost var p := (i: Input) => HasId(i, c);
      var k := 0;
      while k < |inputs| && !HasId(inputs[k], c)
        invariant 0 <= k <= |inputs|
        invariant forall j :: 0 <= j < k ==> !p(inputs[j])
      {
        k := k + 1;
      }
      if k == |inputs| {
        assert Find(inputs, p).None?;
        return;
      }
      assert Find(inputs, p) == Some(k);
      var i := inputs[k];
      var event := EventFor(i, level, press[c], nowMs);
      inputs := inputs[k := Updated(i, level)];
      if event.None? {
        press[c] := Now32(nowMs);
      } else {
        ProcessInputEvents(0, c, event.value);
        effects := effects + [InputEventRecorded(c, event.value)];
      }
    }

    /** updateValues: missing states become "off", the relay and LED words are
        collected bit by bit, the board takes them (updateStateHW) and both
        are reported. */
    method UpdateValues()
      modifies this, board
      ensures Snapshot() == UpdateValuesIo(old(Snapshot()))
      ensures board.State() == if ctype == RCV2S || ctype == RCV2B then SetValues(old(board.State()), RelayWord(old(Snapshot()))) else old(board.State())
    {
      var outs, relays := CollectOutputs(outputs);
      var ins, leds := CollectInputs(inputs);
      assert relays == RelayWord(Snapshot()) && leds == LedWord(Snapshot());
      HandToBoard(board, ctype, relays, leds);
      outputs, inputs := outs, ins;
      effects := effects + [BoardUpdated(relays, leds, relays), AggregateUpdated(relays, leds)];
    }

    /** correctIOConfig(force) with the field-bus mode and the slave list
        passed in: delete the descriptors the model and the slaves do not
        have, add the missing ones, and save when forced or when anything
        changed. */
    method CorrectIOConfig(mode: string, slaves: seq<MbSlave>, force: bool) returns (changed: bool)
      modifies this
      ensures var r := Reconcile.CorrectIOConfig(Layout(old(outputs), old(inputs)), ctype, mode, slaves, force);
              outputs == r.layout.outputs && inputs == r.layout.inputs && changed == r.changed
      ensures effects == old(effects) + (if changed then [ConfigSaved] else []) && chains == old(chains)
    {
      var r;
      r, changed := CorrectLayout(Layout(outputs, inputs), ctype, mode, slaves, force);
      outputs, inputs := r.layout.outputs, r.layout.inputs;
      if changed {
        effects := effects + [ConfigSaved];
      }
    }

    /** One action of a scheduler task: "svc" "reboot" requests a restart,
        "out" is setOutput and "in" is processInputEvents from slave 0. */
    method TaskAction(a: TaskAction)
      modifies this
      ensures Snapshot() == TaskActionIo(old(Snapshot()), a, sameSlave)
    {
      if a.kind == Some("svc") && a.output.None? && a.action == Some("reboot") {
        effects := effects + [RebootRequested];
      } else if a.kind == Some("out") && a.output.Some? && a.action.Some? {
        SetOutput(U8(a.output.value), a.action.value);
      } else if a.kind == Some("in") && a.input.Some? && a.action.Some? {
        ProcessInputEvents(0, U8(a.input.value), a.action.value);
      }
    }
  }

  /** The scheduler's task list (`jScheduler`) and `lastSchedulerTime`. */
  class Scheduler {
    var tasks: seq<Task>
    var last: Word

    function State(): Sched
      reads this
    {
      Sched(tasks, last)
    }

    /** The task list as read from the configuration; the last minute starts
        at 0. */
    constructor (ts: seq<Task>)
      ensures State() == Sched(ts, 0)
    {
      tasks := ts;
      last := 0;
    }

    /** initScheduler: every task is marked not done and gets a name and an
        enabled flag when it has none. */
    method InitScheduler()
      modifies this
      ensures State() == Sched(InitTasks(old(tasks)), old(last))
    {
      ghost var ts0 := tasks;
      var k := 0;
      while k < |tasks|
        invariant 0 <= k <= |tasks| == |ts0| && last == old(last)
        invariant forall j :: 0 <= j < |ts0| ==> tasks[j] == if j < k then InitTask(ts0[j]) else ts0[j]
      {
        var t := tasks[k].(done := Some(false));
        if t.name.None? {
          t := t.(name := Some("Noname task"));
        }
        if t.enabled.None? {
          t := t.(enabled := Some(false));
        }
        tasks := tasks[k := t];
        k := k + 1;
      }
      assert tasks == InitTasks(ts0);
    }

    /** The actions of one due task, in order. */
    method RunTaskActions(core: Core, acts: seq<TaskAction>)
      modifies core
      ensures core.Snapshot() == RunActions(old(core.Snapshot()), acts, core.sameSlave)
    {
      ghost var io0 := core.Snapshot();
      var a := 0;
      while a < |acts|
        invariant 0 <= a <= |acts|
        invariant RunActions(core.Snapshot(), acts[a..], core.sameSlave) == RunActions(io0, acts, core.sameSlave)
      {
        assert acts[a..][1..] == acts[a + 1..];
        core.TaskAction(acts[a]);
        a := a + 1;
      }
    }

    /** The walk of processScheduler over the task list at minute `now`. */
    method RunDueTasks(core: Core, now: Word, wday: int)
      modifies this, core
      ensures (core.Snapshot(), tasks) == RunTasks(old(core.Snapshot()), old(tasks), now, wday, core.sameSlave)
      ensures last == old(last)
    {
      ghost var io0 := core.Snapshot();
      ghost var ts0 := tasks;
      var k := 0;
      while k < |tasks|
        invariant 0 <= k <= |tasks| == |ts0| && last == old(last)
        invariant core.Snapshot() == RunTasks(io0, ts0[..k], now, wday, core.sameSlave).0
        invariant forall j :: 0 <= j < |ts0| ==> tasks[j] == if j < k then (if Due(ts0[j], now, wday) then MarkDone(ts0[j]) else ts0[j]) else ts0[j]
      {
        assert ts0[..k + 1][..k] == ts0[..k];
        var t := tasks[k];
        if Due(t, now, wday) {
          RunTaskActions(core, t.actions.GetOr([]));
          tasks := tasks[k := MarkDone(t)];
        }
        k := k + 1;
      }
      assert ts0[..k] == ts0;
      assert tasks == RunTasks(io0, ts0, now, wday, core.sameSlave).1;
    }

    /** processScheduler at the clock reading (hour, minute, weekday), with the
        "scheduler/enabled" setting passed in: after midnight the tasks are
        re-initialised, then every due task runs and is marked done. */
    method ProcessScheduler(core: Core, enabled: bool, hour: nat, minute: nat, wday: int)
      modifies this, core
      ensures (core.Snapshot(), State()) == SchedulerTick(old(core.Snapshot()), old(State()), enabled, hour, minute, wday, core.sameSlave)
    {
      if !enabled {
        return;
      }
      var now := Minutes(hour, minute);
      if now < last {
        InitScheduler();
      }
      last := now;
      RunDueTasks(core, now, wday);
    }
  }

  /** One cycle of inputsTask on values: the edges of the new reading are
      processed, the 100 ms tick runs, every 10th cycle the 1 s tick, every
      600th the scheduler, and then updateValues. */
  function CycleIo(io: Io, press: seq<U32>, s: Sched, t: ControllerType, before: seq<bv8>, after: seq<bv8>, nowMs: nat,
                   cnt: nat, sch: nat, schedulerOn: bool, hour: nat, minute: nat, wday: int, sameSlave: bool): (Io, seq<U32>, Sched)
    requires |press| == 32 && |before| == 4 && |after| == 4
  {
    var e := ProcessEdges(io, press, t, Edges(before, after, InputBytes(t)), nowMs, sameSlave);
    var fast := e.0.(outputs := FastTickList(e.0.outputs));
    var tick := SubTick(cnt, sch);
    var slow := if tick.slow then fast.(outputs := SlowTickList(fast.outputs), effects := fast.effects + SlowTickEffects(fast.outputs)) else fast;
    var sc := if tick.scheduler then SchedulerTick(slow, s, schedulerOn, hour, minute, wday, sameSlave) else (slow, s);
    (UpdateValuesIo(sc.0), e.1, sc.1)
  }

  /** A cycle in which no input changed and that is not a 10th cycle only
      advances the fast output timers and runs updateValues: the press times
      and the scheduler stay as they were. */
  lemma QuietCycle(io: Io, press: seq<U32>, s: Sched, t: ControllerType, bytes: seq<bv8>, nowMs: nat,
                   cnt: nat, sch: nat, schedulerOn: bool, hour: nat, minute: nat, wday: int, sameSlave: bool)
    requires |press| == 32 && |bytes| == 4 && cnt + 1 < 10
    ensures CycleIo(io, press, s, t, bytes, bytes, nowMs, cnt, sch, schedulerOn, hour, minute, wday, sameSlave) ==
            (UpdateValuesIo(io.(outputs := FastTickList(io.outputs))), press, s)
  {
    EdgesNone(bytes, bytes, InputBytes(t));
  }

  /** A cycle that is the 600th runs the scheduler after the slow tick, on the
      state the timers left. */
  lemma SchedulerCycle(io: Io, press: seq<U32>, s: Sched, t: ControllerType, bytes: seq<bv8>, nowMs: nat,
                       schedulerOn: bool, hour: nat, minute: nat, wday: int, sameSlave: bool)
    requires |press| == 32 && |bytes| == 4
    ensures var fast := io.(outputs := FastTickList(io.outputs));
            var slow := fast.(outputs := SlowTickList(fast.outputs), effects := fast.effects + SlowTickEffects(fast.outputs));
            var sc := SchedulerTick(slow, s, schedulerOn, hour, minute, wday, sameSlave);
            CycleIo(io, press, s, t, bytes, bytes, nowMs, 9, 59, schedulerOn, hour, minute, wday, sameSlave) == (UpdateValuesIo(sc.0), press, sc.1)
  {
    EdgesNone(bytes, bytes, InputBytes(t));
  }

  /** The inputsTask loop: the last input bytes (`inputsOld`, all released at
      start) and the two sub-tick counters. */
  class Poller {
    const core: Core
    const sched: Scheduler
    const inputsOld: array<bv8>
    var cnt: nat
    var sch: nat

    constructor (c: Core, s: Scheduler)
      ensures core == c && sched == s && cnt == 0 && sch == 0
      ensures inputsOld.Length == 4 && inputsOld[..] == [0xFF, 0xFF, 0xFF, 0xFF] && fresh(inputsOld)
    {
      core := c;
      sched := s;
      var a := new bv8[4](_ => 0xFF);
      assert a[..] == [0xFF, 0xFF, 0xFF, 0xFF];
      inputsOld := a;
      cnt := 0;
      sch := 0;
    }

    /** One bit of the bit loop: when bit `b` of byte `i` changed, it goes to
        processInput with its old level; `next` is that edge, or nothing. */
    method ScanBit(i: nat, b: nat, before: bv8, after: bv8, nowMs: nat) returns (ghost next: seq<Edge>)
      requires i < InputBytes(core.ctype) && b < 8 && core.press.Length == 32
      modifies core, core.press
      ensures ByteEdges(i, before, after, b + 1) == ByteEdges(i, before, after, b) + next
      ensures forall k :: 0 <= k < |next| ==> next[k].raw < 8 * InputBytes(core.ctype)
      ensures (core.Snapshot(), core.press[..]) == ProcessEdges(old(core.Snapshot()), old(core.press[..]), core.ctype, next, nowMs, core.sameSlave)
    {
      var bit := BitOf(after ^ before, b);
      assert after ^ before == before ^ after;
      if bit == 1 {
        var e := Edge(i * 8 + b, BitOf(before, b));
        core.ProcessInput(e.raw, e.level, nowMs);
        next := [e];
      } else {
        next := [];
      }
    }

    /** The bit loop for one changed input byte `i`: processInput for each
        changed bit, lowest first, with the bit's old level. */
    method ScanByte(i: nat, before: bv8, after: bv8, nowMs: nat)
      requires i < InputBytes(core.ctype) && core.press.Length == 32
      modifies core, core.press
      ensures (core.Snapshot(), core.press[..]) == ProcessEdges(old(core.Snapshot()), old(core.press[..]), core.ctype, ByteEdges(i, before, after, 8), nowMs, core.sameSlave)
    {
      ghost var io0, press0 := core.Snapshot(), core.press[..];
      ghost var es: seq<Edge> := [];
      var b := 0;
      while b < 8
        invariant 0 <= b <= 8 && es == ByteEdges(i, before, after, b)
        invariant core.press.Length == 32
        invariant forall k :: 0 <= k < |es| ==> es[k].raw < 8 * InputBytes(core.ctype)
        invariant (core.Snapshot(), core.press[..]) == ProcessEdges(io0, press0, core.ctype, es, nowMs, core.sameSlave)
      {
        var next := ScanBit(i, b, before, after, nowMs);
        ProcessEdgesAppend(io0, press0, core.ctype, es, next, nowMs, core.sameSlave);
        es := es + next;
        b := b + 1;
      }
    }

    /** One byte of the edge loop: when byte `i` changed, its changed bits go
        to processInput and the byte is remembered. */
    method ScanStep(i: nat, inputsNew: seq<bv8>, nowMs: nat, ghost io0: Io, ghost press0: seq<U32>, ghost before: seq<bv8>)
      requires i < InputBytes(core.ctype) && |inputsNew| == 4 && |before| == 4 && inputsOld.Length == 4
      requires core.press.Length == 32 && |press0| == 32
      requires (core.Snapshot(), core.press[..]) == ProcessEdges(io0, press0, core.ctype, Edges(before, inputsNew, i), nowMs, core.sameSlave)
      requires inputsOld[..] == Remembered(before, inputsNew, i)
      modifies core, core.press, inputsOld
      ensures (core.Snapshot(), core.press[..]) == ProcessEdges(io0, press0, core.ctype, Edges(before, inputsNew, i + 1), nowMs, core.sameSlave)
      ensures inputsOld[..] == Remembered(before, inputsNew, i + 1)
    {
      var diff := inputsNew[i] ^ inputsOld[i];
      ghost var cur := inputsOld[..];
      assert inputsOld[i] == before[i];
      XorZero(inputsNew[i], inputsOld[i]);
      RememberedStep(before, inputsNew, i);
      if diff > 0 {
        ScanByte(i, inputsOld[i], inputsNew[i], nowMs);
        ProcessEdgesAppend(io0, press0, core.ctype, Edges(before, inputsNew, i), ByteEdges(i, before[i], inputsNew[i], 8), nowMs, core.sameSlave);
        inputsOld[i] := inputsNew[i];
        assert inputsOld[..] == cur[i := inputsNew[i]];
      } else {
        ByteEdgesNone(i, before[i], 8);
        assert Edges(before, inputsNew, i) + ByteEdges(i, before[i], inputsNew[i], 8) == Edges(before, inputsNew, i);
      }
      assert Edges(before, inputsNew, i + 1) == Edges(before, inputsNew, i) + ByteEdges(i, before[i], inputsNew[i], 8);
    }

    /** The edge loop of inputsTask: for each input byte that changed, every
        changed bit is passed to processInput with its old level, and the byte
        is remembered. */
    method ScanInputs(inputsNew: seq<bv8>, nowMs: nat)
      requires |inputsNew| == 4 && inputsOld.Length == 4 && core.press.Length == 32
      modifies core, core.press, inputsOld
      ensures var n := InputBytes(core.ctype);
              (core.Snapshot(), core.press[..]) ==
                ProcessEdges(old(core.Snapshot()), old(core.press[..]), core.ctype, Edges(old(inputsOld[..]), inputsNew, n), nowMs, core.sameSlave) &&
              inputsOld[..] == Remembered(old(inputsOld[..]), inputsNew, n)
      ensures unchanged(core.board)
    {
      ghost var io0 := core.Snapshot();
      ghost var press0 := core.press[..];
      ghost var before := inputsOld[..];
      var n := InputBytes(core.ctype);
      assert Remembered(before, inputsNew, 0) == before;
      var i := 0;
      while i < n
        invariant 0 <= i <= n
        invariant (core.Snapshot(), core.press[..]) == ProcessEdges(io0, press0, core.ctype, Edges(before, inputsNew, i), nowMs, core.sameSlave)
        invariant inputsOld[..] == Remembered(before, inputsNew, i)
        invariant unchanged(core.board)
      {
        ScanStep(i, inputsNew, nowMs, io0, press0, before);
        i := i + 1;
      }
    }

    /** One iteration of inputsTask with the reading `inputsNew` and the clock
        passed in. */
    method Cycle(inputsNew: seq<bv8>, nowMs: nat, schedulerOn: bool, hour: nat, minute: nat, wday: int)
      requires |inputsNew| == 4 && inputsOld.Length == 4 && core.press.Length == 32
      modifies core, core.press, core.board, inputsOld, sched, this
      ensures var r := CycleIo(old(core.Snapshot()), old(core.press[..]), old(sched.State()), core.ctype, old(inputsOld[..]), inputsNew, nowMs,
                               old(cnt), old(sch), schedulerOn, hour, minute, wday, core.sameSlave);
              core.Snapshot() == r.0 && core.press[..] == r.1 && sched.State() == r.2
      ensures (cnt, sch) == (SubTick(old(cnt), old(sch)).cnt, SubTick(old(cnt), old(sch)).sch)
    {
      ScanInputs(inputsNew, nowMs);
      core.OutputsTimerShot();
      var tick := SubTick(cnt, sch);
      cnt, sch := tick.cnt, tick.sch;
      if tick.slow {
        core.OutputsTimer();
      }
      if tick.scheduler {
        sched.ProcessScheduler(core, schedulerOn, hour, minute, wday);
      }
      core.UpdateValues();
    }
  }
}
