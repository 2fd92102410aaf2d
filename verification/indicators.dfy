/** `updateValues` of main/core.c (core.c:325-374): the relay word and the LED
    words computed from the configuration, handed to the board
    (updateStateHW) and to the field-bus register image (MBUpdateData). */
module Indicators {
  import opened Base
  import opened IOModel
  import opened Dispatch

  /** `setbit` on a uint16_t: bit `b` is set; a number outside 0..15 leaves
      the word as it is. */
  function SetBit(m: Bits16, b: int): Bits16 {
    if 0 <= b < 16 then m[b := true] else m
  }


  /** A descriptor whose state is not a string gets the state "off". */
  function OutputDefaulted(o: Output): Output {
    if o.state.None? then o.(state := Some("off")) else o
  }

  function InputDefaulted(i: Input): Input {
    if i.state.None? then i.(state := Some("off")) else i
  }

  /** A local output with a numeric id that is on. */
  predicate LitOutput(o: Output) {
    o.id.Some? && ByteOr0(o.slaveId) == 0 && o.state == Some("on")
  }

  predicate LitInput(i: Input) {
    i.id.Some? && ByteOr0(i.slaveId) == 0 && i.state == Some("on")
  }

  /** The relay word: one bit per local output that is on. */
  function OutputMask(outs: seq<Output>): Bits16 {
    if |outs| == 0 then Zero16
    else if LitOutput(outs[|outs| - 1]) then SetBit(OutputMask(outs[..|outs| - 1]), outs[|outs| - 1].id.value)
    else OutputMask(outs[..|outs| - 1])
  }

  /** The input LED word: one bit per local input that is on. */
  function InputMask(ins: seq<Input>): Bits16 {
    if |ins| == 0 then Zero16
    else if LitInput(ins[|ins| - 1]) then SetBit(InputMask(ins[..|ins| - 1]), ins[|ins| - 1].id.value)
    else InputMask(ins[..|ins| - 1])
  }

  /** The words grow one descriptor at a time, as the loops of updateValues
      collect them. */
  lemma OutputMaskStep(outs: seq<Output>, k: nat)
    requires k < |outs|
    ensures OutputMask(outs[..k + 1]) ==
            if LitOutput(outs[k]) then SetBit(OutputMask(outs[..k]), outs[k].id.value) else OutputMask(outs[..k])
  {
    assert outs[..k + 1][..k] == outs[..k];
  }

  lemma InputMaskStep(ins: seq<Input>, k: nat)
    requires k < |ins|
    ensures InputMask(ins[..k + 1]) ==
            if LitInput(ins[k]) then SetBit(InputMask(ins[..k]), ins[k].id.value) else InputMask(ins[..k])
  {
    assert ins[..k + 1][..k] == ins[..k];
  }

  /** Bit `b` of the relay word is set exactly when some local output with id
      `b` is on. */
  lemma {:induction false} OutputMaskBits(outs: seq<Output>, b: nat)
    requires b < 16
    ensures OutputMask(outs)[b] <==> exists k :: 0 <= k < |outs| && LitOutput(outs[k]) && outs[k].id == Some(b)
  {
    if |outs| > 0 {
      var init := outs[..|outs| - 1];
      OutputMaskBits(init, b);
      if exists k :: 0 <= k < |init| && LitOutput(init[k]) && init[k].id == Some(b) {
        var k :| 0 <= k < |init| && LitOutput(init[k]) && init[k].id == Some(b);
        assert outs[k] == init[k];
      }
      if exists k :: 0 <= k < |outs| && LitOutput(outs[k]) && outs[k].id == Some(b) {
        var k :| 0 <= k < |outs| && LitOutput(outs[k]) && outs[k].id == Some(b);
        if k < |init| {
          assert init[k] == outs[k];
        }
      }
    }
  }

  /** Bit `b` of the input LED word is set exactly when some local input with
      id `b` is on. */
  lemma {:induction false} InputMaskBits(ins: seq<Input>, b: nat)
    requires b < 16
    ensures InputMask(ins)[b] <==> exists k :: 0 <= k < |ins| && LitInput(ins[k]) && ins[k].id == Some(b)
  {
    if |ins| > 0 {
      var init := ins[..|ins| - 1];
      InputMaskBits(init, b);
      if exists k :: 0 <= k < |init| && LitInput(init[k]) && init[k].id == Some(b) {
        var k :| 0 <= k < |init| && LitInput(init[k]) && init[k].id == Some(b);
        assert ins[k] == init[k];
      }
      if exists k :: 0 <= k < |ins| && LitInput(ins[k]) && ins[k].id == Some(b) {
        var k :| 0 <= k < |ins| && LitInput(ins[k]) && ins[k].id == Some(b);
        if k < |init| {
          assert init[k] == ins[k];
        }
      }
    }
  }

  /** The lists after updateValues: every missing state becomes "off". */
  function DefaultedOutputs(outs: seq<Output>): (r: seq<Output>)
    ensures |r| == |outs|
    ensures forall k :: 0 <= k < |outs| ==> r[k] == OutputDefaulted(outs[k])
  {
    seq(|outs|, k requires 0 <= k < |outs| => OutputDefaulted(outs[k]))
  }

  function DefaultedInputs(ins: seq<Input>): (r: seq<Input>)
    ensures |r| == |ins|
    ensures forall k :: 0 <= k < |ins| ==> r[k] == InputDefaulted(ins[k])
  {
    seq(|ins|, k requires 0 <= k < |ins| => InputDefaulted(ins[k]))
  }

  /** The relay word updateValues computes (also its output LED word). */
  function RelayWord(io: Io): Bits16 {
    OutputMask(DefaultedOutputs(io.outputs))
  }

  /** The input LED word updateValues computes. */
  function LedWord(io: Io): Bits16 {
    InputMask(DefaultedInputs(io.inputs))
  }

  /** updateValues on the whole state: missing states become "off", and the
      words go to the board (relays, input LEDs, output LEDs) and to the
      field-bus image. */
  function UpdateValuesIo(io: Io): Io {
    io.(outputs := DefaultedOutputs(io.outputs), inputs := DefaultedInputs(io.inputs),
        effects := io.effects + [BoardUpdated(RelayWord(io), LedWord(io), RelayWord(io)), AggregateUpdated(RelayWord(io), LedWord(io))])
  }

  /** After updateValues every descriptor has a state, nothing else of it
      changes, and a second run leaves the lists alone. */
  lemma UpdateValuesDefaults(io: Io)
    ensures var r := UpdateValuesIo(io);
            |r.outputs| == |io.outputs| && |r.inputs| == |io.inputs| &&
            (forall k :: 0 <= k < |r.outputs| ==> r.outputs[k].state.Some? && r.outputs[k].(state := io.outputs[k].state) == io.outputs[k]) &&
            (forall k :: 0 <= k < |r.inputs| ==> r.inputs[k].state.Some? && r.inputs[k].(state := io.inputs[k].state) == io.inputs[k]) &&
            UpdateValuesIo(r).outputs == r.outputs && UpdateValuesIo(r).inputs == r.inputs
  {
  }

  /** updateValues reports two effects: the board update, whose relay word
      equals its output LED word and has bit `b` set exactly when a local
      output with id `b` was on, and whose input LED word has bit `b` set
      exactly when such an input was on; then the same words to the field-bus
      image. */
  lemma UpdateValuesReports(io: Io, b: nat)
    requires b < 16
    ensures var e := UpdateValuesIo(io).effects;
            |e| == |io.effects| + 2 && e[|e| - 2].BoardUpdated? && e[|e| - 2].outputBits == e[|e| - 2].outputLeds &&
            (e[|e| - 2].outputBits[b] <==> exists k :: 0 <= k < |io.outputs| && LitOutput(io.outputs[k]) && io.outputs[k].id == Some(b)) &&
            (e[|e| - 2].inputLeds[b] <==> exists k :: 0 <= k < |io.inputs| && LitInput(io.inputs[k]) && io.inputs[k].id == Some(b)) &&
            e[|e| - 1] == AggregateUpdated(e[|e| - 2].outputBits, e[|e| - 2].inputLeds)
  {
    var r := UpdateValuesIo(io);
    OutputMaskBits(r.outputs, b);
    InputMaskBits(r.inputs, b);
    assert forall k :: 0 <= k < |io.outputs| ==> (LitOutput(r.outputs[k]) <==> LitOutput(io.outputs[k]));
    assert forall k :: 0 <= k < |io.inputs| ==> (LitInput(r.inputs[k]) <==> LitInput(io.inputs[k]));
  }
}
