/** The relay and bit logic of main/hardware.c: the relay soft-start state
    machine of `setRelayValues` (hardware.c:442-457) and the `relayTask` loop
    body (hardware.c:211-218), the RCV1B shift-register frame and the RCV2
    LED levels of `updateStateHW` (hardware.c:529-571), `readInputs`
    (hardware.c:574-595), `readServiceButtons` (hardware.c:597-628) and
    `getControllerTypeText` (hardware.c:630-644). The bus transfers themselves
    (shift registers, I2C expanders, PWM chips) are not part of this model:
    what they read comes in as parameters and what they are sent comes out as
    values. */
module Hardware {
  import opened Base
  import opened IOModel

  // ---------------------------------------------------------------------------
  // Relay soft start
  // ---------------------------------------------------------------------------

  /** The three relay words: the requested state (`relayValues`), the relays
      that have had their first full-power pass (`relayPrepareBits`), and the
      relays already switched to the reduced holding duty (`relayBits`). */
  datatype RelayState = RelayState(values: Bits16, prepare: Bits16, bits: Bits16)

  /** One `setI2COut(3, channel, level)` call on the relay PWM chip. */
  datatype PwmWrite = PwmWrite(channel: nat, level: nat)

  /** PWM levels of the relay driver: off, full power, holding duty. */
  const RelayOff := 0
  const RelayFull := 4096
  const RelayHold := 2000

  /** Relay `j` goes from off to on under the request `v`. */
  predicate Rising(s: RelayState, v: Bits16, j: nat)
    requires j < 16
  {
    v[j] && !s.values[j]
  }

  /** Relay `j` goes from on to off under the request `v`. */
  predicate Falling(s: RelayState, v: Bits16, j: nat)
    requires j < 16
  {
    !v[j] && s.values[j]
  }

  /** setRelayValues(v): the request becomes `v`; a relay switched on starts
      its soft start again; every other relay keeps its progress. */
  function SetValues(s: RelayState, v: Bits16): RelayState {
    RelayState(v,
      seq(16, j requires 0 <= j < 16 => s.prepare[j] && !Rising(s, v, j)),
      seq(16, j requires 0 <= j < 16 => s.bits[j] && !Rising(s, v, j)))
  }

  /** The PWM writes of setRelayValues(v) for relays 0..n-1, in channel
      order: 0 for a relay switched off, full power for one switched on. */
  function SwitchWrites(s: RelayState, v: Bits16, n: nat): seq<PwmWrite>
    requires n <= 16
  {
    if n == 0 then []
    else
      var w := if Falling(s, v, n - 1) then [PwmWrite(n - 1, RelayOff)]
               else if Rising(s, v, n - 1) then [PwmWrite(n - 1, RelayFull)]
               else [];
      SwitchWrites(s, v, n - 1) + w
  }

  /** One pass of relayTask: an on relay without its prepare bit gets it; an
      on relay with it is switched to the holding duty. */
  function TaskStep(s: RelayState): RelayState {
    RelayState(s.values,
      seq(16, j requires 0 <= j < 16 => s.prepare[j] || s.values[j]),
      seq(16, j requires 0 <= j < 16 => s.bits[j] || (s.values[j] && s.prepare[j])))
  }

  /** Relay `j` is dropped to the holding duty by a pass of relayTask (the
      `setI2COut(3, j, 2000)` call). */
  predicate Pulsed(s: RelayState, j: nat)
    requires j < 16
  {
    s.values[j] && s.prepare[j] && !s.bits[j]
  }

  /** The PWM writes of a pass of relayTask over relays 0..n-1. */
  function PulseWrites(s: RelayState, n: nat): seq<PwmWrite>
    requires n <= 16
  {
    if n == 0 then []
    else PulseWrites(s, n - 1) + (if Pulsed(s, n - 1) then [PwmWrite(n - 1, RelayHold)] else [])
  }

  function Steps(s: RelayState, n: nat): RelayState
    decreases n
  {
    if n == 0 then s else Steps(TaskStep(s), n - 1)
  }

  /** setRelayValues makes the request `v`, resets the progress of every relay
      switched on and keeps it for every other relay. */
  lemma SetValuesBits(s: RelayState, v: Bits16, j: nat)
    requires j < 16
    ensures SetValues(s, v).values == v
    ensures v[j] && !s.values[j] ==> !SetValues(s, v).prepare[j] && !SetValues(s, v).bits[j]
    ensures !(v[j] && !s.values[j]) ==>
              SetValues(s, v).prepare[j] == s.prepare[j] && SetValues(s, v).bits[j] == s.bits[j]
  {
  }

  /** The writes of setRelayValues: one per relay that changes, in channel
      order, 0 when it goes off and full power when it goes on. */
  lemma {:induction false} SwitchWritesChannels(s: RelayState, v: Bits16, n: nat, j: nat)
    requires n <= 16 && j < n
    ensures PwmWrite(j, RelayOff) in SwitchWrites(s, v, n) <==> Falling(s, v, j)
    ensures PwmWrite(j, RelayFull) in SwitchWrites(s, v, n) <==> Rising(s, v, j)
    ensures forall w :: w in SwitchWrites(s, v, n) ==> w.channel < n && (w.level == RelayOff || w.level == RelayFull)
    decreases n
  {
    if j < n - 1 {
      SwitchWritesChannels(s, v, n - 1, j);
    } else if n - 1 > 0 {
      SwitchWritesChannels(s, v, n - 1, 0);
    }
  }

  /** A pass of relayTask leaves the request alone and never touches a relay
      that is off. */
  lemma TaskStepLeavesOffRelays(s: RelayState, j: nat)
    requires j < 16 && !s.values[j]
    ensures TaskStep(s).values == s.values
    ensures TaskStep(s).prepare[j] == s.prepare[j] && TaskStep(s).bits[j] == s.bits[j]
    ensures !Pulsed(s, j)
  {
  }

  /** The writes of a pass of relayTask: the holding duty, on exactly the
      pulsed relays. */
  lemma {:induction false} PulseWritesChannels(s: RelayState, n: nat, j: nat)
    requires n <= 16 && j < n
    ensures PwmWrite(j, RelayHold) in PulseWrites(s, n) <==> Pulsed(s, j)
    ensures forall w :: w in PulseWrites(s, n) ==> w.channel < n && w.level == RelayHold
    decreases n
  {
    if j < n - 1 {
      PulseWritesChannels(s, n - 1, j);
    } else if n - 1 > 0 {
      PulseWritesChannels(s, n - 1, 0);
    }
  }

  /** After a relay is switched on, the first pass sets its prepare bit only
      and the second drops it to the holding duty. */
  lemma SoftStartOrder(s: RelayState, v: Bits16, j: nat)
    requires j < 16 && v[j] && !s.values[j]
    ensures var s0 := SetValues(s, v);
            var s1 := TaskStep(s0);
            !Pulsed(s0, j) && s1.prepare[j] && !s1.bits[j] &&
            Pulsed(s1, j) && TaskStep(s1).bits[j]
  {
  }

  /** Passes of relayTask only ever add holding bits. */
  lemma {:induction false} StepsKeepBits(s: RelayState, n: nat, j: nat)
    requires j < 16 && s.bits[j]
    ensures Steps(s, n).bits[j]
    decreases n
  {
    if n > 0 {
      assert TaskStep(s).bits[j];
      StepsKeepBits(TaskStep(s), n - 1, j);
    }
  }

  /** A relay is dropped to the holding duty at most once until it is switched
      on again: once pulsed, no later pass pulses it. */
  lemma PulsedOnce(s: RelayState, n: nat, j: nat)
    requires j < 16 && Pulsed(s, j)
    ensures !Pulsed(Steps(TaskStep(s), n), j)
  {
    assert TaskStep(s).bits[j];
    StepsKeepBits(TaskStep(s), n, j);
  }

  /** Holding relays have had their prepare pass: `bits` stays within
      `prepare` under both operations. */
  predicate RelaysValid(s: RelayState) {
    forall j :: 0 <= j < 16 ==> s.bits[j] ==> s.prepare[j]
  }

  lemma RelaysValidKept(s: RelayState, v: Bits16)
    requires RelaysValid(s)
    ensures RelaysValid(SetValues(s, v)) && RelaysValid(TaskStep(s))
  {
  }

  /** The bit loop of setRelayValues(v): a relay switched off is written 0,
      one switched on is written full power and loses its soft-start bits. */
  method SwitchPass(s0: RelayState, v: Bits16) returns (r: RelayState, writes: seq<PwmWrite>)
    ensures r == SetValues(s0, v)
    ensures writes == SwitchWrites(s0, v, 16)
  {
    var vals, prep, bs := s0.values, s0.prepare, s0.bits;
    writes := [];
    var i := 0;
    while i < 16
      invariant 0 <= i <= 16
      invariant forall j :: 0 <= j < 16 ==> vals[j] == if j < i then v[j] else s0.values[j]
      invariant forall j :: 0 <= j < 16 ==> prep[j] == (s0.prepare[j] && !(j < i && Rising(s0, v, j)))
      invariant forall j :: 0 <= j < 16 ==> bs[j] == (s0.bits[j] && !(j < i && Rising(s0, v, j)))
      invariant writes == SwitchWrites(s0, v, i)
    {
      if !v[i] && vals[i] {
        writes := writes + [PwmWrite(i, RelayOff)];
        vals := vals[i := false];
      } else if v[i] && !vals[i] {
        writes := writes + [PwmWrite(i, RelayFull)];
        vals := vals[i := true];
        bs := bs[i := false];
        prep := prep[i := false];
      }
      i := i + 1;
    }
    assert prep == SetValues(s0, v).prepare;
    assert bs == SetValues(s0, v).bits;
    r := RelayState(v, prep, bs);
  }

  /** The relay words of hardware.c, updated in place bit by bit. */
  class Relays {
    var values: Bits16
    var prepare: Bits16
    var bits: Bits16

    function State(): RelayState
      reads this
    {
      RelayState(values, prepare, bits)
    }

    /** All three words start at 0. */
    constructor ()
      ensures State() == RelayState(Zero16, Zero16, Zero16)
    {
      values := Zero16;
      prepare := Zero16;
      bits := Zero16;
    }

    /** setRelayValues(v): the bit loop, then `relayValues = values`. */
    method SetRelayValues(v: Bits16) returns (writes: seq<PwmWrite>)
      modifies this
      ensures State() == SetValues(old(State()), v)
      ensures writes == SwitchWrites(old(State()), v, 16)
    {
      var r;
      r, writes := SwitchPass(State(), v);
      values, prepare, bits := r.values, r.prepare, r.bits;
    }

    /** One pass of the relayTask loop. */
    method TaskPass() returns (writes: seq<PwmWrite>)
      modifies this
      ensures State() == TaskStep(old(State()))
      ensures writes == PulseWrites(old(State()), 16)
    {
      ghost var s0 := State();
      writes := [];
      var i := 0;
      while i < 16
        invariant 0 <= i <= 16
        invariant values == s0.values
        invariant forall j :: 0 <= j < 16 ==> prepare[j] == if j < i then s0.prepare[j] || s0.values[j] else s0.prepare[j]
        invariant forall j :: 0 <= j < 16 ==> bits[j] == if j < i then s0.bits[j] || (s0.values[j] && s0.prepare[j]) else s0.bits[j]
        invariant writes == PulseWrites(s0, i)
      {
        if values[i] && !prepare[i] {
          prepare := prepare[i := true];
        } else if values[i] && !bits[i] {
          writes := writes + [PwmWrite(i, RelayHold)];
          bits := bits[i := true];
        }
        i := i + 1;
      }
      assert prepare == TaskStep(s0).prepare;
      assert bits == TaskStep(s0).bits;
    }

    /** updateStateHW: an RCV1B gets its shift-register frame; an RCV2S or
        RCV2B passes the relay word to setRelayValues and gets its LED levels;
        the other models get nothing here. */
    method UpdateState(t: ControllerType, outputs: Bits16, inputLeds: Bits16, outputLeds: Bits16) returns (u: BoardUpdate)
      modifies this
      ensures t == RCV1B ==> u == ShiftFrame(Rcv1bFrame(outputs, inputLeds, outputLeds)) && State() == old(State())
      ensures t == RCV2S ==> u == PwmLevels(SwitchWrites(old(State()), outputs, 16), Rcv2sLeds(inputLeds, outputLeds)) &&
                             State() == SetValues(old(State()), outputs)
      ensures t == RCV2B ==> u == PwmLevels(SwitchWrites(old(State()), outputs, 16), Rcv2bLeds(inputLeds, outputLeds)) &&
                             State() == SetValues(old(State()), outputs)
      ensures t !in {RCV1B, RCV2S, RCV2B} ==> u == NoUpdate && State() == old(State())
    {
      if t == RCV1B {
        u := ShiftFrame(Rcv1bFrame(outputs, inputLeds, outputLeds));
      } else if t == RCV2S {
        var writes := SetRelayValues(outputs);
        u := PwmLevels(writes, Rcv2sLeds(inputLeds, outputLeds));
      } else if t == RCV2B {
        var writes := SetRelayValues(outputs);
        u := PwmLevels(writes, Rcv2bLeds(inputLeds, outputLeds));
      } else {
        u := NoUpdate;
      }
    }
  }


  // ---------------------------------------------------------------------------
  // updateStateHW
  // ---------------------------------------------------------------------------

  /** What updateStateHW sends: bytes shifted out on the 595 chain, or the
      relay writes and the LED channel levels of the PWM chips. */
  datatype BoardUpdate = ShiftFrame(bytes: seq<Byte>) | PwmLevels(relayWrites: seq<PwmWrite>, leds: seq<int>) | NoUpdate

  function Pow2(n: nat): nat {
    if n == 0 then 1 else 2 * Pow2(n - 1)
  }

  /** The number whose binary digits, least significant first, are `s`. */
  function FromBits(s: seq<bool>): (r: nat)
    ensures r < Pow2(|s|)
  {
    if |s| == 0 then 0 else (if s[0] then 1 else 0) + 2 * FromBits(s[1..])
  }

  /** The `n` low binary digits of `x`, least significant first. */
  function ToBits(x: nat, n: nat): (r: seq<bool>)
    ensures |r| == n
  {
    if n == 0 then [] else [x % 2 == 1] + ToBits(x / 2, n - 1)
  }

  lemma {:induction false} ToFromBits(s: seq<bool>)
    ensures ToBits(FromBits(s), |s|) == s
  {
    if |s| > 0 {
      var b := if s[0] then 1 else 0;
      var y := FromBits(s[1..]);
      Halve(b, y);
      assert FromBits(s) == b + 2 * y;
      ToFromBits(s[1..]);
      assert ToBits(b + 2 * y, |s|) == [s[0]] + ToBits(y, |s| - 1);
      assert [s[0]] + s[1..] == s;
    }
  }

  /** A low digit and the rest: halving recovers both. */
  lemma Halve(b: nat, y: nat)
    requires b < 2
    ensures (b + 2 * y) % 2 == b && (b + 2 * y) / 2 == y
  {
  }

  lemma {:induction false} FromToBits(x: nat, n: nat)
    requires x < Pow2(n)
    ensures FromBits(ToBits(x, n)) == x
  {
    if n > 0 {
      var r := ToBits(x, n);
      assert r[1..] == ToBits(x / 2, n - 1);
      FromToBits(x / 2, n - 1);
    }
  }

  lemma Pow2Byte()
    ensures Pow2(8) == 256
  {
    assert Pow2(4) == 16;
  }

  /** The low and the high byte of a word. */
  function Lo(m: Bits16): Byte {
    Pow2Byte();
    FromBits(m[..8])
  }

  function Hi(m: Bits16): Byte {
    Pow2Byte();
    FromBits(m[8..])
  }

  /** The word with the high byte `hi` and the low byte `lo`. */
  function Join(hi: Byte, lo: Byte): Bits16 {
    ToBits(lo, 8) + ToBits(hi, 8)
  }

  lemma JoinSplit(m: Bits16)
    ensures Join(Hi(m), Lo(m)) == m
  {
    ToFromBits(m[..8]);
    ToFromBits(m[8..]);
    assert m[..8] + m[8..] == m;
  }

  lemma SplitJoin(hi: Byte, lo: Byte)
    ensures Hi(Join(hi, lo)) == hi && Lo(Join(hi, lo)) == lo
  {
    Pow2Byte();
    var m := Join(hi, lo);
    assert m[..8] == ToBits(lo, 8);
    assert m[8..] == ToBits(hi, 8);
    FromToBits(lo, 8);
    FromToBits(hi, 8);
  }

  /** The six bytes shifted out on an RCV1B, first byte first: output LEDs
      (high, low), input LEDs (high, low), relays (low, high). */
  function Rcv1bFrame(outputs: Bits16, inputLeds: Bits16, outputLeds: Bits16): (f: seq<Byte>)
    ensures |f| == 6
  {
    [Hi(outputLeds), Lo(outputLeds), Hi(inputLeds), Lo(inputLeds), Lo(outputs), Hi(outputs)]
  }

  /** The three words a frame carries: relays, input LEDs, output LEDs. */
  function Rcv1bWords(f: seq<Byte>): (Bits16, Bits16, Bits16)
    requires |f| == 6
  {
    (Join(f[5], f[4]), Join(f[2], f[3]), Join(f[0], f[1]))
  }

  /** The frame loses nothing: the words come back from it, and every frame
      is the frame of its words. */
  lemma Rcv1bRoundTrip(outputs: Bits16, inputLeds: Bits16, outputLeds: Bits16, f: seq<Byte>)
    requires |f| == 6
    ensures Rcv1bWords(Rcv1bFrame(outputs, inputLeds, outputLeds)) == (outputs, inputLeds, outputLeds)
    ensures var w := Rcv1bWords(f); Rcv1bFrame(w.0, w.1, w.2) == f
  {
    JoinSplit(outputs);
    JoinSplit(inputLeds);
    JoinSplit(outputLeds);
    SplitJoin(f[5], f[4]);
    SplitJoin(f[2], f[3]);
    SplitJoin(f[0], f[1]);
  }

  /** The PWM level of an LED channel: 0 lights it, 4096 turns it off. */
  function Led(m: Bits16, i: nat): int
    requires i < 16
  {
    if m[i] then 0 else 4096
  }

  /** The ten LED channels of an RCV2S as written: channels 0..5 show input
      LEDs 0..5, and channels 6..9 show input LEDs 0..3 again. */
  function Rcv2sLedsAsWritten(inputLeds: Bits16, outputLeds: Bits16): (r: seq<int>)
    ensures |r| == 10
  {
    seq(6, i requires 0 <= i < 6 => Led(inputLeds, i)) + seq(4, i requires 0 <= i < 4 => Led(inputLeds, i))
  }

  /** The ten LED channels of an RCV2S as evidently intended: channels 6..9
      show output LEDs 0..3. */
  function Rcv2sLeds(inputLeds: Bits16, outputLeds: Bits16): (r: seq<int>)
    ensures |r| == 10
  {
    seq(6, i requires 0 <= i < 6 => Led(inputLeds, i)) + seq(4, i requires 0 <= i < 4 => Led(outputLeds, i))
  }

  /** As written, an RCV2S lights the LED of output 0 when only input 0 is on,
      and never shows an output LED that is on while its input LED is off. */
  lemma Rcv2sOutputLedFollowsInput(inputLeds: Bits16, outputLeds: Bits16)
    requires inputLeds[0] && !outputLeds[0]
    ensures Rcv2sLedsAsWritten(inputLeds, outputLeds)[6] == 0
    ensures Rcv2sLeds(inputLeds, outputLeds)[6] == 4096
    ensures Rcv2sLedsAsWritten(outputLeds, inputLeds)[6] == 4096
  {
  }

  /** As written, channels 0..5 are the corrected ones and channels 6..9
      repeat the first four input LEDs, so the two agree exactly when the
      first four input and output LEDs do. */
  lemma Rcv2sLedsAsWrittenDiffers(inputLeds: Bits16, outputLeds: Bits16)
    ensures Rcv2sLedsAsWritten(inputLeds, outputLeds)[..6] == Rcv2sLeds(inputLeds, outputLeds)[..6]
    ensures forall i :: 0 <= i < 4 ==> Rcv2sLedsAsWritten(inputLeds, outputLeds)[6 + i] == Rcv2sLeds(inputLeds, outputLeds)[i]
    ensures Rcv2sLedsAsWritten(inputLeds, outputLeds) == Rcv2sLeds(inputLeds, outputLeds) <==> inputLeds[..4] == outputLeds[..4]
  {
    var a := Rcv2sLedsAsWritten(inputLeds, outputLeds);
    var b := Rcv2sLeds(inputLeds, outputLeds);
    if a == b {
      forall i | 0 <= i < 4
        ensures inputLeds[i] == outputLeds[i]
      {
        assert a[6 + i] == b[6 + i];
      }
    }
  }

  /** Corrected, channel 6 + i is lit exactly when output LED i is on, and
      channel i exactly when input LED i is on. */
  lemma Rcv2sLedsShowWords(inputLeds: Bits16, outputLeds: Bits16, i: nat)
    ensures i < 4 ==> (Rcv2sLeds(inputLeds, outputLeds)[6 + i] == 0 <==> outputLeds[i])
    ensures i < 6 ==> (Rcv2sLeds(inputLeds, outputLeds)[i] == 0 <==> inputLeds[i])
  {
  }

  /** The 28 LED channels of an RCV2B: sixteen input LEDs on the first PWM
      chip, then twelve output LEDs on the second. */
  function Rcv2bLeds(inputLeds: Bits16, outputLeds: Bits16): (r: seq<int>)
    ensures |r| == 28
  {
    seq(16, i requires 0 <= i < 16 => Led(inputLeds, i)) + seq(12, i requires 0 <= i < 12 => Led(outputLeds, i))
  }

  /** Channel i of the first chip is lit exactly when input LED i is on, and
      channel i of the second exactly when output LED i is; output LEDs 12..15
      are never shown. */
  lemma Rcv2bLedsShowWords(inputLeds: Bits16, outputLeds: Bits16, i: nat)
    ensures i < 16 ==> (Rcv2bLeds(inputLeds, outputLeds)[i] == 0 <==> inputLeds[i])
    ensures i < 12 ==> (Rcv2bLeds(inputLeds, outputLeds)[16 + i] == 0 <==> outputLeds[i])
    ensures Rcv2bLeds(inputLeds, outputLeds) == Rcv2bLeds(inputLeds, outputLeds[12 := false][13 := false][14 := false][15 := false])
  {
  }

  // ---------------------------------------------------------------------------
  // readInputs
  // ---------------------------------------------------------------------------

  /** The four PCF8574 expanders an RCV2 reads its inputs from, by address
      index 1, 2, 5 and 6. */
  datatype Expanders = Expanders(e1: bv8, e2: bv8, e5: bv8, e6: bv8)

  /** readInputs(values, count): the buffer after the call. The RCV1 models
      shift in `count` bytes; the RCV2 models read two masked bytes or four
      whole ones (any other count leaves the buffer); an unknown model fills
      `count` bytes with 0xFF. */
  function ReadInputs(t: ControllerType, before: seq<bv8>, count: nat, shifted: seq<bv8>, ex: Expanders): (r: seq<bv8>)
    requires count <= |before| && |shifted| == count
    ensures |r| == |before| && r[count..] == before[count..]
  {
    if t == RCV1S || t == RCV1B then shifted + before[count..]
    else if t == RCV2S || t == RCV2B || t == RCV2M then
      if count == 2 then [ex.e1 & 0x3F, ex.e2 & 0x0F] + before[2..]
      else if count == 4 then [ex.e1, ex.e5, ex.e2, ex.e6] + before[4..]
      else before
    else seq(count, _ => 0xFF) + before[count..]
  }

  /** Two bytes read on an RCV2 carry six and four inputs; an unknown model
      reads every input as released (all ones). */
  lemma ReadInputsRanges(t: ControllerType, before: seq<bv8>, count: nat, shifted: seq<bv8>, ex: Expanders)
    requires count <= |before| && |shifted| == count
    ensures t in {RCV2S, RCV2M, RCV2B} && count == 2 ==>
              ReadInputs(t, before, count, shifted, ex)[0] <= 0x3F && ReadInputs(t, before, count, shifted, ex)[1] <= 0x0F
    ensures t == UNKNOWN ==> forall k :: 0 <= k < count ==> ReadInputs(t, before, count, shifted, ex)[k] == 0xFF
  {
  }

  // ---------------------------------------------------------------------------
  // readServiceButtons
  // ---------------------------------------------------------------------------

  /** The button word: bit i set when button i is pressed (the inputs are
      active low). `b0` and `b1` are the first two bytes read. */
  function ServiceButtons(t: ControllerType, b0: bv8, b1: bv8): bv16 {
    if t == RCV1S then !(((b0 >> 4) as bv16) | 0xFFF0)
    else if t == RCV1B then !((((b0 as bv16) << 2) | (((b1 & 0xC0) >> 6) as bv16)) | 0xFFC0)
    else if t == RCV2B then !(((b1 as bv16) << 8) | (b0 as bv16))
    else 0
  }

  /** An RCV1S has four buttons, on the high nibble of the first byte. */
  lemma Rcv1sButtons(b0: bv8, b1: bv8)
    ensures ServiceButtons(RCV1S, b0, b1) < 16
    ensures ServiceButtons(RCV1S, b0, b1) == (!(b0 >> 4) & 0x0F) as bv16
  {
  }

  /** An RCV1B reports six buttons: bits 0..1 are the inverted top bits of the
      second byte and bits 2..5 the inverted low nibble of the first; bits
      4..7 of the first byte are shifted out of the word. */
  lemma Rcv1bButtons(b0: bv8, b1: bv8)
    ensures ServiceButtons(RCV1B, b0, b1) < 64
    ensures ServiceButtons(RCV1B, b0, b1) == (((!b0 & 0x0F) as bv16) << 2) | (((!b1 & 0xC0) >> 6) as bv16)
  {
  }

  /** An RCV2B reports sixteen buttons, the inverted face bytes, and the
      bytes can be read back from the word. */
  lemma Rcv2bButtons(b0: bv8, b1: bv8)
    ensures var w := ServiceButtons(RCV2B, b0, b1); !w & 0xFF == b0 as bv16 && !w >> 8 == b1 as bv16
  {
  }

  /** The other models report no button. */
  lemma OtherModelsNoButtons(t: ControllerType, b0: bv8, b1: bv8)
    requires t !in {RCV1S, RCV1B, RCV2B}
    ensures ServiceButtons(t, b0, b1) == 0
  {
  }

  // ---------------------------------------------------------------------------
  // getControllerTypeText
  // ---------------------------------------------------------------------------

  function ControllerTypeText(t: Byte): string {
    if t == RCV1S then "small"
    else if t == RCV1B then "big"
    else if t == RCV2S then "RCV2S"
    else if t == RCV2M then "RCV2M"
    else if t == RCV2B then "RCV2B"
    else "UNKNOWN"
  }

  /** The known models have distinct names, and "UNKNOWN" names exactly the
      numbers that are no known model. */
  lemma ControllerTypeTextDistinct(a: Byte, b: Byte)
    ensures 1 <= a <= 5 && 1 <= b <= 5 && a != b ==> ControllerTypeText(a) != ControllerTypeText(b)
    ensures ControllerTypeText(a) == "UNKNOWN" <==> !(1 <= a <= 5)
  {
  }
}
