/** Input handling of main/core.c: the edge detection and sub-tick counters of
    `inputsTask` (core.c:1027-1081), the index remapping `correctInput`
    (core.c:808-832) and the classification `processInput` (core.c:834-914),
    as functions. */
module InputControl {
  import opened Base
  import opened IOModel
  import opened Dispatch

  // ---------------------------------------------------------------------------
  // correctInput
  // ---------------------------------------------------------------------------

  /** The number of input bytes the poller reads for a controller model
      (`inputsCnt`). */
  function InputBytes(t: ControllerType): (n: nat)
    ensures n == 2 || n == 4
  {
    if t == RCV1B || t == RCV2B then 4 else 2
  }

  /** correctInput: a physical bit index to a logical input id, 255 for a bit
      that is no input. On an RCV2S every index below 8, and on an RCV2M every
      index, is 255. */
  function CorrectInput(t: ControllerType, p: Byte): Byte {
    if t == RCV1S then
      if 4 <= p <= 7 then p + 12 else if 12 <= p <= 15 then p - 12 else 255
    else if t == RCV1B then
      if 16 <= p <= 31 then p - 16 else if p <= 7 then p + 18 else if 14 <= p <= 15 then p + 2 else 255
    else if t == RCV2S && p >= 8 then U8(p + 8)
    else if t == RCV2B then p
    else 255
  }

  /** Every bit the poller can deliver maps to an id below 32 or is ignored. */
  lemma CorrectInputRange(t: ControllerType, p: Byte)
    requires p < 8 * InputBytes(t)
    ensures CorrectInput(t, p) < 32 || CorrectInput(t, p) == 255
  {
  }

  /** Distinct bits map to distinct ids. */
  lemma CorrectInputInjective(t: ControllerType, p: Byte, q: Byte)
    requires p < 8 * InputBytes(t) && q < 8 * InputBytes(t) && p != q
    requires CorrectInput(t, p) != 255
    ensures CorrectInput(t, p) != CorrectInput(t, q)
  {
  }

  /** The local inputs 0..15 come from the upper two bytes on an RCV1B, and
      its buttons 16..25 from the lower bytes. */
  lemma Rcv1bLayout(p: Byte)
    requires p < 32
    ensures 16 <= p ==> CorrectInput(RCV1B, p) == p - 16
    ensures p <= 7 ==> CorrectInput(RCV1B, p) == p + 18
    ensures 8 <= p <= 13 ==> CorrectInput(RCV1B, p) == 255
  {
  }

  // ---------------------------------------------------------------------------
  // processInput
  // ---------------------------------------------------------------------------

  /** The state an input takes from its level; a state is only replaced when
      the input already has one. */
  function Leveled(i: Input, level: Byte): Input {
    i.(state := if i.state.Some? then Some(if level == 1 then "on" else "off") else None)
  }

  /** The counter of a counting switch (INVSW with "ci" > 0): "i" steps up and
      wraps to 0 when it reaches "ci", both read as uint8_t. */
  function Counted(i: Input): Input {
    if i.modulus.Some? && i.modulus.value > 0 then
      var n := ByteOr0(i.count);
      var ci := U8(i.modulus.value);
      i.(count := if i.count.Some? then Some(if n + 1 < ci then n + 1 else 0) else None)
    else i
  }

  /** The millisecond clock as the source stores it: cut to 32 bits. */
  function Now32(nowMs: nat): U32 {
    nowMs % 0x1_0000_0000
  }

  /** How long a button was held: the 32-bit clock difference, taken modulo
      2^32 so that a hold spanning the wrap of the clock is measured right. */
  function HeldMs(now: U32, pressed: U32): (d: U32)
    ensures now >= pressed ==> d == now - pressed
  {
    (now - pressed) % 0x1_0000_0000
  }

  /** The difference as core.c:896 computes it, in 64-bit signed arithmetic:
      negative when the clock wrapped during the hold. */
  function HeldMsAsWritten(now: U32, pressed: U32): int {
    now - pressed
  }

  /** A release under one second is a click, anything longer a long press. */
  function ReleaseEvent(held: int): string {
    if held < 1000 then "toggle" else "longpress"
  }

  /** For any hold shorter than 2^32 ms the measured time is the real one, so
      the gesture is decided by the real hold time. */
  lemma HeldMsIsHoldTime(t0: nat, t1: nat)
    requires t0 <= t1 < t0 + 0x1_0000_0000
    ensures HeldMs(Now32(t1), Now32(t0)) == t1 - t0
    ensures ReleaseEvent(HeldMs(Now32(t1), Now32(t0))) == "toggle" <==> t1 - t0 < 1000
  {
    var w := 0x1_0000_0000;
    var q0 := t0 / w;
    var q1 := t1 / w;
    assert t0 == q0 * w + Now32(t0);
    assert t1 == q1 * w + Now32(t1);
    if q1 == q0 {
      assert Now32(t1) - Now32(t0) == t1 - t0;
    } else {
      assert q1 == q0 + 1;
      assert Now32(t1) - Now32(t0) == t1 - t0 - w;
    }
  }

  /** As written, a two-second hold that spans the wrap of the 32-bit clock is
      read as a click. */
  lemma HeldAcrossWrapAsWritten()
    ensures var t0 := 0x1_0000_0000 - 1;
            var t1 := 0x1_0000_0000 + 1999;
            t1 - t0 == 2000 &&
            ReleaseEvent(HeldMsAsWritten(Now32(t1), Now32(t0))) == "toggle" &&
            ReleaseEvent(HeldMs(Now32(t1), Now32(t0))) == "longpress"
  {
    assert Now32(0x1_0000_0000 - 1) == 0x1_0000_0000 - 1;
    assert Now32(0x1_0000_0000 + 1999) == 1999;
  }

  /** The input processInput acts on: the first whose numeric id is `c`,
      whatever its slave id. */
  predicate HasId(i: Input, c: Byte) {
    i.id == Some(c as int)
  }

  /** Replace input `k`, dispatch the event on it and record the event for the
      field-bus master. */
  function FireIo(io: Io, k: nat, i: Input, c: Byte, event: string, sameSlave: bool): Io
    requires k < |io.inputs|
  {
    var next := DispatchIo(io.(inputs := io.inputs[k := i]), 0, c, event, sameSlave);
    next.(effects := next.effects + [InputEventRecorded(c, event)])
  }

  /** The event an input fires for a level change, `None` for a button press,
      which only records the time: a counting switch always toggles, a switch
      follows the level, and a button (any other type) fires on release, a
      click under one second and a long press otherwise. */
  function EventFor(i: Input, level: Byte, pressed: U32, nowMs: nat): Option<string> {
    if i.kind == Some("INVSW") then Some("toggle")
    else if i.kind == Some("SW") then Some(if level == 1 then "on" else "off")
    else if level == 1 then None
    else Some(ReleaseEvent(HeldMs(Now32(nowMs), pressed)))
  }

  /** The input after processInput: the level's state and, for a counting
      switch, the next count. */
  function Updated(i: Input, level: Byte): Input {
    if i.kind == Some("INVSW") then Counted(Leveled(i, level)) else Leveled(i, level)
  }

  /** processInput(raw, level) at clock `nowMs`: the new state and the new
      press-time table. */
  function ProcessInputIo(io: Io, press: seq<U32>, t: ControllerType, raw: Byte, level: Byte, nowMs: nat, sameSlave: bool): (r: (Io, seq<U32>))
    requires |press| == 32 && raw < 8 * InputBytes(t)
    ensures |r.1| == 32
  {
    CorrectInputRange(t, raw);
    var c := CorrectInput(t, raw);
    if c == 255 then (io, press)
    else
      match Find(io.inputs, (i: Input) => HasId(i, c))
      case None => (io, press)
      case Some(k) =>
        var i := Updated(io.inputs[k], level);
        match EventFor(io.inputs[k], level, press[c], nowMs)
        case None => (io.(inputs := io.inputs[k := i]), press[c := Now32(nowMs)])
        case Some(event) => (FireIo(io, k, i, c, event, sameSlave), press)
  }

  /** A bit that is no input, or an id no input has, changes nothing. */
  lemma IgnoredBitChangesNothing(io: Io, press: seq<U32>, t: ControllerType, raw: Byte, level: Byte, nowMs: nat, sameSlave: bool)
    requires |press| == 32 && raw < 8 * InputBytes(t)
    requires CorrectInput(t, raw) == 255 || forall j :: 0 <= j < |io.inputs| ==> !HasId(io.inputs[j], CorrectInput(t, raw))
    ensures ProcessInputIo(io, press, t, raw, level, nowMs, sameSlave) == (io, press)
  {
  }

  /** processInput on the first input with the corrected id: that input is
      updated, the press table records a button press, and otherwise the
      classified event is dispatched and recorded as the last effect, with the
      outputs and chains as the dispatcher leaves them. */
  lemma ProcessInputFires(io: Io, press: seq<U32>, t: ControllerType, raw: Byte, level: Byte, nowMs: nat, sameSlave: bool, k: nat)
    requires |press| == 32 && raw < 8 * InputBytes(t)
    requires CorrectInput(t, raw) != 255
    requires k < |io.inputs| && HasId(io.inputs[k], CorrectInput(t, raw))
    requires forall j :: 0 <= j < k ==> !HasId(io.inputs[j], CorrectInput(t, raw))
    ensures var c := CorrectInput(t, raw);
            var r := ProcessInputIo(io, press, t, raw, level, nowMs, sameSlave);
            c < 32 && r.0.inputs == io.inputs[k := Updated(io.inputs[k], level)] &&
            match EventFor(io.inputs[k], level, press[c], nowMs)
            case None =>
              r.1 == press[c := Now32(nowMs)] && r.0.outputs == io.outputs &&
              r.0.effects == io.effects && r.0.chains == io.chains
            case Some(event) =>
              var d := DispatchIo(io.(inputs := io.inputs[k := Updated(io.inputs[k], level)]), 0, c, event, sameSlave);
              r.1 == press && r.0.outputs == d.outputs && r.0.chains == d.chains &&
              r.0.effects == d.effects + [InputEventRecorded(c, event)]
  {
    CorrectInputRange(t, raw);
    var c := CorrectInput(t, raw);
    assert Find(io.inputs, (i: Input) => HasId(i, c)) == Some(k);
    var i := Updated(io.inputs[k], level);
    DispatchFrame(io.(inputs := io.inputs[k := i]), 0, c, EventFor(io.inputs[k], level, press[c], nowMs).GetOr(""), sameSlave);
  }

  /** After processInput the input holds the state of its level (when it has
      a state field). */
  lemma ProcessInputSetsState(io: Io, press: seq<U32>, t: ControllerType, raw: Byte, level: Byte, nowMs: nat, sameSlave: bool, k: nat)
    requires |press| == 32 && raw < 8 * InputBytes(t)
    requires CorrectInput(t, raw) != 255
    requires k < |io.inputs| && HasId(io.inputs[k], CorrectInput(t, raw)) && io.inputs[k].state.Some?
    requires forall j :: 0 <= j < k ==> !HasId(io.inputs[j], CorrectInput(t, raw))
    ensures var r := ProcessInputIo(io, press, t, raw, level, nowMs, sameSlave).0;
            k < |r.inputs| && r.inputs[k].state == Some(if level == 1 then "on" else "off")
  {
    ProcessInputFires(io, press, t, raw, level, nowMs, sameSlave, k);
  }

  /** A counting switch's counter stays below its modulus as the uint8_t it is
      read into; a modulus that truncates to 0 keeps the counter at 0, and a
      modulus that fits a uint8_t bounds the counter itself. */
  lemma CounterStaysBelowModulus(i: Input)
    requires i.modulus.Some? && 0 < i.modulus.value && i.count.Some?
    ensures Counted(i).count.Some?
    ensures U8(i.modulus.value) > 0 ==> Counted(i).count.value < U8(i.modulus.value)
    ensures U8(i.modulus.value) == 0 ==> Counted(i).count == Some(0)
    ensures i.modulus.value < 256 ==> Counted(i).count.value < i.modulus.value
  {
  }

  /** A counting switch with modulus m returns to 0 after m changes. */
  lemma CounterWraps(i: Input, m: nat)
    requires i.modulus == Some(m) && 0 < m < 256 && i.count == Some(m - 1)
    ensures Counted(i).count == Some(0)
  {
  }

  /** A button pressed at t0 and released at t1 fires a click exactly when the
      hold was under a second, and a long press otherwise. */
  lemma ButtonGesture(i: Input, t0: nat, t1: nat)
    requires i.kind != Some("INVSW") && i.kind != Some("SW")
    requires t0 <= t1 < t0 + 0x1_0000_0000
    ensures EventFor(i, 1, 0, t0) == None
    ensures EventFor(i, 0, Now32(t0), t1) == Some(if t1 - t0 < 1000 then "toggle" else "longpress")
  {
    HeldMsIsHoldTime(t0, t1);
  }

  /** The event as core.c:888-905 classifies it, with the hold time taken as
      the signed difference of the two 32-bit clock readings. */
  function EventForAsWritten(i: Input, level: Byte, pressed: U32, nowMs: nat): Option<string> {
    if i.kind == Some("INVSW") then Some("toggle")
    else if i.kind == Some("SW") then Some(if level == 1 then "on" else "off")
    else if level == 1 then None
    else Some(ReleaseEvent(HeldMsAsWritten(Now32(nowMs), pressed)))
  }

  /** The as-written and the corrected classification differ only for a button
      released after the 32-bit clock wrapped below the press time, and there
      the as-written one always reads a click. */
  lemma EventForAsWrittenDiffers(i: Input, level: Byte, pressed: U32, nowMs: nat)
    ensures Now32(nowMs) >= pressed ==> EventForAsWritten(i, level, pressed, nowMs) == EventFor(i, level, pressed, nowMs)
    ensures i.kind != Some("INVSW") && i.kind != Some("SW") && level == 0 && Now32(nowMs) < pressed ==>
              EventForAsWritten(i, level, pressed, nowMs) == Some("toggle")
    ensures EventForAsWritten(i, level, pressed, nowMs) != EventFor(i, level, pressed, nowMs) ==>
              Now32(nowMs) < pressed && EventForAsWritten(i, level, pressed, nowMs) == Some("toggle")
  {
  }

  /** As written, a button pressed at t0 and released at t1 fires a click
      exactly when the hold was under a second while the 32-bit clock did not
      wrap below the press time, and always a click when it did: a two-second
      hold from 2^32-1 to 2^32+1999 reads as a click. */
  lemma {:induction false} ButtonGestureAsWritten(i: Input, t0: nat, t1: nat)
    requires i.kind != Some("INVSW") && i.kind != Some("SW")
    requires t0 <= t1 < t0 + 0x1_0000_0000
    ensures EventForAsWritten(i, 1, 0, t0) == None
    ensures Now32(t0) <= Now32(t1) ==>
              EventForAsWritten(i, 0, Now32(t0), t1) == Some(if t1 - t0 < 1000 then "toggle" else "longpress")
    ensures Now32(t1) < Now32(t0) ==> EventForAsWritten(i, 0, Now32(t0), t1) == Some("toggle")
    ensures t0 == 0x1_0000_0000 - 1 && t1 == 0x1_0000_0000 + 1999 ==>
              EventForAsWritten(i, 0, Now32(t0), t1) == Some("toggle") &&
              EventFor(i, 0, Now32(t0), t1) == Some("longpress")
  {
    HeldMsIsHoldTime(t0, t1);
    EventForAsWrittenDiffers(i, 0, Now32(t0), t1);
    if t0 == 0x1_0000_0000 - 1 && t1 == 0x1_0000_0000 + 1999 {
      HeldAcrossWrapAsWritten();
    }
  }

  // ---------------------------------------------------------------------------
  // Edge detection in inputsTask
  // ---------------------------------------------------------------------------

  /** Bit `b` of a byte, as 0 or 1. */
  function BitOf(x: bv8, b: nat): Byte
    requires b < 8
  {
    if (x >> b) & 1 == 1 then 1 else 0
  }

  /** A change of input byte `i`: the bit index and the OLD level, which is
      what processInput is called with. */
  datatype Edge = Edge(raw: Byte, level: Byte)

  /** The changes in bits 0..b-1 of byte `i`, lowest bit first. */
  function ByteEdges(i: nat, before: bv8, after: bv8, b: nat): (r: seq<Edge>)
    requires i < 4 && b <= 8
    ensures |r| <= b
    ensures forall k :: 0 <= k < |r| ==> i * 8 <= r[k].raw < i * 8 + b
  {
    if b == 0 then []
    else ByteEdges(i, before, after, b - 1) +
         (if BitOf(before ^ after, b - 1) == 1 then [Edge(i * 8 + b - 1, BitOf(before, b - 1))] else [])
  }

  /** Every edge is a changed bit and carries its old level, which is the
      complement of the new one. */
  lemma {:induction false} ByteEdgesChanged(i: nat, before: bv8, after: bv8, b: nat)
    requires i < 4 && b <= 8
    ensures forall k :: 0 <= k < |ByteEdges(i, before, after, b)| ==>
              var e := ByteEdges(i, before, after, b)[k];
              BitOf(before, e.raw - i * 8) != BitOf(after, e.raw - i * 8) &&
              e.level == BitOf(before, e.raw - i * 8) && e.level == 1 - BitOf(after, e.raw - i * 8)
    decreases b
  {
    if b > 0 {
      ByteEdgesChanged(i, before, after, b - 1);
      BitXor(before, after, b - 1);
    }
  }

  /** Every changed bit produces an edge. */
  lemma {:induction false} ByteEdgesComplete(i: nat, before: bv8, after: bv8, b: nat, c: nat)
    requires i < 4 && c < b <= 8
    requires BitOf(before, c) != BitOf(after, c)
    ensures exists k :: 0 <= k < |ByteEdges(i, before, after, b)| && ByteEdges(i, before, after, b)[k].raw == i * 8 + c
    decreases b
  {
    var prev := ByteEdges(i, before, after, b - 1);
    BitXor(before, after, c);
    if c < b - 1 {
      ByteEdgesComplete(i, before, after, b - 1, c);
      var k :| 0 <= k < |prev| && prev[k].raw == i * 8 + c;
      assert ByteEdges(i, before, after, b)[k] == prev[k];
    } else {
      assert ByteEdges(i, before, after, b)[|prev|].raw == i * 8 + c;
    }
  }

  /** A bit of x ^ y is set exactly when the bits of x and y differ. */
  lemma BitXor(x: bv8, y: bv8, b: nat)
    requires b < 8
    ensures BitOf(x ^ y, b) == 1 <==> BitOf(x, b) != BitOf(y, b)
  {
    var s := b as bv8;
    assert (x ^ y) >> b == (x >> b) ^ (y >> b) by {
      assert (x ^ y) >> s == (x >> s) ^ (y >> s);
    }
  }

  /** A byte's difference is zero exactly when nothing changed. */
  lemma XorZero(x: bv8, y: bv8)
    ensures (x ^ y > 0) <==> x != y
  {
  }

  /** Remembering one byte more replaces it when it changed. */
  lemma RememberedStep(before: seq<bv8>, after: seq<bv8>, i: nat)
    requires i < |before| && i < |after|
    ensures Remembered(before, after, i + 1) == if before[i] != after[i] then Remembered(before, after, i)[i := after[i]] else Remembered(before, after, i)
  {
  }

  /** All edges of the first `n` input bytes, byte by byte. */
  function Edges(before: seq<bv8>, after: seq<bv8>, n: nat): (r: seq<Edge>)
    requires n <= |before| && n <= |after| && n <= 4
    ensures forall k :: 0 <= k < |r| ==> r[k].raw < 8 * n
  {
    if n == 0 then [] else Edges(before, after, n - 1) + ByteEdges(n - 1, before[n - 1], after[n - 1], 8)
  }

  /** The bytes the poller remembers after a cycle: each byte that changed is
      replaced by the after reading. */
  function Remembered(before: seq<bv8>, after: seq<bv8>, n: nat): (r: seq<bv8>)
    requires n <= |before| && n <= |after|
    ensures |r| == |before|
  {
    seq(|before|, k requires 0 <= k < |before| => if k < n && before[k] != after[k] then after[k] else before[k])
  }

  /** After the cycle the first `n` bytes read as the after input. */
  lemma RememberedIsNew(before: seq<bv8>, after: seq<bv8>, n: nat)
    requires n <= |before| && n <= |after|
    ensures Remembered(before, after, n)[..n] == after[..n]
    ensures Remembered(before, after, n)[n..] == before[n..]
  {
  }

  /** processInput for every edge, in order. */
  function ProcessEdges(io: Io, press: seq<U32>, t: ControllerType, edges: seq<Edge>, nowMs: nat, sameSlave: bool): (r: (Io, seq<U32>))
    requires |press| == 32
    requires forall k :: 0 <= k < |edges| ==> edges[k].raw < 8 * InputBytes(t)
    ensures |r.1| == 32
  {
    if |edges| == 0 then (io, press)
    else
      var prev := ProcessEdges(io, press, t, edges[..|edges| - 1], nowMs, sameSlave);
      var e := edges[|edges| - 1];
      ProcessInputIo(prev.0, prev.1, t, e.raw, e.level, nowMs, sameSlave)
  }

  /** An unchanged byte produces no edge. */
  lemma {:induction false} ByteEdgesNone(i: nat, x: bv8, b: nat)
    requires i < 4 && b <= 8
    ensures ByteEdges(i, x, x, b) == []
    decreases b
  {
    if b > 0 {
      ByteEdgesNone(i, x, b - 1);
      BitXor(x, x, b - 1);
    }
  }

  /** Input bytes that did not change produce no edge at all. */
  lemma {:induction false} EdgesNone(before: seq<bv8>, after: seq<bv8>, n: nat)
    requires n <= |before| && n <= |after| && n <= 4
    requires before[..n] == after[..n]
    ensures Edges(before, after, n) == []
    decreases n
  {
    if n > 0 {
      assert before[..n - 1] == after[..n - 1] by {
        assert before[..n - 1] == before[..n][..n - 1] && after[..n - 1] == after[..n][..n - 1];
      }
      EdgesNone(before, after, n - 1);
      assert before[n - 1] == before[..n][n - 1];
      ByteEdgesNone(n - 1, before[n - 1], 8);
    }
  }

  /** Two lists of edges below a bound join into one below it. */
  lemma EdgesBelowAppend(a: seq<Edge>, b: seq<Edge>, n: nat)
    requires forall k :: 0 <= k < |a| ==> a[k].raw < n
    requires forall k :: 0 <= k < |b| ==> b[k].raw < n
    ensures forall k :: 0 <= k < |a + b| ==> (a + b)[k].raw < n
  {
    forall k | 0 <= k < |a + b|
      ensures (a + b)[k].raw < n
    {
      if k < |a| {
        assert (a + b)[k] == a[k];
      } else {
        assert (a + b)[k] == b[k - |a|];
      }
    }
  }

  /** Processing the edges `a` and then the edges `b` is processing `a + b`:
      the edge loop may be split anywhere. */
  lemma {:induction false} ProcessEdgesAppend(io: Io, press: seq<U32>, t: ControllerType, a: seq<Edge>, b: seq<Edge>, nowMs: nat, sameSlave: bool)
    requires |press| == 32
    requires forall k :: 0 <= k < |a| ==> a[k].raw < 8 * InputBytes(t)
    requires forall k :: 0 <= k < |b| ==> b[k].raw < 8 * InputBytes(t)
    ensures forall k :: 0 <= k < |a + b| ==> (a + b)[k].raw < 8 * InputBytes(t)
    ensures var mid := ProcessEdges(io, press, t, a, nowMs, sameSlave);
            ProcessEdges(io, press, t, a + b, nowMs, sameSlave) == ProcessEdges(mid.0, mid.1, t, b, nowMs, sameSlave)
    decreases |b|
  {
    EdgesBelowAppend(a, b, 8 * InputBytes(t));
    if |b| == 0 {
      assert a + b == a;
    } else {
      var init := b[..|b| - 1];
      ProcessEdgesAppend(io, press, t, a, init, nowMs, sameSlave);
      assert (a + b)[..|a + b| - 1] == a + init;
      assert (a + b)[|a + b| - 1] == b[|b| - 1];
    }
  }

  // ---------------------------------------------------------------------------
  // Sub-tick counters
  // ---------------------------------------------------------------------------

  /** The two uint8_t counters of inputsTask and what one cycle runs. */
  datatype Ticks = Ticks(cnt: nat, sch: nat, slow: bool, scheduler: bool)

  /** One cycle: the slow tick every 10th, the scheduler every 60th slow tick. */
  function SubTick(cnt: nat, sch: nat): Ticks {
    if cnt + 1 >= 10 then
      if sch + 1 >= 60 then Ticks(0, 0, true, true) else Ticks(0, sch + 1, true, false)
    else Ticks(cnt + 1, sch, false, false)
  }

  /** The counters after `n` cycles from start, with the number of slow ticks
      and scheduler runs. */
  datatype Count = Count(cnt: nat, sch: nat, slow: nat, runs: nat)

  function Cycles(n: nat): Count {
    if n == 0 then Count(0, 0, 0, 0)
    else
      var c := Cycles(n - 1);
      var t := SubTick(c.cnt, c.sch);
      Count(t.cnt, t.sch, c.slow + (if t.slow then 1 else 0), c.runs + (if t.scheduler then 1 else 0))
  }

  /** Adding one to a counter modulo 10 (and modulo 60): it wraps and carries
      into the quotient. */
  lemma Step10(m: nat)
    ensures m % 10 == 9 ==> (m + 1) % 10 == 0 && (m + 1) / 10 == m / 10 + 1
    ensures m % 10 != 9 ==> (m + 1) % 10 == m % 10 + 1 && (m + 1) / 10 == m / 10
  {
  }

  lemma Step60(m: nat)
    ensures m % 60 == 59 ==> (m + 1) % 60 == 0 && (m + 1) / 60 == m / 60 + 1
    ensures m % 60 != 59 ==> (m + 1) % 60 == m % 60 + 1 && (m + 1) / 60 == m / 60
  {
  }

  lemma Div600(n: nat)
    ensures n / 600 == (n / 10) / 60
  {
  }

  /** After n cycles of 100 ms the slow tick has run n/10 times and the
      scheduler n/600 times. */
  lemma {:induction false} CyclesCount(n: nat)
    ensures Cycles(n) == Count(n % 10, (n / 10) % 60, n / 10, n / 600)
  {
    if n > 0 {
      var m := n - 1;
      CyclesCount(m);
      Step10(m);
      Step60(m / 10);
      Div600(m);
      Div600(n);
    }
  }

}
