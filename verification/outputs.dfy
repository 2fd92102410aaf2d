/** The output controller of main/core.c as functions on the output list:
    `setOutput` (core.c:532-590), `setAllOff` (core.c:600-631), the 1 s tick
    `outputsTimer` (core.c:916-974) and the 100 ms tick `outputsTimerShot`
    (core.c:976-1025). The class `Engine.Core` runs the same steps in place and
    is proved against these functions. */
module OutputControl {
  import opened Base
  import opened IOModel

  // ---------------------------------------------------------------------------
  // setOutput
  // ---------------------------------------------------------------------------

  /** The descriptor setOutput writes to: not a slave output, and with exactly
      this numeric id. */
  predicate Targets(o: Output, id: Byte) {
    !IsRemote(o) && o.id == Some(id as int)
  }

  /** The value setOutput stores: "toggle" becomes the opposite of the current
      state as getOutputState reads it. */
  function Resolve(outs: seq<Output>, id: Byte, value: string): (v: string)
    ensures value != "toggle" ==> v == value
    ensures value == "toggle" ==> (v == "off" <==> OutputState(outs, id) == "on")
    ensures value == "toggle" ==> (v == "on" <==> OutputState(outs, id) != "on")
  {
    if value != "toggle" then value
    else if OutputState(outs, id) == "on" then "off"
    else "on"
  }

  /** The numeric field of an output named by a string (a trigger output looks
      up the field named by its new state). Only the numeric keys of an output
      descriptor can answer. */
  function NamedNumber(o: Output, key: string): Option<int> {
    if key == "id" then o.id
    else if key == "slaveId" then o.slaveId
    else if key == "timer" then o.timer
    else if key == "limit" then o.limit
    else if key == "on" then o.onTime
    else if key == "off" then o.offTime
    else None
  }

  /** The countdown setOutput gives an output it switches to `v`: the limit,
      overridden for a trigger by the duration of the new state, and for a
      one-shot by 3 (0.3 s of fast ticks). */
  function HoldTime(o: Output, v: string): Word {
    var limit := if o.limit.Some? then U16(o.limit.value) else 0;
    var t := if o.kind == Some("t") && NamedNumber(o, v).Some? then U16(NamedNumber(o, v).value) else limit;
    if o.kind == Some("os") then 3 else t
  }

  /** The target after setOutput: the state is replaced (when there is one) and
      the timer is replaced or added. */
  function Applied(o: Output, v: string): Output {
    o.(state := if o.state.Some? then Some(v) else None, timer := Some(HoldTime(o, v)))
  }

  /** The output list after setOutput(id, v), with `v` already resolved. */
  function SetOutputList(outs: seq<Output>, id: Byte, v: string): (r: seq<Output>)
    ensures |r| == |outs|
  {
    match Find(outs, (o: Output) => Targets(o, id))
    case Some(k) => outs[k := Applied(outs[k], v)]
    case None => outs
  }

  /** The timer setOutput publishes: the target's new countdown, 0 when no
      output has the id. */
  function SetOutputTimer(outs: seq<Output>, id: Byte, v: string): Word {
    match Find(outs, (o: Output) => Targets(o, id))
    case Some(k) => HoldTime(outs[k], v)
    case None => 0
  }

  /** publishOutput(0, id, v, timer): its timer parameter is a uint8_t. */
  function SetOutputEffect(outs: seq<Output>, id: Byte, v: string): Effect {
    OutputPublished(0, id, v, U8(SetOutputTimer(outs, id, v)))
  }

  /** The first target takes the new state (when it has a state field) and its
      countdown; every other descriptor is unchanged, and getOutputState then
      reads the new value. */
  lemma SetOutputWrites(outs: seq<Output>, id: Byte, v: string, k: nat)
    requires k < |outs| && Targets(outs[k], id)
    requires forall j :: 0 <= j < k ==> !Targets(outs[j], id)
    ensures SetOutputList(outs, id, v)[k].timer == Some(HoldTime(outs[k], v))
    ensures outs[k].state.Some? ==> SetOutputList(outs, id, v)[k].state == Some(v)
    ensures forall j :: 0 <= j < |outs| && j != k ==> SetOutputList(outs, id, v)[j] == outs[j]
    ensures outs[k].state.Some? ==> OutputState(SetOutputList(outs, id, v), id) == v
    ensures SetOutputEffect(outs, id, v) == OutputPublished(0, id, v, U8(HoldTime(outs[k], v)))
  {
    var r := SetOutputList(outs, id, v);
    assert r == outs[k := Applied(outs[k], v)];
    if outs[k].state.Some? {
      assert LocalWithState(r[k], id);
      forall j | 0 <= j < k
        ensures !LocalWithState(r[j], id)
      {
        assert !Targets(outs[j], id);
      }
    }
  }

  /** An id no local output has changes nothing, and is still published, with
      timer 0. */
  lemma SetOutputUnknownId(outs: seq<Output>, id: Byte, v: string)
    requires forall j :: 0 <= j < |outs| ==> !Targets(outs[j], id)
    ensures SetOutputList(outs, id, v) == outs
    ensures SetOutputEffect(outs, id, v) == OutputPublished(0, id, v, 0)
  {
  }

  /** Toggling twice restores an on/off output. */
  lemma ToggleTwice(outs: seq<Output>, id: Byte, k: nat)
    requires k < |outs| && Targets(outs[k], id) && outs[k].state.Some?
    requires forall j :: 0 <= j < k ==> !Targets(outs[j], id)
    requires OutputState(outs, id) == "on" || OutputState(outs, id) == "off"
    ensures var once := SetOutputList(outs, id, Resolve(outs, id, "toggle"));
            OutputState(once, id) != OutputState(outs, id) &&
            OutputState(SetOutputList(once, id, Resolve(once, id, "toggle")), id) == OutputState(outs, id)
  {
    var v1 := Resolve(outs, id, "toggle");
    SetOutputWrites(outs, id, v1, k);
    var once := SetOutputList(outs, id, v1);
    assert Targets(once[k], id) && once[k].state.Some?;
    forall j | 0 <= j < k
      ensures !Targets(once[j], id)
    {
      assert once[j] == outs[j];
    }
    SetOutputWrites(once, id, Resolve(once, id, "toggle"), k);
  }

  /** Setting the same value twice is the same as setting it once (a trigger
      whose new state is literally "timer" reads its own countdown, and
      "toggle" flips, so both are excluded). */
  lemma SetOutputIdempotent(outs: seq<Output>, id: Byte, v: string)
    requires v != "timer"
    ensures SetOutputList(SetOutputList(outs, id, v), id, v) == SetOutputList(outs, id, v)
  {
    var p := (o: Output) => Targets(o, id);
    match Find(outs, p)
    case None =>
    case Some(k) =>
      var once := SetOutputList(outs, id, v);
      assert once == outs[k := Applied(outs[k], v)];
      assert p(once[k]);
      forall j | 0 <= j < k
        ensures !p(once[j])
      {
        assert once[j] == outs[j];
      }
      assert Find(once, p) == Some(k);
      assert NamedNumber(Applied(outs[k], v), v) == NamedNumber(outs[k], v);
      assert Applied(once[k], v) == Applied(outs[k], v);
  }

  // ---------------------------------------------------------------------------
  // setAllOff
  // ---------------------------------------------------------------------------

  /** The slave id setAllOff acts on: for an output with a numeric "slaveId" it
      is read from the output's "timer" field (core.c:612-613), else 0. */
  function AllOffSlave(o: Output): Byte {
    if o.slaveId.Some? then ByteOr0(o.timer) else 0
  }

  /** A descriptor after setAllOff: slave outputs are left to the remote
      command, every other one is switched off with timer 0. */
  function AllOffOutput(o: Output): Output {
    if AllOffSlave(o) > 0 then o
    else o.(state := if o.state.Some? then Some("off") else None, timer := Some(0))
  }

  function AllOffList(outs: seq<Output>): (r: seq<Output>)
    ensures |r| == |outs|
    ensures forall k :: 0 <= k < |outs| ==> r[k] == AllOffOutput(outs[k])
  {
    seq(|outs|, k requires 0 <= k < |outs| => AllOffOutput(outs[k]))
  }

  /** The remote commands setAllOff sends, in list order. */
  function AllOffEffects(outs: seq<Output>): (r: seq<Effect>)
    ensures |r| <= |outs|
    ensures forall e :: e in r ==> e.RemoteOutputSet? && e.action == "off" && e.slave > 0
  {
    if |outs| == 0 then []
    else
      var last := outs[|outs| - 1];
      AllOffEffects(outs[..|outs| - 1]) +
      (if AllOffSlave(last) > 0 then [RemoteOutputSet(AllOffSlave(last), ByteOr0(last.id), "off")] else [])
  }

  /** The commands grow one output at a time, as setAllOff's loop sends them. */
  lemma AllOffEffectsStep(outs: seq<Output>, k: nat)
    requires k < |outs|
    ensures AllOffEffects(outs[..k + 1]) == AllOffEffects(outs[..k]) +
            (if AllOffSlave(outs[k]) > 0 then [RemoteOutputSet(AllOffSlave(outs[k]), ByteOr0(outs[k].id), "off")] else [])
  {
    assert outs[..k + 1][..k] == outs[..k];
  }

  /** When no local output carries a numeric slave id with a nonzero timer,
      setAllOff leaves every output reading "off". */
  lemma AllOffReadsOff(outs: seq<Output>, id: Byte)
    requires forall k :: 0 <= k < |outs| && !IsRemote(outs[k]) ==> AllOffSlave(outs[k]) == 0
    ensures OutputState(AllOffList(outs), id) == "off"
  {
    var r := AllOffList(outs);
    match Find(r, (o: Output) => LocalWithState(o, id))
    case None =>
    case Some(k) =>
      assert r[k] == AllOffOutput(outs[k]);
      assert !IsRemote(outs[k]);
  }

  /** setAllOff is idempotent on the list. */
  lemma AllOffIdempotent(outs: seq<Output>)
    ensures AllOffList(AllOffList(outs)) == AllOffList(outs)
  {
    var r := AllOffList(outs);
    forall k | 0 <= k < |outs|
      ensures AllOffOutput(r[k]) == r[k]
    {
      if AllOffSlave(outs[k]) == 0 {
        assert ByteOr0(Some(0)) == 0;
      }
    }
  }

  /** The timer field decides: a local output (slave id 0) with 5 left on its
      countdown is sent to slave 5 as a remote command and stays on, while a
      slave output (slave id 3) whose countdown is 0 is switched off locally
      and no command is sent. */
  lemma AllOffUsesTimerAsSlave()
    ensures var local := Output(Some(2), Some(0), None, Some("s"), Some("on"), Some(5), None, None, None);
            AllOffList([local]) == [local] &&
            AllOffEffects([local]) == [RemoteOutputSet(5, 2, "off")]
    ensures var remote := Output(Some(1), Some(3), None, None, Some("on"), Some(0), None, None, None);
            AllOffList([remote])[0].state == Some("off") &&
            AllOffEffects([remote]) == []
  {
    var local := Output(Some(2), Some(0), None, Some("s"), Some("on"), Some(5), None, None, None);
    assert [local][..0] == [];
    var remote := Output(Some(1), Some(3), None, None, Some("on"), Some(0), None, None, None);
    assert [remote][..0] == [];
  }

  // ---------------------------------------------------------------------------
  // The two timer ticks
  // ---------------------------------------------------------------------------

  /** One tick of a trigger ("t", 1 s tick) or shooter ("shooter", 100 ms tick)
      that has a numeric timer: count down, and at 0 flip the state and reload
      the countdown from the duration of the new state. */
  function Alternate(o: Output): Output
    requires o.timer.Some?
  {
    var t := U16(o.timer.value);
    var left := if t > 0 then t - 1 else 0;
    if left > 0 then o.(timer := Some(left))
    else if o.state == Some("on") then o.(state := Some("off"), timer := Some(U16(o.offTime.GetOr(0))))
    else o.(state := if o.state.Some? then Some("on") else None, timer := Some(U16(o.onTime.GetOr(0))))
  }

  /** An output that counts down on the 1 s tick outside the trigger branch: it
      is "on" with a nonzero numeric timer. Every type except "t" qualifies,
      one-shots and shooters included (core.c:949). */
  predicate CountingDown(o: Output) {
    o.kind != Some("t") && o.state == Some("on") && o.timer.Some? && U16(o.timer.value) != 0
  }

  /** A descriptor after one outputsTimer tick. */
  function SlowTick(o: Output): Output {
    if o.kind == Some("t") then
      if o.timer.Some? then Alternate(o) else o.(timer := Some(1))
    else if CountingDown(o) then
      var left := U16(o.timer.value) - 1;
      o.(timer := Some(left), state := if left == 0 then Some("off") else o.state)
    else o
  }

  /** What one outputsTimer tick publishes for a descriptor. A trigger without
      a state is published with an empty state (the source dereferences NULL). */
  function SlowTickEffect(o: Output): seq<Effect> {
    var n := SlowTick(o);
    if (o.kind == Some("t") && o.timer.Some?) || CountingDown(o) then
      [OutputPublished(0, ByteOr0(o.id), n.state.GetOr(""), U8(n.timer.value))]
    else []
  }

  /** A descriptor after one outputsTimerShot tick. */
  function FastTick(o: Output): Output {
    if o.kind == Some("shooter") then
      if o.timer.Some? then Alternate(o) else o.(timer := Some(1))
    else if o.kind == Some("os") then
      if o.timer.Some? then
        var t := U16(o.timer.value);
        var left := if t > 0 then t - 1 else 0;
        o.(timer := Some(left), state := if left == 0 && o.state.Some? then Some("off") else o.state)
      else o.(timer := Some(1))
    else o
  }

  function SlowTickList(outs: seq<Output>): (r: seq<Output>)
    ensures |r| == |outs|
    ensures forall k :: 0 <= k < |outs| ==> r[k] == SlowTick(outs[k])
  {
    seq(|outs|, k requires 0 <= k < |outs| => SlowTick(outs[k]))
  }

  /** Everything one outputsTimer tick publishes, in list order. */
  function SlowTickEffects(outs: seq<Output>): (r: seq<Effect>)
    ensures |r| <= |outs|
  {
    if |outs| == 0 then [] else SlowTickEffects(outs[..|outs| - 1]) + SlowTickEffect(outs[|outs| - 1])
  }

  function FastTickList(outs: seq<Output>): (r: seq<Output>)
    ensures |r| == |outs|
    ensures forall k :: 0 <= k < |outs| ==> r[k] == FastTick(outs[k])
  {
    seq(|outs|, k requires 0 <= k < |outs| => FastTick(outs[k]))
  }

  /** `n` consecutive ticks of one descriptor. */
  function SlowTicks(o: Output, n: nat): Output
    decreases n
  {
    if n == 0 then o else SlowTicks(SlowTick(o), n - 1)
  }

  function FastTicks(o: Output, n: nat): Output
    decreases n
  {
    if n == 0 then o else FastTicks(FastTick(o), n - 1)
  }

  lemma {:induction false} SlowTicksAdd(o: Output, a: nat, b: nat)
    ensures SlowTicks(o, a + b) == SlowTicks(SlowTicks(o, a), b)
    decreases a
  {
    if a > 0 {
      SlowTicksAdd(SlowTick(o), a - 1, b);
    }
  }

  lemma {:induction false} FastTicksAdd(o: Output, a: nat, b: nat)
    ensures FastTicks(o, a + b) == FastTicks(FastTicks(o, a), b)
    decreases a
  {
    if a > 0 {
      FastTicksAdd(FastTick(o), a - 1, b);
    }
  }

  /** An output that is off, or has no countdown left, is untouched by the
      1 s tick unless it is a trigger. */
  lemma IdleOutputUntouched(o: Output)
    requires o.kind != Some("t")
    requires o.state != Some("on") || o.timer.None? || U16(o.timer.value) == 0
    ensures SlowTick(o) == o && SlowTickEffect(o) == []
  {
  }

  /** A non-trigger output that is on with `t` seconds left stays on for t-1
      ticks and is off, with timer 0, after exactly t. */
  lemma {:induction false} CountdownRunsOut(o: Output, t: nat, n: nat)
    requires o.kind != Some("t") && o.state == Some("on") && o.timer == Some(t)
    requires 0 < t < 65536 && n <= t
    ensures n < t ==> SlowTicks(o, n) == o.(timer := Some(t - n))
    ensures n == t ==> SlowTicks(o, n) == o.(timer := Some(0), state := Some("off"))
    decreases n
  {
    if n > 0 {
      var o1 := SlowTick(o);
      assert CountingDown(o);
      if t == 1 {
        assert o1 == o.(timer := Some(0), state := Some("off"));
      } else {
        assert o1 == o.(timer := Some(t - 1));
        CountdownRunsOut(o1, t - 1, n - 1);
        assert o1.(timer := Some(t - 1 - (n - 1))) == o.(timer := Some(t - n));
      }
    }
  }

  /** A countdown that alternates (trigger on the slow tick, shooter on the
      fast one): with `t` left, t-1 ticks only count down and tick t flips the
      state and reloads from the new state's duration. */
  lemma {:induction false} AlternateRunsOut(o: Output, t: nat, n: nat)
    requires o.timer == Some(t) && 0 < t < 65536 && n <= t
    ensures n < t ==> Repeat(o, n) == o.(timer := Some(t - n))
    ensures n == t ==> Repeat(o, n) == Alternate(o.(timer := Some(1)))
    decreases n
  {
    if n > 0 {
      if t == 1 {
        assert Repeat(o, 1) == Alternate(o);
      } else {
        var o1 := Alternate(o);
        assert o1 == o.(timer := Some(t - 1));
        AlternateRunsOut(o1, t - 1, n - 1);
        assert o1.(timer := Some(1)) == o.(timer := Some(1));
      }
    }
  }

  /** `n` alternation steps. */
  function Repeat(o: Output, n: nat): Output
    requires o.timer.Some?
    decreases n
  {
    if n == 0 then o else Repeat(Alternate(o), n - 1)
  }

  /** On a trigger, the 1 s tick is alternation. */
  lemma {:induction false} TriggerTicks(o: Output, n: nat)
    requires o.kind == Some("t") && o.timer.Some?
    ensures SlowTicks(o, n) == Repeat(o, n)
    decreases n
  {
    if n > 0 {
      TriggerTicks(Alternate(o), n - 1);
    }
  }

  /** On a shooter, the 100 ms tick is alternation. */
  lemma {:induction false} ShooterTicks(o: Output, n: nat)
    requires o.kind == Some("shooter") && o.timer.Some?
    ensures FastTicks(o, n) == Repeat(o, n)
    decreases n
  {
    if n > 0 {
      ShooterTicks(Alternate(o), n - 1);
    }
  }

  /** A trigger with on-duration `a` and off-duration `b` (both nonzero), just
      switched on, stays on `a` ticks, is off the next `b`, and is back where it
      started after a + b ticks. */
  lemma TriggerPeriod(o: Output, a: nat, b: nat)
    requires o.kind == Some("t") && o.state == Some("on")
    requires o.onTime == Some(a) && o.offTime == Some(b) && 0 < a < 65536 && 0 < b < 65536
    requires o.timer == Some(a)
    ensures forall n :: 0 <= n < a ==> SlowTicks(o, n).state == Some("on")
    ensures SlowTicks(o, a) == o.(state := Some("off"), timer := Some(b))
    ensures SlowTicks(o, a + b) == o
  {
    forall n | 0 <= n < a
      ensures SlowTicks(o, n).state == Some("on")
    {
      TriggerTicks(o, n);
      AlternateRunsOut(o, a, n);
    }
    TriggerTicks(o, a);
    AlternateRunsOut(o, a, a);
    var off := o.(state := Some("off"), timer := Some(b));
    assert SlowTicks(o, a) == off;
    TriggerTicks(off, b);
    AlternateRunsOut(off, b, b);
    SlowTicksAdd(o, a, b);
  }

  /** The same alternation on the fast tick for a shooter. */
  lemma ShooterPeriod(o: Output, a: nat, b: nat)
    requires o.kind == Some("shooter") && o.state == Some("on")
    requires o.onTime == Some(a) && o.offTime == Some(b) && 0 < a < 65536 && 0 < b < 65536
    requires o.timer == Some(a)
    ensures FastTicks(o, a) == o.(state := Some("off"), timer := Some(b))
    ensures FastTicks(o, a + b) == o
  {
    ShooterTicks(o, a);
    AlternateRunsOut(o, a, a);
    var off := o.(state := Some("off"), timer := Some(b));
    ShooterTicks(off, b);
    AlternateRunsOut(off, b, b);
    FastTicksAdd(o, a, b);
  }

  /** A one-shot with `t` left keeps its state for t-1 fast ticks and is off,
      with timer 0, after exactly t; it then stays so. */
  lemma {:induction false} OneShotRunsOut(o: Output, t: nat, n: nat)
    requires o.kind == Some("os") && o.state.Some? && o.timer == Some(t)
    requires 0 < t < 65536
    ensures n < t ==> FastTicks(o, n) == o.(timer := Some(t - n))
    ensures n >= t ==> FastTicks(o, n) == o.(timer := Some(0), state := Some("off"))
    decreases n
  {
    if n > 0 {
      var o1 := FastTick(o);
      if t == 1 {
        assert o1 == o.(timer := Some(0), state := Some("off"));
        OneShotStaysOff(o1, n - 1);
      } else {
        assert o1 == o.(timer := Some(t - 1));
        OneShotRunsOut(o1, t - 1, n - 1);
        assert o1.(timer := Some(t - 1 - (n - 1))) == o.(timer := Some(t - n));
      }
    }
  }

  lemma {:induction false} OneShotStaysOff(o: Output, n: nat)
    requires o.kind == Some("os") && o.state == Some("off") && o.timer == Some(0)
    ensures FastTicks(o, n) == o
    decreases n
  {
    if n > 0 {
      assert FastTick(o) == o;
      OneShotStaysOff(o, n - 1);
    }
  }

  /** A one-shot switched on by setOutput is off after exactly 3 fast ticks
      and not before. */
  lemma OneShotPulse(o: Output)
    requires o.kind == Some("os") && o.state.Some?
    ensures var on := Applied(o, "on");
            FastTicks(on, 1).state == Some("on") && FastTicks(on, 2).state == Some("on") &&
            FastTicks(on, 3).state == Some("off")
  {
    var on := Applied(o, "on");
    assert on.timer == Some(3);
    OneShotRunsOut(on, 3, 1);
    OneShotRunsOut(on, 3, 2);
    OneShotRunsOut(on, 3, 3);
  }

  /** An ordinary output with a limit of `l` seconds, switched on, runs for
      exactly `l` slow ticks. */
  lemma LimitedOutputRunsOut(o: Output, l: nat)
    requires o.kind == Some("s") && o.state.Some? && o.limit == Some(l) && 0 < l < 65536
    ensures var on := Applied(o, "on");
            (forall n :: 0 <= n < l ==> SlowTicks(on, n).state == Some("on")) &&
            SlowTicks(on, l).state == Some("off")
  {
    var on := Applied(o, "on");
    assert on.timer == Some(l);
    forall n | 0 <= n < l
      ensures SlowTicks(on, n).state == Some("on")
    {
      CountdownRunsOut(on, l, n);
    }
    CountdownRunsOut(on, l, l);
  }

  /** The 1 s tick also counts down one-shots and shooters that are on, so a
      one-shot just switched on is one step nearer its end after a slow tick. */
  lemma SlowTickAgesOneShot(o: Output)
    requires o.kind == Some("os") && o.state.Some?
    ensures SlowTick(Applied(o, "on")) == Applied(o, "on").(timer := Some(2))
    ensures SlowTickEffect(Applied(o, "on")) == [OutputPublished(0, ByteOr0(o.id), "on", 2)]
  {
  }
}
