/**
  The bodies of the client's transactions, each inside one serialized call: a fresh reading, at most
  one attempt at each frame, a queried barrier on the same connection and a reading on a new one.
  Any step may fail; a revoked epoch or a closed client makes the next send fail.
 */
module ClientTransactions {
  import opened Colour
  import opened CompactWish
  import opened Lamp
  import opened Wrappers

  datatype Fault = Conflict | Unsupported | Protocol | Input(state: State) | Lost

  datatype Result<+T> = Ok(value: T) | Raised(fault: Fault)

  datatype Step = Read(state: State) | Sent(frame: Frame) | Barrier(mode: int)

  predicate Normal(mode: int) {
    mode == AUTOMATIC || mode == MANUAL
  }

  /** What `_prepare_write` accepts: the expected system state on the verified profile, with the
      expected output unless a program is running. */
  predicate Accepts(before: State, expected: Option<State>, power: bool) {
    && expected.Some?
    && before.mode == expected.value.mode && before.profile == expected.value.profile
    && (before.mode != AUTOMATIC ==> before.channels == expected.value.channels)
    && before.profile == VERIFIED
    && (Normal(before.mode) || (power && before.mode == SHUTDOWN))
  }

  predicate AfterReading(trace: seq<Step>, i: nat)
    requires i <= |trace|
  {
    0 < i && trace[i - 1].Read? && trace[i - 1].state.profile == VERIFIED
  }

  /** Every frame follows a reading of the verified profile directly (a mode also directly after its
      vector), and a vector only a reading that was not Shutdown. */
  ghost predicate Guarded(trace: seq<Step>) {
    forall i | 0 <= i < |trace| && trace[i].Sent? :: GuardedAt(trace, i, trace[i].frame)
  }

  predicate GuardedAt(trace: seq<Step>, i: nat, frame: Frame)
    requires i <= |trace|
  {
    match frame
    case ChannelFrame(_) => AfterReading(trace, i) && Normal(trace[i - 1].state.mode)
    case ModeFrame(mode) =>
      || AfterReading(trace, i)
      || (mode == MANUAL && i > 0 && trace[i - 1].Sent? && trace[i - 1].frame.ChannelFrame?)
  }

  /** What an honest lamp makes of several frames. */
  function Driven(lamp: State, frames: seq<Frame>): State {
    if frames == [] then lamp else Applied(Driven(lamp, frames[..|frames| - 1]), frames[|frames| - 1])
  }

  lemma DrivenVector(lamp: State, values: Channels)
    ensures Driven(lamp, VectorFrames(values)) == State(MANUAL, lamp.profile, values)
  {
    var frames := VectorFrames(values);
    assert frames[..1] == [ChannelFrame(values)] && frames[..1][..0] == [];
    assert Driven(lamp, frames[..1]) == Applied(lamp, ChannelFrame(values));
  }

  /** One whole command: the fresh reading, its frames, the barrier and the reading behind it. */
  function Script(before: State, frames: seq<Frame>, mode: int, after: State): seq<Step> {
    [Read(before)] + Command(frames, mode, after)
  }

  function Command(frames: seq<Frame>, mode: int, after: State): seq<Step> {
    SentSteps(frames) + [Barrier(mode), Read(after)]
  }

  function SentSteps(frames: seq<Frame>): seq<Step> {
    seq(|frames|, i requires 0 <= i < |frames| => Sent(frames[i]))
  }

  function VectorFrames(values: Channels): seq<Frame> {
    [ChannelFrame(values), ModeFrame(MANUAL)]
  }

  /** Wake from Shutdown into Manual, read, guard by a second fresh reading, then write a vector. */
  function WakeCommand(awake: State, guarded: State, values: Channels, after: State): seq<Step> {
    Command([ModeFrame(MANUAL)], MANUAL, awake) + Script(guarded, VectorFrames(values), MANUAL, after)
  }

  /** From Off into the program, or back to a remembered vector. */
  function ResumePlan(manual: Option<Channels>, awake: State, guarded: State, after: State): seq<Step> {
    if manual.None? then Command([ModeFrame(AUTOMATIC)], AUTOMATIC, after)
    else WakeCommand(awake, guarded, manual.value, after)
  }

  /** What an honest lamp in Off must show for `turn_on` to succeed. */
  predicate Resumable(shown: Channels, manual: Option<Channels>) {
    manual.None? || shown == manual.value || shown == ZERO
  }

  datatype Request =
    | Channel(index: int, value: int, expected: Option<State>)
    | Mode(mode: int, expected: Option<State>)
    | Off(expected: Option<State>)
    | On(manual: Option<Channels>, expected: Option<State>)
    | Compact(rgb: Option<Rgb>, level: Option<int>, roles: Roles, manual: Option<Channels>, expected: Option<State>)

  lemma PrefixGuarded(trace: seq<Step>, less: seq<Step>, more: seq<Step>)
    requires less <= more && Guarded(trace + more)
    ensures Guarded(trace + less)
  {
    var a, b := trace + less, trace + more;
    forall i | 0 <= i < |a| && a[i].Sent?
      ensures GuardedAt(a, i, a[i].frame)
    {
      assert a[i] == b[i] && GuardedAt(b, i, b[i].frame);
      assert i > 0 ==> a[i - 1] == b[i - 1];
    }
  }

  lemma SafeStep(trace: seq<Step>, step: Step)
    requires Guarded(trace) && (step.Sent? ==> GuardedAt(trace, |trace|, step.frame))
    ensures Guarded(trace + [step])
  {
    var t := trace + [step];
    forall i | 0 <= i < |t| && t[i].Sent?
      ensures GuardedAt(t, i, t[i].frame)
    {
      assert i < |trace| ==> t[i] == trace[i] && GuardedAt(trace, i, trace[i].frame);
      assert i > 0 ==> t[i - 1] == trace[i - 1];
    }
  }

  lemma VectorScriptGuarded(trace: seq<Step>, done: seq<Step>, before: State, values: Channels, after: State)
    requires Guarded(trace) && done <= Script(before, VectorFrames(values), MANUAL, after)
    requires |done| > 1 ==> before.profile == VERIFIED && Normal(before.mode)
    ensures Guarded(trace + done)
  {
    var a := trace + [Read(before)];
    SafeStep(trace, Read(before));
    if |done| <= 1 {
      PrefixGuarded(trace, done, [Read(before)]);
    } else {
      var b, c, d := a + [Sent(ChannelFrame(values))], a + [Sent(ChannelFrame(values)), Sent(ModeFrame(MANUAL))],
                     a + [Sent(ChannelFrame(values)), Sent(ModeFrame(MANUAL)), Barrier(MANUAL)];
      SafeStep(a, Sent(ChannelFrame(values)));
      SafeStep(b, Sent(ModeFrame(MANUAL)));
      assert b + [Sent(ModeFrame(MANUAL))] == c && c + [Barrier(MANUAL)] == d;
      SafeStep(c, Barrier(MANUAL));
      SafeStep(d, Read(after));
      assert d + [Read(after)] == trace + Script(before, VectorFrames(values), MANUAL, after);
      PrefixGuarded(trace, done, Script(before, VectorFrames(values), MANUAL, after));
    }
  }

  lemma ModeScriptGuarded(trace: seq<Step>, done: seq<Step>, before: State, mode: int, after: State)
    requires Guarded(trace) && done <= Script(before, [ModeFrame(mode)], mode, after)
    requires |done| > 1 ==> before.profile == VERIFIED
    ensures Guarded(trace + done)
  {
    var a := trace + [Read(before)];
    SafeStep(trace, Read(before));
    if |done| <= 1 {
      PrefixGuarded(trace, done, [Read(before)]);
    } else {
      var b, c := a + [Sent(ModeFrame(mode))], a + [Sent(ModeFrame(mode)), Barrier(mode)];
      SafeStep(a, Sent(ModeFrame(mode)));
      SafeStep(b, Barrier(mode));
      assert b + [Barrier(mode)] == c;
      SafeStep(c, Read(after));
      assert c + [Read(after)] == trace + Script(before, [ModeFrame(mode)], mode, after);
      PrefixGuarded(trace, done, Script(before, [ModeFrame(mode)], mode, after));
    }
  }

  lemma WakeGuarded(trace: seq<Step>, done: seq<Step>, before: State, awake: State, guarded: State, values: Channels,
                    after: State)
    requires Guarded(trace) && done <= [Read(before)] + WakeCommand(awake, guarded, values, after)
    requires |done| > 1 ==> before.profile == VERIFIED
    requires |done| > 5 ==> guarded.profile == VERIFIED && Normal(guarded.mode)
    ensures Guarded(trace + done)
  {
    var first := Script(before, [ModeFrame(MANUAL)], MANUAL, awake);
    assert [Read(before)] + WakeCommand(awake, guarded, values, after) ==
      first + Script(guarded, VectorFrames(values), MANUAL, after);
    if |done| <= 4 {
      ModeScriptGuarded(trace, done, before, MANUAL, awake);
    } else {
      ModeScriptGuarded(trace, first, before, MANUAL, awake);
      VectorScriptGuarded(trace + first, done[4..], guarded, values, after);
      assert trace + first + done[4..] == trace + done;
    }
  }

  lemma ComposedGuarded(trace: seq<Step>, done: seq<Step>, r: Result<State>, before: State, awake: State,
                        guarded: State, after: State,
                        previous: Option<State>, waking: bool, desired: Option<Channels>)
    requires Guarded(trace) && Composed(done, r, before, awake, guarded, after, previous, waking, desired)
    ensures Guarded(trace + done)
  {
    if |done| <= 1 {
      SafeStep(trace, Read(before));
      PrefixGuarded(trace, done, [Read(before)]);
    } else if waking {
      WakeGuarded(trace, done, before, awake, guarded, desired.value, after);
    } else {
      VectorScriptGuarded(trace, done, before, desired.value, after);
    }
  }

  /** How far a colour request may get: nothing but its reading without a wanted vector; otherwise
      a prefix of one command, from Off behind a wake that left the output as it was. */
  predicate Composed(done: seq<Step>, r: Result<State>, before: State, awake: State, guarded: State, after: State,
                     previous: Option<State>, waking: bool, desired: Option<Channels>) {
    && (|done| <= 1 ==> done <= [Read(before)])
    && (r.Raised? && r.fault.Input? ==> done == [Read(before)] && r.fault.state == before && desired.None?)
    && (|done| > 1 ==>
          && Accepts(before, previous, waking) && desired.Some?
          && done <= [Read(before)] + (if waking then WakeCommand(awake, guarded, desired.value, after)
                                       else Command(VectorFrames(desired.value), MANUAL, after)))
    && (waking && |done| > 4 ==> awake.mode == MANUAL && awake.channels == before.channels)
    && (waking && |done| > 5 ==> Accepts(guarded, Some(awake), false))
    && (r.Ok? ==>
         |done| > 1 && done[|done| - 1] == Read(r.value) && r.value.mode == MANUAL && r.value.channels == desired.value)
  }

  lemma Continued(start: seq<Step>, trace: seq<Step>, first: seq<Step>, more: seq<Step>, done: seq<Step>)
    requires trace == start + first + more && done == first + more
    ensures trace == start + done && (more != [] ==> done[|done| - 1] == more[|more| - 1])
  {
  }

  /** How an honest lamp and wire answer a colour request: it shows the wanted vector, or nothing is wanted. */
  predicate Served(r: Result<State>, before: State, lamp: State, desired: Option<Channels>) {
    if desired.Some? then r == Ok(lamp) && lamp == State(MANUAL, before.profile, desired.value)
    else r == Raised(Input(before)) && lamp == before
  }

  class Wire {
    var lastState: Option<State>
    ghost var trace: seq<Step>
    /** What the lamp shows as long as it is honest, and every fault that it, the network or a revocation
        committed. After a fault it may show anything. */
    ghost var lamp: State
    ghost var troubles: seq<Fault>

    constructor (lastState: Option<State>, ghost lamp: State)
      ensures this.lastState == lastState && trace == [] && this.lamp == lamp && troubles == []
    {
      this.lastState, trace, this.lamp, troubles := lastState, [], lamp, [];
    }

    ghost method Trouble(fault: Fault)
      modifies this`lamp, this`troubles
      ensures troubles == old(troubles) + [fault]
    {
      troubles := troubles + [fault];
      lamp := *;
    }

    method Send(frame: Frame) returns (ok: bool)
      modifies this`trace, this`lamp, this`troubles
      ensures ok ==> trace == old(trace) + [Sent(frame)]
      ensures trace == old(trace) || trace == old(trace) + [Sent(frame)]
      ensures old(troubles) <= troubles
      ensures troubles == old(troubles) ==> ok && lamp == Applied(old(lamp), frame)
    {
      var writable: bool := *;
      if !writable {
        Trouble(Lost);
        return false;
      }
      trace := trace + [Sent(frame)];
      lamp := Applied(lamp, frame);
      ok := *;
      if !ok { Trouble(Lost); }
    }

    method ReadState() returns (r: Result<State>)
      modifies this`trace, this`lamp, this`troubles
      ensures r.Ok? ==> trace == old(trace) + [Read(r.value)] && ValidChannels(r.value.channels)
      ensures r.Raised? ==> trace == old(trace) && !r.fault.Input?
      ensures old(troubles) <= troubles
      ensures troubles == old(troubles) ==>
                lamp == old(lamp) && (r.Ok? ==> r.value == lamp) && (ValidChannels(lamp.channels) ==> r.Ok?)
    {
      var state: State := *;
      var outcome: int := *;
      if outcome == 0 {
        Trouble(Lost);
        return Raised(Lost);
      }
      if outcome == 1 {
        Trouble(Protocol);
        return Raised(Protocol);
      }
      if state != lamp { Trouble(Protocol); }
      if !ValidChannels(state.channels) { return Raised(Protocol); }
      trace := trace + [Read(state)];
      return Ok(state);
    }

    /** `_prepare_write`. */
    method PrepareWrite(expected: Option<State>, power: bool) returns (r: Result<State>, ghost seen: State)
      modifies this`trace, this`lamp, this`troubles
      ensures trace == old(trace) || trace == old(trace) + [Read(seen)]
      ensures r.Ok? ==>
                && r.value == seen && trace == old(trace) + [Read(seen)] && ValidChannels(seen.channels)
                && Accepts(r.value, if expected.Some? then expected else lastState, power)
      ensures trace == old(trace) + [Read(seen)] ==>
                (r.Ok? <==> Accepts(seen, if expected.Some? then expected else lastState, power))
      ensures r.Raised? ==> !r.fault.Input?
      ensures old(troubles) <= troubles
      ensures troubles == old(troubles) ==>
                && lamp == old(lamp) && (r.Ok? ==> seen == lamp)
                && (ValidChannels(lamp.channels) ==> trace == old(trace) + [Read(lamp)] && seen == lamp)
    {
      var previous := if expected.Some? then expected else lastState;
      seen := *;
      r := ReadState();
      if r.Raised? { return; }
      var before := r.value;
      seen := before;
      if previous.None? || before.mode != previous.value.mode || before.profile != previous.value.profile {
        return Raised(Conflict), seen;
      }
      if before.mode != AUTOMATIC && before.channels != previous.value.channels { return Raised(Conflict), seen; }
      if before.profile != VERIFIED || !(Normal(before.mode) || (power && before.mode == SHUTDOWN)) {
        return Raised(Unsupported), seen;
      }
    }

    /** The frames of one command in order, each attempted once; then `_readback` and the profile check. */
    method Apply(before: State, frames: seq<Frame>, mode: int)
      returns (r: Result<State>, ghost done: seq<Step>, ghost after: State)
      requires frames != []
      modifies this`trace, this`lamp, this`troubles
      ensures trace == old(trace) + done && done <= Command(frames, mode, after)
      ensures r.Ok? ==>
                && r.value == after && done == Command(frames, mode, after)
                && after.profile == before.profile && ValidChannels(after.channels)
      ensures r.Raised? ==> !r.fault.Input?
      ensures old(troubles) <= troubles
      ensures troubles == old(troubles) ==> lamp == Driven(old(lamp), frames) && (r.Ok? ==> r.value == lamp)
      ensures (&& troubles == old(troubles) && lamp.mode == mode && lamp.profile == before.profile
               && ValidChannels(lamp.channels)) ==> r.Ok?
    {
      done := [];
      after := *;
      var i := 0;
      while i < |frames|
        invariant 0 <= i <= |frames|
        invariant done == SentSteps(frames[..i]) && trace == old(trace) + done
        invariant old(troubles) <= troubles
        invariant troubles == old(troubles) ==> lamp == Driven(old(lamp), frames[..i])
      {
        assert SentSteps(frames[..i + 1]) == SentSteps(frames[..i]) + [Sent(frames[i])];
        assert frames[..i + 1][..i] == frames[..i];
        var ok := Send(frames[i]);
        done := trace[|old(trace)|..];
        var drained: bool := *;
        if !drained { Trouble(Lost); }
        if !ok || !drained {
          assert done <= SentSteps(frames);
          return Raised(Lost), done, after;
        }
        i := i + 1;
      }
      assert frames[..i] == frames;
      var seen: State := *;
      var outcome: int := *;
      if outcome == 0 {
        Trouble(Lost);
        return Raised(Lost), done, after;
      }
      if outcome == 1 {
        Trouble(Protocol);
        return Raised(Protocol), done, after;
      }
      if seen != lamp { Trouble(Protocol); }
      if seen.profile != before.profile || seen.mode != mode { return Raised(Conflict), done, after; }
      trace := trace + [Barrier(mode)];
      done := done + [Barrier(mode)];
      r := ReadState();
      if r.Raised? { return; }
      after := r.value;
      done := done + [Read(after)];
      if r.value.profile != before.profile { r := Raised(Conflict); }
    }

    /** `set_channel`: the five other channels come from the fresh reading, never from an older one. */
    method SetChannel(index: int, value: int, expected: Option<State>)
      returns (r: Result<State>, ghost done: seq<Step>, ghost before: State, ghost after: State)
      modifies this`trace, this`lamp, this`troubles
      ensures trace == old(trace) + done
      ensures !(0 <= index < 6 && 0 <= value <= 100) ==> r == Raised(Protocol) && done == []
      ensures 0 <= index < 6 ==> done <= Script(before, VectorFrames(before.channels[index := value]), MANUAL, after)
      ensures |done| > 1 ==> Accepts(before, if expected.Some? then expected else lastState, false)
      ensures r.Ok? ==>
                && 0 <= index < 6
                   && done == Script(before, VectorFrames(before.channels[index := value]), MANUAL, after)
                      && r.value == after
                && after.mode == MANUAL && after.profile == before.profile
                   && after.channels == before.channels[index := value]
      ensures old(troubles) <= troubles
      ensures (&& troubles == old(troubles) && 0 <= index < 6 && 0 <= value <= 100 && ValidChannels(old(lamp).channels)
               && Accepts(old(lamp), if expected.Some? then expected else lastState, false)) ==>
                r == Ok(lamp) && before == old(lamp)
                && lamp == State(MANUAL, old(lamp).profile, old(lamp).channels[index := value])
    {
      done, before, after := [], *, *;
      if !(0 <= index < 6 && 0 <= value <= 100) { return Raised(Protocol), done, before, after; }
      ghost var start := trace;
      r, before := PrepareWrite(expected, false);
      done := trace[|start|..];
      if r.Raised? { return; }
      var desired := r.value.channels[index := value];
      ghost var more: seq<Step>;
      DrivenVector(lamp, desired);
      r, more, after := Apply(r.value, VectorFrames(desired), MANUAL);
      done := done + more;
      if r.Ok? && (r.value.mode != MANUAL || r.value.channels != desired) { r := Raised(Conflict); }
    }

    /** `set_mode`. */
    method SetMode(mode: int, expected: Option<State>)
      returns (r: Result<State>, ghost done: seq<Step>, ghost before: State, ghost after: State)
      modifies this`trace, this`lamp, this`troubles
      ensures trace == old(trace) + done && done <= Script(before, [ModeFrame(mode)], mode, after)
      ensures !Normal(mode) ==> r == Raised(Protocol) && done == []
      ensures |done| > 1 ==> Accepts(before, if expected.Some? then expected else lastState, false)
      ensures r.Ok? ==>
                && done == Script(before, [ModeFrame(mode)], mode, after) && r.value == after
                && after.mode == mode && after.profile == before.profile
                   && (mode == MANUAL ==> after.channels == before.channels)
      ensures old(troubles) <= troubles
      ensures (&& troubles == old(troubles) && Normal(mode) && ValidChannels(old(lamp).channels)
               && Accepts(old(lamp), if expected.Some? then expected else lastState, false)) ==>
                r == Ok(lamp) && before == old(lamp) && lamp == old(lamp).(mode := mode)
    {
      done, before, after := [], *, *;
      if !Normal(mode) { return Raised(Protocol), done, before, after; }
      ghost var start := trace;
      r, before := PrepareWrite(expected, false);
      done := trace[|start|..];
      if r.Raised? { return; }
      var observed := r.value;
      ghost var more: seq<Step>;
      r, more, after := Apply(observed, [ModeFrame(mode)], mode);
      done := done + more;
      if r.Ok? && (r.value.mode != mode || (mode == MANUAL && r.value.channels != observed.channels)) {
        r := Raised(Conflict);
      }
    }

    /** `turn_off`: nothing is sent to a lamp that is already off. */
    method TurnOff(expected: Option<State>)
      returns (r: Result<State>, ghost done: seq<Step>, ghost before: State, ghost after: State)
      modifies this`trace, this`lamp, this`troubles
      ensures trace == old(trace) + done && done <= Script(before, [ModeFrame(SHUTDOWN)], SHUTDOWN, after)
      ensures |done| > 1 ==>
                before.mode != SHUTDOWN && Accepts(before, if expected.Some? then expected else lastState, true)
      ensures r.Ok? ==>
                && r.value.mode == SHUTDOWN
                && (if before.mode == SHUTDOWN then r.value == before && done == [Read(before)]
                    else r.value == after && done == Script(before, [ModeFrame(SHUTDOWN)], SHUTDOWN, after)
                         && after.profile == before.profile && after.channels in {before.channels, ZERO})
      ensures old(troubles) <= troubles
      ensures (&& troubles == old(troubles) && ValidChannels(old(lamp).channels)
               && Accepts(old(lamp), if expected.Some? then expected else lastState, true)) ==>
                && r == Ok(lamp) && before == old(lamp)
                && lamp == (if old(lamp).mode == SHUTDOWN then old(lamp) else State(SHUTDOWN, old(lamp).profile, ZERO))
    {
      ghost var start := trace;
      after := *;
      r, before := PrepareWrite(expected, true);
      done := trace[|start|..];
      if r.Raised? || r.value.mode == SHUTDOWN { return; }
      var observed := r.value;
      ghost var more: seq<Step>;
      r, more, after := Apply(observed, [ModeFrame(SHUTDOWN)], SHUTDOWN);
      done := done + more;
      if r.Ok?
         && (r.value.mode != SHUTDOWN || (r.value.channels != observed.channels && r.value.channels != ZERO)) {
        r := Raised(Conflict);
      }
    }

    /** Wake a lamp from Shutdown into Manual. */
    method Wake(before: State) returns (r: Result<State>, ghost done: seq<Step>, ghost awake: State)
      modifies this`trace, this`lamp, this`troubles
      ensures trace == old(trace) + done && done <= Command([ModeFrame(MANUAL)], MANUAL, awake) && |done| <= 3
      ensures r.Ok? ==> r.value == awake && done == Command([ModeFrame(MANUAL)], MANUAL, awake) && |done| == 3
      ensures r.Ok? ==> awake.mode == MANUAL && done[2] == Read(awake)
      ensures r.Raised? ==> !r.fault.Input?
      ensures old(troubles) <= troubles
      ensures troubles == old(troubles) ==> lamp == old(lamp).(mode := MANUAL) && (r.Ok? ==> awake == lamp)
      ensures troubles == old(troubles) && before == old(lamp) && ValidChannels(before.channels) ==> r.Ok?
    {
      r, done, awake := Apply(before, [ModeFrame(MANUAL)], MANUAL);
      if r.Ok? && r.value.mode != MANUAL { r := Raised(Conflict); }
    }

    /** The vector at the end of a wake, guarded by a second fresh reading. */
    method WriteGuarded(awake: State, values: Channels)
      returns (r: Result<State>, ghost done: seq<Step>, ghost guarded: State, ghost after: State)
      modifies this`trace, this`lamp, this`troubles
      ensures trace == old(trace) + done && done <= Script(guarded, VectorFrames(values), MANUAL, after)
      ensures |done| > 1 ==> Accepts(guarded, Some(awake), false)
      ensures r.Ok? ==> r.value == after && done == Script(guarded, VectorFrames(values), MANUAL, after)
      ensures r.Ok? ==> after.mode == MANUAL && after.channels == values
      ensures r.Raised? ==> !r.fault.Input?
      ensures old(troubles) <= troubles
      ensures (&& troubles == old(troubles) && awake == old(lamp) && awake.mode == MANUAL && awake.profile == VERIFIED
               && ValidChannels(awake.channels) && ValidChannels(values)) ==>
                r == Ok(lamp) && guarded == awake && lamp == awake.(channels := values)
    {
      done, guarded, after := [], *, *;
      var reconnected: bool := *;
      if !reconnected {
        Trouble(Lost);
        return Raised(Lost), done, guarded, after;
      }
      ghost var start := trace;
      r, guarded := PrepareWrite(Some(awake), false);
      done := trace[|start|..];
      if r.Raised? { return; }
      ghost var more: seq<Step>;
      DrivenVector(lamp, values);
      r, more, after := Apply(r.value, VectorFrames(values), MANUAL);
      done := done + more;
      if r.Ok? && (r.value.mode != MANUAL || r.value.channels != values) { r := Raised(Conflict); }
    }

    /** Bring back the remembered vector: written only from zero Off through zero Manual. */
    method RestoreManual(observed: State, manual: Channels)
      returns (r: Result<State>, ghost done: seq<Step>, ghost awake: State, ghost guarded: State, ghost after: State)
      modifies this`trace, this`lamp, this`troubles
      ensures trace == old(trace) + done && done <= WakeCommand(awake, guarded, manual, after)
      ensures |done| > 3 ==> observed.channels == awake.channels == ZERO && awake.mode == MANUAL
      ensures |done| > 4 ==> Accepts(guarded, Some(awake), false)
      ensures r.Ok? ==>
                done != [] && done[|done| - 1] == Read(r.value) && r.value.mode == MANUAL && r.value.channels == manual
      ensures r.Raised? ==> !r.fault.Input?
      ensures old(troubles) <= troubles
      ensures (&& troubles == old(troubles) && observed == old(lamp) && observed.profile == VERIFIED
               && ValidChannels(observed.channels) && ValidChannels(manual)) ==>
                (r.Ok? <==> observed.channels == manual || observed.channels == ZERO) && (r.Ok? ==> r.value == lamp)
    {
      guarded, after := *, *;
      r, done, awake := Wake(observed);
      if r.Raised? || r.value.channels == manual { return; }
      var woken := r.value;
      if observed.channels != ZERO || woken.channels != ZERO { return Raised(Conflict), done, awake, guarded, after; }
      ghost var more: seq<Step>;
      r, more, guarded, after := WriteGuarded(woken, manual);
      done := done + more;
    }

    /** From an observed Shutdown, into the program or back to the remembered vector. */
    method LeaveOff(observed: State, manual: Option<Channels>)
      returns (r: Result<State>, ghost done: seq<Step>, ghost awake: State, ghost guarded: State, ghost after: State)
      modifies this`trace, this`lamp, this`troubles
      ensures trace == old(trace) + done
      ensures done <= ResumePlan(manual, awake, guarded, after)
      ensures manual.Some? && |done| > 3 ==> observed.channels == awake.channels == ZERO && awake.mode == MANUAL
      ensures manual.Some? && |done| > 4 ==> Accepts(guarded, Some(awake), false)
      ensures r.Ok? ==> done != [] && done[|done| - 1] == Read(r.value)
      ensures r.Ok? ==>
                if manual.None? then r.value.mode == AUTOMATIC
                   else r.value.mode == MANUAL && r.value.channels == manual.value
      ensures r.Raised? ==> !r.fault.Input?
      ensures old(troubles) <= troubles
      ensures (&& troubles == old(troubles) && observed == old(lamp) && observed.profile == VERIFIED
               && ValidChannels(observed.channels) && (manual.Some? ==> ValidChannels(manual.value))) ==>
                (r.Ok? <==> Resumable(observed.channels, manual)) && (r.Ok? ==> r.value == lamp)
    {
      awake, guarded, after := *, *, *;
      if manual.None? {
        r, done, after := Apply(observed, [ModeFrame(AUTOMATIC)], AUTOMATIC);
        if r.Ok? && r.value.mode != AUTOMATIC { r := Raised(Conflict); }
        return;
      }
      r, done, awake, guarded, after := RestoreManual(observed, manual.value);
    }

    /** `turn_on`: resume the program, or bring back the remembered vector. */
    method TurnOn(manual: Option<Channels>, expected: Option<State>)
      returns (r: Result<State>, ghost done: seq<Step>, ghost before: State, ghost awake: State, ghost guarded: State,
               ghost after: State)
      modifies this`trace, this`lamp, this`troubles
      ensures trace == old(trace) + done
      ensures manual.Some? && (!ValidChannels(manual.value) || manual.value == ZERO) ==>
                r == Raised(Protocol) && done == []
      ensures |done| > 1 ==>
                before.mode == SHUTDOWN && Accepts(before, if expected.Some? then expected else lastState, true)
      ensures done <= [Read(before)] + ResumePlan(manual, awake, guarded, after)
      ensures manual.Some? && |done| > 4 ==> before.channels == awake.channels == ZERO && awake.mode == MANUAL
      ensures manual.Some? && |done| > 5 ==> Accepts(guarded, Some(awake), false)
      ensures r.Ok? ==> done != [] && done[|done| - 1] == Read(r.value)
      ensures r.Ok? ==> if |done| == 1 then r.value.mode != SHUTDOWN
                        else if manual.None? then r.value.mode == AUTOMATIC
                        else r.value.mode == MANUAL && r.value.channels == manual.value
      ensures old(troubles) <= troubles
      ensures (&& troubles == old(troubles) && ValidChannels(old(lamp).channels)
               && (manual.Some? ==> ValidChannels(manual.value) && manual.value != ZERO)
               && Accepts(old(lamp), if expected.Some? then expected else lastState, true)) ==>
                && (r.Ok? <==> old(lamp).mode != SHUTDOWN || Resumable(old(lamp).channels, manual))
                && (r.Ok? ==> r.value == lamp) && before == old(lamp)
      ensures r.Ok? && |done| == 1 ==> r.value == before
      ensures r.Ok? && |done| > 1 ==> before.mode == SHUTDOWN
    {
      done, before, awake, guarded, after := [], *, *, *, *;
      if manual.Some? && (!ValidChannels(manual.value) || manual.value == ZERO) {
        return Raised(Protocol), done, before, awake, guarded, after;
      }
      ghost var start := trace;
      r, before := PrepareWrite(expected, true);
      done := if trace == start then [] else [Read(before)];
      if r.Raised? || r.value.mode != SHUTDOWN { return; }
      var observed := r.value;
      ghost var more: seq<Step>;
      r, more, awake, guarded, after := LeaveOff(observed, manual);
      done := done + more;
      Continued(start, trace, [Read(before)], more, done);
    }

    /** Apply a wanted vector, waking the lamp first if it is off; a wake must leave the output as it was. */
    method Recolour(observed: State, desired: Channels, waking: bool)
      returns (r: Result<State>, ghost done: seq<Step>, ghost awake: State, ghost guarded: State, ghost after: State)
      modifies this`trace, this`lamp, this`troubles
      ensures trace == old(trace) + done
      ensures done <= if waking then WakeCommand(awake, guarded, desired, after)
              else Command(VectorFrames(desired), MANUAL, after)
      ensures waking && |done| > 3 ==> awake.mode == MANUAL && awake.channels == observed.channels
      ensures waking && |done| > 4 ==> Accepts(guarded, Some(awake), false)
      ensures r.Ok? ==>
                done != [] && done[|done| - 1] == Read(r.value) && r.value.mode == MANUAL && r.value.channels == desired
      ensures r.Raised? ==> !r.fault.Input?
      ensures old(troubles) <= troubles
      ensures (&& troubles == old(troubles) && observed == old(lamp) && observed.profile == VERIFIED
               && ValidChannels(observed.channels) && ValidChannels(desired)) ==>
                r == Ok(lamp) && lamp == State(MANUAL, observed.profile, desired)
    {
      awake, guarded, after := *, *, *;
      if !waking {
        DrivenVector(lamp, desired);
        r, done, after := Apply(observed, VectorFrames(desired), MANUAL);
        if r.Ok? && (r.value.mode != MANUAL || r.value.channels != desired) { r := Raised(Conflict); }
        return;
      }
      r, done, awake := Wake(observed);
      if r.Raised? { return; }
      var woken := r.value;
      if woken.channels != observed.channels { return Raised(Conflict), done, awake, guarded, after; }
      ghost var more: seq<Step>;
      r, more, guarded, after := WriteGuarded(woken, desired);
      done := done + more;
    }

    /** Everything after the checked reading of a colour request. */
    method Compose(observed: State, desired: Option<Channels>, waking: bool, ghost previous: Option<State>)
      returns (r: Result<State>, ghost done: seq<Step>, ghost awake: State, ghost guarded: State, ghost after: State)
      requires Accepts(observed, previous, waking)
      modifies this`trace, this`lamp, this`troubles
      ensures trace == old(trace) + done
      ensures Composed([Read(observed)] + done, r, observed, awake, guarded, after, previous, waking, desired)
      ensures old(troubles) <= troubles
      ensures (&& troubles == old(troubles) && observed == old(lamp) && ValidChannels(observed.channels)
               && (desired.Some? ==> ValidChannels(desired.value))) ==> Served(r, observed, lamp, desired)
    {
      done, awake, guarded, after := [], *, *, *;
      if desired.None? { return Raised(Input(observed)), done, awake, guarded, after; }
      r, done, awake, guarded, after := Recolour(observed, desired.value, waking);
    }

    /** `set_compact`: one wanted vector on top of the fresh output (or, from Off, of the trusted
        basis); without a basis nothing is sent and the fresh reading is reported. The wanted vector is
        the one that serves the request, and an honest lamp shows it in the end. */
    method SetCompact(rgb: Option<Rgb>, level: Option<int>, roles: Roles, manual: Option<Channels>,
                      expected: Option<State>)
      returns (r: Result<State>, ghost done: seq<Step>, ghost before: State, ghost awake: State, ghost guarded: State,
               ghost after: State, ghost wanted: Option<Channels>)
      modifies this`trace, this`lamp, this`troubles
      ensures trace == old(trace) + done
      ensures !Requested(rgb, level, roles, manual) ==> r == Raised(Protocol) && done == []
      ensures var previous := if expected.Some? then expected else lastState;
              var waking := previous.Some? && previous.value.mode == SHUTDOWN;
              var basis := if waking then manual else Some(before.channels);
              && Composed(done, r, before, awake, guarded, after, previous, waking, wanted)
              && (|done| > 1 || (r.Raised? && r.fault.Input?) ==> Wanted(wanted, rgb, level, roles, basis))
      ensures old(troubles) <= troubles
      ensures var previous := if expected.Some? then expected else lastState;
              var waking := previous.Some? && previous.value.mode == SHUTDOWN;
              (&& troubles == old(troubles) && Requested(rgb, level, roles, manual) && ValidChannels(old(lamp).channels)
               && Accepts(old(lamp), previous, waking)) ==>
                && before == old(lamp) && Served(r, before, lamp, wanted)
                && Wanted(wanted, rgb, level, roles, if waking then manual else Some(before.channels))
    {
      done, before, awake, guarded, after, wanted := [], *, *, *, *, None;
      if !Requested(rgb, level, roles, manual) { return Raised(Protocol), done, before, awake, guarded, after, wanted; }
      r, done, before, awake, guarded, after, wanted := ReadAndCompose(rgb, level, roles, manual, expected);
    }

    /** The reading, and the wanted vector on top of the basis that it leaves. */
    method ReadAndCompose(rgb: Option<Rgb>, level: Option<int>, roles: Roles, manual: Option<Channels>,
                          expected: Option<State>)
      returns (r: Result<State>, ghost done: seq<Step>, ghost before: State, ghost awake: State, ghost guarded: State,
               ghost after: State, ghost wanted: Option<Channels>)
      requires Requested(rgb, level, roles, manual)
      modifies this`trace, this`lamp, this`troubles
      ensures trace == old(trace) + done
      ensures var previous := if expected.Some? then expected else lastState;
              var waking := previous.Some? && previous.value.mode == SHUTDOWN;
              var basis := if waking then manual else Some(before.channels);
              && Composed(done, r, before, awake, guarded, after, previous, waking, wanted)
              && (|done| > 1 || (r.Raised? && r.fault.Input?) ==> Wanted(wanted, rgb, level, roles, basis))
      ensures old(troubles) <= troubles
      ensures var previous := if expected.Some? then expected else lastState;
              var waking := previous.Some? && previous.value.mode == SHUTDOWN;
              (&& troubles == old(troubles) && ValidChannels(old(lamp).channels)
               && Accepts(old(lamp), previous, waking)) ==>
                && before == old(lamp) && Served(r, before, lamp, wanted)
                && Wanted(wanted, rgb, level, roles, if waking then manual else Some(before.channels))
    {
      awake, guarded, after, wanted := *, *, *, None;
      var previous := if expected.Some? then expected else lastState;
      var waking := previous.Some? && previous.value.mode == SHUTDOWN;
      ghost var start := trace;
      r, before := PrepareWrite(expected, waking);
      if r.Raised? {
        done := if trace == start then [] else [Read(before)];
        return;
      }
      done := [Read(before)];
      var observed := r.value;
      var basis := if waking then manual else Some(observed.channels);
      var desired := Desired(rgb, level, roles, basis);
      DesiredIsWanted(rgb, level, roles, manual, basis);
      wanted := desired;
      ghost var more: seq<Step>;
      r, more, awake, guarded, after := Compose(observed, desired, waking, previous);
      done := done + more;
      Continued(start, trace, [Read(before)], more, done);
    }

    /** Any explicit request keeps the guard on every frame ever sent. */
    method Perform(request: Request)
      requires Guarded(trace)
      modifies this`trace, this`lamp, this`troubles
      ensures Guarded(trace) && old(trace) <= trace
    {
      ghost var start := trace;
      match request {
        case Channel(index, value, expected) =>
          var r, done, before, after := SetChannel(index, value, expected);
          if done == [] {
            assert start + done == start;
          } else {
            VectorScriptGuarded(start, done, before, before.channels[index := value], after);
          }
        case Mode(mode, expected) =>
          var r, done, before, after := SetMode(mode, expected);
          ModeScriptGuarded(start, done, before, mode, after);
        case Off(expected) =>
          var r, done, before, after := TurnOff(expected);
          ModeScriptGuarded(start, done, before, SHUTDOWN, after);
        case On(manual, expected) =>
          var r, done, before, awake, guarded, after := TurnOn(manual, expected);
          if manual.None? {
            ModeScriptGuarded(start, done, before, AUTOMATIC, after);
          } else {
            WakeGuarded(start, done, before, awake, guarded, manual.value, after);
          }
        case Compact(rgb, level, roles, manual, expected) =>
          var r, done, before, awake, guarded, after, wanted := SetCompact(rgb, level, roles, manual, expected);
          ghost var previous := if expected.Some? then expected else lastState;
          ghost var waking := previous.Some? && previous.value.mode == SHUTDOWN;
          ComposedGuarded(start, done, r, before, awake, guarded, after, previous, waking, wanted);
      }
    }

    /** Over any run of requests, a vector is written only right behind a reading of the verified
        profile in Manual or Automatic. */
    method Serve(requests: seq<Request>)
      requires Guarded(trace)
      modifies this`trace, this`lamp, this`troubles
      ensures Guarded(trace) && old(trace) <= trace
    {
      for i := 0 to |requests|
        invariant Guarded(trace) && old(trace) <= trace
      {
        Perform(requests[i]);
      }
    }
  }
}
