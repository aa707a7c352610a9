/**
  The lamp session that every validation worker drives, against an adversarial device: each
  operation may take any time and give any reply, loss or contradiction. Times are integer
  milliseconds; the clock moves only in session operations and sleeps. `trace` records every
  output frame handed to the transport and every complete state reading.
 */
module LampLine {
  import opened Lamp
  import opened Wrappers

  const IO_PREFLIGHT := 8000
  const EXPERIMENT := 3000
  const RECOVERY_DEADLINE := 9500
  const MAX_EXCURSION := 10000
  const WRITE_RECOVERY_MARGIN := 1800
  const MANUAL_ZERO_RESTORE_RESERVE := 3000
  const RECOVERY_READ_ATTEMPTS := 3
  const RECOVERY_READ := 2500
  const RECOVERY_READ_PAUSE := 100
  const RECOVERY_COMMAND_RESERVE := 4000
  const RECOVERY_MODE_RESERVE := 2000
  const MANUAL_PAUSE := 100
  const WRITE_DRAIN_PAUSE := 200

  /** A prompt lamp answers every single exchange within this time, so a command within the other. */
  const PROMPT := 50
  const COMMAND_TIME := MANUAL_PAUSE + WRITE_DRAIN_PAUSE + 5 * PROMPT

  datatype Event =
    | Sent(frame: Frame, at: int, cleaning: bool)
    | Saw(state: State, at: int, cleaning: bool)
    | Barrier(mode: int, at: int, cleaning: bool)
    | ServiceCall(index: nat, answer: Completion, at: int, cleaning: bool)
    | Agreed(at: int, cleaning: bool) // another observer's status agrees with the lamp
    | Tried(at: int, cleaning: bool) // a fresh status read of the clean-up begins

  /** What a service call is known to have done. */
  datatype Completion = Completed | Rejected | Unknown

  datatype Fault =
    | Transport   // OSError or EOFError
    | Unsafe      // UnsafeState
    | Deadline    // DeadlineError
    | NoMargin    // the DeadlineError of a command's first check
    | Stopped     // StopRequested
    | Unpersisted // private evidence could not be written
    | Unconfirmed // the ValidationError of an output that was not reached

  datatype Verdict = NotTested | NotRequired | Pending | Pass | Fail

  datatype Result<+T> = Ok(value: T) | Raised(fault: Fault)

  /** Which complete readings a worker accepts, and which system replies it accepts when the rest
      of the reading is then lost. */
  datatype Policy = Policy(modes: set<int>, lossModes: Option<set<int>>, lossProfile: bool, stopFirst: bool)

  // ----- Traces -----

  /** The frames handed to the transport, in order. */
  function Frames(trace: seq<Event>): seq<Frame> {
    if trace == [] then []
    else Frames(trace[..|trace| - 1])
         + (if trace[|trace| - 1].Sent? then [trace[|trace| - 1].frame] else [])
  }

  ghost predicate NoVectors(trace: seq<Event>) {
    forall i | 0 <= i < |trace| && trace[i].Sent? :: !trace[i].frame.ChannelFrame?
  }

  lemma {:induction false} NoVectorsIff(trace: seq<Event>)
    ensures NoVectors(trace) <==> forall f | f in Frames(trace) :: f.ModeFrame?
  {
    if trace != [] {
      var init := trace[..|trace| - 1];
      NoVectorsIff(init);
      assert forall i | 0 <= i < |init| :: init[i] == trace[i];
      if NoVectors(trace) {
        assert NoVectors(init);
      } else if NoVectors(init) {
        assert trace[|trace| - 1].frame in Frames(trace);
      }
    }
  }

  lemma {:induction false} FramesAppend(a: seq<Event>, b: seq<Event>)
    ensures Frames(a + b) == Frames(a) + Frames(b)
  {
    if b == [] {
      assert a + b == a;
    } else {
      var c := b[..|b| - 1];
      FramesAppend(a, c);
      assert (a + b)[..|a + b| - 1] == a + c;
    }
  }

  /** `later` continues `earlier`, in one phase, without any frame or service call. */
  ghost predicate Quiet(earlier: seq<Event>, later: seq<Event>, cleaning: bool) {
    && earlier <= later
    && forall i | |earlier| <= i < |later| ::
         !later[i].Sent? && !later[i].ServiceCall? && later[i].cleaning == cleaning
  }

  lemma {:induction false} QuietFrames(earlier: seq<Event>, later: seq<Event>, cleaning: bool)
    requires Quiet(earlier, later, cleaning)
    ensures Frames(later) == Frames(earlier)
    decreases |later|
  {
    if |later| == |earlier| {
      assert later == earlier;
    } else {
      QuietFrames(earlier, later[..|later| - 1], cleaning);
      assert !later[|later| - 1].Sent?;
    }
  }

  /** `later` continues `earlier` by frames `sent`, each handed over before `deadline` and in the
      phase that `cleaning` names. */
  ghost predicate Continues(earlier: seq<Event>, later: seq<Event>, sent: seq<Frame>, deadline: int, cleaning: bool) {
    && earlier <= later
    && Frames(later) == Frames(earlier) + sent
    && forall i | |earlier| <= i < |later| ::
         && !later[i].ServiceCall?
         && later[i].cleaning == cleaning
         && (later[i].Sent? ==> later[i].at < deadline)
  }

  lemma ContinuesTransitive(a: seq<Event>, b: seq<Event>, c: seq<Event>, s: seq<Frame>, t: seq<Frame>, deadline: int,
                            cleaning: bool)
    requires Continues(a, b, s, deadline, cleaning) && Continues(b, c, t, deadline, cleaning)
    ensures Continues(a, c, s + t, deadline, cleaning)
  {
    assert Frames(c) == Frames(a) + (s + t);
    forall i | |a| <= i < |c|
      ensures !c[i].ServiceCall? && c[i].cleaning == cleaning && (c[i].Sent? ==> c[i].at < deadline)
    {
      if i < |b| { assert c[i] == b[i]; }
    }
  }

  lemma QuietContinues(a: seq<Event>, b: seq<Event>, c: seq<Event>, s: seq<Frame>, deadline: int, cleaning: bool)
    requires Continues(a, b, s, deadline, cleaning) && Quiet(b, c, cleaning)
    ensures Continues(a, c, s, deadline, cleaning)
  {
    QuietFrames(b, c, cleaning);
    assert s + [] == s;
    ContinuesTransitive(a, b, c, s, [], deadline, cleaning);
  }

  /** Every frame is handed over before the deadline of its phase. */
  ghost predicate InTime(trace: seq<Event>, experiment: int, recovery: int) {
    forall i | 0 <= i < |trace| && trace[i].Sent? ::
      trace[i].at < if trace[i].cleaning then recovery else experiment
  }

  lemma PhasesInTime(quiet: seq<Event>, middle: seq<Event>, trace: seq<Event>, during: seq<Frame>, after: seq<Frame>,
                     experiment: int, recovery: int)
    requires Quiet([], quiet, false) && Continues(quiet, middle, during, experiment, false)
    requires Continues(middle, trace, after, recovery, true)
    ensures InTime(trace, experiment, recovery) && Frames(trace) == during + after
  {
    QuietFrames([], quiet, false);
    assert forall i | 0 <= i < |quiet| :: middle[i] == quiet[i];
    assert forall i | 0 <= i < |middle| :: trace[i] == middle[i];
  }

  lemma {:induction false} SentIsFrame(trace: seq<Event>, i: nat)
    requires i < |trace| && trace[i].Sent?
    ensures trace[i].frame in Frames(trace)
  {
    var init := trace[..|trace| - 1];
    if i < |init| {
      assert init[i] == trace[i];
      SentIsFrame(init, i);
    }
  }

  lemma SentAddsFrame(before: seq<Event>, after: seq<Event>, i: nat)
    requires before <= after && |before| <= i < |after| && after[i].Sent?
    ensures Frames(after) != Frames(before)
  {
    var tail := after[|before|..];
    assert after == before + tail && tail[i - |before|] == after[i];
    FramesAppend(before, tail);
    SentIsFrame(tail, i - |before|);
  }

  lemma FrameIsSent(before: seq<Event>, after: seq<Event>, sent: seq<Frame>, deadline: int, cleaning: bool, i: nat)
    requires Continues(before, after, sent, deadline, cleaning)
    requires |before| <= i < |after| && after[i].Sent?
    ensures after[i].frame in sent
  {
    var tail := after[|before|..];
    assert after == before + tail;
    FramesAppend(before, tail);
    assert sent == Frames(after)[|Frames(before)|..] == Frames(tail);
    SentIsFrame(tail, i - |before|);
  }

  /** The frames of one command: an optional channel vector, then the mode that saves it. */
  function CommandPlan(channels: Option<Channels>, mode: int): seq<Frame> {
    (if channels.Some? then [ChannelFrame(channels.value)] else []) + [ModeFrame(mode)]
  }

  predicate BarrierBetween(trace: seq<Event>, low: nat, high: int, mode: int) {
    exists c :: BarrierAt(trace, c, mode) && low <= c < high
  }

  predicate BarrierAt(trace: seq<Event>, c: int, mode: int) {
    0 <= c < |trace| && trace[c].Barrier? && trace[c].mode == mode
  }

  /** The frames were handed over one after another from position `start` on. */
  predicate SentAt(trace: seq<Event>, start: nat, frames: seq<Frame>) {
    && start + |frames| <= |trace|
    && forall i | start <= i < start + |frames| :: trace[i].Sent? && trace[i].frame == frames[i - start]
  }

  /** The trace begins with `n` readings of the baseline, before anything was sent. */
  predicate Rehearsed(trace: seq<Event>, n: nat, baseline: State) {
    n <= |trace| && forall k | 0 <= k < n :: trace[k].Saw? && trace[k].state == baseline && !trace[k].cleaning
  }

  // ----- The lamp behind the line -----

  /** What an honest lamp makes of a whole command. */
  function Driven(lamp: State, channels: Option<Channels>, mode: int): State {
    Applied(if channels.Some? then Applied(lamp, ChannelFrame(channels.value)) else lamp, ModeFrame(mode))
  }

  /** What an honest lamp shows when only the frames `sent` of a command reached it. */
  function Shown(lamp: State, channels: Option<Channels>, mode: int, sent: seq<Frame>): State {
    if sent == [] then lamp
    else if sent == CommandPlan(channels, mode) then Driven(lamp, channels, mode)
    else Applied(lamp, sent[0])
  }

  /** A reading made inside the read window that began at `began` and leaves `reserve`. */
  predicate Timely(at: int, began: int, deadline: int, reserve: int) {
    at <= began + RECOVERY_READ && at <= deadline - reserve
  }

  /** A state in the expected mode, if one is expected. */
  predicate Meets(state: State, expected: Option<int>) {
    expected.Some? ==> expected.value == state.mode
  }

  /** Where a clean-up begins: its first event, the time, what the lamp really shows and the faults so far. */
  datatype Turn = Turn(split: nat, at: int, shown: State, faults: seq<Fault>)

  /** The clean-up that began at `began` with event `split` tried to read the lamp, if there was time. */
  predicate Attempted(trace: seq<Event>, split: nat, began: int, deadline: int, reserve: int) {
    began < deadline - reserve ==> split < |trace| && trace[split] == Tried(began, true)
  }

  /** Only after three attempts is a lost reading given up. */
  predicate ThreeTries(trace: seq<Event>, start: nat) {
    |trace| == start + 3 && trace[start].Tried? && trace[start + 1].Tried? && trace[start + 2].Tried?
  }

  /** `g` is the first reading from `start` on. */
  predicate FirstSaw(trace: seq<Event>, start: nat, g: nat) {
    start <= g < |trace| && trace[g].Saw? && forall i | start <= i < g :: !trace[i].Saw?
  }

  class Line {
    const profile: Profile
    var clock: int
    var interrupted: bool
    var cleaning: bool
    var connected: bool
    var lastSystem: Option<(int, Profile)>
    ghost var trace: seq<Event>
    /** What the lamp shows as long as it is honest, and every fault that it or the network committed:
        a loss, a contradiction (also a competing change), a delay. After a fault it may show anything. */
    ghost var lamp: State
    ghost var troubles: seq<Fault>

    constructor (profile: Profile, clock: int, ghost lamp: State)
      ensures this.profile == profile && this.clock == clock && this.lamp == lamp
      ensures !interrupted && !cleaning && !connected && trace == [] && troubles == []
    {
      this.profile, this.clock, this.lamp := profile, clock, lamp;
      interrupted, cleaning, connected, lastSystem, trace, troubles := false, false, false, None, [], [];
    }

    ghost method Trouble(fault: Fault)
      modifies this`lamp, this`troubles
      ensures troubles == old(troubles) + [fault]
    {
      troubles := troubles + [fault];
      lamp := *;
    }

    /** The lamp shows a state that the policy accepts. */
    ghost predicate Readable(policy: Policy)
      reads this
    {
      lamp.profile == profile && lamp.mode in policy.modes && ValidChannels(lamp.channels)
    }

    /** A signal asks to stop; clean-up does not heed it. */
    ghost predicate Signalled()
      reads this`interrupted, this`cleaning
    {
      interrupted && !cleaning
    }

    /** What an honest lamp lets a reading return: what it shows, or the stop that a signal asked for. */
    ghost predicate Honest(r: Result<State>)
      reads this`lamp, this`interrupted, this`cleaning
    {
      r == Ok(lamp) || (r == Raised(Stopped) && Signalled())
    }

    /** Time passes and a signal may arrive. */
    method Elapse()
      modifies this`clock, this`interrupted, this`lamp, this`troubles
      ensures clock >= old(clock)
      ensures old(interrupted) ==> interrupted
      ensures old(troubles) <= troubles
      ensures troubles == old(troubles) ==> lamp == old(lamp) && clock <= old(clock) + PROMPT
    {
      var d: int := *;
      var signal: bool := *;
      if d > PROMPT { Trouble(Deadline); }
      if d > 0 { clock := clock + d; }
      interrupted := interrupted || signal;
    }

    method Sleep(duration: int)
      modifies this`clock, this`interrupted, this`lamp, this`troubles
      ensures old(troubles) <= troubles
      ensures troubles == old(troubles) && duration >= 0 ==>
                lamp == old(lamp) && clock <= old(clock) + duration + PROMPT
      ensures clock >= old(clock) && clock >= old(clock) + duration
      ensures old(interrupted) ==> interrupted
    {
      var end := clock + duration;
      Elapse();
      if clock < end { clock := end; }
    }

    method CheckStop() returns (stop: bool)
      ensures stop <==> interrupted && !cleaning
    {
      stop := interrupted && !cleaning;
    }

    method Close()
      modifies this`connected
      ensures !connected
    {
      connected := false;
    }

    /** `_connect`: a fresh connection, which knows nothing of earlier replies. */
    method Connect(deadline: int) returns (r: Result<()>)
      modifies this`clock, this`interrupted, this`connected, this`lastSystem, this`lamp, this`troubles
      ensures clock >= old(clock) && (old(interrupted) ==> interrupted)
      ensures old(troubles) <= troubles
      ensures troubles == old(troubles) ==> lamp == old(lamp) && clock <= old(clock) + PROMPT && r != Raised(Transport)
      ensures troubles == old(troubles) && old(clock) < deadline ==> r.Ok? || (r == Raised(Stopped) && Signalled())
      ensures r.Ok? ==> connected && lastSystem.None?
      ensures cleaning ==> r != Raised(Stopped)
      ensures r != Raised(NoMargin) && r != Raised(Unpersisted) && r != Raised(Unconfirmed)
      ensures r == Raised(Transport) ==> lastSystem.None?
    {
      var stop := CheckStop();
      if stop { return Raised(Stopped); }
      Close();
      lastSystem := None;
      if deadline - clock <= 0 { return Raised(Deadline); }
      Elapse();
      var established: bool := *;
      if !established {
        Trouble(Transport);
        return Raised(Transport);
      }
      connected := true;
      stop := CheckStop();
      return if stop then Raised(Stopped) else Ok(());
    }

    /** Hand one frame to the transport; delivery may still be uncertain. */
    method Send(frame: Frame, deadline: int) returns (r: Result<()>)
      modifies this`clock, this`interrupted, this`trace, this`lamp, this`troubles
      ensures clock >= old(clock) && (old(interrupted) ==> interrupted)
      ensures old(troubles) <= troubles
      ensures troubles == old(troubles) && old(clock) < deadline ==>
                r.Ok? && lamp == Applied(old(lamp), frame) && clock <= old(clock) + PROMPT
      ensures trace == if old(clock) < deadline then old(trace) + [Sent(frame, old(clock), cleaning)] else old(trace)
      ensures r.Ok? ==> trace == old(trace) + [Sent(frame, old(clock), cleaning)]
      ensures r.Raised? ==> r.fault == Transport || r.fault == Deadline
    {
      if deadline - clock <= 0 { return Raised(Deadline); }
      ghost var at := clock;
      trace := trace + [Sent(frame, at, cleaning)];
      Elapse();
      var accepted: bool := *;
      if !accepted {
        Trouble(Transport);
        return Raised(Transport);
      }
      lamp := Applied(lamp, frame);
      return Ok(());
    }

    /** `quarantine`: drain for a whole interval, or raise. */
    method Quarantine(duration: int, deadline: int) returns (r: Result<()>)
      modifies this`clock, this`interrupted, this`lamp, this`troubles
      ensures old(troubles) <= troubles
      ensures troubles == old(troubles) && duration >= PROMPT && old(clock) + duration <= deadline ==>
                r.Ok? && lamp == old(lamp) && clock <= old(clock) + duration
      ensures clock >= old(clock) && (old(interrupted) ==> interrupted)
      ensures r.Ok? ==> clock >= old(clock) + duration - 1
      ensures r.Raised? ==> r.fault == Transport || r.fault == Deadline || r.fault == Unsafe
    {
      var end := if deadline < clock + duration then deadline else clock + duration;
      if end - clock < duration - 1 { return Raised(Deadline); }
      Elapse();
      var outcome: int := *;
      if outcome == 0 {
        Trouble(Transport);
        return Raised(Transport);
      }
      if outcome == 1 {
        Trouble(Unsafe);
        return Raised(Unsafe);
      }
      if clock < end { clock := end; }
      return Ok(());
    }

    /** One output frame and the drain interval behind it, at most once. */
    method SendAndDrain(frame: Frame, pause: int, deadline: int, stopChecks: bool)
      returns (r: Result<()>, ghost sent: seq<Frame>)
      modifies this`clock, this`interrupted, this`trace, this`lamp, this`troubles
      ensures clock >= old(clock) && (old(interrupted) ==> interrupted)
      ensures old(troubles) <= troubles
      ensures (&& troubles == old(troubles) && pause >= PROMPT && old(clock) + PROMPT + pause <= deadline) ==>
                && (r.Ok? || (r == Raised(Stopped) && stopChecks && Signalled()))
                && lamp == Applied(old(lamp), frame) && clock <= old(clock) + PROMPT + pause
      ensures sent == [] || sent == [frame]
      ensures Continues(old(trace), trace, sent, deadline, cleaning)
      ensures r.Ok? ==> sent == [frame] && old(clock) < deadline && clock >= old(clock) + pause - 1
      ensures r.Raised? ==> r.fault == Transport || r.fault == Deadline || r.fault == Unsafe || r.fault == Stopped
      ensures cleaning ==> r != Raised(Stopped)
      ensures old(trace) <= trace && |trace| == |old(trace)| + |sent|
      ensures sent == [frame] ==> trace[|old(trace)|].Sent? && trace[|old(trace)|].frame == frame
      ensures old(clock) < deadline ==> sent == [frame]
    {
      ghost var before := trace;
      r := Send(frame, deadline);
      sent := if trace == before then [] else [frame];
      FramesAppend(before, trace[|before|..]);
      assert before + trace[|before|..] == trace;
      if r.Raised? { return; }
      var stop := CheckStop();
      if stop && stopChecks { return Raised(Stopped), sent; }
      r := Quarantine(pause, deadline);
      if r.Raised? { return; }
      stop := CheckStop();
      if stop && stopChecks { return Raised(Stopped), sent; }
    }

    /** `system`: an explicit system query, the processing barrier after a write. */
    method System(deadline: int) returns (r: Result<(int, Profile)>)
      modifies this`clock, this`interrupted, this`lastSystem, this`lamp, this`troubles
      ensures old(troubles) <= troubles
      ensures troubles == old(troubles) && old(clock) < deadline ==>
                r == Ok((lamp.mode, lamp.profile)) && lamp == old(lamp) && clock <= old(clock) + PROMPT
      ensures clock >= old(clock) && (old(interrupted) ==> interrupted)
      ensures r.Ok? ==> lastSystem == Some(r.value)
      ensures r.Raised? ==> r.fault == Transport || r.fault == Deadline || r.fault == Unsafe
    {
      if deadline - clock <= 0 { return Raised(Deadline); }
      Elapse();
      var outcome: int := *;
      if outcome == 0 {
        Trouble(Transport);
        return Raised(Transport);
      }
      if outcome == 1 {
        Trouble(Unsafe);
        return Raised(Unsafe);
      }
      if outcome == 2 {
        Trouble(Deadline);
        return Raised(Deadline);
      }
      var mode: int := *;
      var seen: Profile := *;
      if (mode, seen) != (lamp.mode, lamp.profile) { Trouble(Unsafe); }
      lastSystem := Some((mode, seen));
      return Ok((mode, seen));
    }

    /** `_read` under a policy. `contradiction` says that what was observed cannot be reconciled
        with the phase, as opposed to merely lost. */
    method Read(deadline: int, reconnect: bool, policy: Policy) returns (r: Result<State>, contradiction: bool)
      modifies this`clock, this`interrupted, this`connected, this`lastSystem, this`trace, this`lamp, this`troubles
      ensures clock >= old(clock) && (old(interrupted) ==> interrupted)
      ensures old(troubles) <= troubles
      ensures troubles == old(troubles) ==>
                lamp == old(lamp) && clock <= old(clock) + 2 * PROMPT && r != Raised(Transport)
      ensures troubles == old(troubles) && old(clock) < deadline && Readable(policy) ==> Honest(r)
      ensures troubles == old(troubles) && r.Ok? ==> r.value == lamp
      ensures Quiet(old(trace), trace, cleaning)
      ensures trace == if r.Ok? then old(trace) + [Saw(r.value, clock, cleaning)] else old(trace)
      ensures r.Ok? ==> r.value.profile == profile && r.value.mode in policy.modes && ValidChannels(r.value.channels)
      ensures contradiction <==> r == Raised(Unsafe)
      ensures r != Raised(NoMargin) && r != Raised(Unpersisted) && r != Raised(Unconfirmed)
      ensures cleaning ==> r != Raised(Stopped)
    {
      var stop := CheckStop();
      if stop { return Raised(Stopped), false; }
      if reconnect || !connected {
        var c := Connect(deadline);
        if c.Raised? {
          return Raised(c.fault), c.fault == Unsafe;
        }
      }
      Elapse();
      r, contradiction := Reply(policy);
    }

    /** The reply to a status query, whole, in part or not at all. */
    method Reply(policy: Policy) returns (r: Result<State>, contradiction: bool)
      modifies this`lastSystem, this`trace, this`lamp, this`troubles
      ensures old(troubles) <= troubles
      ensures troubles == old(troubles) ==> lamp == old(lamp) && r != Raised(Transport)
      ensures troubles == old(troubles) && Readable(policy) ==> Honest(r)
      ensures troubles == old(troubles) && r.Ok? ==> r.value == lamp
      ensures trace == if r.Ok? then old(trace) + [Saw(r.value, clock, cleaning)] else old(trace)
      ensures r.Ok? ==> r.value.profile == profile && r.value.mode in policy.modes && ValidChannels(r.value.channels)
      ensures contradiction <==> r == Raised(Unsafe)
      ensures r != Raised(NoMargin) && r != Raised(Unpersisted) && r != Raised(Unconfirmed)
      ensures cleaning ==> r != Raised(Stopped)
    {
      var outcome: int := *;
      var replied: bool := *;
      if replied {
        var seenMode: int := *;
        var seenProfile: Profile := *;
        lastSystem := Some((seenMode, seenProfile));
      }
      if outcome == 0 {
        Trouble(Transport);
        if lastSystem.Some? && policy.lossModes.Some?
           && (lastSystem.value.0 !in policy.lossModes.value || (policy.lossProfile && lastSystem.value.1 != profile)) {
          return Raised(Unsafe), true;
        }
        return Raised(Transport), false;
      }
      if outcome == 1 {
        Trouble(Unsafe);
        return Raised(Unsafe), true;
      }
      if outcome == 2 {
        Trouble(Deadline);
        return Raised(Deadline), false;
      }
      var mode: int := *;
      var seen: Profile := *;
      var channels: Channels := *;
      if State(mode, seen, channels) != lamp { Trouble(Unsafe); }
      var stop := CheckStop();
      if stop && policy.stopFirst { return Raised(Stopped), false; }
      if seen != profile || mode !in policy.modes || !ValidChannels(channels) {
        return Raised(Unsafe), true;
      }
      if stop { return Raised(Stopped), false; }
      var state := State(mode, profile, channels);
      trace := trace + [Saw(state, clock, cleaning)];
      return Ok(state), false;
    }

    /** `_fresh_recovery_read`: retry only reads, inside one read deadline that leaves `reserve`. */
    method FreshRecoveryRead(deadline: int, reserve: nat, expected: Option<int>, policy: Policy)
      returns (r: Result<State>, contradiction: bool)
      modifies this`clock, this`interrupted, this`connected, this`lastSystem, this`trace, this`lamp, this`troubles
      ensures clock >= old(clock) && (old(interrupted) ==> interrupted)
      ensures old(troubles) <= troubles
      ensures troubles == old(troubles) ==> lamp == old(lamp) && clock <= old(clock) + 2 * PROMPT
      ensures (&& troubles == old(troubles) && old(clock) + 2 * PROMPT < deadline - reserve
               && Readable(policy) && Meets(lamp, expected)) ==> Honest(r)
      ensures if old(clock) < deadline - reserve
              then |old(trace)| < |trace| && trace[|old(trace)|] == Tried(old(clock), cleaning)
              else trace == old(trace) && r == Raised(Deadline)
      ensures forall g | |old(trace)| <= g < |trace| && trace[g].Saw? ::
                g == |trace| - 1
                && (Timely(trace[g].at, old(clock), deadline, reserve) && Meets(trace[g].state, expected) ==>
                      r == Ok(trace[g].state))
      ensures Quiet(old(trace), trace, cleaning)
      ensures r.Ok? ==> old(trace) < trace && trace[|trace| - 1] == Saw(r.value, clock, cleaning)
      ensures r.Ok? ==> clock <= deadline - reserve
      ensures r.Ok? ==> r.value.profile == profile && r.value.mode in policy.modes && ValidChannels(r.value.channels)
      ensures r.Ok? && expected.Some? ==> r.value.mode == expected.value
      ensures r != Raised(NoMargin) && r != Raised(Unpersisted) && r != Raised(Unconfirmed)
      ensures cleaning ==> r != Raised(Stopped)
      ensures contradiction ==> r == Raised(Unsafe)
      ensures r == Raised(Transport) ==> ThreeTries(trace, |old(trace)|)
    {
      contradiction := false;
      var readDeadline := if clock + RECOVERY_READ < deadline - reserve then clock + RECOVERY_READ
        else deadline - reserve;
      var attempt := 1;
      r := Raised(Deadline);
      while attempt <= RECOVERY_READ_ATTEMPTS
        invariant 1 <= attempt <= RECOVERY_READ_ATTEMPTS + 1
        invariant clock >= old(clock) && (old(interrupted) ==> interrupted)
        invariant Quiet(old(trace), trace, cleaning)
        invariant old(troubles) <= troubles
        invariant attempt == 1 ==>
                    trace == old(trace) && clock == old(clock) && lamp == old(lamp) && troubles == old(troubles)
        invariant attempt > 1 ==>
                    && troubles != old(troubles) && old(clock) < readDeadline
                    && |old(trace)| < |trace| && trace[|old(trace)|] == Tried(old(clock), cleaning)
        invariant forall g | |old(trace)| <= g < |trace| :: trace[g].Tried?
        invariant |trace| == |old(trace)| + attempt - 1
        invariant r.Raised? && r != Raised(NoMargin) && r != Raised(Unpersisted) && r != Raised(Unconfirmed)
        invariant cleaning ==> r != Raised(Stopped)
        invariant !contradiction
        decreases RECOVERY_READ_ATTEMPTS + 1 - attempt
      {
        if clock >= readDeadline { return Raised(Deadline), false; }
        r, contradiction := TryRead(readDeadline, expected, policy);
        if r.Ok? || r.fault != Transport { return; }
        if attempt == RECOVERY_READ_ATTEMPTS { return; }
        if clock + RECOVERY_READ_PAUSE >= readDeadline { return Raised(Deadline), false; }
        Sleep(RECOVERY_READ_PAUSE);
        attempt := attempt + 1;
      }
    }

    /** One attempt: only a plain transport fault may be retried. */
    method TryRead(readDeadline: int, expected: Option<int>, policy: Policy)
      returns (r: Result<State>, contradiction: bool)
      requires clock < readDeadline
      modifies this`clock, this`interrupted, this`connected, this`lastSystem, this`trace, this`lamp, this`troubles
      ensures clock >= old(clock) && (old(interrupted) ==> interrupted)
      ensures old(troubles) <= troubles
      ensures troubles == old(troubles) ==>
                lamp == old(lamp) && clock <= old(clock) + 2 * PROMPT && r != Raised(Transport)
      ensures troubles == old(troubles) && clock <= readDeadline && Readable(policy) && Meets(lamp, expected) ==>
                Honest(r)
      ensures trace == old(trace) + [Tried(old(clock), cleaning)]
              || (|trace| == |old(trace)| + 2 && trace[..|old(trace)| + 1] == old(trace) + [Tried(old(clock), cleaning)]
                  && trace[|trace| - 1].Saw? && trace[|trace| - 1].at == clock
                  && trace[|trace| - 1].cleaning == cleaning
                  && (clock <= readDeadline && Meets(trace[|trace| - 1].state, expected) ==>
                        r == Ok(trace[|trace| - 1].state))
                  && r != Raised(Transport))
      ensures r.Ok? ==> |trace| == |old(trace)| + 2 && trace[|trace| - 1] == Saw(r.value, clock, cleaning)
      ensures r.Ok? ==> clock <= readDeadline && Meets(r.value, expected)
      ensures r.Ok? ==> r.value.profile == profile && r.value.mode in policy.modes && ValidChannels(r.value.channels)
      ensures r != Raised(NoMargin) && r != Raised(Unpersisted) && r != Raised(Unconfirmed)
      ensures cleaning ==> r != Raised(Stopped)
      ensures contradiction ==> r == Raised(Unsafe)
    {
      trace := trace + [Tried(clock, cleaning)];
      r, contradiction := Read(readDeadline, true, policy);
      if r.Ok? {
        if clock > readDeadline { return Raised(Deadline), false; }
        if !Meets(r.value, expected) { return Raised(Unsafe), false; }
        return;
      }
      if r.fault != Transport { return; }
      if lastSystem.Some? && expected.Some? && lastSystem.value.0 != expected.value {
        return Raised(Unsafe), false;
      }
      Close();
    }

    /** The last event of `trace` is the reading of `state`, made just now. */
    ghost predicate JustRead(before: seq<Event>, state: State)
      reads this
    {
      && before < trace
      && trace[|trace| - 1] == Saw(state, clock, cleaning)
      && state.profile == profile
      && ValidChannels(state.channels)
    }

    /** `_command`: every frame at most once; only the reading after a clean-up barrier may retry.
        `margin` must remain at the start; `barred` says that the queried barrier confirmed `mode`. */
    method Command(channels: Option<Channels>, mode: int, deadline: int, margin: nat, reserve: nat, policy: Policy)
      returns (r: Result<State>, contradiction: bool, barred: bool, ghost sent: seq<Frame>)
      requires margin > 0
      modifies this`clock, this`interrupted, this`connected, this`lastSystem, this`trace, this`lamp, this`troubles
      ensures clock >= old(clock) && (old(interrupted) ==> interrupted)
      ensures old(troubles) <= troubles
      ensures (&& troubles == old(troubles) && old(clock) + COMMAND_TIME < deadline - reserve
               && old(clock) <= deadline - margin
               && old(lamp.profile) == profile && ValidChannels(Driven(old(lamp), channels, mode).channels)
               && mode in policy.modes) ==>
                && lamp == Shown(old(lamp), channels, mode, sent) && Honest(r) && clock <= old(clock) + COMMAND_TIME
                && (r.Ok? ==> sent == CommandPlan(channels, mode) && barred)
      ensures SentAt(trace, |old(trace)|, sent)
      ensures sent <= CommandPlan(channels, mode)
      ensures Continues(old(trace), trace, sent, deadline, cleaning)
      ensures r.Ok? ==>
                sent == CommandPlan(channels, mode) && JustRead(old(trace), r.value) && r.value.mode in policy.modes
      ensures r.Ok? && cleaning ==> r.value.mode == mode && clock <= deadline - reserve
      ensures r.Ok? && barred ==> BarrierBetween(trace, |old(trace)| + |sent|, |trace| - 1, mode)
      ensures r.Ok? ==> SentAt(trace, |old(trace)|, CommandPlan(channels, mode))
      ensures old(clock) <= deadline - margin ==> r != Raised(NoMargin)
      ensures old(clock) <= deadline - margin && (cleaning || !old(interrupted)) ==> sent != []
      ensures cleaning ==> r != Raised(Stopped)
      ensures contradiction ==> r == Raised(Unsafe)
    {
      sent := [];
      contradiction, barred := false, false;
      var stop := CheckStop();
      if stop { return Raised(Stopped), false, false, sent; }
      if deadline - clock < margin { return Raised(NoMargin), false, false, sent; }
      ghost var start := trace;
      var step: Result<()>;
      step, sent := Transmit(channels, mode, deadline);
      if step.Raised? { return Raised(step.fault), false, false, sent; }
      ghost var written := trace;
      r, contradiction, barred := Confirm(mode, deadline, reserve, policy);
      QuietContinues(start, written, trace, sent, deadline, cleaning);
      assert forall i | 0 <= i < |written| :: trace[i] == written[i];
    }

    /** The frames of one command in order, each followed by its drain interval. */
    method Transmit(channels: Option<Channels>, mode: int, deadline: int)
      returns (r: Result<()>, ghost sent: seq<Frame>)
      modifies this`clock, this`interrupted, this`trace, this`lamp, this`troubles
      ensures clock >= old(clock) && (old(interrupted) ==> interrupted)
      ensures old(troubles) <= troubles
      ensures (&& troubles == old(troubles)
               && old(clock) + MANUAL_PAUSE + WRITE_DRAIN_PAUSE + 2 * PROMPT <= deadline) ==>
                && (r.Ok? || (r == Raised(Stopped) && Signalled())) && lamp == Shown(old(lamp), channels, mode, sent)
                && clock <= old(clock) + MANUAL_PAUSE + WRITE_DRAIN_PAUSE + 2 * PROMPT
      ensures sent <= CommandPlan(channels, mode) && (r.Ok? ==> sent == CommandPlan(channels, mode))
      ensures Continues(old(trace), trace, sent, deadline, cleaning)
      ensures SentAt(trace, |old(trace)|, sent) && |trace| == |old(trace)| + |sent|
      ensures old(clock) < deadline ==> sent != []
      ensures r != Raised(NoMargin) && (cleaning ==> r != Raised(Stopped))
    {
      sent := [];
      ghost var more: seq<Frame>;
      ghost var start := trace;
      if channels.Some? {
        r, sent := SendAndDrain(ChannelFrame(channels.value), MANUAL_PAUSE, deadline, true);
        if r.Raised? { return; }
      }
      ghost var middle := trace;
      r, more := SendAndDrain(ModeFrame(mode), WRITE_DRAIN_PAUSE, deadline, true);
      ContinuesTransitive(start, middle, trace, sent, more, deadline, cleaning);
      assert channels.Some? ==> trace[|start|] == middle[|start|];
      sent := sent + more;
    }

    /** The queried system barrier after a command and the fresh reading behind it. */
    method Confirm(mode: int, deadline: int, reserve: nat, policy: Policy)
      returns (r: Result<State>, contradiction: bool, barred: bool)
      modifies this`clock, this`interrupted, this`connected, this`lastSystem, this`trace, this`lamp, this`troubles
      ensures clock >= old(clock) && (old(interrupted) ==> interrupted)
      ensures old(troubles) <= troubles
      ensures (&& troubles == old(troubles) && old(clock) + 3 * PROMPT < deadline - reserve
               && old(lamp.profile) == profile && ValidChannels(old(lamp.channels)) && old(lamp.mode) == mode
               && mode in policy.modes) ==>
                Honest(r) && lamp == old(lamp) && barred && clock <= old(clock) + 3 * PROMPT
      ensures Quiet(old(trace), trace, cleaning)
      ensures r.Ok? ==> JustRead(old(trace), r.value) && r.value.mode in policy.modes
      ensures r.Ok? && cleaning ==> r.value.mode == mode && clock <= deadline - reserve
      ensures r.Ok? && barred ==> BarrierBetween(trace, |old(trace)|, |trace| - 1, mode)
      ensures r != Raised(NoMargin)
      ensures cleaning ==> r != Raised(Stopped)
      ensures contradiction ==> r == Raised(Unsafe)
      ensures cleaning && r == Raised(Transport) ==>
                exists start: nat :: |old(trace)| <= start && ThreeTries(trace, start)
    {
      contradiction, barred := false, false;
      var barrier := System(deadline);
      if barrier.Raised? {
        if barrier.fault != Transport || !cleaning { return Raised(barrier.fault), false, false; }
        r, contradiction := FreshRecoveryRead(deadline, reserve, Some(mode), policy);
        return;
      }
      if barrier.value != (mode, profile) { return Raised(Unsafe), true, false; }
      trace := trace + [Barrier(mode, clock, cleaning)];
      barred := true;
      ghost var confirmed := trace;
      if cleaning {
        r, contradiction := FreshRecoveryRead(deadline, reserve, Some(mode), policy);
      } else {
        r, contradiction := Read(deadline, true, policy);
      }
      assert forall i | 0 <= i < |confirmed| :: trace[i] == confirmed[i];
      assert BarrierAt(trace, |confirmed| - 1, mode);
    }
  }
}
