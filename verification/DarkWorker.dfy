/**
  The dark-start optical sample: Shutdown at zero, Manual at zero, one modest vector, and the way
  back to the original Manual vector. Each step owns the states it may find; clean-up continues
  only from a state that the interrupted phase owns, and never once `unsafe` is latched.
 */
module DarkWorker {
  import opened Lamp
  import opened LampLine
  import opened Wrappers

  const DARK_EXPERIMENT := 4000
  const MAX_HOLD := 300
  const OFF_RECOVERY_RESERVE := 4800
  const MANUAL_RECOVERY_RESERVE := 4000
  const SAMPLE_STOP_INTERVAL := 50

  datatype Phase = Original | Off | ManualZero | Sample | CleanupManual | RestoreOriginal

  /** Where an experiment stopped, as its clean-up finds it. */
  datatype Stop = Stop(phase: Phase, pending: bool, sampleConfirmed: bool, latched: bool)

  function DuringPlan(changed: Channels): seq<Frame> {
    [ModeFrame(SHUTDOWN), ModeFrame(MANUAL)] + CommandPlan(Some(changed), MANUAL)
  }

  /** How many frames of the experiment make `phase` whole. */
  function Whole(phase: Phase): nat {
    match phase
    case Off => 1
    case ManualZero => 2
    case Sample => 4
    case _ => 0
  }

  function AfterPlan(phase: Phase, baseline: State): seq<Frame> {
    match phase
    case Off => [ModeFrame(MANUAL)] + CommandPlan(Some(baseline.channels), MANUAL)
    case ManualZero => CommandPlan(Some(baseline.channels), MANUAL)
    case Sample => CommandPlan(Some(baseline.channels), MANUAL)
    case _ => []
  }

  /** The Manual vectors that an interrupted experiment owns. An unconfirmed sample may have left
      the lamp dark; a pending one must have reached its exact target. */
  function Owned(stop: Stop, changed: Channels): set<Channels> {
    match stop.phase
    case Sample => if stop.sampleConfirmed || stop.pending then {changed} else {ZERO, changed}
    case _ => {ZERO}
  }

  function PhaseMode(phase: Phase): int {
    if phase == Off then SHUTDOWN else MANUAL
  }

  /** What the guard reading must leave of the clean-up time. */
  function Reserve(phase: Phase): nat {
    if phase == Off then OFF_RECOVERY_RESERVE else MANUAL_RECOVERY_RESERVE
  }

  /** A state from which the stopped experiment may go back. */
  predicate Owns(stop: Stop, s: State, baseline: State, changed: Channels) {
    && s.profile == baseline.profile && s.mode == PhaseMode(stop.phase)
    && s.channels in if stop.phase == Original then {baseline.channels} else Owned(stop, changed)
  }

  /** A first clean-up reading that is in time and owned is followed at once by the first frame of the way back. */
  ghost predicate Answered(trace: seq<Event>, split: nat, began: int, deadline: int, stop: Stop, baseline: State,
                           changed: Channels) {
    forall g: nat | FirstSaw(trace, split, g) && Timely(trace[g].at, began, deadline, Reserve(stop.phase)) ::
      Owns(stop, trace[g].state, baseline, changed) && AfterPlan(stop.phase, baseline) != [] ==>
        SentAt(trace, g + 1, AfterPlan(stop.phase, baseline)[..1])
  }

  /** The guard reading, if it came, is the last event of `seen`. */
  lemma GuardAnswered(split: nat, seen: seq<Event>, trace: seq<Event>, began: int, deadline: int, stop: Stop,
                      baseline: State, changed: Channels)
    requires split <= |seen| && seen <= trace
    requires trace != seen ==> split < |seen| && seen[|seen| - 1].Saw?
    requires forall g: nat | split <= g < |seen| && seen[g].Saw?
               && Timely(seen[g].at, began, deadline, Reserve(stop.phase)) ::
               g == |seen| - 1
               && (Owns(stop, seen[g].state, baseline, changed) && AfterPlan(stop.phase, baseline) != [] ==>
                     SentAt(trace, |seen|, AfterPlan(stop.phase, baseline)[..1]))
    ensures Answered(trace, split, began, deadline, stop, baseline, changed)
  {
    forall g: nat | FirstSaw(trace, split, g) && Timely(trace[g].at, began, deadline, Reserve(stop.phase))
      ensures Owns(stop, trace[g].state, baseline, changed) && AfterPlan(stop.phase, baseline) != [] ==>
                SentAt(trace, g + 1, AfterPlan(stop.phase, baseline)[..1])
    {
      assert trace[g] == seen[g];
    }
  }

  /** The state that a pending command of `phase` must have produced. */
  function TargetOf(phase: Phase, profile: Profile, changed: Channels): State {
    State(if phase == Off then SHUTDOWN else MANUAL, profile, if phase == Sample then changed else ZERO)
  }

  predicate JustSaw(trace: seq<Event>, i: int, mode: int, channels: set<Channels>) {
    0 < i <= |trace| && trace[i - 1].Saw? && trace[i - 1].state.mode == mode && trace[i - 1].state.channels in channels
  }

  /** A vector is written right after a Manual reading that owns it; a mode is written right after
      its vector, or (leaving Shutdown) right after reading Shutdown all-zero. */
  predicate OwnedWrite(trace: seq<Event>, i: nat, start: nat, vector: Channels, owned: set<Channels>)
    requires i < |trace| && trace[i].Sent?
  {
    match trace[i].frame
    case ChannelFrame(values) => values == vector && JustSaw(trace, i, MANUAL, owned)
    case ModeFrame(mode) =>
      && mode == MANUAL
      && ((start < i && trace[i - 1].Sent? && trace[i - 1].frame == ChannelFrame(vector))
         || JustSaw(trace, i, SHUTDOWN, {ZERO}))
  }

  ghost predicate OwnedFrom(trace: seq<Event>, start: nat, vector: Channels, owned: set<Channels>) {
    forall i | start <= i < |trace| && trace[i].Sent? :: OwnedWrite(trace, i, start, vector, owned)
  }

  /** The experiment writes its vector only right after reading Manual all-zero. */
  ghost predicate SampledFromZero(trace: seq<Event>, end: nat, changed: Channels)
    requires end <= |trace|
  {
    forall i | 0 <= i < end && trace[i].Sent? && trace[i].frame.ChannelFrame? ::
      trace[i].frame.values == changed && JustSaw(trace, i, MANUAL, {ZERO})
  }

  /** `sent` stands right behind `before`, and no other frame follows. */
  ghost predicate SentFirst(before: seq<Event>, after: seq<Event>, sent: seq<Frame>) {
    && before <= after
    && SentAt(after, |before|, sent)
    && forall i | |before| + |sent| <= i < |after| :: !after[i].Sent?
  }

  lemma QuietSentFirst(before: seq<Event>, written: seq<Event>, after: seq<Event>, sent: seq<Frame>, cleaning: bool)
    requires before <= written && |written| == |before| + |sent| && SentAt(written, |before|, sent)
             && Quiet(written, after, cleaning)
    ensures SentFirst(before, after, sent)
  {
    assert forall i | 0 <= i < |written| :: after[i] == written[i];
  }

  predicate EndsAt(trace: seq<Event>, state: State, latest: int) {
    trace != [] && trace[|trace| - 1].Saw? && trace[|trace| - 1].cleaning
    && trace[|trace| - 1].state == state && trace[|trace| - 1].at <= latest
  }

  /** Clean-up writes follow only whole experiment commands. */
  ghost predicate Composed(frames: seq<Frame>, phase: Phase, baseline: State, changed: Channels) {
    exists n :: Splits(frames, n, phase, baseline, changed)
  }

  predicate Splits(frames: seq<Frame>, n: nat, phase: Phase, baseline: State, changed: Channels) {
    && n <= |frames|
    && frames[..n] <= DuringPlan(changed)
    && frames[n..] <= AfterPlan(phase, baseline)
    && (frames[n..] != [] ==> n == Whole(phase))
  }

  lemma QuietOwned(before: seq<Event>, after: seq<Event>, start: nat, vector: Channels, owned: set<Channels>)
    requires start <= |before| && OwnedFrom(before, start, vector, owned) && Quiet(before, after, true)
    ensures OwnedFrom(after, start, vector, owned)
  {
    forall i | start <= i < |after| && after[i].Sent?
      ensures OwnedWrite(after, i, start, vector, owned)
    {
      assert i < |before| && after[i] == before[i] && OwnedWrite(before, i, start, vector, owned);
      assert i > 0 ==> after[i - 1] == before[i - 1];
    }
  }

  lemma VectorPlan(vector: Channels, sent: seq<Frame>)
    requires sent <= CommandPlan(Some(vector), MANUAL)
    ensures |sent| <= 2
    ensures |sent| > 0 ==> sent[0] == ChannelFrame(vector)
    ensures |sent| > 1 ==> sent[1] == ModeFrame(MANUAL)
  {
    assert CommandPlan(Some(vector), MANUAL) == [ChannelFrame(vector), ModeFrame(MANUAL)];
  }

  /** One more vector command, sent right behind a reading that owns it. */
  lemma VectorOwned(before: seq<Event>, after: seq<Event>, start: nat, sent: seq<Frame>, vector: Channels,
                    owned: set<Channels>)
    requires start <= |before| && OwnedFrom(before, start, vector, owned)
    requires JustSaw(before, |before|, MANUAL, owned)
    requires SentFirst(before, after, sent) && sent <= CommandPlan(Some(vector), MANUAL)
    ensures OwnedFrom(after, start, vector, owned)
  {
    VectorPlan(vector, sent);
    var n := |before|;
    forall i | start <= i < |after| && after[i].Sent?
      ensures OwnedWrite(after, i, start, vector, owned)
    {
      if i < n {
        assert after[i] == before[i] && OwnedWrite(before, i, start, vector, owned);
        assert i > 0 ==> after[i - 1] == before[i - 1];
      } else if i == n {
        assert after[n - 1] == before[n - 1];
        assert after[i].frame == sent[0];
      } else {
        assert i == n + 1 && after[i].frame == sent[1] && after[n].frame == sent[0];
      }
    }
  }

  /** The command that leaves Shutdown, sent right behind the all-zero reading. */
  lemma ResumeOwned(before: seq<Event>, after: seq<Event>, sent: seq<Frame>, vector: Channels, owned: set<Channels>)
    requires JustSaw(before, |before|, SHUTDOWN, {ZERO})
    requires SentFirst(before, after, sent) && sent <= [ModeFrame(MANUAL)]
    ensures OwnedFrom(after, |before|, vector, owned)
  {
    forall i | |before| <= i < |after| && after[i].Sent?
      ensures OwnedWrite(after, i, |before|, vector, owned)
    {
      assert i == |before| && after[i].frame == sent[0];
      assert after[i - 1] == before[i - 1];
    }
  }

  /** Nothing but mode frames before, then the sample right behind its all-zero guard. */
  lemma SampleFromZero(before: seq<Event>, after: seq<Event>, sent: seq<Frame>, changed: Channels)
    requires NoVectors(before) && JustSaw(before, |before|, MANUAL, {ZERO})
    requires SentFirst(before, after, sent) && sent <= CommandPlan(Some(changed), MANUAL)
    ensures SampledFromZero(after, |after|, changed)
  {
    var n := |before|;
    VectorPlan(changed, sent);
    assert forall k | 0 <= k < n :: after[k] == before[k];
    forall i | 0 <= i < |after| && after[i].Sent? && after[i].frame.ChannelFrame?
      ensures after[i].frame.values == changed && JustSaw(after, i, MANUAL, {ZERO})
    {
      assert i < n + |sent| && after[i].frame == sent[i - n];
      assert after[n - 1] == before[n - 1];
    }
  }

  lemma WiderStart(trace: seq<Event>, start: nat, later: nat, vector: Channels, owned: set<Channels>)
    requires start <= later <= |trace| && (forall i | start <= i < later :: !trace[i].Sent?)
    requires OwnedFrom(trace, later, vector, owned)
    ensures OwnedFrom(trace, start, vector, owned)
  {
    forall i | start <= i < |trace| && trace[i].Sent?
      ensures OwnedWrite(trace, i, start, vector, owned)
    {
      assert OwnedWrite(trace, i, later, vector, owned);
    }
  }

  lemma SampledPrefix(before: seq<Event>, after: seq<Event>, changed: Channels)
    requires before <= after && SampledFromZero(before, |before|, changed)
    ensures SampledFromZero(after, |before|, changed)
  {
    assert forall i | 0 <= i < |before| :: after[i] == before[i];
  }

  lemma ExcursionComposes(quiet: seq<Event>, middle: seq<Event>, trace: seq<Event>, during: seq<Frame>,
                          after: seq<Frame>, began: int, phase: Phase, baseline: State, changed: Channels)
    requires Quiet([], quiet, false) && Continues(quiet, middle, during, began + DARK_EXPERIMENT, false)
    requires Continues(middle, trace, after, began + RECOVERY_DEADLINE, true)
    requires during <= DuringPlan(changed) && after <= AfterPlan(phase, baseline)
    requires after != [] ==> |during| == Whole(phase)
    requires SampledFromZero(middle, |middle|, changed)
    ensures Frames(trace) == during + after && Composed(Frames(trace), phase, baseline, changed)
    ensures InTime(trace, began + DARK_EXPERIMENT, began + RECOVERY_DEADLINE)
    ensures SampledFromZero(trace, |middle|, changed)
  {
    PhasesInTime(quiet, middle, trace, during, after, began + DARK_EXPERIMENT, began + RECOVERY_DEADLINE);
    assert Splits(Frames(trace), |during|, phase, baseline, changed) by {
      assert Frames(trace)[..|during|] == during && Frames(trace)[|during|..] == after;
    }
    SampledPrefix(middle, trace, changed);
  }

  class DarkOpticalWorker {
    const line: Line
    const expected: Channels
    const changed: Channels
    const sampleTime: int
    const started: int
    var baseline: Option<State>
    var phase: Phase
    var pending: bool
    var boundaryComplete: bool
    var target: Option<State>
    var unsafe: bool
    var sampleConfirmed: bool
    var readModes: set<int>
    var excursionStarted: Option<int>
    var reportingError: bool
    var experiment: Verdict
    var recovery: Verdict
    var status: Verdict
    /** How many frames had been sent when `unsafe` was latched. */
    ghost var latchedFrames: Option<nat>

    constructor (line: Line, expected: Channels, changed: Channels, sampleTime: int)
      requires 0 < sampleTime <= MAX_HOLD
      ensures this.line == line && this.expected == expected && this.changed == changed && this.sampleTime == sampleTime
      ensures started == line.clock && baseline.None? && phase == Original && !pending && !boundaryComplete
              && target.None?
      ensures !unsafe && !sampleConfirmed && readModes == {MANUAL} && excursionStarted.None? && latchedFrames.None?
      ensures experiment == recovery == NotTested && status != Pass && !reportingError
    {
      this.line, this.expected, this.changed, this.sampleTime := line, expected, changed, sampleTime;
      started, baseline, phase, pending, boundaryComplete := line.clock, None, Original, false, false;
      target, unsafe, sampleConfirmed, readModes, excursionStarted := None, false, false, {MANUAL}, None;
      reportingError, experiment, recovery, status, latchedFrames := false, NotTested, NotTested, NotTested, None;
    }

    /** Nothing was sent since `unsafe` was latched. */
    ghost predicate Latched()
      reads this`unsafe, this`latchedFrames, line`trace
    {
      && (unsafe <==> latchedFrames.Some?)
      && (unsafe ==> |Frames(line.trace)| == latchedFrames.value)
    }

    /** Unless latched, the frames sent so far are whole commands up to `phase`, whose boundary is
        complete; a pending command knows its target. */
    ghost predicate Progress(sent: nat)
      reads this
    {
      && phase in {Original, Off, ManualZero, Sample}
      && (!unsafe ==> sent == Whole(phase) && (phase == Original || boundaryComplete))
      && (pending ==> phase != Original)
      && (pending && !unsafe ==> target == Some(TargetOf(phase, line.profile, changed)))
      && (sampleConfirmed ==> phase == Sample)
    }

    method Latch()
      requires Latched()
      modifies this`unsafe, this`latchedFrames
      ensures Latched() && unsafe
    {
      unsafe := true;
      if latchedFrames.None? { latchedFrames := Some(|Frames(line.trace)|); }
    }

    function ReadPolicy(): Policy
      reads this
    {
      Policy(readModes, Some(readModes), true, false)
    }

    /** `_read`: any contradiction latches. */
    method Read(deadline: int, reconnect: bool) returns (r: Result<State>)
      requires Latched()
      modifies line, this`unsafe, this`latchedFrames
      ensures Latched() && line.cleaning == old(line.cleaning) && line.clock >= old(line.clock)
      ensures old(line.interrupted) ==> line.interrupted
      ensures Quiet(old(line.trace), line.trace, line.cleaning)
      ensures old(unsafe) ==> unsafe
      ensures r.Ok? ==> line.trace == old(line.trace) + [Saw(r.value, line.clock, line.cleaning)]
      ensures r.Ok? ==> line.JustRead(old(line.trace), r.value) && r.value.mode in readModes && unsafe == old(unsafe)
      ensures r != Raised(NoMargin) && r != Raised(Unconfirmed) && (line.cleaning ==> r != Raised(Stopped))
      ensures old(line.troubles) <= line.troubles
      ensures r != Raised(Unsafe) ==> unsafe == old(unsafe)
      ensures line.troubles == old(line.troubles) ==>
                line.lamp == old(line.lamp) && (r.Ok? ==> r.value == line.lamp)
                && line.clock <= old(line.clock) + 2 * PROMPT
      ensures line.troubles == old(line.troubles) && old(line.clock) < deadline && old(line.Readable(ReadPolicy())) ==>
                line.Honest(r)
    {
      var contradiction: bool;
      r, contradiction := line.Read(deadline, reconnect, ReadPolicy());
      QuietFrames(old(line.trace), line.trace, line.cleaning);
      if contradiction { Latch(); }
    }

    method FreshRead(deadline: int, reserve: nat, mode: int) returns (r: Result<State>)
      requires Latched()
      modifies line, this`unsafe, this`latchedFrames
      ensures Latched() && line.cleaning == old(line.cleaning) && line.clock >= old(line.clock)
      ensures old(line.interrupted) ==> line.interrupted
      ensures Quiet(old(line.trace), line.trace, line.cleaning)
      ensures old(unsafe) ==> unsafe
      ensures r.Ok? ==> line.JustRead(old(line.trace), r.value) && r.value.mode == mode && unsafe == old(unsafe)
      ensures r.Ok? ==> line.clock <= deadline - reserve
      ensures r != Raised(NoMargin) && r != Raised(Unconfirmed) && (line.cleaning ==> r != Raised(Stopped))
      ensures r == Raised(Transport) ==> ThreeTries(line.trace, |old(line.trace)|)
      ensures old(line.troubles) <= line.troubles
      ensures r != Raised(Unsafe) ==> unsafe == old(unsafe)
      ensures (&& line.troubles == old(line.troubles) && old(line.Readable(ReadPolicy())) && old(line.lamp).mode == mode
               && old(line.clock) + 2 * PROMPT < deadline - reserve) ==>
                line.Honest(r) && line.lamp == old(line.lamp) && line.clock <= old(line.clock) + 2 * PROMPT
      ensures line.cleaning ==> Attempted(line.trace, |old(line.trace)|, old(line.clock), deadline, reserve)
      ensures forall g: nat | |old(line.trace)| <= g < |line.trace| && line.trace[g].Saw?
                && Timely(line.trace[g].at, old(line.clock), deadline, reserve) ::
                g == |line.trace| - 1 && (line.trace[g].state.mode == mode ==> r == Ok(line.trace[g].state))
    {
      var contradiction: bool;
      r, contradiction := line.FreshRecoveryRead(deadline, reserve, Some(mode), ReadPolicy());
      QuietFrames(old(line.trace), line.trace, line.cleaning);
      if contradiction { Latch(); }
    }

    /** `_expect`. */
    method Expect(state: State, channels: Channels, mode: int) returns (r: Result<()>)
      requires Latched()
      modifies this`unsafe, this`latchedFrames
      ensures Latched()
      ensures r.Ok? <==> state.mode == mode && state.channels == channels
      ensures r.Ok? ==> unsafe == old(unsafe) && latchedFrames == old(latchedFrames)
      ensures r.Raised? ==> r == Raised(Unsafe) && unsafe
    {
      if state.mode != mode || state.channels != channels {
        Latch();
        return Raised(Unsafe);
      }
      return Ok(());
    }

    /** The frames of one transaction, each drained in full; a failure latches. Signals wait for
        the boundary. */
    method Transmit(channels: Option<Channels>, mode: int, deadline: int)
      returns (r: Result<()>, ghost sent: seq<Frame>)
      requires !unsafe && Latched()
      modifies line, this`boundaryComplete, this`unsafe, this`latchedFrames
      ensures Latched() && line.cleaning == old(line.cleaning) && line.clock >= old(line.clock)
      ensures old(line.interrupted) ==> line.interrupted
      ensures sent <= CommandPlan(channels, mode) && |line.trace| == |old(line.trace)| + |sent|
      ensures Continues(old(line.trace), line.trace, sent, deadline, line.cleaning)
      ensures SentAt(line.trace, |old(line.trace)|, sent)
      ensures r.Ok? ==> !unsafe && boundaryComplete && sent == CommandPlan(channels, mode)
      ensures old(line.clock) < deadline ==> sent != []
      ensures r.Raised? ==> unsafe && r != Raised(NoMargin) && r != Raised(Unconfirmed)
      ensures line.cleaning ==> r != Raised(Stopped)
      ensures old(line.troubles) <= line.troubles
      ensures (&& line.troubles == old(line.troubles)
               && old(line.clock) + MANUAL_PAUSE + WRITE_DRAIN_PAUSE + 2 * PROMPT <= deadline) ==>
                && r.Ok? && line.lamp == Driven(old(line.lamp), channels, mode)
                && line.clock <= old(line.clock) + MANUAL_PAUSE + WRITE_DRAIN_PAUSE + 2 * PROMPT
    {
      ghost var start := line.trace;
      sent := [];
      if channels.Some? {
        r, sent := line.SendAndDrain(ChannelFrame(channels.value), MANUAL_PAUSE, deadline, false);
        if r.Raised? {
          Latch();
          return;
        }
      }
      ghost var middle := line.trace;
      ghost var more: seq<Frame>;
      r, more := line.SendAndDrain(ModeFrame(mode), WRITE_DRAIN_PAUSE, deadline, false);
      ContinuesTransitive(start, middle, line.trace, sent, more, deadline, line.cleaning);
      assert channels.Some? ==> line.trace[|start|] == middle[|start|];
      sent := sent + more;
      if r.Raised? {
        Latch();
        return;
      }
      boundaryComplete := true;
    }

    /** Only the declared sample and the original vector are ever written. */
    predicate Permitted(channels: Option<Channels>)
      reads this`baseline
    {
      channels.Some? ==> channels.value == changed || (baseline.Some? && channels.value == baseline.value.channels)
    }

    /** The lamp shows what was sent, the whole command or nothing, and promptly. */
    ghost predicate Performed(before: State, at: int, channels: Option<Channels>, mode: int, r: Result<State>,
                              sent: seq<Frame>)
      reads line`lamp, line`clock, line`interrupted, line`cleaning, this`unsafe
    {
      && line.lamp == (if sent == [] then before else Driven(before, channels, mode))
      && line.Honest(r) && !unsafe && line.clock <= at + COMMAND_TIME
    }

    /** Nothing is pending or latched, and the lamp shows what the phase owns. */
    ghost predicate InHand()
      reads this, line`lamp
    {
      && !unsafe && !pending && baseline.Some? && ValidChannels(line.lamp.channels)
      && Owns(Stop(phase, pending, sampleConfirmed, unsafe), line.lamp, baseline.value, changed)
    }

    /** `_transaction`: one whole command, its queried boundary, and the reading behind it. */
    method Transaction(channels: Option<Channels>, mode: int, deadline: int, next: Phase, reserve: nat)
      returns (r: Result<State>, ghost sent: seq<Frame>)
      requires baseline.Some? && Latched() && !unsafe
      modifies line, this`phase, this`pending, this`boundaryComplete, this`target, this`readModes, this`unsafe,
               this`latchedFrames
      ensures Latched() && line.cleaning == old(line.cleaning) && line.clock >= old(line.clock)
      ensures old(line.interrupted) ==> line.interrupted
      ensures sent <= CommandPlan(channels, mode) && SentFirst(old(line.trace), line.trace, sent)
      ensures Continues(old(line.trace), line.trace, sent, deadline, line.cleaning)
      ensures r.Ok? ==>
                && !unsafe && !pending && phase == next && readModes == {mode} && sent == CommandPlan(channels, mode)
                && line.JustRead(old(line.trace), r.value) && r.value.mode == mode
                && (line.cleaning ==> line.clock <= deadline - reserve)
      ensures !unsafe ==>
                || (&& phase == next && boundaryComplete && sent == CommandPlan(channels, mode)
                    && target == Some(State(mode, line.profile, if channels.Some? then channels.value else ZERO)))
                || (&& sent == [] && phase == old(phase) && pending == old(pending)
                    && boundaryComplete == old(boundaryComplete) && target == old(target))
      ensures phase == next || (phase == old(phase) && pending == old(pending))
      ensures old(line.clock) <= deadline - (WRITE_RECOVERY_MARGIN + reserve) ==> r != Raised(NoMargin)
      ensures (&& old(line.clock) <= deadline - (WRITE_RECOVERY_MARGIN + reserve) && line.cleaning && mode == MANUAL
               && (channels.Some? ==> channels == Some(baseline.value.channels))) ==> sent != []
      ensures r != Raised(Unconfirmed) && (line.cleaning ==> r != Raised(Stopped))
      ensures old(line.troubles) <= line.troubles
      ensures sent == [] || phase == next
      ensures (&& line.troubles == old(line.troubles) && mode in {MANUAL, SHUTDOWN}
               && old(line.clock) <= deadline - (WRITE_RECOVERY_MARGIN + reserve)
               && old(line.lamp).profile == line.profile && Permitted(channels)
               && ValidChannels(Driven(old(line.lamp), channels, mode).channels)) ==>
                Performed(old(line.lamp), old(line.clock), channels, mode, r, sent) && (sent != [] ==> !pending)
    {
      sent := [];
      var stop := line.CheckStop();
      if stop { return Raised(Stopped), sent; }
      if mode != MANUAL && mode != SHUTDOWN { return Raised(Unsafe), sent; }
      if !Permitted(channels) { return Raised(Unsafe), sent; }
      if deadline - line.clock < WRITE_RECOVERY_MARGIN + reserve { return Raised(NoMargin), sent; }
      phase, readModes := next, {mode};
      target := Some(State(mode, line.profile, if channels.Some? then channels.value else ZERO));
      pending, boundaryComplete := true, false;
      r, sent := Carry(channels, mode, deadline, reserve);
    }

    /** The frames and then the boundary of an admitted transaction. */
    method Carry(channels: Option<Channels>, mode: int, deadline: int, reserve: nat)
      returns (r: Result<State>, ghost sent: seq<Frame>)
      requires Latched() && !unsafe && target.Some? && readModes == {mode}
      modifies line, this`pending, this`boundaryComplete, this`unsafe, this`latchedFrames
      ensures Latched() && line.cleaning == old(line.cleaning) && line.clock >= old(line.clock)
      ensures old(line.interrupted) ==> line.interrupted
      ensures sent <= CommandPlan(channels, mode) && SentFirst(old(line.trace), line.trace, sent)
      ensures Continues(old(line.trace), line.trace, sent, deadline, line.cleaning)
      ensures r.Ok? ==> !unsafe && !pending && line.JustRead(old(line.trace), r.value) && r.value.mode == mode
      ensures r.Ok? && line.cleaning ==> line.clock <= deadline - reserve
      ensures !unsafe ==> boundaryComplete && sent == CommandPlan(channels, mode)
      ensures old(line.clock) < deadline ==> sent != []
      ensures r != Raised(NoMargin) && r != Raised(Unconfirmed) && (line.cleaning ==> r != Raised(Stopped))
      ensures old(line.troubles) <= line.troubles
      ensures (&& line.troubles == old(line.troubles) && old(line.clock) <= deadline - (WRITE_RECOVERY_MARGIN + reserve)
               && old(line.lamp).profile == line.profile
               && ValidChannels(Driven(old(line.lamp), channels, mode).channels)) ==>
                Performed(old(line.lamp), old(line.clock), channels, mode, r, sent) && sent != [] && !pending
    {
      ghost var start := line.trace;
      var transmitted: Result<()>;
      transmitted, sent := Transmit(channels, mode, deadline);
      if transmitted.Raised? { return Raised(transmitted.fault), sent; }
      ghost var written := line.trace;
      r := Settle(mode, deadline, reserve);
      QuietContinues(start, written, line.trace, sent, deadline, line.cleaning);
      QuietSentFirst(start, written, line.trace, sent, line.cleaning);
    }

    /** The queried processing boundary. A lost query leaves the command pending, except that
        clean-up may settle it by reading exactly its target. */
    method Settle(mode: int, deadline: int, reserve: nat) returns (r: Result<State>)
      requires Latched() && !unsafe && boundaryComplete && target.Some? && readModes == {mode}
      modifies line, this`pending, this`unsafe, this`latchedFrames
      ensures Latched() && line.cleaning == old(line.cleaning) && line.clock >= old(line.clock)
      ensures old(line.interrupted) ==> line.interrupted
      ensures Quiet(old(line.trace), line.trace, line.cleaning)
      ensures r.Ok? ==> !unsafe && !pending && line.JustRead(old(line.trace), r.value) && r.value.mode == mode
      ensures r.Ok? && line.cleaning ==> line.clock <= deadline - reserve
      ensures r != Raised(NoMargin) && r != Raised(Unconfirmed) && (line.cleaning ==> r != Raised(Stopped))
      ensures line.cleaning && r == Raised(Transport) ==>
                exists start: nat :: |old(line.trace)| <= start && ThreeTries(line.trace, start)
      ensures old(line.troubles) <= line.troubles
      ensures (&& line.troubles == old(line.troubles) && old(line.clock) + 3 * PROMPT < deadline - reserve
               && old(line.lamp).profile == line.profile && old(line.lamp).mode == mode
               && ValidChannels(old(line.lamp).channels)) ==>
                line.Honest(r) && !pending && !unsafe && line.lamp == old(line.lamp)
                && line.clock <= old(line.clock) + 3 * PROMPT
    {
      var barrier := line.System(deadline);
      if barrier.Raised? {
        if barrier.fault == Unsafe {
          Latch();
          return Raised(Unsafe);
        }
        if barrier.fault != Transport || !line.cleaning { return Raised(barrier.fault); }
        r := FreshRead(deadline, reserve, mode);
        if r.Raised? { return; }
        var expected := Expect(r.value, target.value.channels, mode);
        if expected.Raised? { return Raised(Unsafe); }
        pending := false;
        return;
      }
      if barrier.value != (mode, line.profile) {
        Latch();
        return Raised(Unsafe);
      }
      pending := false;
      r := ReadBehindBarrier(mode, deadline, reserve);
    }

    method ReadBehindBarrier(mode: int, deadline: int, reserve: nat) returns (r: Result<State>)
      requires Latched() && !unsafe && readModes == {mode}
      modifies line, this`unsafe, this`latchedFrames
      ensures Latched() && line.cleaning == old(line.cleaning) && line.clock >= old(line.clock)
      ensures old(line.interrupted) ==> line.interrupted
      ensures Quiet(old(line.trace), line.trace, line.cleaning)
      ensures r.Ok? ==> !unsafe && line.JustRead(old(line.trace), r.value) && r.value.mode == mode
      ensures r.Ok? && line.cleaning ==> line.clock <= deadline - reserve
      ensures r != Raised(NoMargin) && r != Raised(Unconfirmed) && (line.cleaning ==> r != Raised(Stopped))
      ensures line.cleaning && r == Raised(Transport) ==> ThreeTries(line.trace, |old(line.trace)| + 1)
      ensures old(line.troubles) <= line.troubles
      ensures (&& line.troubles == old(line.troubles) && old(line.clock) + 2 * PROMPT < deadline - reserve
               && old(line.lamp).profile == line.profile && old(line.lamp).mode == mode
               && ValidChannels(old(line.lamp).channels)) ==>
                line.Honest(r) && !unsafe && line.lamp == old(line.lamp) && line.clock <= old(line.clock) + 2 * PROMPT
    {
      ghost var start := line.trace;
      line.trace := line.trace + [Barrier(mode, line.clock, line.cleaning)];
      QuietFrames(start, line.trace, line.cleaning);
      var stop := line.CheckStop();
      if stop { return Raised(Stopped); }
      if line.cleaning {
        r := FreshRead(deadline, reserve, mode);
      } else {
        r := Read(deadline, true);
      }
      assert forall i | 0 <= i < |start| :: line.trace[i] == start[i];
    }

    /** The guard reading of clean-up: it must show the mode of the interrupted phase, and exactly the
        target of a pending command; nothing passes it once `unsafe` is latched. */
    method Guard(deadline: int, ghost count: nat) returns (r: Result<State>)
      requires line.cleaning && Latched() && Progress(count) && baseline.Some?
      modifies line, this`pending, this`readModes, this`unsafe, this`latchedFrames
      ensures Latched() && line.cleaning && line.clock >= old(line.clock)
      ensures old(line.interrupted) ==> line.interrupted
      ensures Quiet(old(line.trace), line.trace, true)
      ensures r.Ok? ==>
                && !old(unsafe) && !unsafe && line.JustRead(old(line.trace), r.value)
                && r.value.mode == PhaseMode(phase) && line.clock <= deadline - Reserve(phase)
                && (old(pending) ==> r.value == TargetOf(phase, line.profile, changed))
      ensures r != Raised(NoMargin)
      ensures old(line.troubles) <= line.troubles
      ensures Attempted(line.trace, |old(line.trace)|, old(line.clock), deadline,
                        if old(unsafe) then 0 else Reserve(phase))
      ensures forall g: nat | !old(unsafe) && |old(line.trace)| <= g < |line.trace| && line.trace[g].Saw?
                && Timely(line.trace[g].at, old(line.clock), deadline, Reserve(phase)) ::
                g == |line.trace| - 1
                && (line.trace[g].state.mode == PhaseMode(phase)
                    && (old(pending) ==> line.trace[g].state == TargetOf(phase, line.profile, changed)) ==>
                      r == Ok(line.trace[g].state))
      ensures (&& line.troubles == old(line.troubles) && !old(unsafe) && old(line.lamp).profile == line.profile
               && old(line.lamp).mode == PhaseMode(phase) && ValidChannels(old(line.lamp).channels)
               && (old(pending) ==> old(line.lamp) == TargetOf(phase, line.profile, changed))
               && old(line.clock) + 2 * PROMPT < deadline - Reserve(phase)) ==>
                r == Ok(line.lamp) && line.lamp == old(line.lamp) && line.clock <= old(line.clock) + 2 * PROMPT
    {
      var mode := PhaseMode(phase);
      readModes := {mode};
      r := FreshRead(deadline, if unsafe then 0 else Reserve(phase), mode);
      if r.Raised? { return; }
      if unsafe { return Raised(Unsafe); }
      if pending {
        if !boundaryComplete || target != Some(r.value) { return Raised(Unsafe); }
        pending := false;
      }
    }

    /** `_recover`: one guard reading decides; nothing is written when it fails, when `unsafe` is
        latched, or when a pending command is not read at exactly its target. */
    method Recover(deadline: int, ghost count: nat, ghost stop: Stop) returns (r: Result<()>, ghost sent: seq<Frame>)
      requires line.cleaning && Latched() && Progress(count)
      requires baseline.Some? && baseline.value.mode == MANUAL && baseline.value.profile == line.profile
      requires stop == Stop(phase, pending, sampleConfirmed, unsafe)
      modifies line, this`phase, this`pending, this`boundaryComplete, this`target, this`readModes, this`unsafe,
               this`latchedFrames
      ensures Latched() && line.cleaning && line.clock >= old(line.clock)
      ensures old(line.interrupted) ==> line.interrupted
      ensures Continues(old(line.trace), line.trace, sent, deadline, true)
      ensures sent <= AfterPlan(stop.phase, baseline.value)
      ensures sent != [] ==> !stop.latched && count == Whole(stop.phase)
      ensures OwnedFrom(line.trace, |old(line.trace)|, baseline.value.channels, Owned(stop, changed))
      ensures r.Ok? ==> sent == AfterPlan(stop.phase, baseline.value) && EndsAt(line.trace, baseline.value, deadline)
      ensures r != Raised(NoMargin)
      ensures old(line.troubles) <= line.troubles
      ensures Attempted(line.trace, |old(line.trace)|, old(line.clock), deadline,
                        if stop.latched then 0 else Reserve(stop.phase))
      ensures !stop.latched ==>
                Answered(line.trace, |old(line.trace)|, old(line.clock), deadline, stop, baseline.value, changed)
      ensures (&& line.troubles == old(line.troubles) && !stop.latched
               && Owns(stop, old(line.lamp), baseline.value, changed)
               && ValidChannels(baseline.value.channels) && ValidChannels(changed)
               && old(line.clock) + 2 * PROMPT < deadline - Reserve(stop.phase)) ==>
                r.Ok? && line.lamp == baseline.value && line.clock <= old(line.clock) + 4 * PROMPT + 2 * COMMAND_TIME
    {
      sent := [];
      ghost var start := line.trace;
      var guard := Guard(deadline, count);
      QuietFrames(start, line.trace, true);
      ghost var seen, began := line.trace, old(line.clock);
      if guard.Raised? {
        if !stop.latched { GuardAnswered(|start|, seen, seen, began, deadline, stop, baseline.value, changed); }
        return Raised(guard.fault), sent;
      }
      r, sent := RestoreFrom(guard.value, deadline, stop);
      ContinuesTransitive(start, seen, line.trace, [], sent, deadline, true);
      WiderStart(line.trace, |start|, |seen|, baseline.value.channels, Owned(stop, changed));
      GuardAnswered(|start|, seen, line.trace, began, deadline, stop, baseline.value, changed);
    }

    /** What follows a passed guard, by the interrupted phase. */
    method RestoreFrom(current: State, deadline: int, ghost stop: Stop) returns (r: Result<()>, ghost sent: seq<Frame>)
      requires line.cleaning && Latched() && !unsafe && phase in {Original, Off, ManualZero, Sample}
      requires stop.phase == phase && stop.sampleConfirmed == sampleConfirmed
      requires stop.pending ==> current == TargetOf(phase, line.profile, changed)
      requires baseline.Some? && baseline.value.mode == MANUAL && baseline.value.profile == line.profile
      requires current.mode == PhaseMode(phase) && current.profile == line.profile && ValidChannels(current.channels)
      requires line.trace != [] && line.trace[|line.trace| - 1] == Saw(current, line.clock, true)
      requires line.clock <= deadline - Reserve(phase)
      modifies line, this`phase, this`pending, this`boundaryComplete, this`target, this`readModes, this`unsafe,
               this`latchedFrames
      ensures Latched() && line.cleaning && line.clock >= old(line.clock)
      ensures old(line.interrupted) ==> line.interrupted
      ensures Continues(old(line.trace), line.trace, sent, deadline, true)
      ensures sent <= AfterPlan(stop.phase, baseline.value)
      ensures stop.phase != Original ==> (sent != [] <==> current.channels in Owned(stop, changed))
      ensures OwnedFrom(line.trace, |old(line.trace)|, baseline.value.channels, Owned(stop, changed))
      ensures r.Ok? ==> sent == AfterPlan(stop.phase, baseline.value) && EndsAt(line.trace, baseline.value, deadline)
      ensures r != Raised(NoMargin)
      ensures stop.phase != Original && current.channels in Owned(stop, changed) ==>
                SentAt(line.trace, |old(line.trace)|, AfterPlan(stop.phase, baseline.value)[..1])
      ensures old(line.troubles) <= line.troubles
      ensures (&& line.troubles == old(line.troubles) && old(line.lamp) == current
               && Owns(stop, current, baseline.value, changed)
               && ValidChannels(baseline.value.channels) && ValidChannels(changed)) ==>
                r.Ok? && line.lamp == baseline.value && line.clock <= old(line.clock) + 2 * PROMPT + 2 * COMMAND_TIME
    {
      sent := [];
      if phase == Original {
        r := Expect(current, baseline.value.channels, MANUAL);
        return;
      }
      if phase == Off {
        r, sent := RestoreFromOff(current, deadline);
        return;
      }
      var permitted := if phase == ManualZero then {ZERO} else if sampleConfirmed then {changed} else {ZERO, changed};
      if current.channels !in permitted {
        Latch();
        return Raised(Unsafe), sent;
      }
      r, sent := RestoreVector(deadline, |line.trace|, Owned(stop, changed));
    }

    /** Leave Shutdown from its all-zero reading, and replay the vector from a fresh Manual zero. */
    method RestoreFromOff(current: State, deadline: int) returns (r: Result<()>, ghost sent: seq<Frame>)
      requires line.cleaning && Latched() && !unsafe && current.mode == SHUTDOWN
      requires baseline.Some? && baseline.value.mode == MANUAL && baseline.value.profile == line.profile
      requires line.trace != [] && line.trace[|line.trace| - 1] == Saw(current, line.clock, true)
      requires line.clock <= deadline - OFF_RECOVERY_RESERVE
      modifies line, this`phase, this`pending, this`boundaryComplete, this`target, this`readModes, this`unsafe,
               this`latchedFrames
      ensures Latched() && line.cleaning && line.clock >= old(line.clock)
      ensures old(line.interrupted) ==> line.interrupted
      ensures Continues(old(line.trace), line.trace, sent, deadline, true)
      ensures sent <= AfterPlan(Off, baseline.value) && (current.channels == ZERO <==> sent != [])
      ensures OwnedFrom(line.trace, |old(line.trace)|, baseline.value.channels, {ZERO})
      ensures r.Ok? ==> sent == AfterPlan(Off, baseline.value) && EndsAt(line.trace, baseline.value, deadline)
      ensures r != Raised(NoMargin)
      ensures current.channels == ZERO ==> SentAt(line.trace, |old(line.trace)|, [ModeFrame(MANUAL)])
      ensures old(line.troubles) <= line.troubles
      ensures (&& line.troubles == old(line.troubles) && old(line.lamp) == current && current.profile == line.profile
               && current.channels == ZERO && ValidChannels(baseline.value.channels)) ==>
                r.Ok? && line.lamp == baseline.value && line.clock <= old(line.clock) + 2 * PROMPT + 2 * COMMAND_TIME
    {
      sent := [];
      ghost var start := line.trace;
      r, sent := Wake(current, deadline);
      if r.Raised? { return; }
      ghost var seen := line.trace;
      ghost var more: seq<Frame>;
      r, more := RestoreVector(deadline, |start|, {ZERO});
      ContinuesTransitive(start, seen, line.trace, sent, more, deadline, true);
      sent := sent + more;
    }

    /** Leave Shutdown, and read Manual at zero twice. */
    method Wake(current: State, deadline: int) returns (r: Result<()>, ghost sent: seq<Frame>)
      requires line.cleaning && Latched() && !unsafe && current.mode == SHUTDOWN
      requires baseline.Some? && baseline.value.mode == MANUAL && baseline.value.profile == line.profile
      requires line.trace != [] && line.trace[|line.trace| - 1] == Saw(current, line.clock, true)
      requires line.clock <= deadline - OFF_RECOVERY_RESERVE
      modifies line, this`phase, this`pending, this`boundaryComplete, this`target, this`readModes, this`unsafe,
               this`latchedFrames
      ensures Latched() && line.cleaning && line.clock >= old(line.clock)
      ensures old(line.interrupted) ==> line.interrupted
      ensures Continues(old(line.trace), line.trace, sent, deadline, true)
      ensures sent == if current.channels == ZERO then [ModeFrame(MANUAL)] else []
      ensures OwnedFrom(line.trace, |old(line.trace)|, baseline.value.channels, {ZERO})
      ensures SentAt(line.trace, |old(line.trace)|, sent)
      ensures r.Ok? ==>
                && !unsafe && current.channels == ZERO && JustSaw(line.trace, |line.trace|, MANUAL, {ZERO})
                && line.clock <= deadline - WRITE_RECOVERY_MARGIN
      ensures r != Raised(NoMargin)
      ensures old(line.troubles) <= line.troubles
      ensures (&& line.troubles == old(line.troubles) && old(line.lamp) == current && current.profile == line.profile
               && current.channels == ZERO) ==>
                && r.Ok? && line.clock <= old(line.clock) + 2 * PROMPT + COMMAND_TIME
                && line.lamp == State(MANUAL, line.profile, ZERO)
    {
      sent := [];
      ghost var start := line.trace;
      r := Expect(current, ZERO, SHUTDOWN);
      if r.Raised? { return; }
      var resumed: Result<State>;
      resumed, sent := Transaction(None, MANUAL, deadline, CleanupManual, MANUAL_ZERO_RESTORE_RESERVE);
      assert CommandPlan(None, MANUAL) == [ModeFrame(MANUAL)];
      ResumeOwned(start, line.trace, sent, baseline.value.channels, {ZERO});
      if resumed.Raised? { return Raised(resumed.fault), sent; }
      r := Expect(resumed.value, ZERO, MANUAL);
      if r.Raised? { return; }
      ghost var manual := line.trace;
      var guard := FreshRead(deadline, WRITE_RECOVERY_MARGIN, MANUAL);
      QuietContinues(start, manual, line.trace, sent, deadline, true);
      QuietOwned(manual, line.trace, |start|, baseline.value.channels, {ZERO});
      if guard.Raised? { return Raised(guard.fault), sent; }
      r := Expect(guard.value, ZERO, MANUAL);
    }

    /** The original vector, right behind a reading that owns the output. */
    method RestoreVector(deadline: int, ghost start: nat, ghost owned: set<Channels>)
      returns (r: Result<()>, ghost sent: seq<Frame>)
      requires line.cleaning && Latched() && !unsafe
      requires baseline.Some? && baseline.value.mode == MANUAL && baseline.value.profile == line.profile
      requires start <= |line.trace| && OwnedFrom(line.trace, start, baseline.value.channels, owned)
      requires JustSaw(line.trace, |line.trace|, MANUAL, owned)
      requires line.clock <= deadline - WRITE_RECOVERY_MARGIN
      modifies line, this`phase, this`pending, this`boundaryComplete, this`target, this`readModes, this`unsafe,
               this`latchedFrames
      ensures Latched() && line.cleaning && line.clock >= old(line.clock)
      ensures old(line.interrupted) ==> line.interrupted
      ensures Continues(old(line.trace), line.trace, sent, deadline, true)
      ensures sent <= CommandPlan(Some(baseline.value.channels), MANUAL) && sent != []
      ensures OwnedFrom(line.trace, start, baseline.value.channels, owned)
      ensures r.Ok? ==>
                sent == CommandPlan(Some(baseline.value.channels), MANUAL)
                && EndsAt(line.trace, baseline.value, deadline)
      ensures r != Raised(NoMargin)
      ensures SentAt(line.trace, |old(line.trace)|, sent)
      ensures old(line.troubles) <= line.troubles
      ensures (&& line.troubles == old(line.troubles) && old(line.lamp).profile == line.profile
               && ValidChannels(baseline.value.channels)) ==>
                r.Ok? && line.lamp == baseline.value && line.clock <= old(line.clock) + COMMAND_TIME
    {
      ghost var before := line.trace;
      var restored: Result<State>;
      restored, sent := Transaction(Some(baseline.value.channels), MANUAL, deadline, RestoreOriginal, 0);
      VectorOwned(before, line.trace, start, sent, baseline.value.channels, owned);
      if restored.Raised? { return Raised(restored.fault), sent; }
      r := Expect(restored.value, baseline.value.channels, MANUAL);
    }

    /** Only a signal keeps a step from succeeding. */
    ghost predicate Heeded(r: Result<()>)
      reads line`interrupted
    {
      r.Ok? || (r == Raised(Stopped) && line.interrupted)
    }

    /** Shutdown, independently read at all-zero output. */
    method DarkOff(deadline: int) returns (r: Result<()>, ghost sent: seq<Frame>)
      requires !line.cleaning && Latched() && !unsafe && phase == Original && !pending && !sampleConfirmed
               && baseline.Some?
      modifies line, this`phase, this`pending, this`boundaryComplete, this`target, this`readModes, this`unsafe,
               this`latchedFrames
      ensures !line.cleaning && Latched() && line.clock >= old(line.clock)
      ensures old(line.interrupted) ==> line.interrupted
      ensures Continues(old(line.trace), line.trace, sent, deadline, false)
      ensures sent <= [ModeFrame(SHUTDOWN)] && Progress(|sent|)
      ensures r.Ok? ==> !unsafe && phase == Off && !pending && boundaryComplete && |sent| == 1
      ensures old(line.troubles) <= line.troubles
      ensures (&& line.troubles == old(line.troubles) && old(line.clock) <= deadline - WRITE_RECOVERY_MARGIN
               && old(InHand()) && baseline.value.profile == line.profile) ==>
                InHand() && Heeded(r) && line.clock <= old(line.clock) + COMMAND_TIME
    {
      var off: Result<State>;
      off, sent := Transaction(None, SHUTDOWN, deadline, Off, 0);
      assert CommandPlan(None, SHUTDOWN) == [ModeFrame(SHUTDOWN)];
      if off.Raised? { return Raised(off.fault), sent; }
      r := Expect(off.value, ZERO, SHUTDOWN);
    }

    /** The dark half of the experiment: Shutdown at zero, Manual at zero, and a fresh guard. */
    method Darken(deadline: int) returns (r: Result<()>, ghost sent: seq<Frame>)
      requires !line.cleaning && Latched() && !unsafe && phase == Original && !pending && !sampleConfirmed
               && baseline.Some?
      modifies line, this`phase, this`pending, this`boundaryComplete, this`target, this`readModes, this`unsafe,
               this`latchedFrames
      ensures !line.cleaning && Latched() && line.clock >= old(line.clock)
      ensures old(line.interrupted) ==> line.interrupted
      ensures Continues(old(line.trace), line.trace, sent, deadline, false)
      ensures sent <= [ModeFrame(SHUTDOWN), ModeFrame(MANUAL)] && Progress(|sent|)
      ensures r.Ok? ==>
                !unsafe && phase == ManualZero && !pending && !sampleConfirmed && |sent| == 2
                && JustSaw(line.trace, |line.trace|, MANUAL, {ZERO})
      ensures old(line.troubles) <= line.troubles
      ensures (&& line.troubles == old(line.troubles)
               && old(line.clock) + COMMAND_TIME <= deadline - WRITE_RECOVERY_MARGIN
               && old(InHand()) && baseline.value.profile == line.profile) ==>
                InHand() && Heeded(r) && line.clock <= old(line.clock) + 2 * COMMAND_TIME + 2 * PROMPT
    {
      ghost var start := line.trace;
      r, sent := DarkOff(deadline);
      if r.Raised? { return; }
      ghost var middle := line.trace;
      ghost var more: seq<Frame>;
      r, more := DarkManual(deadline);
      ContinuesTransitive(start, middle, line.trace, sent, more, deadline, false);
      sent := sent + more;
    }

    /** Manual at zero output, read twice. */
    method DarkManual(deadline: int) returns (r: Result<()>, ghost sent: seq<Frame>)
      requires !line.cleaning && Latched() && !unsafe && phase == Off && !pending && !sampleConfirmed
               && boundaryComplete
               && baseline.Some?
      modifies line, this`phase, this`pending, this`boundaryComplete, this`target, this`readModes, this`unsafe,
               this`latchedFrames
      ensures !line.cleaning && Latched() && line.clock >= old(line.clock)
      ensures old(line.interrupted) ==> line.interrupted
      ensures Continues(old(line.trace), line.trace, sent, deadline, false)
      ensures sent <= [ModeFrame(MANUAL)] && Progress(1 + |sent|)
      ensures r.Ok? ==>
                !unsafe && phase == ManualZero && !pending && !sampleConfirmed && |sent| == 1
                && JustSaw(line.trace, |line.trace|, MANUAL, {ZERO})
      ensures old(line.troubles) <= line.troubles
      ensures (&& line.troubles == old(line.troubles) && old(line.clock) <= deadline - WRITE_RECOVERY_MARGIN
               && old(InHand()) && baseline.value.profile == line.profile) ==>
                InHand() && Heeded(r) && line.clock <= old(line.clock) + COMMAND_TIME + 2 * PROMPT
    {
      ghost var start := line.trace;
      var manual: Result<State>;
      manual, sent := Transaction(None, MANUAL, deadline, ManualZero, 0);
      assert CommandPlan(None, MANUAL) == [ModeFrame(MANUAL)];
      if manual.Raised? { return Raised(manual.fault), sent; }
      r := Expect(manual.value, ZERO, MANUAL);
      if r.Raised? { return; }
      ghost var zero := line.trace;
      r := ZeroGuard(deadline);
      QuietContinues(start, zero, line.trace, sent, deadline, false);
    }

    /** A fresh reading that must show Manual at zero output. */
    method ZeroGuard(deadline: int) returns (r: Result<()>)
      requires !line.cleaning && Latched() && readModes == {MANUAL}
      modifies line, this`unsafe, this`latchedFrames
      ensures !line.cleaning && Latched() && line.clock >= old(line.clock)
              && (old(line.interrupted) ==> line.interrupted)
      ensures Quiet(old(line.trace), line.trace, false) && (old(unsafe) ==> unsafe)
      ensures r.Ok? ==> unsafe == old(unsafe) && JustSaw(line.trace, |line.trace|, MANUAL, {ZERO})
      ensures old(line.troubles) <= line.troubles
      ensures (&& line.troubles == old(line.troubles) && old(line.clock) < deadline
               && old(line.lamp) == State(MANUAL, line.profile, ZERO)) ==>
                && line.lamp == old(line.lamp) && Heeded(r) && unsafe == old(unsafe)
                && line.clock <= old(line.clock) + 2 * PROMPT
    {
      var guard := Read(deadline, true);
      if guard.Raised? { return Raised(guard.fault); }
      r := Expect(guard.value, ZERO, MANUAL);
    }

    /** The sample right behind the dark half's guard, confirmed and held. */
    method TakeSample(began: int) returns (r: Result<()>, ghost sent: seq<Frame>)
      requires !line.cleaning && Latched() && !unsafe && phase == ManualZero && !pending && !sampleConfirmed
               && baseline.Some?
      requires NoVectors(line.trace) && JustSaw(line.trace, |line.trace|, MANUAL, {ZERO}) && boundaryComplete
      modifies line, this`phase, this`pending, this`boundaryComplete, this`target, this`readModes, this`unsafe,
               this`latchedFrames, this`sampleConfirmed
      ensures !line.cleaning && Latched() && line.clock >= old(line.clock)
      ensures old(line.interrupted) ==> line.interrupted
      ensures Continues(old(line.trace), line.trace, sent, began + DARK_EXPERIMENT, false)
      ensures sent <= CommandPlan(Some(changed), MANUAL) && Progress(2 + |sent|)
      ensures SampledFromZero(line.trace, |line.trace|, changed)
      ensures r.Ok? ==>
                && !unsafe && phase == Sample && sampleConfirmed && |sent| == 2
                && JustSaw(line.trace, |line.trace|, MANUAL, {changed})
                && line.trace[|line.trace| - 1].at + sampleTime <= line.clock <= began + DARK_EXPERIMENT
      ensures r == Raised(Unconfirmed) ==>
                && line.trace != [] && line.trace[|line.trace| - 1].Saw?
                && (unsafe <==> line.trace[|line.trace| - 1].state.channels != ZERO)
      ensures old(line.troubles) <= line.troubles
      ensures (&& line.troubles == old(line.troubles)
               && old(line.clock) <= began + DARK_EXPERIMENT - WRITE_RECOVERY_MARGIN
               && old(InHand()) && baseline.value.profile == line.profile && ValidChannels(changed)
               && 0 < sampleTime <= MAX_HOLD) ==>
                InHand() && Heeded(r) && line.clock <= old(line.clock) + COMMAND_TIME + MAX_HOLD + PROMPT
    {
      ghost var guarded := line.trace;
      var sample: Result<State>;
      sample, sent := Transaction(Some(changed), MANUAL, began + DARK_EXPERIMENT, Sample, 0);
      VectorPlan(changed, sent);
      SampleFromZero(guarded, line.trace, sent, changed);
      if sample.Raised? { return Raised(sample.fault), sent; }
      if sample.value.channels != changed {
        if sample.value.channels != ZERO { Latch(); }
        return Raised(Unconfirmed), sent;
      }
      sampleConfirmed := true;
      r := Hold(began);
    }

    /** The experiment: the dark half, the sample, and its hold inside the phase. */
    method Experiment(began: int) returns (r: Result<()>, ghost sent: seq<Frame>)
      requires !line.cleaning && Latched() && !unsafe && phase == Original && !pending && !sampleConfirmed
               && baseline.Some? && baseline.value.profile == line.profile
      requires Frames(line.trace) == []
      modifies line, this`phase, this`pending, this`boundaryComplete, this`target, this`readModes, this`unsafe,
               this`latchedFrames, this`sampleConfirmed
      ensures !line.cleaning && Latched() && line.clock >= old(line.clock)
      ensures old(line.interrupted) ==> line.interrupted
      ensures Continues(old(line.trace), line.trace, sent, began + DARK_EXPERIMENT, false)
      ensures sent <= DuringPlan(changed) && Progress(|sent|)
      ensures SampledFromZero(line.trace, |line.trace|, changed)
      ensures r.Ok? ==>
                && !unsafe && phase == Sample && sampleConfirmed && sent == DuringPlan(changed)
                && JustSaw(line.trace, |line.trace|, MANUAL, {changed})
                && line.trace[|line.trace| - 1].at + sampleTime <= line.clock <= began + DARK_EXPERIMENT
      ensures old(line.troubles) <= line.troubles
      ensures (&& line.troubles == old(line.troubles) && old(line.clock) == began && old(InHand())
               && ValidChannels(changed) && 0 < sampleTime <= MAX_HOLD) ==>
                InHand() && Heeded(r) && line.clock <= began + 3 * COMMAND_TIME + MAX_HOLD + 3 * PROMPT
    {
      ghost var start := line.trace;
      var deadline := began + DARK_EXPERIMENT;
      r, sent := Darken(deadline);
      ghost var guarded := line.trace;
      NoVectorsIff(guarded);
      if r.Raised? { return; }
      ghost var more: seq<Frame>;
      r, more := TakeSample(began);
      ContinuesTransitive(start, guarded, line.trace, sent, more, deadline, false);
      sent := sent + more;
    }

    /** The sample hold, skipped when it would eat into the reserved clean-up time. */
    method Hold(began: int) returns (r: Result<()>)
      requires !line.cleaning
      modifies line`clock, line`interrupted, line`lamp, line`troubles
      ensures line.clock >= old(line.clock) && (old(line.interrupted) ==> line.interrupted)
      ensures r.Ok? ==> old(line.clock) + sampleTime <= line.clock <= began + DARK_EXPERIMENT
      ensures r != Raised(Unconfirmed) && old(line.troubles) <= line.troubles
      ensures line.troubles == old(line.troubles) && 0 < sampleTime <= MAX_HOLD ==>
                && line.lamp == old(line.lamp) && line.clock <= old(line.clock) + MAX_HOLD + PROMPT
                && (old(line.clock) + MAX_HOLD + PROMPT <= began + DARK_EXPERIMENT ==> Heeded(r))
    {
      var deadline := began + DARK_EXPERIMENT;
      var end := line.clock + sampleTime;
      var limit := began + RECOVERY_DEADLINE - MANUAL_RECOVERY_RESERVE;
      if end > (if deadline < limit then deadline else limit) { return Raised(Deadline); }
      var stop: bool;
      while line.clock < end
        invariant line.clock >= old(line.clock) && (old(line.interrupted) ==> line.interrupted)
        invariant old(line.troubles) <= line.troubles
        invariant line.troubles == old(line.troubles) ==>
                    line.lamp == old(line.lamp) && (line.clock <= end + PROMPT || line.clock == old(line.clock))
        decreases end - line.clock
      {
        stop := line.CheckStop();
        if stop { return Raised(Stopped); }
        line.Sleep(if SAMPLE_STOP_INTERVAL < end - line.clock then SAMPLE_STOP_INTERVAL else end - line.clock);
      }
      stop := line.CheckStop();
      if stop { return Raised(Stopped); }
      return if line.clock > deadline then Raised(Deadline) else Ok(());
    }

    /** Evidence can fail to persist only before the excursion. */
    method Persist() returns (r: Result<()>)
      modifies this`reportingError
      ensures r.Raised? ==> r.fault == Unpersisted && reportingError
      ensures old(reportingError) ==> reportingError
    {
      var persisted: bool := *;
      if !persisted {
        reportingError := true;
        return Raised(Unpersisted);
      }
      return Ok(());
    }

    /** Two equal readings of the declared vector. */
    method Stable(deadline: int) returns (r: Result<()>)
      requires !line.cleaning && Latched() && !unsafe && readModes == {MANUAL} && line.trace == []
      modifies line, this`baseline, this`unsafe, this`latchedFrames
      ensures !line.cleaning && Latched() && Quiet(old(line.trace), line.trace, false)
      ensures old(line.interrupted) ==> line.interrupted
      ensures r.Ok? ==> baseline.Some? && Rehearsed(line.trace, 2, baseline.value) && |line.trace| == 2
      ensures r.Ok? ==>
                && !unsafe && baseline.Some? && baseline.value.mode == MANUAL
                && baseline.value.profile == line.profile && baseline.value.channels == expected
      ensures old(line.troubles) <= line.troubles
      ensures line.troubles == old(line.troubles) ==>
                && line.lamp == old(line.lamp)
                && (r.Ok? ==> baseline == Some(line.lamp) && ValidChannels(line.lamp.channels))
                && line.clock <= old(line.clock) + 4 * PROMPT
                && ((&& !line.interrupted && old(line.clock) + 2 * PROMPT < deadline
                     && line.lamp == State(MANUAL, line.profile, expected) && ValidChannels(expected)) ==> r.Ok?)
    {
      var first := Read(deadline, true);
      if first.Raised? { return Raised(first.fault); }
      var second := Read(deadline, false);
      if second.Raised? { return Raised(second.fault); }
      baseline := Some(second.value);
      return if first.value != second.value || second.value.channels != expected then Raised(Unsafe) else Ok(());
    }

    /** Two equal readings of the declared vector, and a third after the durable intent. */
    method Preflight() returns (r: Result<()>)
      requires !line.cleaning && Latched() && !unsafe && readModes == {MANUAL} && line.trace == []
      modifies line, this`baseline, this`unsafe, this`latchedFrames, this`reportingError
      ensures !line.cleaning && Latched() && Quiet(old(line.trace), line.trace, false)
      ensures (old(line.interrupted) ==> line.interrupted) && (old(reportingError) ==> reportingError)
      ensures r.Ok? ==> baseline.Some? && Rehearsed(line.trace, 3, baseline.value)
      ensures r.Ok? ==>
                && !unsafe && baseline.Some? && baseline.value.mode == MANUAL
                && baseline.value.profile == line.profile && baseline.value.channels == expected
      ensures old(line.troubles) <= line.troubles
      ensures line.troubles == old(line.troubles) ==>
                && line.lamp == old(line.lamp)
                && (r.Ok? ==> baseline == Some(line.lamp) && ValidChannels(line.lamp.channels))
                && ((&& !line.interrupted && !reportingError && old(line.clock) + 6 * PROMPT < started + IO_PREFLIGHT
                     && line.lamp == State(MANUAL, line.profile, expected) && ValidChannels(expected)) ==> r.Ok?)
    {
      var deadline := started + IO_PREFLIGHT;
      r := Persist();
      if r.Raised? { return; }
      r := Stable(deadline);
      if r.Raised? { return; }
      r := Persist();
      if r.Raised? { return; }
      var third := Read(deadline, true);
      if third.Raised? { return Raised(third.fault); }
      if Some(third.value) != baseline { return Raised(Unsafe); }
      var stop := line.CheckStop();
      return if stop then Raised(Stopped) else Ok(());
    }

    /** How a started excursion turned into its clean-up and how that ended: it was attempted, an owned
        reading was answered unless `unsafe` was latched, and without a further fault the lamp came back. */
    ghost predicate CleanedUp(turn: Turn, stop: Stop, began: int)
      requires baseline.Some?
      reads this`baseline, this`recovery, line`trace, line`clock, line`troubles, line`lamp
    {
      var deadline := began + RECOVERY_DEADLINE;
      && began <= turn.at <= line.clock && turn.faults <= line.troubles
      && Attempted(line.trace, turn.split, turn.at, deadline, if stop.latched then 0 else Reserve(stop.phase))
      && (!stop.latched ==> Answered(line.trace, turn.split, turn.at, deadline, stop, baseline.value, changed))
      && ((&& line.troubles == turn.faults && !stop.latched && Owns(stop, turn.shown, baseline.value, changed)
           && ValidChannels(changed) && ValidChannels(baseline.value.channels)
           && turn.at + 2 * PROMPT < deadline - Reserve(stop.phase)) ==>
            recovery == Pass && line.lamp == baseline.value)
    }

    /** `run`: whole commands out, owned commands back, nothing after the latch, and a PASS only when
        every frame of both was sent and the original state was read again in time. Whenever a signal
        stops the run, an honest and prompt lamp is left as it was found; without one the run passes. */
    method Run() returns (ghost stop: Stop, ghost turn: Turn)
      requires line.trace == [] && !line.cleaning && baseline.None? && excursionStarted.None? && readModes == {MANUAL}
      requires phase == Original && !pending && !unsafe && !sampleConfirmed && latchedFrames.None?
      requires experiment == recovery == NotTested && !reportingError
      modifies this, line
      ensures Latched() && turn.split <= |line.trace|
      ensures excursionStarted.None? ==> Frames(line.trace) == [] && status == Fail
      ensures excursionStarted.Some? ==>
                && baseline.Some? && Rehearsed(line.trace, 3, baseline.value)
                && baseline.Some? && baseline.value.mode == MANUAL && baseline.value.channels == expected
                && Composed(Frames(line.trace), stop.phase, baseline.value, changed)
                && InTime(line.trace, excursionStarted.value + 4000, excursionStarted.value + 9500)
                && SampledFromZero(line.trace, turn.split, changed)
                && OwnedFrom(line.trace, turn.split, baseline.value.channels, Owned(stop, changed))
                && CleanedUp(turn, stop, excursionStarted.value)
      ensures status == Pass ==>
                && excursionStarted.Some? && !line.interrupted && !reportingError
                && Frames(line.trace) == DuringPlan(changed) + CommandPlan(Some(expected), MANUAL)
                && EndsAt(line.trace, baseline.value, excursionStarted.value + 9500)
      ensures line.troubles == old(line.troubles) && 0 < sampleTime <= MAX_HOLD && ValidChannels(changed) ==>
                line.lamp == old(line.lamp) && (excursionStarted.Some? ==> recovery == Pass)
      ensures (&& line.troubles == old(line.troubles) && !line.interrupted && !reportingError
               && old(line.clock) + 6 * PROMPT < started + IO_PREFLIGHT && 0 < sampleTime <= MAX_HOLD
               && old(line.lamp) == State(MANUAL, line.profile, expected)
               && ValidChannels(expected) && ValidChannels(changed)) ==> status == Pass
    {
      stop, turn := Conduct();
      line.Close();
      status := if experiment == Pass && recovery == Pass && !line.interrupted && !reportingError then Pass else Fail;
    }

    /** The whole run up to its verdict. */
    method Conduct() returns (ghost stop: Stop, ghost turn: Turn)
      requires line.trace == [] && !line.cleaning && baseline.None? && excursionStarted.None? && readModes == {MANUAL}
      requires phase == Original && !pending && !unsafe && !sampleConfirmed && latchedFrames.None?
      requires experiment == recovery == NotTested && !reportingError
      modifies this, line
      ensures Latched() && turn.split <= |line.trace|
      ensures excursionStarted.None? ==> Frames(line.trace) == [] && experiment == NotTested
      ensures excursionStarted.Some? ==>
                && baseline.Some? && Rehearsed(line.trace, 3, baseline.value)
                && baseline.Some? && baseline.value.mode == MANUAL && baseline.value.channels == expected
                && Composed(Frames(line.trace), stop.phase, baseline.value, changed)
                && InTime(line.trace, excursionStarted.value + DARK_EXPERIMENT,
                     excursionStarted.value + RECOVERY_DEADLINE)
                && SampledFromZero(line.trace, turn.split, changed)
                && OwnedFrom(line.trace, turn.split, baseline.value.channels, Owned(stop, changed))
                && CleanedUp(turn, stop, excursionStarted.value)
                && (experiment == Pass && recovery == Pass ==>
                      && Frames(line.trace) == DuringPlan(changed) + CommandPlan(Some(expected), MANUAL)
                      && EndsAt(line.trace, baseline.value, excursionStarted.value + RECOVERY_DEADLINE))
      ensures line.troubles == old(line.troubles) && 0 < sampleTime <= MAX_HOLD && ValidChannels(changed) ==>
                line.lamp == old(line.lamp) && (excursionStarted.Some? ==> recovery == Pass)
      ensures (&& line.troubles == old(line.troubles) && !line.interrupted && !reportingError
               && old(line.clock) + 6 * PROMPT < started + IO_PREFLIGHT && 0 < sampleTime <= MAX_HOLD
               && old(line.lamp) == State(MANUAL, line.profile, expected)
               && ValidChannels(expected) && ValidChannels(changed)) ==>
                experiment == recovery == Pass && excursionStarted.Some?
    {
      stop, turn := Stop(Original, false, false, false), Turn(0, line.clock, line.lamp, line.troubles);
      var outcome := Preflight();
      QuietFrames([], line.trace, false);
      if outcome.Ok? {
        excursionStarted := Some(line.clock);
        stop, turn := Excursion(line.clock);
      } else {
        if outcome.fault == Unsafe { Latch(); }
      }
    }

    /** The experiment and the clean-up that always follows it. */
    method Excursion(began: int) returns (ghost stop: Stop, ghost turn: Turn)
      requires !line.cleaning && Latched() && !unsafe && phase == Original && !pending && !sampleConfirmed
      requires baseline.Some? && baseline.value.mode == MANUAL && baseline.value.profile == line.profile
      requires Quiet([], line.trace, false) && began == line.clock
      modifies line, this`phase, this`pending, this`boundaryComplete, this`target, this`readModes, this`unsafe,
               this`latchedFrames, this`sampleConfirmed, this`experiment, this`recovery
      ensures Latched() && turn.split <= |line.trace|
      ensures Composed(Frames(line.trace), stop.phase, baseline.value, changed)
      ensures InTime(line.trace, began + DARK_EXPERIMENT, began + RECOVERY_DEADLINE)
      ensures SampledFromZero(line.trace, turn.split, changed)
      ensures OwnedFrom(line.trace, turn.split, baseline.value.channels, Owned(stop, changed))
      ensures experiment == Pass && recovery == Pass ==>
                && Frames(line.trace) == DuringPlan(changed) + CommandPlan(Some(baseline.value.channels), MANUAL)
                && EndsAt(line.trace, baseline.value, began + RECOVERY_DEADLINE)
      ensures old(line.interrupted) ==> line.interrupted
      ensures old(line.trace) <= line.trace
      ensures old(line.troubles) <= line.troubles && CleanedUp(turn, stop, began)
      ensures (&& line.troubles == old(line.troubles) && old(InHand()) && 0 < sampleTime <= MAX_HOLD
               && ValidChannels(changed) && ValidChannels(baseline.value.channels)) ==>
                recovery == Pass && line.lamp == baseline.value && (!line.interrupted ==> experiment == Pass)
    {
      ghost var quiet := line.trace;
      QuietFrames([], quiet, false);
      ghost var during := Trial(began);
      ghost var middle := line.trace;
      ghost var after: seq<Frame>;
      after, stop, turn := CleanUp(began, during);
      ExcursionComposes(quiet, middle, line.trace, during, after, began, stop.phase, baseline.value, changed);
    }

    /** The experiment, its latch and its verdict. */
    method Trial(began: int) returns (ghost during: seq<Frame>)
      requires !line.cleaning && Latched() && !unsafe && phase == Original && !pending && !sampleConfirmed
      requires baseline.Some? && baseline.value.profile == line.profile && Frames(line.trace) == []
               && began == line.clock
      modifies line, this`phase, this`pending, this`boundaryComplete, this`target, this`readModes, this`unsafe,
               this`latchedFrames, this`sampleConfirmed, this`experiment
      ensures !line.cleaning && Latched() && line.clock >= old(line.clock)
      ensures old(line.interrupted) ==> line.interrupted
      ensures Continues(old(line.trace), line.trace, during, began + DARK_EXPERIMENT, false)
      ensures during <= DuringPlan(changed) && Progress(|during|)
      ensures SampledFromZero(line.trace, |line.trace|, changed)
      ensures experiment == Pass ==> phase == Sample && during == DuringPlan(changed)
      ensures old(line.troubles) <= line.troubles
      ensures (&& line.troubles == old(line.troubles) && old(InHand()) && ValidChannels(changed)
               && 0 < sampleTime <= MAX_HOLD) ==>
                && Owns(Stop(phase, pending, sampleConfirmed, unsafe), line.lamp, baseline.value, changed) && !unsafe
                && (!line.interrupted ==> experiment == Pass) && line.clock <= began + DARK_EXPERIMENT
    {
      var outcome: Result<()>;
      outcome, during := Experiment(began);
      if outcome == Raised(Unsafe) { Latch(); }
      experiment := if outcome.Ok? then Pass else Fail;
    }

    /** The clean-up that always follows. */
    method CleanUp(began: int, ghost during: seq<Frame>)
      returns (ghost after: seq<Frame>, ghost stop: Stop, ghost turn: Turn)
      requires !line.cleaning && Latched() && Progress(|during|) && began <= line.clock
      requires experiment == Pass ==> phase == Sample && during == DuringPlan(changed)
      requires baseline.Some? && baseline.value.mode == MANUAL && baseline.value.profile == line.profile
      modifies line, this`phase, this`pending, this`boundaryComplete, this`target, this`readModes, this`unsafe,
               this`latchedFrames, this`recovery
      ensures Latched() && stop == Stop(old(phase), old(pending), old(sampleConfirmed), old(unsafe))
      ensures turn == Turn(|old(line.trace)|, old(line.clock), old(line.lamp), old(line.troubles))
      ensures Continues(old(line.trace), line.trace, after, began + RECOVERY_DEADLINE, true)
      ensures after <= AfterPlan(stop.phase, baseline.value)
      ensures after != [] ==> !stop.latched && |during| == Whole(stop.phase)
      ensures OwnedFrom(line.trace, turn.split, baseline.value.channels, Owned(stop, changed))
      ensures recovery == Pass ==>
                && after == AfterPlan(stop.phase, baseline.value)
                && EndsAt(line.trace, baseline.value, began + RECOVERY_DEADLINE)
      ensures experiment == Pass && recovery == Pass ==>
                during + after == DuringPlan(changed) + CommandPlan(Some(baseline.value.channels), MANUAL)
      ensures old(line.interrupted) ==> line.interrupted
      ensures old(line.troubles) <= line.troubles && CleanedUp(turn, stop, began)
    {
      stop := Stop(phase, pending, sampleConfirmed, unsafe);
      turn := Turn(|line.trace|, line.clock, line.lamp, line.troubles);
      line.cleaning := true;
      var outcome: Result<()>;
      outcome, after := Recover(began + RECOVERY_DEADLINE, |during|, stop);
      recovery := if outcome.Ok? && line.clock - began <= MAX_EXCURSION then Pass else Fail;
    }
  }
}
