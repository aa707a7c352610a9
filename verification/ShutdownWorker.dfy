/**
  The software-Shutdown probe. It may switch the lamp off and must then bring back the original
  mode; only a chain of all-zero observations gives it the authority to replay a Manual vector.
 */
module ShutdownWorker {
  import opened Lamp
  import opened LampLine
  import opened Wrappers

  const MANUAL_MODE_AND_FALLBACK_MARGIN := WRITE_RECOVERY_MARGIN + MANUAL_ZERO_RESTORE_RESERVE

  /** Everything this worker can ever send, in this order and no further. */
  function WholePlan(baseline: State): seq<Frame> {
    [ModeFrame(SHUTDOWN), ModeFrame(baseline.mode)]
    + (if baseline.mode == MANUAL then CommandPlan(Some(baseline.channels), MANUAL) else [])
  }

  predicate ZeroRead(trace: seq<Event>, i: int, mode: int) {
    0 <= i < |trace| && trace[i].Saw? && trace[i].state.mode == mode && trace[i].state.channels == ZERO
  }

  predicate ManualSent(trace: seq<Event>, i: int) {
    0 <= i < |trace| && trace[i].Sent? && trace[i].frame == ModeFrame(MANUAL)
  }

  /** Shutdown was read all-zero, then Manual was sent, then its barrier was confirmed, then two
      later fresh readings saw Manual all-zero. */
  predicate Authority(trace: seq<Event>, off: int, sent: int, barrier: int, first: int, second: int) {
    && off < sent < barrier < first < second
    && ZeroRead(trace, off, SHUTDOWN)
    && ManualSent(trace, sent)
    && BarrierAt(trace, barrier, MANUAL)
    && ZeroRead(trace, first, MANUAL)
    && ZeroRead(trace, second, MANUAL)
  }

  ghost predicate Authorised(trace: seq<Event>, position: int) {
    exists off, sent, barrier, first, second ::
      Authority(trace, off, sent, barrier, first, second) && second < position
  }

  ghost predicate VectorsAuthorised(trace: seq<Event>) {
    forall i | 0 <= i < |trace| && trace[i].Sent? && trace[i].frame.ChannelFrame? :: Authorised(trace, i)
  }

  predicate EndsOriginal(trace: seq<Event>, baseline: State, latest: int) {
    && trace != []
    && var last := trace[|trace| - 1];
       && last.Saw? && last.cleaning
       && last.at <= latest
       && last.state.mode == baseline.mode
       && (baseline.mode == MANUAL ==> last.state.channels == baseline.channels)
  }

  function RecoveryReserve(originalMode: int): nat {
    if originalMode == MANUAL then MANUAL_MODE_AND_FALLBACK_MARGIN else RECOVERY_COMMAND_RESERVE
  }

  /** A Shutdown that this run has to undo: the one it saw confirmed, if it did, with the output of the
      baseline or none. */
  predicate OwnShutdown(s: State, baseline: State, confirmed: Option<State>) {
    && s.profile == baseline.profile && s.mode == SHUTDOWN
    && (s.channels == baseline.channels || s.channels == ZERO)
    && (confirmed.Some? ==> s == confirmed.value)
  }

  /** The original mode, and the original output if that was Manual. */
  predicate Back(shown: State, baseline: State) {
    && shown.profile == baseline.profile && shown.mode == baseline.mode
    && (baseline.mode == MANUAL ==> shown.channels == baseline.channels)
  }

  /** The way back from an own Shutdown, if the lamp keeps its output when it wakes. */
  function WayBack(shown: State, baseline: State): seq<Frame> {
    [ModeFrame(baseline.mode)]
    + (if baseline.mode == MANUAL && shown.channels != baseline.channels
       then CommandPlan(Some(baseline.channels), MANUAL) else [])
  }

  /** If the first clean-up reading is in time and shows an own Shutdown, the original mode follows at once. */
  ghost predicate Answered(trace: seq<Event>, split: nat, began: int, deadline: int, baseline: State,
                           confirmed: Option<State>) {
    forall g: nat | FirstSaw(trace, split, g) && Timely(trace[g].at, began, deadline, RecoveryReserve(baseline.mode)) ::
      OwnShutdown(trace[g].state, baseline, confirmed) ==>
        g + 1 < |trace| && trace[g + 1].Sent? && trace[g + 1].frame == ModeFrame(baseline.mode)
  }

  /** Clean-up sends nothing but behind a first reading that shows an own Shutdown. */
  ghost predicate Justified(trace: seq<Event>, split: nat, baseline: State, confirmed: Option<State>) {
    forall i | split <= i < |trace| && trace[i].Sent? ::
      exists g: nat :: FirstSaw(trace, split, g) && g < i && OwnShutdown(trace[g].state, baseline, confirmed)
  }

  lemma GuardJustifies(split: nat, seen: seq<Event>, trace: seq<Event>, baseline: State, confirmed: Option<State>)
    requires split <= |seen| && seen <= trace && (forall i | split <= i < |seen| :: !seen[i].Sent?)
    requires trace != seen ==>
               && split < |seen| && FirstSaw(seen, split, |seen| - 1)
               && (Frames(trace) != Frames(seen) ==> OwnShutdown(seen[|seen| - 1].state, baseline, confirmed))
    ensures Justified(trace, split, baseline, confirmed)
  {
    assert forall k | split <= k < |seen| :: trace[k] == seen[k];
    forall i | split <= i < |trace| && trace[i].Sent?
      ensures exists g: nat :: FirstSaw(trace, split, g) && g < i && OwnShutdown(trace[g].state, baseline, confirmed)
    {
      assert i >= |seen|;
      SentAddsFrame(seen, trace, i);
      assert FirstSaw(trace, split, |seen| - 1);
    }
  }

  /** The guard reading, if it came in time, is the last event, and an own Shutdown was accepted. */
  ghost predicate GuardSeen(seen: seq<Event>, split: nat, began: int, deadline: int, baseline: State,
                            confirmed: Option<State>, r: Result<State>) {
    forall g: nat | split <= g < |seen| && seen[g].Saw?
      && Timely(seen[g].at, began, deadline, RecoveryReserve(baseline.mode)) ::
      g == |seen| - 1 && (OwnShutdown(seen[g].state, baseline, confirmed) ==> r == Ok(seen[g].state))
  }

  lemma GuardAnswered(split: nat, seen: seq<Event>, trace: seq<Event>, began: int, deadline: int, baseline: State,
                      confirmed: Option<State>, r: Result<State>)
    requires split <= |seen| && seen <= trace && GuardSeen(seen, split, began, deadline, baseline, confirmed, r)
    requires trace != seen ==> split < |seen| && seen[|seen| - 1].Saw?
    requires r.Ok? && OwnShutdown(r.value, baseline, confirmed) ==> SentAt(trace, |seen|, [ModeFrame(baseline.mode)])
    ensures Answered(trace, split, began, deadline, baseline, confirmed)
  {
    forall g: nat | FirstSaw(trace, split, g) && Timely(trace[g].at, began, deadline, RecoveryReserve(baseline.mode))
      ensures OwnShutdown(trace[g].state, baseline, confirmed) ==>
                g + 1 < |trace| && trace[g + 1].Sent? && trace[g + 1].frame == ModeFrame(baseline.mode)
    {
      assert trace[g] == seen[g];
    }
  }

  /** The guard reading `read`, and the frames `sent` that followed from it. */
  lemma RecoveryComposes(start: seq<Event>, seen: seq<Event>, trace: seq<Event>, sent: seq<Frame>, began: int,
                         deadline: int, baseline: State, confirmed: Option<State>, read: Result<State>, free: bool)
    requires Quiet(start, seen, true) && GuardSeen(seen, |start|, began, deadline, baseline, confirmed, read)
    requires if read.Raised? then trace == seen && sent == []
             else
               && |start| < |seen| && FirstSaw(seen, |start|, |seen| - 1)
               && Continues(seen, trace, sent, deadline, true)
    requires read.Ok? && sent != [] ==>
               OwnShutdown(read.value, baseline, confirmed) && seen[|seen| - 1].state == read.value
    requires free && read.Ok? && OwnShutdown(read.value, baseline, confirmed) ==>
               SentAt(trace, |seen|, [ModeFrame(baseline.mode)])
    ensures Continues(start, trace, sent, deadline, true) && Justified(trace, |start|, baseline, confirmed)
    ensures free ==> Answered(trace, |start|, began, deadline, baseline, confirmed)
  {
    QuietFrames(start, seen, true);
    if read.Ok? { ContinuesTransitive(start, seen, trace, [], sent, deadline, true); }
    GuardJustifies(|start|, seen, trace, baseline, confirmed);
    if free { GuardAnswered(|start|, seen, trace, began, deadline, baseline, confirmed, read); }
  }

  lemma ModesAddNoVectors(before: seq<Event>, after: seq<Event>, sent: seq<Frame>, deadline: int, cleaning: bool)
    requires NoVectors(before) && Continues(before, after, sent, deadline, cleaning)
    requires forall f | f in sent :: f.ModeFrame?
    ensures NoVectors(after)
  {
    NoVectorsIff(before);
    NoVectorsIff(after);
  }

  /** Nothing follows a Shutdown that was never sent. */
  lemma PlansJoin(during: seq<Frame>, after: seq<Frame>, baseline: State)
    requires during <= [ModeFrame(SHUTDOWN)] && after <= WholePlan(baseline)[1..]
    requires after != [] ==> during != []
    ensures during + after <= WholePlan(baseline)
  {
    if after != [] {
      assert during == [ModeFrame(SHUTDOWN)];
      assert WholePlan(baseline) == during + WholePlan(baseline)[1..];
    }
  }

  lemma ExcursionComposes(quiet: seq<Event>, middle: seq<Event>, trace: seq<Event>, during: seq<Frame>,
                          after: seq<Frame>, began: int, baseline: State)
    requires Quiet([], quiet, false) && Continues(quiet, middle, during, began + EXPERIMENT, false)
    requires Continues(middle, trace, after, began + RECOVERY_DEADLINE, true)
    requires during <= [ModeFrame(SHUTDOWN)] && after <= WholePlan(baseline)[1..] && (after != [] ==> during != [])
    ensures InTime(trace, began + EXPERIMENT, began + RECOVERY_DEADLINE)
    ensures Frames(trace) == during + after && Frames(trace) <= WholePlan(baseline)
  {
    PhasesInTime(quiet, middle, trace, during, after, began + EXPERIMENT, began + RECOVERY_DEADLINE);
    PlansJoin(during, after, baseline);
  }

  lemma AuthorityCovers(start: seq<Event>, seen: seq<Event>, trace: seq<Event>, off: int, manual: int, barrier: int,
                        first: int)
    requires NoVectors(start) && Quiet(start, seen, true) && start < seen <= trace
    requires off < manual < barrier < first == |start| - 1
    requires ZeroRead(start, off, SHUTDOWN) && ManualSent(start, manual) && BarrierAt(start, barrier, MANUAL)
    requires ZeroRead(start, first, MANUAL) && ZeroRead(seen, |seen| - 1, MANUAL)
    ensures VectorsAuthorised(trace)
  {
    assert forall i | 0 <= i < |start| :: seen[i] == start[i];
    assert forall i | 0 <= i < |seen| :: trace[i] == seen[i];
    forall i | 0 <= i < |trace| && trace[i].Sent? && trace[i].frame.ChannelFrame?
      ensures Authorised(trace, i)
    {
      assert i >= |seen|;
      assert Authority(trace, off, manual, barrier, first, |seen| - 1);
    }
  }

  class ShutdownValidationWorker {
    const line: Line
    const originalMode: int
    const started: int
    var baseline: Option<State>
    var shutdownState: Option<State>
    var excursionStarted: Option<int>
    var shutdownDeliveryStarted: bool
    var rejectedObservation: bool
    var manualResumeBarrierConfirmed: bool
    var reportingError: bool
    var experiment: Verdict
    var recovery: Verdict
    var status: Verdict

    constructor (line: Line, originalMode: int)
      requires originalMode == AUTOMATIC || originalMode == MANUAL
      ensures this.line == line && this.originalMode == originalMode && started == line.clock
      ensures baseline.None? && shutdownState.None? && excursionStarted.None?
      ensures !shutdownDeliveryStarted && !rejectedObservation && !manualResumeBarrierConfirmed && !reportingError
      ensures experiment == recovery == NotTested && status != Pass
    {
      this.line, this.originalMode, started := line, originalMode, line.clock;
      baseline, shutdownState, excursionStarted := None, None, None;
      shutdownDeliveryStarted, rejectedObservation, manualResumeBarrierConfirmed := false, false, false;
      reportingError, experiment, recovery, status := false, NotTested, NotTested, Fail;
    }

    /** What a lost reading may have shown depends on whether Shutdown was sent and on the phase. */
    function ReadPolicy(): Policy
      reads this, line
    {
      Policy({AUTOMATIC, MANUAL, SHUTDOWN},
             if !shutdownDeliveryStarted then None
             else Some(if line.cleaning then {originalMode, SHUTDOWN} else {SHUTDOWN}),
             false, true)
    }

    /** `_send_mode`. */
    method SendMode(mode: int, deadline: int) returns (r: Result<State>, ghost sent: seq<Frame>)
      requires mode == originalMode || mode == SHUTDOWN
      modifies line, this`shutdownDeliveryStarted, this`rejectedObservation, this`manualResumeBarrierConfirmed
      ensures line.clock >= old(line.clock) && line.cleaning == old(line.cleaning)
      ensures old(line.interrupted) ==> line.interrupted
      ensures sent <= [ModeFrame(mode)] && Continues(old(line.trace), line.trace, sent, deadline, line.cleaning)
      ensures r.Ok? ==> sent == [ModeFrame(mode)] && line.JustRead(old(line.trace), r.value)
                        && SentAt(line.trace, |old(line.trace)|, [ModeFrame(mode)])
      ensures r.Ok? && line.cleaning ==>
                && r.value.mode == mode
                && (mode == MANUAL ==> line.clock <= deadline - MANUAL_ZERO_RESTORE_RESERVE)
                && (manualResumeBarrierConfirmed && !old(manualResumeBarrierConfirmed) ==>
                      BarrierBetween(line.trace, |old(line.trace)| + 1, |line.trace| - 1, MANUAL))
      ensures var margin := WRITE_RECOVERY_MARGIN + if mode == MANUAL then MANUAL_ZERO_RESTORE_RESERVE else 0;
              line.cleaning && old(line.clock) <= deadline - margin ==> sent != []
      ensures shutdownDeliveryStarted == (old(shutdownDeliveryStarted) || (mode == SHUTDOWN && sent != []))
      ensures old(rejectedObservation) ==> rejectedObservation
      ensures rejectedObservation ==> old(rejectedObservation) || r == Raised(Unsafe)
      ensures manualResumeBarrierConfirmed ==> old(manualResumeBarrierConfirmed) || (line.cleaning && mode == MANUAL)
      ensures SentAt(line.trace, |old(line.trace)|, sent) && old(line.troubles) <= line.troubles
      ensures var reserve := if line.cleaning && mode == MANUAL then MANUAL_ZERO_RESTORE_RESERVE else 0;
              (&& line.troubles == old(line.troubles) && old(line.clock) <= deadline - (WRITE_RECOVERY_MARGIN + reserve)
               && old(line.lamp).profile == line.profile && ValidChannels(old(line.lamp).channels)
               && mode in {AUTOMATIC, MANUAL, SHUTDOWN}) ==>
                && line.Honest(r)
                && line.lamp == (if sent == [] then old(line.lamp) else Driven(old(line.lamp), None, mode))
                && line.clock <= old(line.clock) + COMMAND_TIME && rejectedObservation == old(rejectedObservation)
                && (line.cleaning && mode == MANUAL ==> manualResumeBarrierConfirmed)
    {
      sent := [];
      var reserve := if line.cleaning && mode == MANUAL then MANUAL_ZERO_RESTORE_RESERVE else 0;
      var stop := line.CheckStop();
      if stop { return Raised(Stopped), sent; }
      if deadline - line.clock < WRITE_RECOVERY_MARGIN + reserve { return Raised(Deadline), sent; }
      if mode == SHUTDOWN { shutdownDeliveryStarted := true; }
      var contradiction, barred: bool;
      r, contradiction, barred, sent :=
        line.Command(None, mode, deadline, WRITE_RECOVERY_MARGIN + reserve, reserve, ReadPolicy());
      if contradiction { rejectedObservation := true; }
      if line.cleaning && mode == MANUAL && barred { manualResumeBarrierConfirmed := true; }
    }

    /** `_recover`: restore the mode from an explained Shutdown reading, and the vector only with
        full authority. */
    method Recover(deadline: int) returns (r: Result<()>, ghost sent: seq<Frame>)
      requires line.cleaning && baseline.Some? && baseline.value.profile == line.profile
               && baseline.value.mode == originalMode
      requires !manualResumeBarrierConfirmed && NoVectors(line.trace)
      requires originalMode == AUTOMATIC || originalMode == MANUAL
      modifies line, this`shutdownDeliveryStarted, this`rejectedObservation, this`manualResumeBarrierConfirmed
      ensures line.clock >= old(line.clock) && line.cleaning
      ensures old(line.interrupted) ==> line.interrupted
      ensures Continues(old(line.trace), line.trace, sent, deadline, true)
      ensures sent <= WholePlan(baseline.value)[1..]
      ensures sent != [] ==> old(shutdownDeliveryStarted)
      ensures VectorsAuthorised(line.trace)
      ensures r.Ok? ==> EndsOriginal(line.trace, baseline.value, line.clock)
      ensures shutdownDeliveryStarted == old(shutdownDeliveryStarted)
      ensures old(rejectedObservation) ==> rejectedObservation
      ensures Attempted(line.trace, |old(line.trace)|, old(line.clock), deadline, RecoveryReserve(originalMode))
      ensures Justified(line.trace, |old(line.trace)|, baseline.value, shutdownState)
      ensures shutdownDeliveryStarted && !old(rejectedObservation) ==>
                Answered(line.trace, |old(line.trace)|, old(line.clock), deadline, baseline.value, shutdownState)
      ensures old(line.troubles) <= line.troubles
      ensures (&& line.troubles == old(line.troubles) && !old(rejectedObservation) && shutdownDeliveryStarted
               && OwnShutdown(old(line.lamp), baseline.value, shutdownState) && ValidChannels(baseline.value.channels)
               && old(line.clock) + 2 * PROMPT < deadline - RecoveryReserve(originalMode)) ==>
                && r.Ok? && sent == WayBack(old(line.lamp), baseline.value) && Back(line.lamp, baseline.value)
                && line.clock <= old(line.clock) + 4 * PROMPT + 2 * COMMAND_TIME
      ensures (&& line.troubles == old(line.troubles) && !old(rejectedObservation)
               && old(line.lamp) == baseline.value && shutdownState.None? && ValidChannels(baseline.value.channels)
               && old(line.clock) + 2 * PROMPT < deadline - RecoveryReserve(originalMode)) ==>
                r.Ok? && sent == [] && line.lamp == old(line.lamp) && line.clock <= old(line.clock) + 2 * PROMPT
    {
      sent := [];
      ghost var start := line.trace;
      var read := Guard(deadline);
      ghost var seen, began := line.trace, old(line.clock);
      if read.Raised? {
        r := Raised(read.fault);
        assert seen + [] == seen;
      } else {
        r, sent := Decide(read.value, deadline);
      }
      RecoveryComposes(start, seen, line.trace, sent, began, deadline, baseline.value, shutdownState, read,
                       shutdownDeliveryStarted && !old(rejectedObservation));
    }

    /** The guard reading of `_recover`, which must repeat a Shutdown that the experiment confirmed. */
    method Guard(deadline: int) returns (r: Result<State>)
      requires line.cleaning && baseline.Some? && baseline.value.mode == originalMode
      requires originalMode == AUTOMATIC || originalMode == MANUAL
      requires NoVectors(line.trace)
      modifies line, this`rejectedObservation
      ensures line.clock >= old(line.clock) && line.cleaning
      ensures old(line.interrupted) ==> line.interrupted
      ensures Quiet(old(line.trace), line.trace, true) && NoVectors(line.trace)
      ensures Attempted(line.trace, |old(line.trace)|, old(line.clock), deadline, RecoveryReserve(originalMode))
      ensures old(rejectedObservation) ==> rejectedObservation
      ensures r.Ok? ==> old(line.trace) < line.trace && line.trace[|line.trace| - 1] == Saw(r.value, line.clock, true)
      ensures r.Ok? ==>
                |old(line.trace)| < |line.trace| && FirstSaw(line.trace, |old(line.trace)|, |line.trace| - 1)
      ensures r.Ok? ==> r.value.profile == line.profile && line.clock <= deadline - RecoveryReserve(originalMode)
      ensures r.Ok? ==> rejectedObservation == old(rejectedObservation)
      ensures GuardSeen(line.trace, |old(line.trace)|, old(line.clock), deadline, baseline.value, shutdownState, r)
      ensures old(line.troubles) <= line.troubles
      ensures (&& line.troubles == old(line.troubles) && old(line.lamp).profile == line.profile
               && old(line.lamp).mode in {AUTOMATIC, MANUAL, SHUTDOWN} && ValidChannels(old(line.lamp).channels)
               && (shutdownState.Some? ==> old(line.lamp).mode == SHUTDOWN)
               && old(line.clock) + 2 * PROMPT < deadline - RecoveryReserve(originalMode)) ==>
                r == Ok(old(line.lamp)) && line.lamp == old(line.lamp) && line.clock <= old(line.clock) + 2 * PROMPT
    {
      ghost var start := line.trace;
      var expected := if shutdownState.Some? then Some(SHUTDOWN) else None;
      var contradiction: bool;
      r, contradiction := line.FreshRecoveryRead(deadline, RecoveryReserve(originalMode), expected, ReadPolicy());
      if contradiction { rejectedObservation := true; }
      QuietFrames(start, line.trace, true);
      NoVectorsIff(start);
      NoVectorsIff(line.trace);
    }

    /** What `_recover` does with its guard reading. */
    method Decide(current: State, deadline: int) returns (r: Result<()>, ghost sent: seq<Frame>)
      requires line.cleaning && baseline.Some? && baseline.value.profile == line.profile
               && baseline.value.mode == originalMode
      requires !manualResumeBarrierConfirmed && NoVectors(line.trace)
      requires originalMode == AUTOMATIC || originalMode == MANUAL
      requires current.profile == line.profile
      requires line.trace != [] && line.trace[|line.trace| - 1] == Saw(current, line.clock, true)
      requires line.clock <= deadline - RecoveryReserve(originalMode)
      modifies line, this`shutdownDeliveryStarted, this`rejectedObservation, this`manualResumeBarrierConfirmed
      ensures line.clock >= old(line.clock) && line.cleaning
      ensures old(line.interrupted) ==> line.interrupted
      ensures Continues(old(line.trace), line.trace, sent, deadline, true)
      ensures sent <= WholePlan(baseline.value)[1..]
      ensures sent != [] ==> old(shutdownDeliveryStarted) && OwnShutdown(current, baseline.value, shutdownState)
      ensures VectorsAuthorised(line.trace)
      ensures r.Ok? ==> EndsOriginal(line.trace, baseline.value, line.clock)
      ensures shutdownDeliveryStarted == old(shutdownDeliveryStarted)
      ensures old(rejectedObservation) ==> rejectedObservation
      ensures (&& old(shutdownDeliveryStarted) && !old(rejectedObservation)
               && OwnShutdown(current, baseline.value, shutdownState)) ==>
                SentAt(line.trace, |old(line.trace)|, [ModeFrame(originalMode)])
      ensures old(line.troubles) <= line.troubles
      ensures (&& line.troubles == old(line.troubles) && old(line.lamp) == current && !old(rejectedObservation)
               && shutdownDeliveryStarted && OwnShutdown(current, baseline.value, shutdownState)
               && ValidChannels(baseline.value.channels)) ==>
                && r.Ok? && sent == WayBack(current, baseline.value) && Back(line.lamp, baseline.value)
                && line.clock <= old(line.clock) + 2 * PROMPT + 2 * COMMAND_TIME
      ensures !old(rejectedObservation) && current == baseline.value && shutdownState.None? ==>
                r.Ok? && sent == [] && line.lamp == old(line.lamp) && line.clock == old(line.clock)
    {
      sent := [];
      var original := baseline.value;
      if rejectedObservation { return Raised(Unsafe), sent; }
      if current == original && shutdownState.None? { return Ok(()), sent; }
      if !shutdownDeliveryStarted || current.mode != SHUTDOWN { return Raised(Unsafe), sent; }
      if current.channels != original.channels && current.channels != ZERO { return Raised(Unsafe), sent; }
      if shutdownState.Some? && current != shutdownState.value { return Raised(Unsafe), sent; }
      r, sent := RestoreMode(current, deadline);
    }

    method RestoreMode(current: State, deadline: int) returns (r: Result<()>, ghost sent: seq<Frame>)
      requires line.cleaning && baseline.Some? && baseline.value.profile == line.profile
               && baseline.value.mode == originalMode
      requires !manualResumeBarrierConfirmed && NoVectors(line.trace)
      requires originalMode == AUTOMATIC || originalMode == MANUAL
      requires current.mode == SHUTDOWN
      requires line.trace != [] && line.trace[|line.trace| - 1] == Saw(current, line.clock, true)
      requires line.clock <= deadline - RecoveryReserve(originalMode)
      modifies line, this`shutdownDeliveryStarted, this`rejectedObservation, this`manualResumeBarrierConfirmed
      ensures sent != []
      ensures line.clock >= old(line.clock) && line.cleaning
      ensures old(line.interrupted) ==> line.interrupted
      ensures Continues(old(line.trace), line.trace, sent, deadline, true)
      ensures sent <= WholePlan(baseline.value)[1..]
      ensures VectorsAuthorised(line.trace)
      ensures r.Ok? ==> EndsOriginal(line.trace, baseline.value, line.clock)
      ensures shutdownDeliveryStarted == old(shutdownDeliveryStarted)
      ensures old(rejectedObservation) ==> rejectedObservation
      ensures SentAt(line.trace, |old(line.trace)|, [ModeFrame(originalMode)])
      ensures old(line.troubles) <= line.troubles
      ensures (&& line.troubles == old(line.troubles) && old(line.lamp) == current && current.profile == line.profile
               && (current.channels == baseline.value.channels || current.channels == ZERO)
               && ValidChannels(baseline.value.channels)) ==>
                && r.Ok? && sent == WayBack(current, baseline.value) && Back(line.lamp, baseline.value)
                && line.clock <= old(line.clock) + 2 * PROMPT + 2 * COMMAND_TIME
    {
      var original := baseline.value;
      var shutdownWasZero := current.channels == ZERO;
      ghost var start := line.trace;
      var restored: Result<State>;
      restored, sent := SendMode(originalMode, deadline);
      ModesAddNoVectors(start, line.trace, sent, deadline, true);
      if restored.Raised? { return Raised(restored.fault), sent; }
      if restored.value.mode != originalMode { return Raised(Unsafe), sent; }
      if originalMode == MANUAL && restored.value.channels != original.channels {
        if !shutdownWasZero || restored.value.channels != ZERO { return Raised(Unsafe), sent; }
        if !manualResumeBarrierConfirmed { return Raised(Unsafe), sent; }
        ghost var resumed := line.trace;
        ghost var more: seq<Frame>;
        r, more := ReplayVector(deadline, |start| - 1, |start|, |resumed| - 1);
        assert line.trace[|start|] == resumed[|start|];
        ContinuesTransitive(start, resumed, line.trace, sent, more, deadline, true);
        sent := sent + more;
        assert WholePlan(original)[1..] == [ModeFrame(MANUAL)] + CommandPlan(Some(original.channels), MANUAL);
        return;
      }
      return Ok(()), sent;
    }

    method ReplayVector(deadline: int, ghost off: nat, ghost manual: nat, ghost first: nat)
      returns (r: Result<()>, ghost sent: seq<Frame>)
      requires line.cleaning && baseline.Some? && baseline.value.mode == originalMode == MANUAL
      requires NoVectors(line.trace) && off < manual < first == |line.trace| - 1
      requires ZeroRead(line.trace, off, SHUTDOWN) && ManualSent(line.trace, manual)
      requires BarrierBetween(line.trace, manual + 1, first, MANUAL) && ZeroRead(line.trace, first, MANUAL)
      modifies line, this`rejectedObservation
      ensures line.clock >= old(line.clock) && line.cleaning
      ensures old(line.interrupted) ==> line.interrupted
      ensures Continues(old(line.trace), line.trace, sent, deadline, true)
      ensures sent <= CommandPlan(Some(baseline.value.channels), MANUAL)
      ensures VectorsAuthorised(line.trace)
      ensures r.Ok? ==> EndsOriginal(line.trace, baseline.value, line.clock)
      ensures old(rejectedObservation) ==> rejectedObservation
      ensures old(line.troubles) <= line.troubles
      ensures (&& line.troubles == old(line.troubles) && old(line.lamp) == State(MANUAL, line.profile, ZERO)
               && ValidChannels(baseline.value.channels)
               && old(line.clock) + 2 * PROMPT < deadline - WRITE_RECOVERY_MARGIN) ==>
                && r.Ok? && sent == CommandPlan(Some(baseline.value.channels), MANUAL)
                && line.lamp == State(MANUAL, line.profile, baseline.value.channels)
                && line.clock <= old(line.clock) + 2 * PROMPT + COMMAND_TIME
    {
      sent := [];
      ghost var start := line.trace;
      var guard, contradiction := line.FreshRecoveryRead(deadline, WRITE_RECOVERY_MARGIN, Some(MANUAL), ReadPolicy());
      if contradiction { rejectedObservation := true; }
      QuietFrames(start, line.trace, true);
      if guard.Raised? { return Raised(guard.fault), sent; }
      if guard.value.channels != ZERO { return Raised(Unsafe), sent; }
      ghost var seen := line.trace;
      r, sent := WriteVector(deadline);
      ContinuesTransitive(start, seen, line.trace, [], sent, deadline, true);
      ghost var barrier :| BarrierAt(start, barrier, MANUAL) && manual + 1 <= barrier < first;
      AuthorityCovers(start, seen, line.trace, off, manual, barrier, first);
    }

    /** The original vector under Manual, once; `ReplayVector` supplies its authority. */
    method WriteVector(deadline: int) returns (r: Result<()>, ghost sent: seq<Frame>)
      requires line.cleaning && baseline.Some? && baseline.value.mode == MANUAL
      requires line.clock <= deadline - WRITE_RECOVERY_MARGIN
      modifies line, this`rejectedObservation
      ensures sent != [] && (r.Ok? ==> sent == CommandPlan(Some(baseline.value.channels), MANUAL))
      ensures line.clock >= old(line.clock) && line.cleaning
      ensures old(line.interrupted) ==> line.interrupted
      ensures Continues(old(line.trace), line.trace, sent, deadline, true)
      ensures sent <= CommandPlan(Some(baseline.value.channels), MANUAL)
      ensures r.Ok? ==> EndsOriginal(line.trace, baseline.value, line.clock)
      ensures old(rejectedObservation) ==> rejectedObservation
      ensures old(line.troubles) <= line.troubles
      ensures (&& line.troubles == old(line.troubles) && old(line.lamp).profile == line.profile
               && ValidChannels(baseline.value.channels)) ==>
                && r.Ok? && sent == CommandPlan(Some(baseline.value.channels), MANUAL)
                && line.lamp == State(MANUAL, line.profile, baseline.value.channels)
                && line.clock <= old(line.clock) + COMMAND_TIME
    {
      var restored: Result<State>;
      var contradiction, barred: bool;
      restored, contradiction, barred, sent :=
        line.Command(Some(baseline.value.channels), MANUAL, deadline, WRITE_RECOVERY_MARGIN, 0, ReadPolicy());
      if contradiction { rejectedObservation := true; }
      if restored.Raised? { return Raised(restored.fault), sent; }
      if restored.value.channels != baseline.value.channels { return Raised(Unsafe), sent; }
      return Ok(()), sent;
    }

    /** Evidence can fail to persist only before the excursion. */
    method Persist() returns (r: Result<()>)
      modifies this`reportingError
      ensures r.Raised? ==> r.fault == Unpersisted && reportingError
      ensures old(reportingError) ==> reportingError
    {
      var persisted: bool := *;
      if !persisted {
        reportingError := true;
        return Raised(Unpersisted);
      }
      return Ok(());
    }

    /** Two equal fresh readings of the selected mode, and a third after the durable intent. */
    method Preflight() returns (r: Result<()>)
      requires !line.cleaning && !shutdownDeliveryStarted && excursionStarted.None? && line.trace == []
      modifies line, this`baseline, this`reportingError
      ensures !line.cleaning && line.clock >= old(line.clock)
      ensures old(line.interrupted) ==> line.interrupted
      ensures old(reportingError) ==> reportingError
      ensures Quiet(old(line.trace), line.trace, false)
      ensures r.Ok? ==> baseline.Some? && Rehearsed(line.trace, 3, baseline.value)
      ensures r.Ok? ==>
                && baseline.Some? && baseline.value.profile == line.profile && baseline.value.mode == originalMode
                && ValidChannels(baseline.value.channels)
      ensures old(line.troubles) <= line.troubles
      ensures line.troubles == old(line.troubles) ==>
                && line.lamp == old(line.lamp) && (r.Ok? ==> baseline == Some(line.lamp))
                && ((&& !line.interrupted && !reportingError && old(line.clock) + 6 * PROMPT < started + IO_PREFLIGHT
                     && line.lamp.profile == line.profile && line.lamp.mode == originalMode
                     && originalMode in {AUTOMATIC, MANUAL} && ValidChannels(line.lamp.channels)) ==> r.Ok?)
    {
      var deadline := started + IO_PREFLIGHT;
      r := Persist();
      if r.Raised? { return; }
      var first, contradiction := line.Read(deadline, true, ReadPolicy());
      if first.Raised? { return Raised(first.fault); }
      var second: Result<State>;
      second, contradiction := line.Read(deadline, false, ReadPolicy());
      if second.Raised? { return Raised(second.fault); }
      baseline := Some(second.value);
      if first.value != second.value || second.value.mode != originalMode { return Raised(Unsafe); }
      r := Persist();
      if r.Raised? { return; }
      var third: Result<State>;
      third, contradiction := line.Read(deadline, true, ReadPolicy());
      if third.Raised? { return Raised(third.fault); }
      if third.value != second.value { return Raised(Unsafe); }
      var stop := line.CheckStop();
      return if stop then Raised(Stopped) else Ok(());
    }

    method Experiment(deadline: int) returns (r: Result<()>, ghost sent: seq<Frame>)
      requires !line.cleaning && baseline.Some? && !shutdownDeliveryStarted && !manualResumeBarrierConfirmed
      requires baseline.value.profile == line.profile
      modifies line, this`shutdownDeliveryStarted, this`rejectedObservation, this`manualResumeBarrierConfirmed,
               this`shutdownState
      ensures line.clock >= old(line.clock) && !line.cleaning && !manualResumeBarrierConfirmed
      ensures old(line.interrupted) ==> line.interrupted
      ensures sent <= [ModeFrame(SHUTDOWN)] && (shutdownDeliveryStarted <==> sent != [])
      ensures Continues(old(line.trace), line.trace, sent, deadline, false)
      ensures rejectedObservation == (old(rejectedObservation) || r == Raised(Unsafe))
      ensures r.Ok? ==> shutdownState.Some? && OwnShutdown(shutdownState.value, baseline.value, shutdownState)
      ensures r.Raised? ==> shutdownState == old(shutdownState)
      ensures old(line.troubles) <= line.troubles
      ensures (&& line.troubles == old(line.troubles) && old(line.clock) <= deadline - WRITE_RECOVERY_MARGIN
               && old(line.lamp) == baseline.value && ValidChannels(baseline.value.channels)) ==>
                && (r.Ok? || line.interrupted) && rejectedObservation == old(rejectedObservation)
                && line.lamp == (if sent == [] then baseline.value else State(SHUTDOWN, line.profile, ZERO))
                && (r.Ok? ==> sent == [ModeFrame(SHUTDOWN)] && shutdownState == Some(line.lamp))
                && (old(shutdownState).None? ==> Reversible(line.lamp))
                && line.clock <= old(line.clock) + COMMAND_TIME
    {
      var after: Result<State>;
      after, sent := SendMode(SHUTDOWN, deadline);
      if after.Raised? {
        if after.fault == Unsafe { rejectedObservation := true; }
        return Raised(after.fault), sent;
      }
      if after.value.mode != SHUTDOWN
         || (after.value.channels != baseline.value.channels && after.value.channels != ZERO) {
        rejectedObservation := true;
        return Raised(Unsafe), sent;
      }
      shutdownState := Some(after.value);
      return Ok(()), sent;
    }

    /** How a started excursion turned into its clean-up and how that ended: it was attempted, an own
        Shutdown was answered unless the experiment met a contradiction, and without a further fault the lamp
        came back. */
    ghost predicate CleanedUp(turn: Turn, rejected: bool, began: int)
      requires baseline.Some?
      reads this`baseline, this`shutdownState, this`shutdownDeliveryStarted, this`recovery
      reads line`trace, line`clock, line`troubles, line`lamp
    {
      var deadline := began + RECOVERY_DEADLINE;
      && began <= turn.at <= line.clock && turn.faults <= line.troubles
      && Attempted(line.trace, turn.split, turn.at, deadline, RecoveryReserve(originalMode))
      && Justified(line.trace, turn.split, baseline.value, shutdownState)
      && (shutdownDeliveryStarted && !rejected ==>
            Answered(line.trace, turn.split, turn.at, deadline, baseline.value, shutdownState))
      && (line.troubles == turn.faults && !rejected && Restorable(turn, began) ==>
            recovery == Pass && Back(line.lamp, baseline.value))
    }

    /** The lamp shows what a clean-up that begins in time can undo. */
    predicate Restorable(turn: Turn, began: int)
      requires baseline.Some?
      reads this`baseline, this`shutdownState, this`shutdownDeliveryStarted
    {
      Reversible(turn.shown) && turn.at + 2 * PROMPT < began + RECOVERY_DEADLINE - RecoveryReserve(originalMode)
    }

    /** An own Shutdown, or the baseline if no Shutdown was seen. */
    predicate Reversible(shown: State)
      requires baseline.Some?
      reads this`baseline, this`shutdownState, this`shutdownDeliveryStarted
    {
      || (shutdownDeliveryStarted && OwnShutdown(shown, baseline.value, shutdownState))
      || (shown == baseline.value && shutdownState.None?)
    }

    /** `run`: every frame is the next one of the fixed plan, the vector needs full authority, and
        a PASS is backed by a final reading of the original mode (and vector, under Manual). Whenever a
        signal stops the run, an honest and prompt lamp is brought back; without one the run passes. */
    method Run() returns (ghost turn: Turn, ghost rejected: bool)
      requires line.trace == [] && !line.cleaning && baseline.None? && shutdownState.None? && excursionStarted.None?
      requires !shutdownDeliveryStarted && !rejectedObservation && !manualResumeBarrierConfirmed
      requires experiment == recovery == NotTested && !reportingError
      requires originalMode == AUTOMATIC || originalMode == MANUAL
      modifies this, line
      ensures excursionStarted.None? ==> Frames(line.trace) == [] && status == Fail
      ensures excursionStarted.Some? ==>
                && baseline.Some? && Rehearsed(line.trace, 3, baseline.value)
                && baseline.Some? && baseline.value.mode == originalMode
                && Frames(line.trace) <= WholePlan(baseline.value)
                && InTime(line.trace, excursionStarted.value + 3000, excursionStarted.value + 9500)
                && CleanedUp(turn, rejected, excursionStarted.value)
      ensures VectorsAuthorised(line.trace)
      ensures status == Pass ==>
                && excursionStarted.Some?
                && EndsOriginal(line.trace, baseline.value, excursionStarted.value + 10000)
                && !line.interrupted && !reportingError
      ensures line.troubles == old(line.troubles) ==>
                if excursionStarted.Some? then recovery == Pass && Back(line.lamp, old(line.lamp))
                else line.lamp == old(line.lamp)
      ensures (&& line.troubles == old(line.troubles) && !line.interrupted && !reportingError
               && old(line.clock) + 6 * PROMPT < started + IO_PREFLIGHT
               && old(line.lamp).profile == line.profile && old(line.lamp).mode == originalMode
               && ValidChannels(old(line.lamp).channels)) ==>
                && status == Pass && baseline == Some(old(line.lamp))
                && Frames(line.trace) ==
                   [ModeFrame(SHUTDOWN)] + WayBack(State(SHUTDOWN, line.profile, ZERO), old(line.lamp))
    {
      turn, rejected := Conduct();
      line.Close();
      status := if experiment == Pass && recovery == Pass && !line.interrupted && !reportingError then Pass else Fail;
    }

    /** The whole run up to its verdict. */
    method Conduct() returns (ghost turn: Turn, ghost rejected: bool)
      requires line.trace == [] && !line.cleaning && baseline.None? && shutdownState.None? && excursionStarted.None?
      requires !shutdownDeliveryStarted && !rejectedObservation && !manualResumeBarrierConfirmed
      requires experiment == recovery == NotTested && !reportingError
      requires originalMode == AUTOMATIC || originalMode == MANUAL
      modifies this, line
      ensures excursionStarted.None? ==> Frames(line.trace) == [] && experiment == NotTested
      ensures excursionStarted.Some? ==>
                && baseline.Some? && Rehearsed(line.trace, 3, baseline.value)
                && baseline.value.mode == originalMode && Frames(line.trace) <= WholePlan(baseline.value)
                && InTime(line.trace, excursionStarted.value + EXPERIMENT, excursionStarted.value + RECOVERY_DEADLINE)
                && CleanedUp(turn, rejected, excursionStarted.value)
                && (recovery == Pass ==>
                      EndsOriginal(line.trace, baseline.value, excursionStarted.value + MAX_EXCURSION))
      ensures VectorsAuthorised(line.trace)
      ensures line.troubles == old(line.troubles) ==>
                if excursionStarted.Some? then recovery == Pass && Back(line.lamp, old(line.lamp))
                else line.lamp == old(line.lamp)
      ensures (&& line.troubles == old(line.troubles) && !line.interrupted && !reportingError
               && old(line.clock) + 6 * PROMPT < started + IO_PREFLIGHT
               && old(line.lamp).profile == line.profile && old(line.lamp).mode == originalMode
               && ValidChannels(old(line.lamp).channels)) ==>
                && experiment == recovery == Pass && baseline == Some(old(line.lamp))
                && Frames(line.trace) ==
                   [ModeFrame(SHUTDOWN)] + WayBack(State(SHUTDOWN, line.profile, ZERO), old(line.lamp))
    {
      turn, rejected := Turn(0, line.clock, line.lamp, line.troubles), false;
      var outcome := Preflight();
      QuietFrames([], line.trace, false);
      NoVectorsIff(line.trace);
      if outcome.Ok? {
        excursionStarted := Some(line.clock);
        turn, rejected := Excursion(line.clock);
      } else {
        if outcome.fault == Unsafe { rejectedObservation := true; }
      }
    }

    method Excursion(began: int) returns (ghost turn: Turn, ghost rejected: bool)
      requires !line.cleaning && baseline.Some? && baseline.value.profile == line.profile
               && baseline.value.mode == originalMode && ValidChannels(baseline.value.channels) && began == line.clock
      requires originalMode == AUTOMATIC || originalMode == MANUAL
      requires Quiet([], line.trace, false) && !shutdownDeliveryStarted && !manualResumeBarrierConfirmed
      modifies line, this`shutdownDeliveryStarted, this`rejectedObservation, this`manualResumeBarrierConfirmed,
               this`shutdownState, this`experiment, this`recovery
      ensures Frames(line.trace) <= WholePlan(baseline.value)
      ensures InTime(line.trace, began + EXPERIMENT, began + RECOVERY_DEADLINE)
      ensures VectorsAuthorised(line.trace)
      ensures recovery == Pass ==> EndsOriginal(line.trace, baseline.value, began + MAX_EXCURSION)
      ensures old(line.interrupted) ==> line.interrupted
      ensures old(line.trace) <= line.trace
      ensures old(line.troubles) <= line.troubles && CleanedUp(turn, rejected, began)
      ensures (&& line.troubles == old(line.troubles) && !old(rejectedObservation)
               && old(shutdownState).None? && old(line.lamp) == baseline.value) ==>
                recovery == Pass && Back(line.lamp, baseline.value)
      ensures (&& line.troubles == old(line.troubles) && !line.interrupted && !old(rejectedObservation)
               && old(shutdownState).None? && old(line.lamp) == baseline.value) ==>
                && experiment == Pass
                && Frames(line.trace) ==
                   [ModeFrame(SHUTDOWN)] + WayBack(State(SHUTDOWN, line.profile, ZERO), baseline.value)
    {
      ghost var quiet := line.trace;
      QuietFrames([], quiet, false);
      NoVectorsIff(quiet);
      var outcome, during := Experiment(began + EXPERIMENT);
      ModesAddNoVectors(quiet, line.trace, during, began + EXPERIMENT, false);
      experiment := if outcome.Ok? then Pass else Fail;
      ghost var middle := line.trace;
      rejected := rejectedObservation;
      ghost var after: seq<Frame>;
      after, turn := CleanUp(began);
      ExcursionComposes(quiet, middle, line.trace, during, after, began, baseline.value);
    }

    /** The clean-up that always follows. */
    method CleanUp(began: int) returns (ghost after: seq<Frame>, ghost turn: Turn)
      requires !line.cleaning && baseline.Some? && baseline.value.profile == line.profile
               && baseline.value.mode == originalMode && ValidChannels(baseline.value.channels) && began <= line.clock
      requires originalMode == AUTOMATIC || originalMode == MANUAL
      requires !manualResumeBarrierConfirmed && NoVectors(line.trace)
      modifies line, this`shutdownDeliveryStarted, this`rejectedObservation, this`manualResumeBarrierConfirmed,
               this`recovery
      ensures turn == Turn(|old(line.trace)|, old(line.clock), old(line.lamp), old(line.troubles))
      ensures Continues(old(line.trace), line.trace, after, began + RECOVERY_DEADLINE, true)
      ensures after <= WholePlan(baseline.value)[1..] && (after != [] ==> old(shutdownDeliveryStarted))
      ensures shutdownDeliveryStarted == old(shutdownDeliveryStarted)
      ensures VectorsAuthorised(line.trace)
      ensures recovery == Pass ==> EndsOriginal(line.trace, baseline.value, began + MAX_EXCURSION)
      ensures old(line.interrupted) ==> line.interrupted
      ensures old(line.troubles) <= line.troubles && CleanedUp(turn, old(rejectedObservation), began)
      ensures (&& line.troubles == old(line.troubles) && !old(rejectedObservation) && shutdownDeliveryStarted
               && OwnShutdown(old(line.lamp), baseline.value, shutdownState)
               && old(line.clock) + 2 * PROMPT < began + RECOVERY_DEADLINE - RecoveryReserve(originalMode)) ==>
                recovery == Pass && after == WayBack(old(line.lamp), baseline.value)
    {
      turn := Turn(|line.trace|, line.clock, line.lamp, line.troubles);
      line.cleaning := true;
      var outcome: Result<()>;
      outcome, after := Recover(began + RECOVERY_DEADLINE);
      recovery := Fail;
      if outcome.Ok? && line.clock - began <= MAX_EXCURSION {
        recovery := Pass;
      }
    }
  }
}
