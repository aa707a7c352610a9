/**
  The bounded single-channel experiment with guarded clean-up. Whatever the device answers and
  however long it takes, the trace of frames follows a fixed plan, clean-up writes need a reading
  that this run can explain, and a PASS is backed by a final reading.
 */
module BaseWorker {
  import opened Lamp
  import opened LampLine
  import opened Wrappers

  const READ_POLICY := Policy({AUTOMATIC, MANUAL}, None, false, true)

  /** The vector under Manual, then the original mode. */
  function RestorePlan(baseline: State): seq<Frame> {
    CommandPlan(Some(baseline.channels), MANUAL)
    + (if baseline.mode == MANUAL then [] else CommandPlan(None, baseline.mode))
  }

  /** The clean-up that an explained reading still needs. */
  function NeededFrames(current: State, baseline: State): seq<Frame> {
    if current.channels != baseline.channels then RestorePlan(baseline)
    else if current.mode != baseline.mode then CommandPlan(None, baseline.mode)
    else []
  }

  /** Clean-up either restores the vector and then the original mode, or the mode only. */
  predicate RestoreFrames(sent: seq<Frame>, baseline: State) {
    sent <= RestorePlan(baseline) || sent <= CommandPlan(None, baseline.mode)
  }

  /** A reading that this run can explain: the baseline or the one planned change, in a mode that
      has not been taken over. */
  predicate Explained(s: State, baseline: State, changed: Channels) {
    && (s.channels == baseline.channels || s.channels == changed)
    && (baseline.mode == MANUAL ==> s.mode == MANUAL)
  }

  /** Every frame from position `start` on comes after an explained reading made from `start` on with
      the command reserve left, and leaving Manual also after one with the baseline's channels. */
  ghost predicate Guarded(trace: seq<Event>, start: nat, baseline: State, changed: Channels, deadline: int) {
    forall i | start <= i < |trace| && trace[i].Sent? ::
      && (exists j :: GuardAt(trace, start, i, j, baseline, changed, deadline))
      && (trace[i].frame == ModeFrame(AUTOMATIC) ==> exists j :: BaselineSeenAt(trace, start, i, j, baseline))
  }

  predicate GuardAt(trace: seq<Event>, start: nat, i: nat, j: nat, baseline: State, changed: Channels, deadline: int)
    requires i <= |trace|
  {
    && start <= j < i
    && trace[j].Saw?
    && Explained(trace[j].state, baseline, changed)
    && trace[j].at <= deadline - RECOVERY_COMMAND_RESERVE
  }

  predicate BaselineSeenAt(trace: seq<Event>, start: nat, i: nat, j: nat, baseline: State)
    requires i <= |trace|
  {
    start <= j < i && trace[j].Saw? && trace[j].state.channels == baseline.channels
  }

  /** The last event is a reading of the original mode, with the original vector if that was Manual. */
  predicate EndsRestored(trace: seq<Event>, baseline: State, latest: int) {
    && trace != []
    && var last := trace[|trace| - 1];
       && last.Saw? && last.cleaning
       && last.at <= latest
       && last.state.mode == baseline.mode
       && (baseline.mode == MANUAL ==> last.state == baseline)
  }

  /** A whole excursion: up to `split` a prefix of the one experiment command before its deadline,
      then guarded clean-up frames before theirs. */
  ghost predicate Excursed(trace: seq<Event>, split: nat, during: seq<Frame>, after: seq<Frame>, began: int,
                           baseline: State, changed: Channels)
    requires split <= |trace|
  {
    && Frames(trace) == during + after
    && during <= CommandPlan(Some(changed), MANUAL)
    && RestoreFrames(after, baseline)
    && (forall i | 0 <= i < split && trace[i].Sent? :: !trace[i].cleaning && trace[i].at < began + 3000)
    && Continues(trace[..split], trace, after, began + 9500, true)
    && Guarded(trace, split, baseline, changed, began + RECOVERY_DEADLINE)
  }

  /** What the guard reading must show, if anything. */
  function Expected(baseline: State, experiment: Verdict): Option<int> {
    if baseline.mode == MANUAL || experiment == Pass then Some(MANUAL) else None
  }

  /** A first clean-up reading that is in time, in the expected mode, explained and not yet the baseline
      is followed at once by the frame that it still needs. */
  ghost predicate Answered(trace: seq<Event>, split: nat, began: int, deadline: int, baseline: State, changed: Channels,
                           expected: Option<int>) {
    forall g: nat | FirstSaw(trace, split, g) && Timely(trace[g].at, began, deadline, RECOVERY_COMMAND_RESERVE) ::
      NeedsAnswer(trace[g].state, baseline, changed, expected) ==> AnsweredAt(trace, g, baseline)
  }

  /** The guard reading, if it came, is the last event of `seen`. */
  lemma GuardAnswered(split: nat, seen: seq<Event>, trace: seq<Event>, began: int, deadline: int, baseline: State,
                      changed: Channels, expected: Option<int>)
    requires split <= |seen| && seen <= trace
    requires trace != seen ==> split < |seen| && seen[|seen| - 1].Saw?
    requires forall g: nat | split <= g < |seen| && seen[g].Saw?
               && Timely(seen[g].at, began, deadline, RECOVERY_COMMAND_RESERVE) ::
               g == |seen| - 1
               && (NeedsAnswer(seen[g].state, baseline, changed, expected) ==>
                     trace[|seen| - 1] == seen[g] && AnsweredAt(trace, |seen| - 1, baseline))
    ensures Answered(trace, split, began, deadline, baseline, changed, expected)
  {
    forall g: nat | FirstSaw(trace, split, g) && Timely(trace[g].at, began, deadline, RECOVERY_COMMAND_RESERVE)
      ensures NeedsAnswer(trace[g].state, baseline, changed, expected) ==> AnsweredAt(trace, g, baseline)
    {
      assert trace[g] == seen[g];
    }
  }

  predicate NeedsAnswer(s: State, baseline: State, changed: Channels, expected: Option<int>) {
    Meets(s, expected) && Explained(s, baseline, changed) && s != baseline
  }

  predicate AnsweredAt(trace: seq<Event>, g: nat, baseline: State)
    requires g < |trace| && trace[g].Saw?
  {
    && NeededFrames(trace[g].state, baseline) != []
    && g + 1 < |trace| && trace[g + 1].Sent? && trace[g + 1].frame == NeededFrames(trace[g].state, baseline)[0]
  }

  /** The lamp shows what a clean-up that begins at `at` can restore. */
  predicate Restorable(turn: Turn, baseline: State, changed: Channels, experiment: Verdict, began: int) {
    && turn.shown.profile == baseline.profile && turn.shown.mode in READ_POLICY.modes
    && Explained(turn.shown, baseline, changed) && Meets(turn.shown, Expected(baseline, experiment))
    && turn.at + 2 * PROMPT < began + RECOVERY_DEADLINE - RECOVERY_COMMAND_RESERVE
  }

  /** The lamp can take the experiment: a supported state in which the change is a valid vector. */
  predicate Willing(lamp: State, profile: Profile, channel: ChannelIndex, delta: int) {
    && lamp.profile == profile && lamp.mode in READ_POLICY.modes && ValidChannels(lamp.channels)
    && ValidChannels(lamp.channels[channel := lamp.channels[channel] + delta])
  }

  lemma ExcursionComposes(quiet: seq<Event>, middle: seq<Event>, trace: seq<Event>, during: seq<Frame>,
                          after: seq<Frame>,
                          began: int, baseline: State, changed: Channels)
    requires Quiet([], quiet, false) && Continues(quiet, middle, during, began + EXPERIMENT, false)
    requires during <= CommandPlan(Some(changed), MANUAL) && RestoreFrames(after, baseline)
    requires Continues(middle, trace, after, began + RECOVERY_DEADLINE, true)
    requires Guarded(trace, |middle|, baseline, changed, began + RECOVERY_DEADLINE)
    ensures trace[..|middle|] == middle
    ensures Excursed(trace, |middle|, during, after, began, baseline, changed)
  {
    QuietFrames([], quiet, false);
    assert forall i | 0 <= i < |quiet| :: middle[i] == quiet[i];
    assert forall i | 0 <= i < |middle| :: trace[i] == middle[i];
  }

  predicate EndsChanged(trace: seq<Event>, changed: Channels) {
    && trace != []
    && trace[|trace| - 1].Saw?
    && trace[|trace| - 1].state.mode == MANUAL
    && trace[|trace| - 1].state.channels == changed
  }

  lemma GuardCovers(before: seq<Event>, after: seq<Event>, start: nat, guard: nat, baseline: State, changed: Channels,
                    deadline: int, sent: seq<Frame>)
    requires start <= |before| && (forall i | start <= i < |before| :: !before[i].Sent?)
    requires GuardAt(before, start, |before|, guard, baseline, changed, deadline)
    requires Continues(before, after, sent, deadline, true)
    requires sent <= CommandPlan(Some(baseline.channels), MANUAL)
    ensures Guarded(after, start, baseline, changed, deadline)
  {
    assert forall i | start <= i < |before| :: after[i] == before[i];
    forall i | start <= i < |after| && after[i].Sent?
      ensures exists j :: GuardAt(after, start, i, j, baseline, changed, deadline)
      ensures after[i].frame != ModeFrame(AUTOMATIC)
    {
      assert GuardAt(after, start, i, guard, baseline, changed, deadline);
      FrameIsSent(before, after, sent, deadline, true, i);
    }
  }

  /** The second command's frames come after the guard and after the reading just before it. */
  lemma LaterGuardCovers(before: seq<Event>, after: seq<Event>, start: nat, guard: nat, seen: nat, baseline: State,
                         changed: Channels, deadline: int, sent: seq<Frame>)
    requires start <= |before| && Guarded(before, start, baseline, changed, deadline)
    requires GuardAt(before, start, |before|, guard, baseline, changed, deadline)
    requires BaselineSeenAt(before, start, |before|, seen, baseline)
    requires before <= after
    ensures Guarded(after, start, baseline, changed, deadline)
  {
    forall i | start <= i < |after| && after[i].Sent?
      ensures exists j :: GuardAt(after, start, i, j, baseline, changed, deadline)
      ensures after[i].frame == ModeFrame(AUTOMATIC) ==> exists j :: BaselineSeenAt(after, start, i, j, baseline)
    {
      if i < |before| {
        assert after[i] == before[i];
        var j :| GuardAt(before, start, i, j, baseline, changed, deadline);
        assert GuardAt(after, start, i, j, baseline, changed, deadline);
        if before[i].frame == ModeFrame(AUTOMATIC) {
          var k :| BaselineSeenAt(before, start, i, k, baseline);
          assert BaselineSeenAt(after, start, i, k, baseline);
        }
      } else {
        assert GuardAt(after, start, i, guard, baseline, changed, deadline);
        assert BaselineSeenAt(after, start, i, seen, baseline);
      }
    }
  }

  class ValidationWorker {
    const line: Line
    const channel: ChannelIndex
    const delta: int
    const started: int
    var baseline: Option<State>
    var changed: Channels
    var excursionStarted: Option<int>
    var recoveryConfirmedAt: Option<int>
    var reportingError: bool
    var experiment: Verdict
    var recovery: Verdict
    var status: Verdict

    constructor (line: Line, channel: ChannelIndex, delta: int)
      ensures this.line == line && this.channel == channel && this.delta == delta && started == line.clock
      ensures baseline.None? && excursionStarted.None? && experiment == NotTested && status != Pass
      ensures !reportingError
    {
      this.line, this.channel, this.delta, started := line, channel, delta, line.clock;
      baseline, changed, excursionStarted, recoveryConfirmedAt := None, ZERO, None, None;
      reportingError := false;
      experiment, recovery, status := NotTested, NotRequired, Fail;
    }

    /** Persist evidence; only before the excursion can a failing sink stop the run. */
    method Event() returns (r: Result<()>)
      modifies this`reportingError
      ensures excursionStarted.Some? ==> r.Ok?
      ensures r.Raised? ==> r.fault == Unpersisted && reportingError
      ensures old(reportingError) ==> reportingError
    {
      if excursionStarted.Some? { return Ok(()); }
      var persisted: bool := *;
      if !persisted {
        reportingError := true;
        return Raised(Unpersisted);
      }
      return Ok(());
    }

    /** The lamp shows what was sent, all of it unless a signal intervened, and promptly. */
    ghost predicate Performed(before: State, at: int, channels: Option<Channels>, mode: int, r: Result<State>,
                              sent: seq<Frame>)
      reads line
    {
      && line.lamp == Shown(before, channels, mode, sent) && line.Honest(r)
      && (r.Ok? ==> sent == CommandPlan(channels, mode)) && line.clock <= at + COMMAND_TIME
    }

    /** `_command`, which leaves time for a later mode restoration. */
    method Command(channels: Option<Channels>, mode: int, deadline: int)
      returns (r: Result<State>, ghost sent: seq<Frame>)
      requires baseline.Some? && excursionStarted.Some?
      modifies line
      ensures line.clock >= old(line.clock) && line.cleaning == old(line.cleaning)
      ensures old(line.interrupted) ==> line.interrupted
      ensures sent <= CommandPlan(channels, mode)
      ensures Continues(old(line.trace), line.trace, sent, deadline, line.cleaning)
      ensures r.Ok? ==> sent == CommandPlan(channels, mode) && line.JustRead(old(line.trace), r.value)
      ensures r.Ok? && line.cleaning ==>
                r.value.mode == mode
                && line.clock <= deadline - (if mode != baseline.value.mode then RECOVERY_MODE_RESERVE else 0)
      ensures line.cleaning && old(line.clock) <= deadline - WRITE_RECOVERY_MARGIN ==>
                r != Raised(NoMargin) && sent != []
      ensures SentAt(line.trace, |old(line.trace)|, sent)
      ensures old(line.troubles) <= line.troubles
      ensures (&& line.troubles == old(line.troubles)
               && old(line.clock) + COMMAND_TIME < deadline - RECOVERY_MODE_RESERVE
               && old(line.lamp).profile == line.profile && mode in READ_POLICY.modes
               && ValidChannels(Driven(old(line.lamp), channels, mode).channels)) ==>
                Performed(old(line.lamp), old(line.clock), channels, mode, r, sent)
      ensures (&& line.troubles == old(line.troubles) && old(line.clock) <= deadline - WRITE_RECOVERY_MARGIN
               && mode == baseline.value.mode && old(line.lamp).profile == line.profile && mode in READ_POLICY.modes
               && ValidChannels(Driven(old(line.lamp), channels, mode).channels)) ==>
                Performed(old(line.lamp), old(line.clock), channels, mode, r, sent)
    {
      var reserve := if mode != baseline.value.mode then RECOVERY_MODE_RESERVE else 0;
      var contradiction, barred: bool;
      r, contradiction, barred, sent :=
        line.Command(channels, mode, deadline, WRITE_RECOVERY_MARGIN, reserve, READ_POLICY);
    }

    /** `_recover`: restore the vector, then the mode, from an explained reading only. */
    method Recover(deadline: int) returns (r: Result<()>, ghost sent: seq<Frame>)
      requires line.cleaning && baseline.Some? && excursionStarted.Some?
      requires baseline.value.profile == line.profile && baseline.value.mode in READ_POLICY.modes
      modifies line
      ensures line.clock >= old(line.clock) && line.cleaning
      ensures old(line.interrupted) ==> line.interrupted
      ensures Continues(old(line.trace), line.trace, sent, deadline, true)
      ensures RestoreFrames(sent, baseline.value)
      ensures Guarded(line.trace, |old(line.trace)|, baseline.value, changed, deadline)
      ensures r.Ok? ==> EndsRestored(line.trace, baseline.value, line.clock)
      ensures r != Raised(NoMargin)
      ensures Attempted(line.trace, |old(line.trace)|, old(line.clock), deadline, RECOVERY_COMMAND_RESERVE)
      ensures Answered(line.trace, |old(line.trace)|, old(line.clock), deadline, baseline.value, changed,
                       Expected(baseline.value, experiment))
      ensures old(line.troubles) <= line.troubles
      ensures (&& line.troubles == old(line.troubles) && old(line.Readable(READ_POLICY))
               && old(line.clock) + 2 * PROMPT < deadline - RECOVERY_COMMAND_RESERVE
               && Explained(old(line.lamp), baseline.value, changed)
               && Meets(old(line.lamp), Expected(baseline.value, experiment))
               && ValidChannels(baseline.value.channels)) ==>
                && r.Ok? && sent == NeededFrames(old(line.lamp), baseline.value) && line.lamp == baseline.value
                && line.clock <= old(line.clock) + 2 * PROMPT + 2 * COMMAND_TIME
    {
      sent := [];
      ghost var start := line.trace;
      assert Guarded(start, |start|, baseline.value, changed, deadline);
      var expected := Expected(baseline.value, experiment);
      var read, contradiction := line.FreshRecoveryRead(deadline, RECOVERY_COMMAND_RESERVE, expected, READ_POLICY);
      QuietFrames(start, line.trace, true);
      ghost var seen, began := line.trace, old(line.clock);
      if read.Raised? {
        GuardAnswered(|start|, seen, seen, began, deadline, baseline.value, changed, expected);
        return Raised(read.fault), sent;
      }
      r, sent := Decide(read.value, deadline, |start|);
      assert line.trace[|seen| - 1] == seen[|seen| - 1];
      ContinuesTransitive(start, seen, line.trace, [], sent, deadline, true);
      GuardAnswered(|start|, seen, line.trace, began, deadline, baseline.value, changed, expected);
    }

    /** What `_recover` does with its guard reading. */
    method Decide(current: State, deadline: int, ghost start: nat) returns (r: Result<()>, ghost sent: seq<Frame>)
      requires line.cleaning && baseline.Some? && excursionStarted.Some?
      requires baseline.value.profile == line.profile && baseline.value.mode in READ_POLICY.modes
      requires current.profile == line.profile && current.mode in READ_POLICY.modes
      requires Meets(current, Expected(baseline.value, experiment))
      requires start < |line.trace| && line.trace[|line.trace| - 1] == Saw(current, line.clock, true)
      requires forall i | start <= i < |line.trace| :: !line.trace[i].Sent?
      requires line.clock <= deadline - RECOVERY_COMMAND_RESERVE
      modifies line
      ensures line.clock >= old(line.clock) && line.cleaning
      ensures old(line.interrupted) ==> line.interrupted
      ensures Continues(old(line.trace), line.trace, sent, deadline, true)
      ensures RestoreFrames(sent, baseline.value)
      ensures Guarded(line.trace, start, baseline.value, changed, deadline)
      ensures r.Ok? ==> EndsRestored(line.trace, baseline.value, line.clock)
      ensures r != Raised(NoMargin)
      ensures NeedsAnswer(current, baseline.value, changed, Expected(baseline.value, experiment)) ==>
                AnsweredAt(line.trace, |old(line.trace)| - 1, baseline.value)
      ensures old(line.troubles) <= line.troubles
      ensures (&& line.troubles == old(line.troubles) && old(line.lamp) == current
               && Explained(current, baseline.value, changed) && ValidChannels(baseline.value.channels)) ==>
                && r.Ok? && sent == NeededFrames(current, baseline.value) && line.lamp == baseline.value
                && line.clock <= old(line.clock) + 2 * COMMAND_TIME
    {
      sent := [];
      var original := baseline.value;
      if original.mode == MANUAL && current.mode != MANUAL { return Raised(Unsafe), sent; }
      if experiment == Pass && current.mode != MANUAL { return Raised(Unsafe), sent; }
      if current == original { return Ok(()), sent; }
      if current.channels != original.channels && current.channels != changed { return Raised(Unsafe), sent; }
      r, sent := Restore(current, deadline, start);
    }

    /** The writes of `_recover`, from the explained reading `current`. */
    method Restore(current: State, deadline: int, ghost start: nat) returns (r: Result<()>, ghost sent: seq<Frame>)
      requires line.cleaning && baseline.Some? && excursionStarted.Some?
      requires baseline.value.profile == line.profile && baseline.value.mode in READ_POLICY.modes
      requires current.profile == line.profile && current.mode in READ_POLICY.modes
      requires Explained(current, baseline.value, changed)
      requires start < |line.trace| && line.trace[|line.trace| - 1] == Saw(current, line.clock, true)
      requires forall i | start <= i < |line.trace| :: !line.trace[i].Sent?
      requires line.clock <= deadline - RECOVERY_COMMAND_RESERVE
      modifies line
      ensures line.clock >= old(line.clock) && line.cleaning
      ensures old(line.interrupted) ==> line.interrupted
      ensures Continues(old(line.trace), line.trace, sent, deadline, true)
      ensures sent <= NeededFrames(current, baseline.value)
      ensures current != baseline.value ==> sent != []
      ensures r.Ok? ==> sent == NeededFrames(current, baseline.value)
      ensures Guarded(line.trace, start, baseline.value, changed, deadline)
      ensures r.Ok? ==> EndsRestored(line.trace, baseline.value, line.clock)
      ensures r != Raised(NoMargin)
      ensures current != baseline.value ==> AnsweredAt(line.trace, |old(line.trace)| - 1, baseline.value)
      ensures old(line.troubles) <= line.troubles
      ensures (&& line.troubles == old(line.troubles) && old(line.lamp) == current
               && ValidChannels(baseline.value.channels)) ==>
                && r.Ok? && sent == NeededFrames(current, baseline.value) && line.lamp == baseline.value
                && line.clock <= old(line.clock) + 2 * COMMAND_TIME
    {
      sent := [];
      var original := baseline.value;
      ghost var guard := |line.trace| - 1;
      ghost var guarded := line.trace;
      assert GuardAt(guarded, start, |guarded|, guard, original, changed, deadline);
      var now := current;
      if current.channels != original.channels {
        var read: Result<State>;
        read, sent := Command(Some(original.channels), MANUAL, deadline);
        GuardCovers(guarded, line.trace, start, guard, original, changed, deadline, sent);
        if read.Raised? { return Raised(read.fault), sent; }
        now := read.value;
        if now.channels != original.channels || now.mode != MANUAL { return Raised(Unsafe), sent; }
      }
      if now.mode != original.mode {
        ghost var seen := line.trace;
        ghost var more: seq<Frame>;
        r, more := RestoreMode(now, deadline, start, guard);
        ContinuesTransitive(guarded, seen, line.trace, sent, more, deadline, true);
        sent := sent + more;
      } else {
        r := Ok(());
      }
    }

    /** The separately held and verified restoration of the original mode. */
    method RestoreMode(now: State, deadline: int, ghost start: nat, ghost guard: nat)
      returns (r: Result<()>, ghost sent: seq<Frame>)
      requires line.cleaning && baseline.Some? && excursionStarted.Some?
      requires now.channels == baseline.value.channels && now.mode != baseline.value.mode
               && baseline.value.mode == AUTOMATIC
      requires start < |line.trace| && line.trace[|line.trace| - 1] == Saw(now, line.clock, true)
      requires Guarded(line.trace, start, baseline.value, changed, deadline)
      requires GuardAt(line.trace, start, |line.trace|, guard, baseline.value, changed, deadline)
      requires line.clock <= deadline - RECOVERY_MODE_RESERVE
      modifies line
      ensures line.clock >= old(line.clock) && line.cleaning
      ensures old(line.interrupted) ==> line.interrupted
      ensures Continues(old(line.trace), line.trace, sent, deadline, true)
      ensures sent <= CommandPlan(None, baseline.value.mode) && sent != []
              && (r.Ok? ==> sent == CommandPlan(None, baseline.value.mode))
      ensures Guarded(line.trace, start, baseline.value, changed, deadline)
      ensures r.Ok? ==> EndsRestored(line.trace, baseline.value, line.clock)
      ensures r != Raised(NoMargin)
      ensures SentAt(line.trace, |old(line.trace)|, sent)
      ensures old(line.troubles) <= line.troubles
      ensures line.troubles == old(line.troubles) && old(line.lamp) == now && ValidChannels(baseline.value.channels)
              && now.profile == line.profile ==>
                && r.Ok? && sent == CommandPlan(None, baseline.value.mode)
                && line.lamp == now.(mode := baseline.value.mode) && line.clock <= old(line.clock) + COMMAND_TIME
    {
      ghost var seen := line.trace;
      var read: Result<State>;
      read, sent := Command(None, baseline.value.mode, deadline);
      assert BaselineSeenAt(seen, start, |seen|, |seen| - 1, baseline.value);
      LaterGuardCovers(seen, line.trace, start, guard, |seen| - 1, baseline.value, changed, deadline, sent);
      r := if read.Raised? then Raised(read.fault) else Ok(());
    }

    /** Two equal fresh readings and a valid plan, before anything is written. */
    method Preflight() returns (r: Result<()>)
      requires !line.cleaning && baseline.None? && excursionStarted.None? && line.trace == []
      modifies line, this`baseline, this`changed, this`reportingError
      ensures !line.cleaning && line.clock >= old(line.clock)
      ensures old(line.interrupted) ==> line.interrupted
      ensures old(reportingError) ==> reportingError
      ensures Quiet(old(line.trace), line.trace, false)
      ensures r.Ok? ==> baseline.Some? && Rehearsed(line.trace, 2, baseline.value)
      ensures r.Ok? ==>
                baseline.Some? && baseline.value.profile == line.profile && baseline.value.mode in READ_POLICY.modes
      ensures r.Ok? ==>
                changed == baseline.value.channels[channel := baseline.value.channels[channel] + delta]
                && ValidChannels(changed) && ValidChannels(baseline.value.channels)
      ensures old(line.troubles) <= line.troubles
      ensures line.troubles == old(line.troubles) ==>
                && line.lamp == old(line.lamp) && (r.Ok? ==> baseline == Some(line.lamp))
                && ((&& !line.interrupted && !reportingError && old(line.clock) + 4 * PROMPT < started + IO_PREFLIGHT
                     && Willing(line.lamp, line.profile, channel, delta)) ==> r.Ok?)
    {
      var deadline := started + IO_PREFLIGHT;
      var persisted := Event();
      if persisted.Raised? { return persisted; }
      var first, contradiction := line.Read(deadline, true, READ_POLICY);
      if first.Raised? { return Raised(first.fault); }
      var second: Result<State>;
      second, contradiction := line.Read(deadline, false, READ_POLICY);
      if second.Raised? { return Raised(second.fault); }
      baseline := Some(second.value);
      if first.value != second.value { return Raised(Unsafe); }
      var planned := second.value.channels[channel := second.value.channels[channel] + delta];
      if !ValidChannels(planned) { return Raised(Unsafe); }
      changed := planned;
      persisted := Event();
      if persisted.Raised? { return persisted; }
      var stop := line.CheckStop();
      return if stop then Raised(Stopped) else Ok(());
    }

    /** The experiment: one command, then an exact readback. */
    method Experiment(deadline: int) returns (r: Result<()>, ghost sent: seq<Frame>)
      requires !line.cleaning && baseline.Some? && excursionStarted.Some?
      modifies line
      ensures line.clock >= old(line.clock) && !line.cleaning
      ensures old(line.interrupted) ==> line.interrupted
      ensures sent <= CommandPlan(Some(changed), MANUAL)
      ensures Continues(old(line.trace), line.trace, sent, deadline, false)
      ensures r.Ok? ==> EndsChanged(line.trace, changed)
      ensures old(line.troubles) <= line.troubles
      ensures (&& line.troubles == old(line.troubles)
               && old(line.clock) + COMMAND_TIME < deadline - RECOVERY_MODE_RESERVE
               && old(line.lamp) == baseline.value && line.profile == baseline.value.profile
               && ValidChannels(changed)) ==>
                && (r.Ok? || line.interrupted) && line.clock <= old(line.clock) + COMMAND_TIME
                && line.lamp == Shown(baseline.value, Some(changed), MANUAL, sent)
                && (r.Ok? ==> sent == CommandPlan(Some(changed), MANUAL))
    {
      var after: Result<State>;
      after, sent := Command(Some(changed), MANUAL, deadline);
      if after.Raised? { return Raised(after.fault), sent; }
      if after.value.mode != MANUAL || after.value.channels != changed { return Raised(Unsafe), sent; }
      return Ok(()), sent;
    }

    /** How a started excursion turned into its clean-up and how that ended: it was attempted, an explained
        reading was answered, and without a further fault a restorable lamp was restored. */
    ghost predicate CleanedUp(turn: Turn, after: seq<Frame>, began: int)
      requires baseline.Some?
      reads this`baseline, this`changed, this`experiment, this`recovery
      reads line`trace, line`clock, line`troubles, line`lamp
    {
      var deadline := began + RECOVERY_DEADLINE;
      && began <= turn.at <= line.clock && turn.faults <= line.troubles
      && Attempted(line.trace, turn.split, turn.at, deadline, RECOVERY_COMMAND_RESERVE)
      && Answered(line.trace, turn.split, turn.at, deadline, baseline.value, changed,
                  Expected(baseline.value, experiment))
      && (line.troubles == turn.faults && Restorable(turn, baseline.value, changed, experiment, began) ==>
            recovery == Pass && after == NeededFrames(turn.shown, baseline.value) && line.lamp == baseline.value)
    }

    /** `run`. `during` and `after` are the frames of the experiment and of the clean-up, which began at
        `turn`. Whenever a signal stops the run, an honest and prompt lamp is left as it was found; without
        a signal it gets through: it takes the whole command, is restored, and the run passes. */
    method Run() returns (ghost during: seq<Frame>, ghost after: seq<Frame>, ghost turn: Turn)
      requires line.trace == [] && !line.cleaning && baseline.None? && excursionStarted.None?
      requires experiment == NotTested && !reportingError
      modifies this, line
      ensures excursionStarted.None? ==> Frames(line.trace) == [] && status == Fail
      ensures turn.split <= |line.trace|
      ensures excursionStarted.Some? ==>
                && baseline.Some? && Rehearsed(line.trace, 2, baseline.value)
                && baseline.Some?
                && Excursed(line.trace, turn.split, during, after, excursionStarted.value, baseline.value, changed)
                && CleanedUp(turn, after, excursionStarted.value)
      ensures status == Pass ==>
                && excursionStarted.Some?
                && EndsRestored(line.trace, baseline.value, excursionStarted.value + 10000)
                && EndsChanged(line.trace[..turn.split], changed)
                && !line.interrupted && !reportingError
      ensures line.troubles == old(line.troubles) ==>
                line.lamp == old(line.lamp) && (excursionStarted.Some? ==> recovery == Pass)
      ensures (&& line.troubles == old(line.troubles) && !line.interrupted && !reportingError
               && old(line.clock) + 4 * PROMPT < started + IO_PREFLIGHT
               && Willing(old(line.lamp), line.profile, channel, delta)) ==>
                && status == Pass && baseline == Some(old(line.lamp))
                && during == CommandPlan(Some(changed), MANUAL)
                && after == NeededFrames(State(MANUAL, line.profile, changed), old(line.lamp))
    {
      during, after, turn := Conduct();
      line.Close();
      status := if experiment == Pass && recovery == Pass && !line.interrupted && !reportingError then Pass else Fail;
    }

    /** The whole run up to its verdict. */
    method Conduct() returns (ghost during: seq<Frame>, ghost after: seq<Frame>, ghost turn: Turn)
      requires line.trace == [] && !line.cleaning && baseline.None? && excursionStarted.None?
      requires experiment == NotTested && !reportingError
      modifies this, line
      ensures excursionStarted.None? ==> Frames(line.trace) == [] && experiment == NotTested
      ensures turn.split <= |line.trace|
      ensures excursionStarted.Some? ==>
                && baseline.Some? && Rehearsed(line.trace, 2, baseline.value)
                && baseline.Some?
                && Excursed(line.trace, turn.split, during, after, excursionStarted.value, baseline.value, changed)
                && CleanedUp(turn, after, excursionStarted.value)
                && (recovery == Pass ==>
                      EndsRestored(line.trace, baseline.value, excursionStarted.value + MAX_EXCURSION))
                && (experiment == Pass ==> EndsChanged(line.trace[..turn.split], changed))
      ensures line.troubles == old(line.troubles) ==>
                line.lamp == old(line.lamp) && (excursionStarted.Some? ==> recovery == Pass)
      ensures (&& line.troubles == old(line.troubles) && !line.interrupted && !reportingError
               && old(line.clock) + 4 * PROMPT < started + IO_PREFLIGHT
               && Willing(old(line.lamp), line.profile, channel, delta)) ==>
                && experiment == recovery == Pass && baseline == Some(old(line.lamp))
                && during == CommandPlan(Some(changed), MANUAL)
                && after == NeededFrames(State(MANUAL, line.profile, changed), old(line.lamp))
    {
      during, after, turn := [], [], Turn(0, line.clock, line.lamp, line.troubles);
      var outcome := Preflight();
      QuietFrames([], line.trace, false);
      if outcome.Ok? {
        excursionStarted := Some(line.clock);
        during, after, turn := Excursion(line.clock);
      } else {
        recovery := NotRequired;
      }
    }

    /** The clean-up that always follows the experiment. */
    method CleanUp(began: int) returns (ghost after: seq<Frame>, ghost turn: Turn)
      requires !line.cleaning && baseline.Some? && excursionStarted == Some(began) && began <= line.clock
      requires baseline.value.profile == line.profile && baseline.value.mode in READ_POLICY.modes
      requires ValidChannels(baseline.value.channels) && ValidChannels(changed)
      modifies line, this`recovery, this`recoveryConfirmedAt
      ensures turn == Turn(|old(line.trace)|, old(line.clock), old(line.lamp), old(line.troubles))
      ensures Continues(old(line.trace), line.trace, after, began + RECOVERY_DEADLINE, true)
      ensures RestoreFrames(after, baseline.value)
      ensures Guarded(line.trace, |old(line.trace)|, baseline.value, changed, began + RECOVERY_DEADLINE)
      ensures recovery == Pass ==> EndsRestored(line.trace, baseline.value, began + MAX_EXCURSION)
      ensures old(line.interrupted) ==> line.interrupted
      ensures CleanedUp(turn, after, began)
    {
      turn := Turn(|line.trace|, line.clock, line.lamp, line.troubles);
      line.cleaning := true;
      var outcome: Result<()>;
      outcome, after := Recover(began + RECOVERY_DEADLINE);
      recovery := Fail;
      if outcome.Ok? {
        recoveryConfirmedAt := Some(line.clock);
        if line.clock - began <= MAX_EXCURSION { recovery := Pass; }
      }
    }

    /** The experiment and the clean-up that always follows it. */
    method Excursion(began: int) returns (ghost during: seq<Frame>, ghost after: seq<Frame>, ghost turn: Turn)
      requires !line.cleaning && baseline.Some? && excursionStarted == Some(began) && began == line.clock
      requires baseline.value.profile == line.profile && baseline.value.mode in READ_POLICY.modes
      requires ValidChannels(baseline.value.channels) && ValidChannels(changed)
      requires Quiet([], line.trace, false)
      modifies line, this`experiment, this`recovery, this`recoveryConfirmedAt
      ensures turn.split <= |line.trace|
      ensures Excursed(line.trace, turn.split, during, after, began, baseline.value, changed)
      ensures recovery == Pass ==> EndsRestored(line.trace, baseline.value, began + MAX_EXCURSION)
      ensures experiment == Pass ==> EndsChanged(line.trace[..turn.split], changed)
      ensures old(line.interrupted) ==> line.interrupted
      ensures old(line.trace) <= line.trace
      ensures old(line.troubles) <= line.troubles && CleanedUp(turn, after, began)
      ensures line.troubles == old(line.troubles) && old(line.lamp) == baseline.value ==>
                && line.lamp == baseline.value && recovery == Pass
                && (!line.interrupted ==>
                      && experiment == Pass && during == CommandPlan(Some(changed), MANUAL)
                      && after == NeededFrames(State(MANUAL, line.profile, changed), baseline.value))
    {
      ghost var quiet := line.trace;
      var outcome: Result<()>;
      outcome, during := Experiment(began + EXPERIMENT);
      experiment := if outcome.Ok? then Pass else Fail;
      ghost var middle := line.trace;
      after, turn := CleanUp(began);
      ExcursionComposes(quiet, middle, line.trace, during, after, began, baseline.value, changed);
    }
  }
}
