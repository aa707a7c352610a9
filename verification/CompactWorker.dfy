/**
  The native acceptance plan: Home Assistant services actuate the lamp, this worker only observes
  and may send one Automatic command to clean up. Unknown completion or any contradiction latches
  it into read-only behaviour.
 */
module CompactWorker {
  import opened Lamp
  import opened LampLine
  import opened Wrappers

  const MAX_OUTPUT := 5
  const HA_COORDINATOR := 3000
  const UNCERTAIN_SETTLE_MARGIN := 250

  /** A prompt service and a prompt lamp complete and confirm one action within this time. */
  const ACTION_TIME := 6 * PROMPT

  /** A planned action, by the channels it must produce. */
  datatype Action = Action(expected: Channels) {
    function Mode(): int { if expected == ZERO then SHUTDOWN else MANUAL }
  }

  datatype Plan = Plan(actions: seq<Action>) {
    function ExperimentTime(): int { if |actions| == 1 then 3000 else 6000 }
    function CleanupTime(): int { if |actions| == 1 then 9500 else 19500 }
    function MaximumTime(): int { CleanupTime() + 500 }
  }

  /** The state that a completed action must leave. */
  function Produced(action: Action, profile: Profile): State {
    State(action.Mode(), profile, action.expected)
  }

  /** The lamp is in the state this run left it in, or already back under Automatic. */
  predicate Restorable(shown: State, owned: State) {
    && shown.profile == owned.profile && ValidChannels(shown.channels)
    && (shown.mode == AUTOMATIC || shown == owned)
  }

  /** A first clean-up reading that is in time and shows the owned output is followed at once by Automatic. */
  ghost predicate Answered(trace: seq<Event>, split: nat, began: int, deadline: int, owned: State) {
    forall g: nat | FirstSaw(trace, split, g) && Timely(trace[g].at, began, deadline, RECOVERY_COMMAND_RESERVE) ::
      trace[g].state == owned && owned.mode != AUTOMATIC ==> SentAt(trace, g + 1, [ModeFrame(AUTOMATIC)])
  }

  /** Clean-up sends nothing but behind a first reading that shows exactly the owned state. */
  ghost predicate Justified(trace: seq<Event>, split: nat, owned: State) {
    forall i | split <= i < |trace| && trace[i].Sent? ::
      exists g: nat :: FirstSaw(trace, split, g) && g < i && trace[g].state == owned
  }

  lemma GuardJustifies(split: nat, seen: seq<Event>, trace: seq<Event>, owned: State)
    requires split <= |seen| && seen <= trace && (forall i | split <= i < |seen| :: !seen[i].Sent?)
    requires Frames(trace) != Frames(seen) ==>
               split < |seen| && FirstSaw(seen, split, |seen| - 1) && seen[|seen| - 1].state == owned
    ensures Justified(trace, split, owned)
  {
    assert forall k | split <= k < |seen| :: trace[k] == seen[k];
    forall i | split <= i < |trace| && trace[i].Sent?
      ensures exists g: nat :: FirstSaw(trace, split, g) && g < i && trace[g].state == owned
    {
      assert i >= |seen|;
      SentAddsFrame(seen, trace, i);
      assert FirstSaw(trace, split, |seen| - 1);
    }
  }

  /** The guard reading, if it came, is the last event of `seen`. */
  lemma GuardAnswered(split: nat, seen: seq<Event>, trace: seq<Event>, began: int, deadline: int, owned: State)
    requires split <= |seen| && seen <= trace
    requires trace != seen ==> split < |seen| && seen[|seen| - 1].Saw?
    requires forall g: nat | split <= g < |seen| && seen[g].Saw?
               && Timely(seen[g].at, began, deadline, RECOVERY_COMMAND_RESERVE) ::
               g == |seen| - 1
               && (seen[g].state == owned && owned.mode != AUTOMATIC ==> SentAt(trace, |seen|, [ModeFrame(AUTOMATIC)]))
    ensures Answered(trace, split, began, deadline, owned)
  {
    forall g: nat | FirstSaw(trace, split, g) && Timely(trace[g].at, began, deadline, RECOVERY_COMMAND_RESERVE)
      ensures trace[g].state == owned && owned.mode != AUTOMATIC ==> SentAt(trace, g + 1, [ModeFrame(AUTOMATIC)])
    {
      assert trace[g] == seen[g];
    }
  }

  /** The lamp runs its schedule with an output that the acceptance plan tolerates. */
  predicate LowAutomatic(shown: State, profile: Profile) {
    && shown.profile == profile && shown.mode == AUTOMATIC
    && forall i | 0 <= i < 6 :: 0 <= shown.channels[i] <= MAX_OUTPUT
  }

  /** What a configuration may ask for: one to three actions of low output. */
  predicate Acceptable(plan: Plan) {
    && 1 <= |plan.actions| <= 3
    && forall k | 0 <= k < |plan.actions| ::
         forall i | 0 <= i < 6 :: 0 <= plan.actions[k].expected[i] <= MAX_OUTPUT
  }

  /** The trace begins with two readings of the baseline, agreeing native status and a third reading. */
  predicate Prepared(trace: seq<Event>, baseline: State) {
    && Rehearsed(trace, 2, baseline) && |trace| >= 4 && trace[2].Agreed?
    && trace[3].Saw? && trace[3].state == baseline
  }

  /** From `position` on nothing is actuated. */
  ghost predicate ReadOnlyFrom(trace: seq<Event>, position: nat) {
    forall i | position <= i < |trace| :: !trace[i].Sent? && !trace[i].ServiceCall?
  }

  /** The indices of the service calls, in order. */
  function Calls(trace: seq<Event>): seq<nat> {
    if trace == [] then []
    else Calls(trace[..|trace| - 1])
         + (if trace[|trace| - 1].ServiceCall? then [trace[|trace| - 1].index] else [])
  }

  function UpTo(n: nat): seq<nat> { seq(n, i requires 0 <= i < n => i) }

  lemma {:induction false} QuietCalls(before: seq<Event>, after: seq<Event>, cleaning: bool)
    requires Quiet(before, after, cleaning)
    ensures Calls(after) == Calls(before)
    decreases |after|
  {
    if |after| == |before| {
      assert after == before;
    } else {
      QuietCalls(before, after[..|after| - 1], cleaning);
      assert !after[|after| - 1].ServiceCall?;
    }
  }

  /** A call was delivered whose completion is unknown. */
  ghost predicate AnyUnknown(trace: seq<Event>) {
    exists i :: UnknownAt(trace, i)
  }

  predicate UnknownAt(trace: seq<Event>, i: int) {
    0 <= i < |trace| && trace[i].ServiceCall? && trace[i].answer == Unknown
  }

  /** Events other than calls leave what is known about the calls. */
  lemma SameUnknown(before: seq<Event>, after: seq<Event>)
    requires before <= after && (forall i | |before| <= i < |after| :: !after[i].ServiceCall?)
    ensures AnyUnknown(after) <==> AnyUnknown(before)
  {
    if i :| UnknownAt(before, i) { assert UnknownAt(after, i); }
    if i :| UnknownAt(after, i) { assert UnknownAt(before, i); }
  }

  lemma NewUnknown(before: seq<Event>, event: Event)
    ensures AnyUnknown(before + [event]) <==> AnyUnknown(before) || (event.ServiceCall? && event.answer == Unknown)
  {
    var after := before + [event];
    if i :| UnknownAt(before, i) { assert UnknownAt(after, i); }
    if i :| UnknownAt(after, i) { assert i < |before| ==> UnknownAt(before, i); }
    if event.ServiceCall? && event.answer == Unknown { assert UnknownAt(after, |before|); }
  }

  predicate ConfirmedAt(trace: seq<Event>, call: int, seen: int, index: nat, action: Action, profile: Profile) {
    && 0 <= call < seen < |trace|
    && trace[call].ServiceCall? && trace[call].index == index
    && trace[seen].Saw? && trace[seen].state == Produced(action, profile)
    && seen + 1 < |trace| && trace[seen + 1].Agreed?
    && forall k | call < k < seen :: !trace[k].ServiceCall?
  }

  /** The exact vector of the action was read, independently, after its call and before the next one, and the
      native status agreed with it. */
  ghost predicate Confirmed(trace: seq<Event>, index: nat, action: Action, profile: Profile) {
    exists call, seen :: ConfirmedAt(trace, call, seen, index, action, profile)
  }

  /** Every planned action was called and confirmed. */
  ghost predicate AllConfirmed(trace: seq<Event>, plan: Plan, profile: Profile) {
    ConfirmedUpTo(trace, plan, profile, |plan.actions|)
  }

  ghost predicate ConfirmedUpTo(trace: seq<Event>, plan: Plan, profile: Profile, n: nat)
    requires n <= |plan.actions|
  {
    forall k | 0 <= k < n :: Confirmed(trace, k, plan.actions[k], profile)
  }

  ghost predicate SentBefore(trace: seq<Event>, deadline: int) {
    forall i | 0 <= i < |trace| && trace[i].Sent? :: trace[i].at < deadline
  }

  ghost predicate CalledBy(trace: seq<Event>, latest: int) {
    forall i | 0 <= i < |trace| && trace[i].ServiceCall? :: trace[i].at <= latest
  }

  predicate EndsAutomatic(trace: seq<Event>, latest: int) {
    && trace != []
    && var last := trace[|trace| - 1];
       last.Saw? && last.cleaning && last.at <= latest && last.state.mode == AUTOMATIC
  }

  lemma StaysReadOnly(before: seq<Event>, after: seq<Event>, position: nat, cleaning: bool)
    requires ReadOnlyFrom(before, position) && Quiet(before, after, cleaning)
    ensures ReadOnlyFrom(after, position)
  {
    assert forall i | 0 <= i < |before| :: after[i] == before[i];
  }

  lemma {:induction false} CallsGrow(before: seq<Event>, after: seq<Event>)
    requires before <= after
    ensures |Calls(before)| <= |Calls(after)|
    decreases |after|
  {
    if |before| == |after| {
      assert before == after;
    } else {
      CallsGrow(before, after[..|after| - 1]);
    }
  }

  /** As long as no call is added, every further event is something else. */
  lemma {:induction false} NoFurtherCall(before: seq<Event>, after: seq<Event>, k: nat)
    requires before <= after && |Calls(after)| == |Calls(before)| && |before| <= k < |after|
    ensures !after[k].ServiceCall?
    decreases |after|
  {
    var init := after[..|after| - 1];
    CallsGrow(before, init);
    if k < |init| {
      assert init[k] == after[k];
      NoFurtherCall(before, init, k);
    }
  }

  lemma CalledStays(before: seq<Event>, after: seq<Event>, latest: int)
    requires before <= after && |Calls(after)| == |Calls(before)| && CalledBy(before, latest)
    ensures CalledBy(after, latest)
  {
    forall i | 0 <= i < |after| && after[i].ServiceCall?
      ensures after[i].at <= latest
    {
      if i >= |before| { NoFurtherCall(before, after, i); }
    }
  }

  /** A reading, and the agreeing status behind it, confirm the call that stands before the other new events. */
  lemma CallConfirmed(called: seq<Event>, read: seq<Event>, trace: seq<Event>, index: nat, action: Action,
                      profile: Profile)
    requires called != [] && called < read && Calls(read) == Calls(called)
    requires called[|called| - 1].ServiceCall? && called[|called| - 1].index == index
    requires read[|read| - 1].Saw? && read[|read| - 1].state == Produced(action, profile)
    requires read < trace && trace[|read|].Agreed?
    ensures Confirmed(trace, index, action, profile)
  {
    forall k | |called| <= k < |read|
      ensures !trace[k].ServiceCall?
    {
      NoFurtherCall(called, read, k);
    }
    assert trace[|called| - 1] == called[|called| - 1] && trace[|read| - 1] == read[|read| - 1];
    assert ConfirmedAt(trace, |called| - 1, |read| - 1, index, action, profile);
  }

  lemma CallAppended(trace: seq<Event>, index: nat, answer: Completion, at: int)
    requires Calls(trace) == UpTo(index)
    ensures Calls(trace + [ServiceCall(index, answer, at, false)]) == UpTo(index + 1)
    ensures Frames(trace + [ServiceCall(index, answer, at, false)]) == Frames(trace)
  {
    var after := trace + [ServiceCall(index, answer, at, false)];
    assert after[..|after| - 1] == trace;
    assert UpTo(index + 1) == UpTo(index) + [index];
  }

  lemma {:induction false} ModesAddNoCalls(before: seq<Event>, after: seq<Event>)
    requires before <= after && (forall i | |before| <= i < |after| :: !after[i].ServiceCall?)
    ensures Calls(after) == Calls(before)
    decreases |after|
  {
    if |after| == |before| {
      assert after == before;
    } else {
      ModesAddNoCalls(before, after[..|after| - 1]);
      assert !after[|after| - 1].ServiceCall?;
    }
  }

  lemma {:induction false} NoFramesNoSent(trace: seq<Event>)
    requires Frames(trace) == []
    ensures forall i | 0 <= i < |trace| :: !trace[i].Sent?
  {
    if trace != [] {
      NoFramesNoSent(trace[..|trace| - 1]);
      assert forall i | 0 <= i < |trace| - 1 :: trace[..|trace| - 1][i] == trace[i];
    }
  }

  lemma RecoveryAdds(middle: seq<Event>, trace: seq<Event>, sent: seq<Frame>, deadline: int)
    requires Frames(middle) == [] && Continues(middle, trace, sent, deadline, true)
    ensures Frames(trace) == sent && Calls(trace) == Calls(middle)
    ensures SentBefore(trace, deadline)
  {
    ModesAddNoCalls(middle, trace);
    NoFramesNoSent(middle);
    assert forall i | 0 <= i < |middle| :: trace[i] == middle[i];
  }

  lemma AllStay(before: seq<Event>, after: seq<Event>, plan: Plan, profile: Profile, n: nat)
    requires n <= |plan.actions| && ConfirmedUpTo(before, plan, profile, n) && before <= after
    ensures ConfirmedUpTo(after, plan, profile, n)
  {
    forall k | 0 <= k < n ensures Confirmed(after, k, plan.actions[k], profile) {
      ConfirmedStays(before, after, k, plan.actions[k], profile);
    }
  }

  lemma ConfirmedStays(before: seq<Event>, after: seq<Event>, index: nat, action: Action, profile: Profile)
    requires Confirmed(before, index, action, profile) && before <= after
    ensures Confirmed(after, index, action, profile)
  {
    var call, seen :| ConfirmedAt(before, call, seen, index, action, profile);
    assert ConfirmedAt(after, call, seen, index, action, profile);
  }

  class CompactWorker {
    const line: Line
    const plan: Plan
    const started: int
    var baseline: Option<State>
    var owned: Option<State>
    var readModes: set<int>
    var rejectedObservation: bool
    var completionUnknown: bool
    var pendingUntil: Option<int>
    var cleanupSent: bool
    var completedActions: nat
    var excursionStarted: Option<int>
    var reportingError: bool
    var experiment: Verdict
    var recovery: Verdict
    var status: Verdict
    /** Where in the trace a latch was first set. */
    ghost var latchedAt: Option<nat>

    constructor (line: Line, plan: Plan)
      ensures this.line == line && this.plan == plan && started == line.clock
      ensures baseline.None? && owned.None? && readModes == {AUTOMATIC} && !rejectedObservation && !completionUnknown
      ensures !cleanupSent && completedActions == 0 && excursionStarted.None? && latchedAt.None?
      ensures experiment == recovery == NotTested && status != Pass && !reportingError
    {
      this.line, this.plan, started := line, plan, line.clock;
      baseline, owned, readModes, pendingUntil, excursionStarted := None, None, {AUTOMATIC}, None, None;
      rejectedObservation, completionUnknown, cleanupSent, completedActions := false, false, false, 0;
      reportingError, experiment, recovery, status, latchedAt := false, NotTested, NotTested, Fail, None;
    }

    /** Both latches are remembered, and nothing was actuated after the first. */
    ghost predicate Latched()
      reads this`rejectedObservation, this`completionUnknown, this`latchedAt, line`trace
    {
      && (rejectedObservation || completionUnknown <==> latchedAt.Some?)
      && (completionUnknown <==> AnyUnknown(line.trace))
      && (latchedAt.Some? ==> latchedAt.value <= |line.trace| && ReadOnlyFrom(line.trace, latchedAt.value))
    }

    method Reject()
      requires Latched()
      modifies this`rejectedObservation, this`latchedAt
      ensures Latched() && rejectedObservation
      ensures latchedAt == if old(latchedAt).Some? then old(latchedAt) else Some(|line.trace|)
    {
      rejectedObservation := true;
      if latchedAt.None? { latchedAt := Some(|line.trace|); }
    }

    method CompletionIsUnknown(sentAt: int)
      requires latchedAt.None? && !rejectedObservation && AnyUnknown(line.trace)
      modifies this`completionUnknown, this`pendingUntil, this`latchedAt
      ensures Latched() && completionUnknown && latchedAt == Some(|line.trace|)
      ensures pendingUntil == Some(sentAt + HA_COORDINATOR + UNCERTAIN_SETTLE_MARGIN)
    {
      completionUnknown := true;
      pendingUntil := Some(sentAt + HA_COORDINATOR + UNCERTAIN_SETTLE_MARGIN);
      latchedAt := Some(|line.trace|);
    }

    function ReadPolicy(): Policy
      reads this
    {
      Policy(readModes, Some(readModes), true, false)
    }

    /** `_read`: any contradiction latches. */
    method Read(deadline: int) returns (r: Result<State>)
      requires Latched()
      modifies line, this`rejectedObservation, this`latchedAt
      ensures Latched() && line.cleaning == old(line.cleaning)
      ensures line.clock >= old(line.clock) && (old(line.interrupted) ==> line.interrupted)
      ensures Quiet(old(line.trace), line.trace, line.cleaning)
      ensures r.Ok? ==> line.JustRead(old(line.trace), r.value) && r.value.mode in readModes
      ensures r.Ok? ==> line.trace == old(line.trace) + [Saw(r.value, line.clock, line.cleaning)]
      ensures r.Ok? ==> rejectedObservation == old(rejectedObservation) && latchedAt == old(latchedAt)
      ensures r == Raised(Unsafe) ==> rejectedObservation
      ensures old(latchedAt).Some? ==> latchedAt == old(latchedAt)
      ensures old(line.troubles) <= line.troubles
      ensures r != Raised(Unsafe) ==> rejectedObservation == old(rejectedObservation) && latchedAt == old(latchedAt)
      ensures line.troubles == old(line.troubles) ==>
                line.lamp == old(line.lamp) && (r.Ok? ==> r.value == line.lamp)
                && line.clock <= old(line.clock) + 2 * PROMPT
      ensures line.troubles == old(line.troubles) && old(line.clock) < deadline && old(line.Readable(ReadPolicy())) ==>
                line.Honest(r)
    {
      var contradiction: bool;
      r, contradiction := line.Read(deadline, true, ReadPolicy());
      SameUnknown(old(line.trace), line.trace);
      if latchedAt.Some? { StaysReadOnly(old(line.trace), line.trace, latchedAt.value, line.cleaning); }
      if contradiction { Reject(); }
    }

    /** `_require_owned`. */
    method RequireOwned(current: State) returns (r: Result<()>)
      requires Latched()
      modifies this`rejectedObservation, this`latchedAt
      ensures Latched()
      ensures r.Ok? ==>
                owned == Some(current) && rejectedObservation == old(rejectedObservation) && latchedAt == old(latchedAt)
      ensures r.Raised? ==> owned != Some(current) && r == Raised(Unsafe) && rejectedObservation
      ensures r.Raised? && old(latchedAt).None? ==> latchedAt == Some(|line.trace|)
      ensures old(latchedAt).Some? ==> latchedAt == old(latchedAt)
    {
      if owned != Some(current) {
        Reject();
        return Raised(Unsafe);
      }
      return Ok(());
    }

    /** `_ha_mode`: native status must agree with the lamp. */
    method NativeMode(deadline: int) returns (r: Result<()>)
      requires Latched()
      modifies line`clock, line`interrupted, line`connected, line`trace, line`lamp, line`troubles,
               this`rejectedObservation, this`latchedAt
      ensures Latched() && line.clock >= old(line.clock) && (old(line.interrupted) ==> line.interrupted)
      ensures r.Ok? ==> rejectedObservation == old(rejectedObservation) && latchedAt == old(latchedAt)
      ensures r == Raised(Unsafe) ==> rejectedObservation
      ensures old(latchedAt).Some? ==> latchedAt == old(latchedAt)
      ensures line.trace == old(line.trace) + if r.Ok? then [Agreed(line.clock, line.cleaning)] else []
      ensures Calls(line.trace) == Calls(old(line.trace)) && Frames(line.trace) == Frames(old(line.trace))
      ensures old(line.troubles) <= line.troubles
      ensures line.troubles == old(line.troubles) ==>
                r.Ok? && line.lamp == old(line.lamp) && line.clock <= old(line.clock) + PROMPT
    {
      line.Close();
      line.Elapse();
      var outcome: int := *;
      if outcome == 0 {
        line.Trouble(Transport);
        return Raised(Transport);
      }
      if outcome == 1 {
        line.Trouble(Unsafe);
        Reject();
        return Raised(Unsafe);
      }
      ghost var before := line.trace;
      line.trace := before + [Agreed(line.clock, line.cleaning)];
      SameUnknown(before, line.trace);
      QuietFrames(before, line.trace, line.cleaning);
      QuietCalls(before, line.trace, line.cleaning);
      if latchedAt.Some? { StaysReadOnly(before, line.trace, latchedAt.value, line.cleaning); }
      return Ok(());
    }

    /** The service request itself: completed, rejected before delivery, or unknown. A completed one makes an
        honest lamp show what the action must produce; only an unknown one latches. */
    method CallService(index: nat, deadline: int) returns (r: Result<()>, ghost answer: Completion)
      requires Latched() && latchedAt.None? && !line.cleaning && Calls(line.trace) == UpTo(index)
      requires index < |plan.actions|
      modifies line`clock, line`interrupted, line`trace, line`lamp, line`troubles, this`completionUnknown,
               this`pendingUntil, this`latchedAt
      ensures Latched() && line.clock >= old(line.clock) && (old(line.interrupted) ==> line.interrupted)
      ensures line.trace == old(line.trace) + [ServiceCall(index, answer, old(line.clock), false)]
      ensures Calls(line.trace) == UpTo(index + 1) && Frames(line.trace) == Frames(old(line.trace))
      ensures r == if answer == Completed then Ok(()) else Raised(Transport)
      ensures latchedAt.Some? <==> answer == Unknown
      ensures answer == Unknown ==>
                pendingUntil == Some(old(line.clock) + HA_COORDINATOR + UNCERTAIN_SETTLE_MARGIN)
      ensures old(line.troubles) <= line.troubles
      ensures line.troubles == old(line.troubles) ==>
                && r.Ok? && line.clock <= old(line.clock) + PROMPT
                && line.lamp == Produced(plan.actions[index], line.profile)
    {
      ghost var before := line.trace;
      var sentAt := line.clock;
      line.Elapse();
      var outcome: Completion := *;
      answer := outcome;
      CallAppended(before, index, outcome, sentAt);
      line.trace := before + [ServiceCall(index, outcome, sentAt, false)];
      NewUnknown(before, ServiceCall(index, outcome, sentAt, false));
      if outcome == Unknown {
        line.Trouble(Transport);
        CompletionIsUnknown(sentAt);
        return Raised(Transport), answer;
      }
      if outcome == Rejected {
        line.Trouble(Transport);
        return Raised(Transport), answer;
      }
      line.lamp := Produced(plan.actions[index], line.profile);
      return Ok(()), answer;
    }

    /** The lamp shows the owned state, and readings of it are accepted. */
    predicate InPossession(shown: State, owned: Option<State>, modes: set<int>) {
      owned == Some(shown) && shown.profile == line.profile && shown.mode in modes && ValidChannels(shown.channels)
    }

    /** `_actuate`: never after a latch, and only from the exact owned state. */
    method Actuate(index: nat, deadline: int) returns (r: Result<()>)
      requires Latched() && !line.cleaning && index < |plan.actions|
      requires Calls(line.trace) == UpTo(index) && Frames(line.trace) == []
      requires CalledBy(line.trace, deadline - WRITE_RECOVERY_MARGIN)
      modifies line, this`rejectedObservation, this`completionUnknown, this`pendingUntil, this`latchedAt,
               this`owned, this`readModes, this`completedActions
      ensures Latched() && !line.cleaning
      ensures line.clock >= old(line.clock) && (old(line.interrupted) ==> line.interrupted)
      ensures old(line.trace) <= line.trace && Frames(line.trace) == []
      ensures CalledBy(line.trace, deadline - WRITE_RECOVERY_MARGIN)
      ensures Calls(line.trace) == UpTo(index) || Calls(line.trace) == UpTo(index + 1)
      ensures r.Ok? ==>
                Calls(line.trace) == UpTo(index + 1) && Confirmed(line.trace, index, plan.actions[index], line.profile)
      ensures old(latchedAt).Some? ==> latchedAt == old(latchedAt)
      ensures old(owned).Some? ==> owned.Some?
      ensures owned.Some? && old(owned).Some? && old(owned).value.profile == line.profile ==>
                owned.value.profile == line.profile
      ensures r == Raised(Unsafe) ==> latchedAt.Some?
      ensures old(line.troubles) <= line.troubles
      ensures (&& line.troubles == old(line.troubles) && old(latchedAt).None?
               && ValidChannels(plan.actions[index].expected)
               && InPossession(old(line.lamp), old(owned), old(readModes))
               && old(line.clock) + ACTION_TIME <= deadline - WRITE_RECOVERY_MARGIN) ==>
                && (r.Ok? || line.interrupted) && line.clock <= old(line.clock) + ACTION_TIME && latchedAt.None?
                && InPossession(line.lamp, owned, readModes)
                && (r.Ok? ==> line.lamp == Produced(plan.actions[index], line.profile))
    {
      var stop := line.CheckStop();
      if stop { return Raised(Stopped); }
      if completionUnknown || rejectedObservation { return Raised(Unsafe); }
      if index > 0 {
        r := ReadOwned(deadline);
        CalledStays(old(line.trace), line.trace, deadline - WRITE_RECOVERY_MARGIN);
        if r.Raised? { return; }
      }
      r := Dispatch(index, deadline);
    }

    /** The service call with its admission margin, and the reading that must confirm it. */
    method Dispatch(index: nat, deadline: int) returns (r: Result<()>)
      requires Latched() && !line.cleaning && latchedAt.None? && index < |plan.actions|
      requires Calls(line.trace) == UpTo(index) && Frames(line.trace) == []
      requires CalledBy(line.trace, deadline - WRITE_RECOVERY_MARGIN)
      modifies line, this`rejectedObservation, this`completionUnknown, this`pendingUntil, this`latchedAt,
               this`owned, this`readModes, this`completedActions
      ensures Latched() && !line.cleaning
      ensures line.clock >= old(line.clock) && (old(line.interrupted) ==> line.interrupted)
      ensures old(line.trace) <= line.trace && Frames(line.trace) == []
      ensures CalledBy(line.trace, deadline - WRITE_RECOVERY_MARGIN)
      ensures Calls(line.trace) == UpTo(if |line.trace| == |old(line.trace)| then index else index + 1)
      ensures r.Ok? ==> old(line.trace) < line.trace && Confirmed(line.trace, index, plan.actions[index], line.profile)
      ensures owned == old(owned) || owned == Some(Produced(plan.actions[index], line.profile))
      ensures r == Raised(Unsafe) ==> latchedAt.Some?
      ensures old(line.troubles) <= line.troubles
      ensures (&& line.troubles == old(line.troubles) && ValidChannels(plan.actions[index].expected)
               && old(line.clock) + 4 * PROMPT <= deadline - WRITE_RECOVERY_MARGIN) ==>
                && (r.Ok? || line.interrupted) && line.clock <= old(line.clock) + 4 * PROMPT && latchedAt.None?
                && InPossession(line.lamp, owned, readModes) && line.lamp == Produced(plan.actions[index], line.profile)
    {
      line.Close();
      if deadline - line.clock < WRITE_RECOVERY_MARGIN {
        return Raised(Deadline);
      }
      ghost var answer: Completion;
      r, answer := CallService(index, deadline);
      if r.Raised? { return; }
      ghost var called := line.trace;
      r := ConfirmAction(index, deadline);
      CalledStays(called, line.trace, deadline - WRITE_RECOVERY_MARGIN);
    }

    /** The independent reading and the native status that must agree with a completed call. */
    method ConfirmAction(index: nat, deadline: int) returns (r: Result<()>)
      requires Latched() && !line.cleaning && latchedAt.None? && index < |plan.actions|
      requires line.trace != [] && line.trace[|line.trace| - 1].ServiceCall?
               && line.trace[|line.trace| - 1].index == index
      modifies line, this`rejectedObservation, this`latchedAt, this`owned, this`readModes, this`completedActions
      ensures Latched() && !line.cleaning
      ensures line.clock >= old(line.clock) && (old(line.interrupted) ==> line.interrupted)
      ensures old(line.trace) <= line.trace && Frames(line.trace) == Frames(old(line.trace))
      ensures Calls(line.trace) == Calls(old(line.trace))
      ensures r.Ok? ==> Confirmed(line.trace, index, plan.actions[index], line.profile)
      ensures owned == Some(Produced(plan.actions[index], line.profile))
      ensures r == Raised(Unsafe) ==> latchedAt.Some?
      ensures old(line.troubles) <= line.troubles
      ensures (&& line.troubles == old(line.troubles) && ValidChannels(plan.actions[index].expected)
               && old(line.lamp) == Produced(plan.actions[index], line.profile)
               && old(line.clock) + 3 * PROMPT < deadline) ==>
                && (r.Ok? || line.interrupted) && line.clock <= old(line.clock) + 3 * PROMPT && latchedAt.None?
                && line.lamp == Produced(plan.actions[index], line.profile) && InPossession(line.lamp, owned, readModes)
    {
      ghost var called := line.trace;
      var action := plan.actions[index];
      owned := Some(Produced(action, line.profile));
      readModes := {action.Mode()};
      var stop := line.CheckStop();
      if stop { return Raised(Stopped); }
      r := ReadOwned(deadline);
      if r.Raised? { return; }
      ghost var read := line.trace;
      r := NativeMode(deadline);
      if r.Raised? { return; }
      CallConfirmed(called, read, line.trace, index, action, line.profile);
      if line.clock >= deadline { return Raised(Deadline); }
      completedActions := completedActions + 1;
    }

    /** A fresh reading that must show exactly the owned state. */
    method ReadOwned(deadline: int) returns (r: Result<()>)
      requires Latched() && !line.cleaning && latchedAt.None?
      modifies line, this`rejectedObservation, this`latchedAt
      ensures Latched() && !line.cleaning
      ensures line.clock >= old(line.clock) && (old(line.interrupted) ==> line.interrupted)
      ensures old(line.trace) <= line.trace
      ensures Calls(line.trace) == Calls(old(line.trace)) && Frames(line.trace) == Frames(old(line.trace))
      ensures r.Ok? ==> latchedAt.None? && owned.Some? && old(line.trace) < line.trace
                        && line.trace == old(line.trace) + [Saw(owned.value, line.clock, false)]
      ensures r == Raised(Unsafe) ==> latchedAt.Some?
      ensures old(line.troubles) <= line.troubles
      ensures line.troubles == old(line.troubles) ==>
                line.lamp == old(line.lamp) && (r.Ok? ==> owned == Some(line.lamp))
                && line.clock <= old(line.clock) + 2 * PROMPT
      ensures (&& line.troubles == old(line.troubles) && old(line.clock) < deadline
               && InPossession(old(line.lamp), owned, readModes)) ==>
                (r.Ok? || line.interrupted) && latchedAt.None?
    {
      ghost var start := line.trace;
      var current := Read(deadline);
      QuietFrames(start, line.trace, false);
      QuietCalls(start, line.trace, false);
      if current.Raised? { return Raised(current.fault); }
      r := RequireOwned(current.value);
    }

    /** `_settle_uncertain`: a bounded wait for a request that may still be running. */
    method SettleUncertain(deadline: int) returns (r: Result<()>)
      modifies line`clock, line`interrupted, line`lamp, line`troubles
      ensures line.clock >= old(line.clock) && (old(line.interrupted) ==> line.interrupted)
      ensures old(line.troubles) <= line.troubles
      ensures r.Ok? && pendingUntil.Some? ==> pendingUntil.value <= line.clock < deadline
      ensures r.Raised? ==> r == Raised(Deadline) && line.clock >= deadline
    {
      if pendingUntil.None? { return Ok(()); }
      var remaining := pendingUntil.value - line.clock;
      if remaining > 0 {
        var left := if deadline > line.clock then deadline - line.clock else 0;
        line.Sleep(if remaining < left then remaining else left);
      }
      return if line.clock >= deadline then Raised(Deadline) else Ok(());
    }

    /** A retried fresh reading; contradictions latch. */
    method RecoveryRead(deadline: int, reserve: nat) returns (r: Result<State>)
      requires Latched() && line.cleaning
      modifies line, this`rejectedObservation, this`latchedAt
      ensures Latched() && line.cleaning
      ensures line.clock >= old(line.clock) && (old(line.interrupted) ==> line.interrupted)
      ensures Quiet(old(line.trace), line.trace, true)
      ensures r.Ok? ==> old(line.trace) < line.trace && line.trace[|line.trace| - 1] == Saw(r.value, line.clock, true)
                        && line.clock <= deadline - reserve && latchedAt == old(latchedAt)
                        && FirstSaw(line.trace, |old(line.trace)|, |line.trace| - 1)
      ensures old(latchedAt).Some? ==> latchedAt == old(latchedAt)
      ensures old(latchedAt).None? && latchedAt.Some? ==> latchedAt.value > |old(line.trace)|
      ensures old(line.troubles) <= line.troubles
      ensures Attempted(line.trace, |old(line.trace)|, old(line.clock), deadline, reserve)
      ensures forall g: nat | |old(line.trace)| <= g < |line.trace| && line.trace[g].Saw?
                && Timely(line.trace[g].at, old(line.clock), deadline, reserve) ::
                g == |line.trace| - 1 && r == Ok(line.trace[g].state)
      ensures (&& line.troubles == old(line.troubles) && old(line.Readable(ReadPolicy()))
               && old(line.clock) + 2 * PROMPT < deadline - reserve) ==>
                r == Ok(line.lamp) && line.lamp == old(line.lamp) && line.clock <= old(line.clock) + 2 * PROMPT
    {
      var contradiction: bool;
      r, contradiction := line.FreshRecoveryRead(deadline, reserve, None, ReadPolicy());
      SameUnknown(old(line.trace), line.trace);
      if latchedAt.Some? { StaysReadOnly(old(line.trace), line.trace, latchedAt.value, true); }
      if contradiction { Reject(); }
    }

    /** A latched clean-up tried to read the lamp, but not while a call could still be running. */
    ghost predicate WatchedFrom(split: nat)
      reads this`completionUnknown, this`pendingUntil, line`trace
    {
      && split < |line.trace| && line.trace[split].Tried?
      && (completionUnknown && pendingUntil.Some? ==> pendingUntil.value <= line.trace[split].at)
    }

    /** `_recover`: read only after a latch, otherwise at most one Automatic command. */
    method Recover(deadline: int) returns (r: Result<()>, ghost sent: seq<Frame>)
      requires Latched() && line.cleaning && owned.Some? && !cleanupSent
      modifies line, this`rejectedObservation, this`latchedAt, this`readModes, this`cleanupSent
      ensures Latched() && line.cleaning
      ensures line.clock >= old(line.clock) && (old(line.interrupted) ==> line.interrupted)
      ensures Continues(old(line.trace), line.trace, sent, deadline, true)
      ensures sent <= [ModeFrame(AUTOMATIC)] && (old(latchedAt).Some? ==> sent == [] && r.Raised?)
      ensures old(latchedAt).Some? ==> latchedAt == old(latchedAt)
      ensures r.Ok? ==> EndsAutomatic(line.trace, line.clock) && latchedAt.None?
      ensures old(line.troubles) <= line.troubles
      ensures old(latchedAt).None? && latchedAt.Some? ==> latchedAt.value > |old(line.trace)|
      ensures old(latchedAt).None? ==>
                && Attempted(line.trace, |old(line.trace)|, old(line.clock), deadline, RECOVERY_COMMAND_RESERVE)
                && Answered(line.trace, |old(line.trace)|, old(line.clock), deadline, owned.value)
                && Justified(line.trace, |old(line.trace)|, owned.value)
      ensures old(latchedAt).Some? && line.clock < deadline ==> WatchedFrom(|old(line.trace)|)
      ensures (&& line.troubles == old(line.troubles) && old(latchedAt).None? && owned.value.profile == line.profile
               && Restorable(old(line.lamp), owned.value)
               && old(line.clock) + 2 * PROMPT < deadline - RECOVERY_COMMAND_RESERVE) ==>
                && r.Ok? && sent == (if old(line.lamp).mode == AUTOMATIC then [] else [ModeFrame(AUTOMATIC)])
                && line.lamp.mode == AUTOMATIC && line.clock <= old(line.clock) + 2 * PROMPT + COMMAND_TIME
    {
      sent := [];
      ghost var start := line.trace;
      if completionUnknown || rejectedObservation {
        r := ObserveOnly(deadline);
        QuietFrames(start, line.trace, true);
        return;
      }
      readModes := {owned.value.mode, AUTOMATIC};
      var current := RecoveryRead(deadline, RECOVERY_COMMAND_RESERVE);
      QuietFrames(start, line.trace, true);
      ghost var seen := line.trace;
      if current.Raised? {
        GuardAnswered(|start|, seen, seen, old(line.clock), deadline, owned.value);
        GuardJustifies(|start|, seen, seen, owned.value);
        return Raised(current.fault), sent;
      }
      r, sent := Decide(current.value, deadline);
      ContinuesTransitive(start, seen, line.trace, [], sent, deadline, true);
      GuardAnswered(|start|, seen, line.trace, old(line.clock), deadline, owned.value);
      GuardJustifies(|start|, seen, line.trace, owned.value);
    }

    /** What `_recover` does with its guard reading. */
    method Decide(current: State, deadline: int) returns (r: Result<()>, ghost sent: seq<Frame>)
      requires Latched() && latchedAt.None? && line.cleaning && owned.Some? && !cleanupSent
      requires line.clock <= deadline - RECOVERY_COMMAND_RESERVE
      requires line.trace != [] && line.trace[|line.trace| - 1] == Saw(current, line.clock, true)
      modifies line, this`rejectedObservation, this`latchedAt, this`readModes, this`cleanupSent
      ensures Latched() && line.cleaning
      ensures line.clock >= old(line.clock) && (old(line.interrupted) ==> line.interrupted)
      ensures Continues(old(line.trace), line.trace, sent, deadline, true)
      ensures sent == if current == owned.value && current.mode != AUTOMATIC then [ModeFrame(AUTOMATIC)] else []
      ensures SentAt(line.trace, |old(line.trace)|, sent)
      ensures r.Ok? ==> EndsAutomatic(line.trace, line.clock) && latchedAt.None?
      ensures old(line.troubles) <= line.troubles
      ensures latchedAt.Some? ==> latchedAt.value >= |old(line.trace)|
      ensures (&& line.troubles == old(line.troubles) && old(line.lamp) == current && current.profile == line.profile
               && Restorable(current, owned.value)) ==>
                r.Ok? && line.lamp.mode == AUTOMATIC && line.clock <= old(line.clock) + COMMAND_TIME
    {
      sent := [];
      if current.mode == AUTOMATIC { return Ok(()), sent; }
      r := RequireOwned(current);
      if r.Raised? { return; }
      r, sent := RestoreAutomatic(deadline);
    }

    method ObserveOnly(deadline: int) returns (r: Result<()>)
      requires Latched() && line.cleaning && latchedAt.Some?
      modifies line, this`rejectedObservation, this`latchedAt, this`readModes
      ensures Latched() && line.cleaning && r.Raised? && latchedAt == old(latchedAt)
      ensures line.clock >= old(line.clock) && (old(line.interrupted) ==> line.interrupted)
      ensures Quiet(old(line.trace), line.trace, true)
      ensures old(line.troubles) <= line.troubles
      ensures line.clock < deadline ==> WatchedFrom(|old(line.trace)|)
    {
      if completionUnknown {
        r := SettleUncertain(deadline);
        if r.Raised? { return; }
      }
      readModes := {AUTOMATIC, MANUAL, SHUTDOWN};
      var observed := RecoveryRead(deadline, 0);
      return Raised(if observed.Raised? then observed.fault else Unsafe);
    }

    /** The one guarded command of `_command`. */
    method RestoreAutomatic(deadline: int) returns (r: Result<()>, ghost sent: seq<Frame>)
      requires Latched() && latchedAt.None? && line.cleaning && !cleanupSent
      requires line.clock <= deadline - RECOVERY_COMMAND_RESERVE
      modifies line, this`rejectedObservation, this`latchedAt, this`readModes, this`cleanupSent
      ensures Latched() && line.cleaning && cleanupSent && sent == [ModeFrame(AUTOMATIC)]
      ensures line.clock >= old(line.clock) && (old(line.interrupted) ==> line.interrupted)
      ensures Continues(old(line.trace), line.trace, sent, deadline, true)
      ensures r.Ok? ==> EndsAutomatic(line.trace, line.clock) && latchedAt.None?
      ensures SentAt(line.trace, |old(line.trace)|, sent)
      ensures latchedAt.Some? ==> latchedAt.value >= |old(line.trace)|
      ensures old(line.troubles) <= line.troubles
      ensures (&& line.troubles == old(line.troubles) && old(line.lamp).profile == line.profile
               && ValidChannels(old(line.lamp).channels)) ==>
                r.Ok? && line.lamp.mode == AUTOMATIC && line.clock <= old(line.clock) + COMMAND_TIME
    {
      cleanupSent := true;
      readModes := {AUTOMATIC};
      var restored, contradiction, barred: bool := Raised(Deadline), false, false;
      restored, contradiction, barred, sent :=
        line.Command(None, AUTOMATIC, deadline, WRITE_RECOVERY_MARGIN, 0, ReadPolicy());
      SameUnknown(old(line.trace), line.trace);
      if contradiction { Reject(); }
      r := if restored.Raised? then Raised(restored.fault) else Ok(());
    }

    /** Evidence can fail to persist only before the excursion. */
    method Persist() returns (r: Result<()>)
      modifies this`reportingError
      ensures r.Raised? ==> r.fault == Unpersisted && reportingError
      ensures old(reportingError) ==> reportingError
    {
      var persisted: bool := *;
      if !persisted {
        reportingError := true;
        return Raised(Unpersisted);
      }
      return Ok(());
    }

    /** Two equal Automatic readings of low output. */
    method Stable(deadline: int) returns (r: Result<()>)
      requires Latched() && latchedAt.None? && !line.cleaning && readModes == {AUTOMATIC} && line.trace == []
      modifies line, this`baseline, this`owned, this`rejectedObservation, this`latchedAt
      ensures Latched() && !line.cleaning
      ensures line.clock >= old(line.clock) && (old(line.interrupted) ==> line.interrupted)
      ensures Quiet(old(line.trace), line.trace, false)
      ensures r.Ok? ==> baseline.Some? && Rehearsed(line.trace, 2, baseline.value) && |line.trace| == 2
      ensures r.Ok? ==> latchedAt.None? && owned.Some? && owned == baseline && owned.value.profile == line.profile
      ensures old(line.troubles) <= line.troubles
      ensures line.troubles == old(line.troubles) ==>
                && line.lamp == old(line.lamp) && line.clock <= old(line.clock) + 4 * PROMPT
                && (r.Ok? ==> InPossession(line.lamp, owned, readModes))
                && ((&& !line.interrupted && old(line.clock) + 2 * PROMPT < deadline
                     && LowAutomatic(line.lamp, line.profile)) ==> r.Ok?)
    {
      var first := Read(deadline);
      if first.Raised? { return Raised(first.fault); }
      var second := Read(deadline);
      if second.Raised? { return Raised(second.fault); }
      baseline := Some(second.value);
      if first.value != second.value || !(forall i | 0 <= i < 6 :: second.value.channels[i] <= MAX_OUTPUT) {
        Reject();
        return Raised(Unsafe);
      }
      owned := baseline;
      return Ok(());
    }

    /** Two equal readings, agreeing native status, and a third reading after the durable intent. */
    method Preflight() returns (r: Result<()>)
      requires Latched() && latchedAt.None? && !line.cleaning && readModes == {AUTOMATIC} && line.trace == []
      modifies line, this`baseline, this`owned, this`rejectedObservation, this`latchedAt, this`reportingError
      ensures Latched() && !line.cleaning && (old(reportingError) ==> reportingError)
      ensures line.clock >= old(line.clock) && (old(line.interrupted) ==> line.interrupted)
      ensures Frames(line.trace) == [] && Calls(line.trace) == []
      ensures r.Ok? ==> baseline.Some? && Prepared(line.trace, baseline.value)
      ensures r.Ok? ==> latchedAt.None? && owned.Some? && owned == baseline && owned.value.profile == line.profile
      ensures old(line.troubles) <= line.troubles
      ensures line.troubles == old(line.troubles) ==>
                && line.lamp == old(line.lamp) && (r.Ok? ==> InPossession(line.lamp, owned, readModes))
                && ((&& !line.interrupted && !reportingError && old(line.clock) + 7 * PROMPT < started + IO_PREFLIGHT
                     && LowAutomatic(line.lamp, line.profile)) ==> r.Ok?)
    {
      var deadline := started + IO_PREFLIGHT;
      r := Persist();
      if r.Raised? { return; }
      r := Stable(deadline);
      QuietFrames([], line.trace, false);
      QuietCalls([], line.trace, false);
      if r.Raised? { return; }
      r := NativeMode(deadline);
      if r.Raised? { return; }
      r := Persist();
      if r.Raised? { return; }
      r := ReadOwned(deadline);
      if r.Raised? { return; }
      line.Close();
      var stop := line.CheckStop();
      return if stop then Raised(Stopped) else Ok(());
    }

    /** How a started excursion turned into its clean-up and how that ended: unless it was latched it was
        attempted, an owned reading was answered, and without a further fault the lamp came back. */
    ghost predicate CleanedUp(turn: Turn, began: int)
      requires owned.Some?
      reads this`owned, this`latchedAt, this`completionUnknown, this`pendingUntil, this`recovery
      reads line`trace, line`clock, line`troubles, line`lamp
    {
      var deadline := began + plan.CleanupTime();
      && began <= turn.at <= line.clock && turn.faults <= line.troubles
      && if latchedAt.Some? && latchedAt.value <= turn.split then line.clock < deadline ==> WatchedFrom(turn.split)
         else
           && Attempted(line.trace, turn.split, turn.at, deadline, RECOVERY_COMMAND_RESERVE)
           && Answered(line.trace, turn.split, turn.at, deadline, owned.value)
           && Justified(line.trace, turn.split, owned.value)
           && ((&& line.troubles == turn.faults && Restorable(turn.shown, owned.value)
                && turn.at + 2 * PROMPT < deadline - RECOVERY_COMMAND_RESERVE) ==>
                 recovery == Pass && line.lamp.mode == AUTOMATIC)
    }

    /** `run`. Whenever a signal stops the run, an honest and prompt lamp and service are back under Automatic;
        without one every action is called and the run passes. */
    method Run() returns (ghost turn: Turn)
      requires line.trace == [] && !line.cleaning && Latched() && latchedAt.None?
      requires readModes == {AUTOMATIC} && !cleanupSent && excursionStarted.None?
      requires experiment == recovery == NotTested && !reportingError
      modifies this, line
      ensures Latched()
      ensures Frames(line.trace) <= [ModeFrame(AUTOMATIC)]
      ensures Calls(line.trace) <= UpTo(|plan.actions|)
      ensures excursionStarted.None? ==> Calls(line.trace) == [] && Frames(line.trace) == []
      ensures excursionStarted.Some? ==>
                && SentBefore(line.trace, excursionStarted.value + if |plan.actions| == 1 then 9500 else 19500)
                && CalledBy(line.trace, excursionStarted.value + if |plan.actions| == 1 then 1200 else 4200)
      ensures excursionStarted.Some? ==> baseline.Some? && Prepared(line.trace, baseline.value)
      ensures excursionStarted.Some? ==> owned.Some? && CleanedUp(turn, excursionStarted.value)
      ensures status == Pass ==>
                && excursionStarted.Some? && latchedAt.None? && !line.interrupted && !reportingError
                && AllConfirmed(line.trace, plan, line.profile)
                && EndsAutomatic(line.trace, excursionStarted.value + if |plan.actions| == 1 then 10000 else 20000)
      ensures completionUnknown <==> AnyUnknown(line.trace)
      ensures line.troubles == old(line.troubles) && Acceptable(plan) ==>
                if excursionStarted.Some? then recovery == Pass && line.lamp.mode == old(line.lamp).mode == AUTOMATIC
                else line.lamp == old(line.lamp)
      ensures (&& line.troubles == old(line.troubles) && !line.interrupted && !reportingError && Acceptable(plan)
               && old(line.clock) + 7 * PROMPT < started + IO_PREFLIGHT
               && LowAutomatic(old(line.lamp), line.profile)) ==>
                && status == Pass && baseline == Some(old(line.lamp))
                && Calls(line.trace) == UpTo(|plan.actions|) && Frames(line.trace) == [ModeFrame(AUTOMATIC)]
    {
      turn := Conduct();
      line.Close();
      status := if experiment == Pass && recovery == Pass && !line.interrupted && !reportingError then Pass else Fail;
    }

    /** The whole run up to its verdict. */
    method Conduct() returns (ghost turn: Turn)
      requires line.trace == [] && !line.cleaning && Latched() && latchedAt.None?
      requires readModes == {AUTOMATIC} && !cleanupSent && excursionStarted.None?
      requires experiment == recovery == NotTested && !reportingError
      modifies this, line
      ensures Latched()
      ensures Frames(line.trace) <= [ModeFrame(AUTOMATIC)] && Calls(line.trace) <= UpTo(|plan.actions|)
      ensures excursionStarted.None? ==>
                Calls(line.trace) == [] && Frames(line.trace) == [] && experiment == NotTested
      ensures excursionStarted.Some? ==>
                && baseline.Some? && Prepared(line.trace, baseline.value)
                && owned.Some? && CleanedUp(turn, excursionStarted.value)
                && SentBefore(line.trace, excursionStarted.value + plan.CleanupTime())
                && CalledBy(line.trace, excursionStarted.value + plan.ExperimentTime() - WRITE_RECOVERY_MARGIN)
                && (experiment == Pass ==> AllConfirmed(line.trace, plan, line.profile))
                && (recovery == Pass ==>
                      latchedAt.None? && EndsAutomatic(line.trace, excursionStarted.value + plan.MaximumTime()))
      ensures line.troubles == old(line.troubles) && Acceptable(plan) ==>
                if excursionStarted.Some? then recovery == Pass && line.lamp.mode == old(line.lamp).mode == AUTOMATIC
                else line.lamp == old(line.lamp)
      ensures (&& line.troubles == old(line.troubles) && !line.interrupted && !reportingError && Acceptable(plan)
               && old(line.clock) + 7 * PROMPT < started + IO_PREFLIGHT
               && LowAutomatic(old(line.lamp), line.profile)) ==>
                && experiment == recovery == Pass && baseline == Some(old(line.lamp))
                && Calls(line.trace) == UpTo(|plan.actions|) && Frames(line.trace) == [ModeFrame(AUTOMATIC)]
    {
      turn := Turn(0, line.clock, line.lamp, line.troubles);
      var outcome := Preflight();
      if outcome.Ok? {
        excursionStarted := Some(line.clock);
        turn := Excursion(line.clock);
      } else if outcome == Raised(Unsafe) {
        Reject();
      }
    }

    /** The planned actions, as far as they go. */
    method Experiment(began: int) returns (r: Result<()>)
      requires Latched() && latchedAt.None? && !line.cleaning && owned.Some? && owned.value.profile == line.profile
      requires Calls(line.trace) == UpTo(0) && Frames(line.trace) == [] && began == line.clock
      modifies line, this`rejectedObservation, this`completionUnknown, this`pendingUntil, this`latchedAt,
               this`owned, this`readModes, this`completedActions
      ensures Latched() && !line.cleaning && owned.Some? && owned.value.profile == line.profile
      ensures line.clock >= old(line.clock) && (old(line.interrupted) ==> line.interrupted)
      ensures Frames(line.trace) == [] && old(line.trace) <= line.trace
      ensures CalledBy(line.trace, began + plan.ExperimentTime() - WRITE_RECOVERY_MARGIN)
      ensures Calls(line.trace) <= UpTo(|plan.actions|)
      ensures r.Ok? ==> Calls(line.trace) == UpTo(|plan.actions|)
      ensures r.Ok? ==> AllConfirmed(line.trace, plan, line.profile)
      ensures latchedAt.Some? ==> latchedAt.value <= |line.trace|
      ensures old(line.troubles) <= line.troubles
      ensures (&& line.troubles == old(line.troubles) && Acceptable(plan)
               && InPossession(old(line.lamp), old(owned), old(readModes))) ==>
                && (r.Ok? || line.interrupted) && latchedAt.None? && line.clock <= began + 3 * ACTION_TIME
                && InPossession(line.lamp, owned, readModes) && (r.Ok? ==> line.lamp.mode != AUTOMATIC)
    {
      CalledStays([], line.trace, began + plan.ExperimentTime() - WRITE_RECOVERY_MARGIN);
      for index := 0 to |plan.actions|
        invariant Latched() && !line.cleaning && owned.Some? && owned.value.profile == line.profile
        invariant line.clock >= old(line.clock) && (old(line.interrupted) ==> line.interrupted)
        invariant CalledBy(line.trace, began + plan.ExperimentTime() - WRITE_RECOVERY_MARGIN)
        invariant Calls(line.trace) == UpTo(index) && Frames(line.trace) == [] && old(line.trace) <= line.trace
        invariant ConfirmedUpTo(line.trace, plan, line.profile, index)
        invariant old(line.troubles) <= line.troubles
        invariant (&& line.troubles == old(line.troubles) && Acceptable(plan)
                   && InPossession(old(line.lamp), old(owned), old(readModes))) ==>
                    && latchedAt.None? && line.clock <= began + index * ACTION_TIME
                    && InPossession(line.lamp, owned, readModes) && (index > 0 ==> line.lamp.mode != AUTOMATIC)
      {
        r := NextAction(index, began + plan.ExperimentTime());
        if r.Raised? { return; }
      }
      return Ok(());
    }

    /** One action; what was confirmed before stays so. */
    method NextAction(index: nat, deadline: int) returns (r: Result<()>)
      requires Latched() && !line.cleaning && index < |plan.actions|
      requires owned.Some? && owned.value.profile == line.profile
      requires Calls(line.trace) == UpTo(index) && Frames(line.trace) == []
      requires CalledBy(line.trace, deadline - WRITE_RECOVERY_MARGIN)
      requires ConfirmedUpTo(line.trace, plan, line.profile, index)
      modifies line, this`rejectedObservation, this`completionUnknown, this`pendingUntil, this`latchedAt,
               this`owned, this`readModes, this`completedActions
      ensures Latched() && !line.cleaning && owned.Some? && owned.value.profile == line.profile
      ensures line.clock >= old(line.clock) && (old(line.interrupted) ==> line.interrupted)
      ensures old(line.trace) <= line.trace && Frames(line.trace) == []
      ensures CalledBy(line.trace, deadline - WRITE_RECOVERY_MARGIN)
      ensures Calls(line.trace) == UpTo(index) || Calls(line.trace) == UpTo(index + 1)
      ensures r.Ok? ==>
                Calls(line.trace) == UpTo(index + 1) && ConfirmedUpTo(line.trace, plan, line.profile, index + 1)
      ensures old(line.troubles) <= line.troubles
      ensures (&& line.troubles == old(line.troubles) && old(latchedAt).None? && Acceptable(plan)
               && InPossession(old(line.lamp), old(owned), old(readModes))
               && old(line.clock) + ACTION_TIME <= deadline - WRITE_RECOVERY_MARGIN) ==>
                && (r.Ok? || line.interrupted) && line.clock <= old(line.clock) + ACTION_TIME && latchedAt.None?
                && InPossession(line.lamp, owned, readModes) && (r.Ok? ==> line.lamp.mode != AUTOMATIC)
    {
      ghost var before := line.trace;
      r := Actuate(index, deadline);
      if r == Raised(Unsafe) { Reject(); }
      AllStay(before, line.trace, plan, line.profile, index);
    }

    /** The experiment and the clean-up that always follows it. */
    method Excursion(began: int) returns (ghost turn: Turn)
      requires Latched() && latchedAt.None? && !line.cleaning && !cleanupSent
      requires owned.Some? && owned.value.profile == line.profile && began == line.clock
      requires Calls(line.trace) == UpTo(0) && Frames(line.trace) == []
      modifies line, this`rejectedObservation, this`completionUnknown, this`pendingUntil, this`latchedAt,
               this`owned, this`readModes, this`completedActions, this`cleanupSent, this`experiment, this`recovery
      ensures Latched() && Frames(line.trace) <= [ModeFrame(AUTOMATIC)]
      ensures Calls(line.trace) <= UpTo(|plan.actions|)
      ensures SentBefore(line.trace, began + plan.CleanupTime())
      ensures CalledBy(line.trace, began + plan.ExperimentTime() - WRITE_RECOVERY_MARGIN)
      ensures experiment == Pass ==> AllConfirmed(line.trace, plan, line.profile)
      ensures recovery == Pass ==> latchedAt.None? && EndsAutomatic(line.trace, began + plan.MaximumTime())
      ensures old(line.interrupted) ==> line.interrupted
      ensures old(line.trace) <= line.trace
      ensures old(line.troubles) <= line.troubles && owned.Some? && CleanedUp(turn, began)
      ensures (&& line.troubles == old(line.troubles) && Acceptable(plan)
               && InPossession(old(line.lamp), old(owned), old(readModes))) ==>
                recovery == Pass && line.lamp.mode == AUTOMATIC
      ensures (&& line.troubles == old(line.troubles) && Acceptable(plan) && !line.interrupted
               && InPossession(old(line.lamp), old(owned), old(readModes))) ==>
                && experiment == Pass && Calls(line.trace) == UpTo(|plan.actions|)
                && Frames(line.trace) == [ModeFrame(AUTOMATIC)]
    {
      var outcome := Experiment(began);
      experiment := if outcome.Ok? then Pass else Fail;
      ghost var middle := line.trace;
      ghost var sent: seq<Frame>;
      sent, turn := CleanUp(began);
      RecoveryAdds(middle, line.trace, sent, began + plan.CleanupTime());
      CalledStays(middle, line.trace, began + plan.ExperimentTime() - WRITE_RECOVERY_MARGIN);
      if experiment == Pass { AllStay(middle, line.trace, plan, line.profile, |plan.actions|); }
    }

    /** The clean-up that always follows. */
    method CleanUp(began: int) returns (ghost sent: seq<Frame>, ghost turn: Turn)
      requires Latched() && !line.cleaning && !cleanupSent && began <= line.clock
      requires owned.Some? && owned.value.profile == line.profile
      modifies line, this`rejectedObservation, this`latchedAt, this`readModes, this`cleanupSent, this`recovery
      ensures Latched() && sent <= [ModeFrame(AUTOMATIC)]
      ensures turn == Turn(|old(line.trace)|, old(line.clock), old(line.lamp), old(line.troubles))
      ensures Continues(old(line.trace), line.trace, sent, began + plan.CleanupTime(), true)
      ensures recovery == Pass ==> latchedAt.None? && EndsAutomatic(line.trace, began + plan.MaximumTime())
      ensures old(line.interrupted) ==> line.interrupted
      ensures old(line.troubles) <= line.troubles && CleanedUp(turn, began)
      ensures (&& line.troubles == turn.faults && old(latchedAt).None? && Restorable(turn.shown, owned.value)
               && turn.at + 2 * PROMPT < began + plan.CleanupTime() - RECOVERY_COMMAND_RESERVE) ==>
                recovery == Pass && sent == (if turn.shown.mode == AUTOMATIC then [] else [ModeFrame(AUTOMATIC)])
    {
      turn := Turn(|line.trace|, line.clock, line.lamp, line.troubles);
      line.cleaning := true;
      var outcome: Result<()>;
      outcome, sent := Recover(began + plan.CleanupTime());
      recovery := Fail;
      if outcome.Ok? && line.clock - began <= plan.MaximumTime() {
        recovery := Pass;
      }
    }
  }
}
