/**
  The serialized client: any number of callers queue for one lock, and every uncertain result
  revokes the epoch. Each method is one step between two awaits; steps of different callers, of
  the running operation and of `close` interleave freely. The ghost log records what happened.
 */
module SerializedClient {
  import opened Wrappers

  /** What a complete reading showed; states are compared, never inspected here. */
  type State = int

  datatype Event =
    | Submitted(id: nat, write: bool)   // a caller entered `_execute`
    | Entered(id: nat, write: bool)     // it holds the lock and starts its operation
    | Left(id: nat)                     // it released the lock
    | Transmitted(id: nat, write: bool) // one frame (query or command) went to the socket
    | Revoked                           // the epoch moved on: a result is uncertain or unusable
    | Confirmed(state: State)           // a complete fresh reading became the known state
    | Closed

  datatype Outcome = Succeeded(state: State) | InputError(state: State) | Failed

  /** The inner operation task of the lock holder. */
  datatype Operation = Idle | Going | Finished(outcome: Outcome)

  datatype Stage =
    | Waiting
    | Awaiting                                               // for the operation's result
    | Settling(result: Option<State>, cancelled: bool)       // until the operation really ended
    | Disconnecting(result: Option<State>, cancelled: bool)
    | Done

  datatype Call = Call(write: bool, epoch: nat, stage: Stage)

  // ----- What a log may contain -----

  predicate Revokes(e: Event) {
    e.Revoked? || e.Closed?
  }

  function Holder(log: seq<Event>): Option<nat> {
    if log == [] then None
    else match log[|log| - 1]
         case Entered(id, _) => Some(id)
         case Left(_) => None
         case _ => Holder(log[..|log| - 1])
  }

  /** The state that the client may still rely on. */
  function Known(log: seq<Event>): Option<State> {
    if log == [] then None
    else match log[|log| - 1]
         case Confirmed(s) => Some(s)
         case Revoked => None
         case Closed => None
         case _ => Known(log[..|log| - 1])
  }

  predicate IsClosed(log: seq<Event>) {
    exists i :: 0 <= i < |log| && log[i].Closed?
  }

  predicate Asked(log: seq<Event>, id: nat) {
    exists i :: 0 <= i < |log| && log[i].Submitted? && log[i].id == id
  }

  /** `id` was submitted and nothing was revoked since. */
  predicate CurrentSubmit(log: seq<Event>, id: nat) {
    log != [] &&
    var last := log[|log| - 1];
    if last.Submitted? && last.id == id then true
    else !Revokes(last) && CurrentSubmit(log[..|log| - 1], id)
  }

  /** `id` took the lock and nothing was revoked since. */
  predicate CurrentEntry(log: seq<Event>, id: nat) {
    log != [] &&
    var last := log[|log| - 1];
    if last.Entered? && last.id == id then true
    else !Revokes(last) && CurrentEntry(log[..|log| - 1], id)
  }

  predicate Admits(log: seq<Event>, e: Event) {
    match e
    case Submitted(id, _) => !Asked(log, id)
    case Entered(id, write) =>
      Holder(log).None? && !IsClosed(log) && (write ==> CurrentSubmit(log, id) && Known(log).Some?)
    case Left(id) => Holder(log) == Some(id)
    case Transmitted(id, write) =>
      && Holder(log) == Some(id) && CurrentEntry(log, id) && !IsClosed(log)
      && (write ==> CurrentSubmit(log, id) && Known(log).Some?)
    case _ => true
  }

  predicate Safe(log: seq<Event>) {
    log == [] || (Safe(log[..|log| - 1]) && Admits(log[..|log| - 1], log[|log| - 1]))
  }

  lemma Extend(log: seq<Event>, e: Event)
    requires Safe(log) && Admits(log, e)
    ensures Safe(log + [e])
  {
    assert (log + [e])[..|log|] == log;
  }

  lemma {:induction false} SafeAt(log: seq<Event>, i: nat)
    requires Safe(log) && i < |log|
    ensures Safe(log[..i]) && Admits(log[..i], log[i])
  {
    var init := log[..|log| - 1];
    if i < |init| {
      SafeAt(init, i);
      assert init[..i] == log[..i];
    } else {
      assert log[..i] == init;
    }
  }

  lemma {:induction false} NothingRevokedSinceSubmit(log: seq<Event>, id: nat, submit: nat, k: nat)
    requires Safe(log) && CurrentSubmit(log, id) && submit < k < |log| && log[submit].Submitted? && log[submit].id == id
    ensures !Revokes(log[k])
  {
    var init := log[..|log| - 1];
    var last := log[|log| - 1];
    assert init[submit] == log[submit];
    assert !(last.Submitted? && last.id == id);
    if k < |init| {
      NothingRevokedSinceSubmit(init, id, submit, k);
      assert init[k] == log[k];
    }
  }

  /** The client's promise about every queued write: once anything became uncertain after it was
      submitted, no frame of it is ever transmitted, whatever refreshes succeed in between; and
      when a frame goes out, the client still relies on a confirmed state. */
  lemma NoStaleCommand(log: seq<Event>, submit: nat, revoked: nat, sent: nat)
    requires Safe(log) && submit < revoked < sent < |log|
    requires log[submit].Submitted? && Revokes(log[revoked])
    requires log[sent].Transmitted? && log[sent].write
    ensures log[sent].id != log[submit].id
    ensures Known(log[..sent]).Some?
  {
    SafeAt(log, sent);
    var before := log[..sent];
    assert before[submit] == log[submit] && before[revoked] == log[revoked];
    if log[sent].id == log[submit].id {
      NothingRevokedSinceSubmit(before, log[submit].id, submit, revoked);
    }
  }

  lemma {:induction false} LastEntry(log: seq<Event>, id: nat) returns (entry: nat)
    requires Safe(log) && Holder(log) == Some(id)
    ensures entry < |log| && log[entry].Entered? && log[entry].id == id
    ensures forall k | entry < k < |log| :: !log[k].Entered? && !log[k].Left?
    ensures CurrentEntry(log, id) ==> forall k | entry < k < |log| :: !Revokes(log[k])
  {
    var init := log[..|log| - 1];
    var last := log[|log| - 1];
    if last.Entered? {
      entry := |log| - 1;
    } else {
      entry := LastEntry(init, id);
      assert forall k | 0 <= k < |init| :: init[k] == log[k];
    }
  }

  /** Every frame belongs to the one transaction that holds the lock, and nothing was revoked
      between the start of that transaction and the frame: a transaction that failed, was cancelled
      or was overtaken by `close` never sends again. */
  lemma OneLiveTransaction(log: seq<Event>, sent: nat) returns (entry: nat)
    requires Safe(log) && sent < |log| && log[sent].Transmitted?
    ensures entry < sent && log[entry].Entered? && log[entry].id == log[sent].id
    ensures forall k | entry < k < sent :: !log[k].Entered? && !log[k].Left? && !Revokes(log[k])
  {
    SafeAt(log, sent);
    entry := LastEntry(log[..sent], log[sent].id);
    assert forall k | 0 <= k < sent :: log[..sent][k] == log[k];
  }

  lemma NothingAfterClose(log: seq<Event>, closed: nat, later: nat)
    requires Safe(log) && closed < later < |log| && log[closed].Closed?
    ensures !log[later].Transmitted? && !log[later].Entered?
  {
    SafeAt(log, later);
    assert log[..later][closed] == log[closed];
  }

  function Staged(calls: map<nat, Call>, id: nat, stage: Stage): map<nat, Call>
    requires id in calls
  {
    calls[id := calls[id].(stage := stage)]
  }

  /** Where a cancellation takes an outer call: a settling one remembers it, a disconnecting one ends
      without a result. */
  function AfterCancel(stage: Stage): Stage {
    match stage
    case Settling(result, _) => Settling(result, true)
    case Disconnecting(_, cancelled) => Disconnecting(None, cancelled)
    case _ => Settling(None, false)
  }

  class Client {
    var closed: bool
    var needsRefresh: bool
    var epoch: nat
    var operationEpoch: Option<nat>
    var lastState: Option<State>
    var connected: bool
    var holder: Option<nat>
    var operation: Operation
    var calls: map<nat, Call>
    var nextId: nat
    ghost var log: seq<Event>

    constructor ()
      ensures Valid() && needsRefresh && !closed && log == []
    {
      closed, needsRefresh, epoch, operationEpoch, lastState, connected := false, true, 0, None, None, false;
      holder, operation, calls, nextId, log := None, Idle, map[], 0, [];
    }

    ghost predicate KnownIds()
      reads this
    {
      && (forall id | id in calls :: id < nextId)
      && (forall i | 0 <= i < |log| && log[i].Submitted? :: log[i].id < nextId)
    }

    ghost predicate CallValid(id: nat)
      requires id in calls
      reads this
    {
      && calls[id].epoch <= epoch
      && (calls[id].epoch == epoch ==> CurrentSubmit(log, id))
      && (holder != Some(id) ==> calls[id].stage.Waiting? || calls[id].stage.Done?)
    }

    ghost predicate HolderValid()
      reads this
    {
      match holder
      case None => operationEpoch.None? && operation.Idle?
      case Some(id) =>
        && id in calls && !calls[id].stage.Waiting? && !calls[id].stage.Done?
        && !operation.Idle? && (calls[id].stage.Disconnecting? ==> operation.Finished?)
        && operationEpoch.Some? && operationEpoch.value <= epoch
        && (operationEpoch.value == epoch ==>
             !closed && CurrentEntry(log, id) && (calls[id].write ==> calls[id].epoch == epoch && !needsRefresh))
    }

    ghost predicate Valid()
      reads this
    {
      && Safe(log) && holder == Holder(log) && lastState == Known(log)
      && (needsRefresh <==> lastState.None?) && (closed <==> IsClosed(log))
      && KnownIds() && (forall id | id in calls :: CallValid(id)) && HolderValid()
    }

    ghost method Note(e: Event)
      requires Safe(log) && Admits(log, e)
      modifies this`log
      ensures log == old(log) + [e] && Safe(log)
      ensures Holder(log) == match e case Entered(id, _) => Some(id) case Left(_) => None case _ => Holder(old(log))
      ensures Known(log) ==
                match e case Confirmed(s) => Some(s) case Revoked => None case Closed => None case _ => Known(old(log))
      ensures IsClosed(log) <==> IsClosed(old(log)) || e.Closed?
      ensures forall id :: CurrentSubmit(log, id) <==>
                (e.Submitted? && e.id == id) || (!Revokes(e) && CurrentSubmit(old(log), id))
      ensures forall id :: CurrentEntry(log, id) <==>
                (e.Entered? && e.id == id) || (!Revokes(e) && CurrentEntry(old(log), id))
    {
      Extend(log, e);
      ghost var before := log;
      log := log + [e];
      assert log[..|log| - 1] == before;
      assert forall i | 0 <= i < |before| :: log[i] == before[i];
      assert log[|before|] == e;
    }

    /** A caller enters `_execute` and remembers the epoch. */
    method Submit(write: bool) returns (id: nat)
      requires Valid()
      modifies this`calls, this`nextId, this`log
      ensures Valid() && id == old(nextId) && nextId == id + 1 && calls == old(calls)[id := Call(write, epoch, Waiting)]
      ensures log == old(log) + [Submitted(id, write)]
    {
      id := nextId;
      nextId := nextId + 1;
      calls := calls[id := Call(write, epoch, Waiting)];
      Note(Submitted(id, write));
    }

    /** The caller is cancelled while it waits for the lock. */
    method Abandon(id: nat)
      requires Valid() && id in calls && calls[id].stage.Waiting?
      modifies this`calls
      ensures Valid() && calls == old(calls)[id := old(calls)[id].(stage := Done)]
    {
      calls := calls[id := calls[id].(stage := Done)];
    }

    /** The lock is granted: refuse, or start the operation in the current epoch. */
    method Acquire(id: nat) returns (admitted: bool)
      requires Valid() && holder.None? && id in calls && calls[id].stage.Waiting?
      modifies this`calls, this`holder, this`operationEpoch, this`operation, this`log
      ensures Valid()
      ensures admitted <==> !closed && (old(calls)[id].write ==> !needsRefresh && old(calls)[id].epoch == epoch)
      ensures admitted ==>
                && holder == Some(id) && operationEpoch == Some(epoch) && operation == Going
                && calls == old(calls)[id := old(calls)[id].(stage := Awaiting)]
                   && log == old(log) + [Entered(id, calls[id].write)]
      ensures !admitted ==>
                && holder.None? && operationEpoch == old(operationEpoch) && operation == old(operation)
                && calls == old(calls)[id := old(calls)[id].(stage := Done)] && log == old(log)
    {
      var call := calls[id];
      if closed || (call.write && (needsRefresh || call.epoch != epoch)) {
        calls := calls[id := call.(stage := Done)];
        return false;
      }
      Note(Entered(id, call.write));
      holder, operationEpoch, operation := Some(id), Some(epoch), Going;
      calls := calls[id := call.(stage := Awaiting)];
      return true;
    }

    /** The operation opens a socket, or drops it between a write and its readback. */
    method Reconnect(up: bool)
      requires Valid() && operation.Going?
      modifies this`connected
      ensures Valid() && connected == up
    {
      connected := up;
    }

    /** `_send`. */
    method Send() returns (sent: bool)
      requires Valid() && operation.Going?
      modifies this`log, this`operation
      ensures Valid()
      ensures sent <==> old(operationEpoch) == Some(epoch) && connected && !closed
      ensures sent ==>
                log == old(log) + [Transmitted(holder.value, calls[holder.value].write)] && operation == old(operation)
      ensures !sent ==> log == old(log) && operation == Finished(Failed)
    {
      if operationEpoch.Some? && operationEpoch.value != epoch {
        operation := Finished(Failed);
        return false;
      }
      if !connected || closed {
        operation := Finished(Failed);
        return false;
      }
      Note(Transmitted(holder.value, calls[holder.value].write));
      return true;
    }

    /** The operation ends: a confirmed state, an input that a fresh state cannot serve, any other
        error, a lost connection or its own cancellation. */
    method Finish(outcome: Outcome)
      requires Valid() && operation.Going?
      modifies this`operation
      ensures Valid() && operation == Finished(outcome)
    {
      operation := Finished(outcome);
    }

    /** `_invalidate`. */
    method Invalidate()
      requires Valid()
      modifies this`lastState, this`needsRefresh, this`epoch, this`log
      ensures Valid() && epoch == old(epoch) + 1 && needsRefresh && lastState.None? && log == old(log) + [Revoked]
    {
      Note(Revoked);
      lastState, needsRefresh, epoch := None, true, epoch + 1;
    }

    /** A complete reading becomes the known state. */
    method Learn(state: State)
      requires Valid()
      modifies this`lastState, this`needsRefresh, this`log
      ensures Valid() && !needsRefresh && lastState == Some(state) && log == old(log) + [Confirmed(state)]
    {
      Note(Confirmed(state));
      lastState, needsRefresh := Some(state), false;
    }

    /** The outer call takes the result of its finished operation. */
    method Resume()
      requires Valid() && holder.Some? && calls[holder.value].stage.Awaiting? && operation.Finished?
      modifies this`lastState, this`needsRefresh, this`epoch, this`calls, this`log
      ensures Valid() && old(log) <= log
      ensures match operation.outcome
              case Succeeded(s) =>
                && epoch == old(epoch) && lastState == old(lastState)
                && calls == Staged(old(calls), holder.value, Settling(Some(s), false))
              case InputError(s) =>
                && epoch == old(epoch) + 1 && lastState == Some(s)
                && calls == Staged(old(calls), holder.value, Settling(None, false))
              case Failed =>
                && epoch == old(epoch) + 1 && lastState.None?
                && calls == Staged(old(calls), holder.value, Settling(None, false))
    {
      var outcome := operation.outcome;
      if !outcome.Succeeded? { Invalidate(); }
      if outcome.InputError? { Learn(outcome.state); }
      EnterSettling(if outcome.Succeeded? then Some(outcome.state) else None);
    }

    method EnterSettling(result: Option<State>)
      requires Valid() && holder.Some?
      modifies this`calls
      ensures Valid()
              && calls == old(calls)[holder.value := old(calls)[holder.value].(stage := Settling(result, false))]
    {
      calls := calls[holder.value := calls[holder.value].(stage := Settling(result, false))];
    }

    /** The whole-transaction timeout: the operation keeps running until its cancellation arrives. */
    method TimeOut()
      requires Valid() && holder.Some? && calls[holder.value].stage.Awaiting?
      modifies this`lastState, this`needsRefresh, this`epoch, this`calls, this`log
      ensures Valid() && epoch == old(epoch) + 1 && lastState.None? && log == old(log) + [Revoked]
      ensures calls == Staged(old(calls), holder.value, Settling(None, false))
    {
      Invalidate();
      calls := calls[holder.value := calls[holder.value].(stage := Settling(None, false))];
    }

    /** A cancellation reaches the outer call at one of its awaits. */
    method Cancel()
      requires Valid() && holder.Some?
      modifies this`lastState, this`needsRefresh, this`epoch, this`calls, this`log
      ensures Valid() && epoch == old(epoch) + 1 && lastState.None? && log == old(log) + [Revoked]
      ensures calls == Staged(old(calls), holder.value, AfterCancel(old(calls)[holder.value].stage))
    {
      Invalidate();
      calls := Staged(calls, holder.value, AfterCancel(calls[holder.value].stage));
    }

    /** The operation has really ended, so the connection may be dropped. */
    method Settle()
      requires Valid() && holder.Some? && calls[holder.value].stage.Settling? && operation.Finished?
      modifies this`calls, this`connected
      ensures Valid() && !connected
      ensures var stage := old(calls)[holder.value].stage;
              calls == Staged(old(calls), holder.value, Disconnecting(stage.result, stage.cancelled))
    {
      var stage := calls[holder.value].stage;
      connected := false;
      calls := Staged(calls, holder.value, Disconnecting(stage.result, stage.cancelled));
    }

    /** The transaction ends and the lock is free; only an uncancelled success is remembered. */
    method Leave()
      requires Valid() && holder.Some? && calls[holder.value].stage.Disconnecting?
      modifies this`lastState, this`needsRefresh, this`epoch, this`holder, this`operationEpoch, this`operation,
               this`calls, this`log
      ensures Valid() && holder.None? && operationEpoch.None? && operation.Idle? && old(log) <= log
      ensures calls == Staged(old(calls), old(holder).value, Done)
      ensures epoch == old(epoch) + if old(calls)[old(holder).value].stage.cancelled then 1 else 0
      ensures var stage := old(calls)[old(holder).value].stage;
              lastState == if stage.cancelled then None else if stage.result.Some? then stage.result else old(lastState)
    {
      var stage := calls[holder.value].stage;
      if stage.cancelled { Invalidate(); }
      Release();
      if !stage.cancelled && stage.result.Some? { Learn(stage.result.value); }
    }

    method Release()
      requires Valid() && holder.Some?
      modifies this`holder, this`operationEpoch, this`operation, this`calls, this`log
      ensures Valid() && holder.None? && operationEpoch.None? && operation.Idle?
              && log == old(log) + [Left(old(holder).value)]
      ensures calls == Staged(old(calls), old(holder).value, Done)
    {
      var id := holder.value;
      Note(Left(id));
      holder, operationEpoch, operation := None, None, Idle;
      calls := Staged(calls, id, Done);
    }

    /** `close`: at any moment, without a compensating write. */
    method Close()
      requires Valid()
      modifies this`closed, this`needsRefresh, this`lastState, this`epoch, this`connected, this`log
      ensures Valid() && closed && needsRefresh && !connected && epoch == old(epoch) + 1
      ensures log == old(log) + [Closed]
    {
      Note(Closed);
      closed, needsRefresh, lastState, epoch, connected := true, true, None, epoch + 1, false;
    }
  }

  /** Any schedule of any number of callers keeps the log safe. */
  method Serve(client: Client, steps: nat)
    requires client.Valid()
    modifies client
    ensures client.Valid() && Safe(client.log) && old(client.log) <= client.log
  {
    var n := 0;
    while n < steps
      invariant client.Valid() && old(client.log) <= client.log
    {
      Step(client);
      n := n + 1;
    }
  }

  method Step(client: Client)
    requires client.Valid()
    modifies client
    ensures client.Valid() && old(client.log) <= client.log
  {
    var choice: int := *;
    var id: int := *;
    var flag: bool := *;
    var state: State := *;
    if choice == 0 {
      var _ := client.Submit(flag);
    } else if choice == 1 {
      client.Close();
    } else if id >= 0 && id in client.calls && client.calls[id].stage.Waiting? {
      if flag {
        client.Abandon(id);
      } else if client.holder.None? {
        var _ := client.Acquire(id);
      }
    } else if client.holder.Some? {
      StepHolder(client, choice, flag, state);
    }
  }

  method StepHolder(client: Client, choice: int, flag: bool, state: State)
    requires client.Valid() && client.holder.Some?
    modifies client
    ensures client.Valid() && old(client.log) <= client.log
  {
    var stage := client.calls[client.holder.value].stage;
    if choice == 2 {
      client.Cancel();
    } else if choice == 3 && stage.Awaiting? {
      client.TimeOut();
    } else if stage.Awaiting? && client.operation.Finished? {
      client.Resume();
    } else if stage.Settling? && client.operation.Finished? {
      client.Settle();
    } else if stage.Disconnecting? {
      client.Leave();
    } else if client.operation.Going? {
      if choice == 4 {
        client.Reconnect(flag);
      } else if choice == 5 {
        client.Finish(Succeeded(state));
      } else if choice == 6 {
        client.Finish(if flag then InputError(state) else Failed);
      } else {
        var _ := client.Send();
      }
    }
  }
}
