/**
  The coordinator above the client: explicit actions wait (a slider also debounces) for the I/O
  lock and reach the client only if nothing overtook them. Each method is one step between two
  awaits; requests, polls, failures, expiry and unloading interleave freely.
 */
module ActionCoordinator {
  import opened Lamp
  import opened Wrappers

  const COMMAND_TIMEOUT := 3000
  const DEBOUNCE := 350

  datatype Kind = Slider(index: ChannelIndex) | ChooseMode | Off | On | Compact

  datatype Observed = Observed(mode: int, writeSupported: bool, powerSupported: bool)

  /** A request that is publishing holds the observation that its client call returned. */
  datatype Stage = Queued | Holding | Refreshing | Preparing | Calling | Publishing(state: Observed) | Done {
    /** The client is busy for the request. */
    predicate AtClient() { Refreshing? || Calling? }
  }

  /** For whom the client works. */
  datatype Caller = Poller | Requester(id: nat)

  datatype Request = Request(kind: Kind, epoch: nat, generation: nat, askedAt: int, stage: Stage)

  datatype Event =
    | Asked(id: nat, kind: Kind, at: int)
    | Bumped                            // the command epoch moved on
    | Stopped
    | Called(id: nat, kind: Kind, at: int) // the request reached the client
    | Read(caller: Caller) // a poll, or the refresh in front of Off
    | Returned(caller: Caller)
    | Learned(state: Observed) // a confirmed observation of the lamp
    | Trust(ok: bool)          // the last update succeeded, or failed
    | Unloading(on: bool)

  type Generations = g: seq<nat> | |g| == 6 witness [0, 0, 0, 0, 0, 0]

  /** What publishing adds to the log. */
  function Shown(stage: Stage): seq<Event> {
    if stage.Publishing? then [Learned(stage.state), Trust(true)] else []
  }

  predicate Debounced(kind: Kind) {
    kind.Slider? || kind.Compact?
  }

  /** What makes an earlier request of `kind` obsolete: a fault or unload for every request; for a
      slider its own later gestures and every other explicit choice; for a colour any later action. */
  predicate Overtakes(e: Event, kind: Kind) {
    match e
    case Bumped => true
    case Stopped => true
    case Asked(_, later, _) =>
      (match kind
       case Slider(i) => later == kind || !later.Slider?
       case Compact => true
       case _ => false)
    case _ => false
  }

  /** When `id` was asked, provided that nothing overtook it since. */
  function CurrentAsk(log: seq<Event>, id: nat, kind: Kind): Option<int> {
    if log == [] then None
    else
      var last := log[|log| - 1];
      if last.Asked? && last.id == id && last.kind == kind then Some(last.at)
      else if Overtakes(last, kind) then None
      else CurrentAsk(log[..|log| - 1], id, kind)
  }

  predicate ClientCall(e: Event) { e.Called? || e.Read? }

  function CallerOf(e: Event): Caller
    requires ClientCall(e)
  {
    if e.Called? then Requester(e.id) else e.caller
  }

  /** For whom a client call is in flight. */
  function InFlight(log: seq<Event>): Option<Caller> {
    if log == [] then None
    else match log[|log| - 1]
         case Called(id, _, _) => Some(Requester(id))
         case Read(caller) => Some(caller)
         case Returned(_) => None
         case _ => InFlight(log[..|log| - 1])
  }

  predicate IsStopped(log: seq<Event>) {
    exists i :: 0 <= i < |log| && log[i].Stopped?
  }

  /** What the coordinator may rely on. */
  datatype Known = Known(state: Option<Observed>, trusted: bool, unloading: bool)

  function KnownAfter(known: Known, e: Event): Known {
    match e
    case Learned(state) => known.(state := Some(state))
    case Trust(ok) => known.(trusted := ok)
    case Unloading(on) => known.(unloading := on)
    case Stopped => known.(unloading := true)
    case _ => known
  }

  function KnownIn(log: seq<Event>): Known {
    if log == [] then Known(None, true, false) else KnownAfter(KnownIn(log[..|log| - 1]), log[|log| - 1])
  }

  /** What an observation allows: channel and mode changes on a profile validated for writes in Automatic or
      Manual, Off and On on one validated for power also in Shutdown, a colour by the gate of its mode. */
  predicate Permits(o: Observed, kind: Kind) {
    match kind
    case Slider(_) => o.writeSupported && (o.mode == AUTOMATIC || o.mode == MANUAL)
    case ChooseMode => o.writeSupported && (o.mode == AUTOMATIC || o.mode == MANUAL)
    case Off => o.powerSupported && (o.mode == AUTOMATIC || o.mode == MANUAL || o.mode == SHUTDOWN)
    case On => o.powerSupported && (o.mode == AUTOMATIC || o.mode == MANUAL || o.mode == SHUTDOWN)
    case Compact =>
      if o.mode == SHUTDOWN then o.powerSupported else o.writeSupported && (o.mode == AUTOMATIC || o.mode == MANUAL)
  }

  /** The last confirmed observation, still trusted and not on the way out, allows the request. */
  predicate Permitted(log: seq<Event>, kind: Kind) {
    var known := KnownIn(log);
    !IsStopped(log) && !known.unloading && known.trusted && known.state.Some? && Permits(known.state.value, kind)
  }

  predicate AskedBefore(log: seq<Event>, id: nat) {
    exists i :: 0 <= i < |log| && log[i].Asked? && log[i].id == id
  }

  predicate Admits(log: seq<Event>, e: Event) {
    match e
    case Asked(id, kind, _) => !AskedBefore(log, id) && Permitted(log, kind)
    case Called(id, kind, at) =>
      && InFlight(log).None? && !IsStopped(log) && Permitted(log, kind)
      && CurrentAsk(log, id, kind).Some?
      && var asked := CurrentAsk(log, id, kind).value;
         at < asked + COMMAND_TIMEOUT && (Debounced(kind) ==> asked + DEBOUNCE <= at)
    case Read(_) => InFlight(log).None? && !IsStopped(log)
    case Returned(caller) => InFlight(log) == Some(caller)
    case _ => true
  }

  predicate Safe(log: seq<Event>) {
    log == [] || (Safe(log[..|log| - 1]) && Admits(log[..|log| - 1], log[|log| - 1]))
  }

  lemma {:induction false} SafeAt(log: seq<Event>, i: nat)
    requires Safe(log) && i < |log|
    ensures Safe(log[..i]) && Admits(log[..i], log[i])
  {
    var init := log[..|log| - 1];
    if i < |init| {
      SafeAt(init, i);
      assert init[..i] == log[..i];
    } else {
      assert log[..i] == init;
    }
  }

  lemma {:induction false} NotOvertaken(log: seq<Event>, id: nat, kind: Kind, asked: nat)
    requires Safe(log) && CurrentAsk(log, id, kind).Some?
    requires asked < |log| && log[asked].Asked? && log[asked].id == id
    ensures log[asked].kind == kind && CurrentAsk(log, id, kind) == Some(log[asked].at)
    ensures forall k | asked < k < |log| :: !Overtakes(log[k], kind)
  {
    var init := log[..|log| - 1];
    var last := log[|log| - 1];
    assert forall k | 0 <= k < |init| :: init[k] == log[k];
    if last.Asked? && last.id == id && last.kind == kind {
      assert asked < |init| ==> AskedBefore(init, id);
    } else {
      EarlierAsk(init, id, kind);
      assert asked == |init| ==> AskedBefore(init, id);
      NotOvertaken(init, id, kind, asked);
    }
  }

  lemma {:induction false} EarlierAsk(log: seq<Event>, id: nat, kind: Kind)
    requires CurrentAsk(log, id, kind).Some?
    ensures AskedBefore(log, id)
  {
    var init := log[..|log| - 1];
    var last := log[|log| - 1];
    if last.Asked? && last.id == id && last.kind == kind {
      assert log[|log| - 1].Asked?;
    } else {
      EarlierAsk(init, id, kind);
      var i :| 0 <= i < |init| && init[i].Asked? && init[i].id == id;
      assert log[i] == init[i];
    }
  }

  /** A request that reached the client was the latest of its kind, was not overtaken by a fault,
      an unload or (a slider) any other explicit choice, and was neither expired nor still settling. */
  lemma OnlyCurrentRequests(log: seq<Event>, asked: nat, called: nat)
    requires Safe(log) && asked < |log| && called < |log|
    requires log[asked].Asked? && log[called].Called? && log[asked].id == log[called].id && asked < called
    ensures log[asked].kind == log[called].kind
    ensures forall k | asked < k < called :: !Overtakes(log[k], log[called].kind)
    ensures log[called].at < log[asked].at + 3000
    ensures log[called].kind.Slider? || log[called].kind.Compact? ==> log[asked].at + 350 <= log[called].at
  {
    SafeAt(log, called);
    var before := log[..called];
    assert forall k | 0 <= k < called :: before[k] == log[k];
    NotOvertaken(before, log[called].id, log[called].kind, asked);
  }

  /** Between two client calls, polls and Off's own refresh included, the first has returned. */
  lemma OneCallAtATime(log: seq<Event>, first: nat, second: nat) returns (between: nat)
    requires Safe(log) && first < second < |log| && ClientCall(log[first]) && ClientCall(log[second])
    ensures first < between < second && log[between] == Returned(CallerOf(log[first]))
  {
    SafeAt(log, second);
    var found := CallOrReturn(log[..second], first);
    between := found.value;
    assert log[..second][between] == log[between];
  }

  /** A client call is in flight until it returned. */
  lemma {:induction false} CallOrReturn(log: seq<Event>, call: nat) returns (between: Option<nat>)
    requires Safe(log) && call < |log| && ClientCall(log[call])
    ensures between.None? ==> InFlight(log) == Some(CallerOf(log[call]))
    ensures between.Some? ==> call < between.value < |log| && log[between.value] == Returned(CallerOf(log[call]))
  {
    var n := |log| - 1;
    if call == n { return None; }
    assert log[..n][call] == log[call];
    between := CallOrReturn(log[..n], call);
    if between.Some? {
      assert log[..n][between.value] == log[between.value];
    } else if log[n].Returned? {
      between := Some(n);
    }
  }

  // ----- What requests rest on -----

  /** `seen` is the last observation before `end`. */
  ghost predicate LastLearned(log: seq<Event>, seen: int, end: int) {
    0 <= seen < end <= |log| && log[seen].Learned? && forall k | seen < k < end :: !log[k].Learned?
  }

  /** Every failed update before `end` was followed by a successful one. */
  ghost predicate StillTrusted(log: seq<Event>, end: int)
    requires end <= |log|
  {
    forall k | 0 <= k < end && log[k] == Trust(false) :: exists l :: k < l < end && log[l] == Trust(true)
  }

  /** Every unload that began before `end` was given up. */
  ghost predicate StillLoaded(log: seq<Event>, end: int)
    requires end <= |log|
  {
    forall k | 0 <= k < end && log[k] == Unloading(true) :: exists l :: k < l < end && log[l] == Unloading(false)
  }

  lemma {:induction false} KnownMeaning(log: seq<Event>)
    ensures KnownIn(log).state.Some? ==>
              exists seen :: LastLearned(log, seen, |log|) && log[seen].state == KnownIn(log).state.value
    ensures KnownIn(log).trusted ==> StillTrusted(log, |log|)
    ensures !KnownIn(log).unloading ==> StillLoaded(log, |log|)
  {
    if log != [] {
      var n := |log| - 1;
      var init := log[..n];
      KnownMeaning(init);
      assert forall k | 0 <= k < n :: log[k] == init[k];
      if KnownIn(log).state.Some? {
        if log[n].Learned? {
          assert LastLearned(log, n, |log|);
        } else {
          var seen :| LastLearned(init, seen, n) && init[seen].state == KnownIn(log).state.value;
          assert LastLearned(log, seen, |log|);
        }
      }
    }
  }

  /** A slider or mode request was accepted, and reached the client, only on a confirmed observation of Automatic
      or Manual on a profile validated for writes; Off and On only on one of a profile validated for power; a
      colour by the gate of the mode that was seen. That observation was the last one, no update had failed
      since, and the coordinator was neither stopped nor unloading. */
  lemma OnlySupportedRequests(log: seq<Event>, i: nat) returns (seen: nat)
    requires Safe(log) && i < |log| && (log[i].Asked? || log[i].Called?)
    ensures LastLearned(log, seen, i) && StillTrusted(log, i) && StillLoaded(log, i)
    ensures forall k | 0 <= k < i :: !log[k].Stopped?
    ensures var o := log[seen].state;
            match log[i].kind
            case Slider(_) => o.writeSupported && o.mode in {AUTOMATIC, MANUAL}
            case ChooseMode => o.writeSupported && o.mode in {AUTOMATIC, MANUAL}
            case Off => o.powerSupported && o.mode in {AUTOMATIC, MANUAL, SHUTDOWN}
            case On => o.powerSupported && o.mode in {AUTOMATIC, MANUAL, SHUTDOWN}
            case Compact => if o.mode == SHUTDOWN then o.powerSupported
                    else o.writeSupported && o.mode in {AUTOMATIC, MANUAL}
  {
    SafeAt(log, i);
    var before := log[..i];
    KnownMeaning(before);
    assert forall k | 0 <= k < i :: before[k] == log[k];
    seen :| LastLearned(before, seen, i) && before[seen].state == KnownIn(before).state.value;
  }

  class Coordinator {
    var clock: int
    /** The I/O lock: free, held by a poll, or by a request. */
    var polling: bool
    var holder: Option<nat>
    var stopped: bool
    var quiescing: bool
    var resuming: bool
    var data: Option<Observed>
    var lastUpdateSuccess: bool
    var commandEpoch: nat
    var channelGenerations: Generations
    var compactGeneration: nat
    var failures: nat
    var requests: map<nat, Request>
    var nextId: nat
    ghost var log: seq<Event>

    constructor ()
      ensures Valid() && log == [] && !stopped
    {
      clock, polling, holder, stopped, quiescing, resuming := 0, false, None, false, false, false;
      data, lastUpdateSuccess, commandEpoch := None, true, 0;
      channelGenerations, compactGeneration := [0, 0, 0, 0, 0, 0], 0;
      failures, requests, nextId, log := 0, map[], 0, [];
    }

    /** The request still carries the current epoch and its kind's current generation. */
    predicate Current(r: Request)
      reads this
    {
      && r.epoch == commandEpoch
      && (r.kind.Slider? ==> r.generation == channelGenerations[r.kind.index])
      && (r.kind.Compact? ==> r.generation == compactGeneration)
    }

    ghost predicate RequestValid(id: nat)
      requires id in requests
      reads this
    {
      var r := requests[id];
      && r.epoch <= commandEpoch && r.askedAt <= clock
      && (r.kind.Slider? ==> r.generation <= channelGenerations[r.kind.index])
      && (r.kind.Compact? ==> r.generation <= compactGeneration)
      && (Current(r) ==> CurrentAsk(log, id, r.kind) == Some(r.askedAt))
      && (holder != Some(id) ==> r.stage.Queued? || r.stage.Done?)
    }

    /** A request that is no longer current was overtaken. */
    ghost predicate RequestExact(id: nat)
      requires id in requests
      reads this
    {
      CurrentAsk(log, id, requests[id].kind).Some? ==> Current(requests[id])
    }

    ghost predicate LockValid()
      reads this
    {
      && (polling ==> holder.None?)
      && match holder
         case None => InFlight(log) == if polling then Some(Poller) else None
         case Some(id) =>
           && id in requests && !requests[id].stage.Queued? && !requests[id].stage.Done?
           && InFlight(log) == (if requests[id].stage.AtClient() then Some(Requester(id)) else None)
    }

    ghost predicate Valid()
      reads this
    {
      Sound() && forall id | id in requests :: RequestExact(id)
    }

    ghost predicate Sound()
      reads this
    {
      && Safe(log) && (stopped <==> IsStopped(log)) && KnownIn(log) == Known(data, lastUpdateSuccess, quiescing)
      && (forall id | id in requests :: id < nextId)
      && (forall i | 0 <= i < |log| && log[i].Asked? :: log[i].id < nextId)
      && (forall id | id in requests :: RequestValid(id))
      && LockValid()
    }

    ghost method Note(e: Event)
      requires Safe(log) && Admits(log, e)
      modifies this`log
      ensures log == old(log) + [e] && Safe(log)
      ensures InFlight(log) == match e
                                 case Called(id, _, _) => Some(Requester(id))
                                 case Read(caller) => Some(caller)
                                 case Returned(_) => None
                                 case _ => InFlight(old(log))
      ensures IsStopped(log) <==> IsStopped(old(log)) || e.Stopped?
      ensures KnownIn(log) == KnownAfter(KnownIn(old(log)), e)
      ensures forall id, kind :: CurrentAsk(log, id, kind) ==
                if e.Asked? && e.id == id && e.kind == kind then Some(e.at)
                else if Overtakes(e, kind) then None else CurrentAsk(old(log), id, kind)
    {
      ghost var before := log;
      log := log + [e];
      assert log[..|log| - 1] == before;
      assert forall i | 0 <= i < |before| :: log[i] == before[i];
      assert log[|before|] == e;
    }

    // ----- Admission checks -----

    predicate CurrentState()
      reads this
    {
      !stopped && !quiescing && lastUpdateSuccess && data.Some?
    }

    predicate WriteSupported()
      reads this
    {
      CurrentState() && data.value.writeSupported && data.value.mode in {AUTOMATIC, MANUAL}
    }

    predicate PowerSupported()
      reads this
    {
      CurrentState() && data.value.powerSupported && data.value.mode in {AUTOMATIC, MANUAL, SHUTDOWN}
    }

    predicate Supported(kind: Kind)
      reads this
    {
      match kind
      case Slider(_) => WriteSupported()
      case ChooseMode => WriteSupported()
      case Off => PowerSupported()
      case On => PowerSupported()
      case Compact => if data.Some? && data.value.mode == SHUTDOWN then PowerSupported() else WriteSupported()
    }

    // ----- Steps -----

    method Advance(duration: nat)
      requires Valid()
      modifies this`clock
      ensures Valid() && clock == old(clock) + duration
    {
      clock := clock + duration;
    }

    /** An explicit action: it overtakes earlier ones and remembers its epoch and generation. */
    method Ask(kind: Kind) returns (id: Option<nat>)
      requires Valid()
      modifies this`channelGenerations, this`compactGeneration, this`requests, this`nextId, this`log
      ensures Valid() && (id.Some? <==> Permitted(old(log), kind))
      ensures id.None? ==>
                && log == old(log) && requests == old(requests)
                && channelGenerations == old(channelGenerations) && compactGeneration == old(compactGeneration)
      ensures id.Some? ==>
                && id.value == old(nextId) && log == old(log) + [Asked(id.value, kind, clock)]
                && requests.Keys == old(requests).Keys + {id.value} && Current(requests[id.value])
                && requests[id.value].kind == kind && requests[id.value].stage.Queued?
                && compactGeneration == old(compactGeneration) + 1
                && forall i | 0 <= i < 6 ::
                     channelGenerations[i] ==
                       old(channelGenerations)[i] + (if kind.Slider? && kind.index != i then 0 else 1)
    {
      if !Supported(kind) { return None; }
      var generation := Supersede(kind);
      Register(kind, generation);
      return Some(nextId - 1);
    }

    /** The generations that `kind` makes obsolete move on. */
    method Supersede(kind: Kind) returns (generation: nat)
      requires Valid()
      modifies this`compactGeneration, this`channelGenerations
      ensures Sound() && compactGeneration == old(compactGeneration) + 1
      ensures forall id | id in requests && !Overtakes(Asked(nextId, kind, clock), requests[id].kind) ::
                RequestExact(id)
      ensures forall i | 0 <= i < 6 ::
                channelGenerations[i] == old(channelGenerations)[i] + (if kind.Slider? && kind.index != i then 0 else 1)
      ensures forall id | id in requests && Overtakes(Asked(nextId, kind, clock), requests[id].kind) ::
                !Current(requests[id])
      ensures generation == if kind.Slider? then channelGenerations[kind.index] else compactGeneration
    {
      compactGeneration := compactGeneration + 1;
      var previous := channelGenerations;
      if kind.Slider? {
        channelGenerations := previous[kind.index := previous[kind.index] + 1];
        return channelGenerations[kind.index];
      }
      channelGenerations := seq(6, i requires 0 <= i < 6 => previous[i] + 1);
      return compactGeneration;
    }

    method Register(kind: Kind, generation: nat)
      requires Sound() && generation == (if kind.Slider? then channelGenerations[kind.index] else compactGeneration)
      requires Permitted(log, kind)
      requires forall id | id in requests && !Overtakes(Asked(nextId, kind, clock), requests[id].kind) ::
                 RequestExact(id)
      requires forall id | id in requests && Overtakes(Asked(nextId, kind, clock), requests[id].kind) ::
                 !Current(requests[id])
      modifies this`requests, this`nextId, this`log
      ensures Valid() && nextId == old(nextId) + 1 && log == old(log) + [Asked(old(nextId), kind, clock)]
      ensures requests == old(requests)[old(nextId) := Request(kind, commandEpoch, generation, clock, Queued)]
    {
      NoteAsk(kind);
      requests := requests[nextId - 1 := Request(kind, commandEpoch, generation, clock, Queued)];
    }

    method NoteAsk(kind: Kind)
      requires Sound() && Permitted(log, kind)
      requires forall id | id in requests && Overtakes(Asked(nextId, kind, clock), requests[id].kind) ::
                 !Current(requests[id])
      requires forall id | id in requests && !Overtakes(Asked(nextId, kind, clock), requests[id].kind) ::
                 RequestExact(id)
      modifies this`nextId, this`log
      ensures Valid() && nextId == old(nextId) + 1 && old(nextId) !in requests
      ensures log == old(log) + [Asked(old(nextId), kind, clock)]
      ensures CurrentAsk(log, old(nextId), kind) == Some(clock)
    {
      Note(Asked(nextId, kind, clock));
      nextId := nextId + 1;
    }

    /** Actions queued before this moment never run. */
    method Bump()
      requires Valid()
      modifies this`commandEpoch, this`compactGeneration, this`log
      ensures Valid() && commandEpoch == old(commandEpoch) + 1 && log == old(log) + [Bumped]
    {
      Note(Bumped);
      commandEpoch, compactGeneration := commandEpoch + 1, compactGeneration + 1;
    }

    /** `_read_failed`. */
    method ReadFailed()
      requires Valid()
      modifies this`commandEpoch, this`compactGeneration, this`failures, this`log
      ensures Valid() && commandEpoch == old(commandEpoch) + 1 && log == old(log) + [Bumped]
              && failures == old(failures) + 1
    {
      Bump();
      failures := failures + 1;
    }

    /** A failed update. */
    method Fail()
      requires Valid()
      modifies this`commandEpoch, this`compactGeneration, this`failures, this`lastUpdateSuccess, this`log
      ensures Valid() && commandEpoch == old(commandEpoch) + 1 && !lastUpdateSuccess && failures == old(failures) + 1
      ensures log == old(log) + [Bumped, Trust(false)]
    {
      ReadFailed();
      Trusted(false);
    }

    /** The outcome of the last update. */
    method Trusted(ok: bool)
      requires Valid()
      modifies this`lastUpdateSuccess, this`log
      ensures Valid() && lastUpdateSuccess == ok && log == old(log) + [Trust(ok)]
    {
      Note(Trust(ok));
      lastUpdateSuccess := ok;
    }

    /** The request ends and gives up the lock if it holds it. */
    method End(id: nat)
      requires Valid() && id in requests
      modifies this`requests, this`holder, this`log
      ensures Valid() && holder == (if old(holder) == Some(id) then None else old(holder))
      ensures requests == old(requests)[id := old(requests)[id].(stage := Done)]
      ensures log == old(log) + if old(holder) == Some(id) && old(requests)[id].stage.AtClient()
                then [Returned(Requester(id))] else []
    {
      if holder == Some(id) && requests[id].stage.AtClient() { Note(Returned(Requester(id))); }
      holder, requests := if holder == Some(id) then None else holder, requests[id := requests[id].(stage := Done)];
    }

    /** Expiry of the command window or cancellation, at any await of a live request. An observation that was
        about to be published still is. */
    method Abort(id: nat)
      requires Valid() && id in requests && !requests[id].stage.Done?
      modifies this`data, this`commandEpoch, this`compactGeneration, this`failures, this`lastUpdateSuccess,
               this`requests, this`holder, this`log
      ensures Valid() && commandEpoch == old(commandEpoch) + 1 && !lastUpdateSuccess
      ensures log == old(log) + Shown(old(requests)[id].stage) + [Bumped, Trust(false)]
                     + if old(holder) == Some(id) && old(requests)[id].stage.AtClient()
                          then [Returned(Requester(id))] else []
      ensures data == if old(requests)[id].stage.Publishing? then Some(old(requests)[id].stage.state) else old(data)
      ensures holder == (if old(holder) == Some(id) then None else old(holder))
      ensures requests == old(requests)[id := old(requests)[id].(stage := Done)]
    {
      if requests[id].stage.Publishing? { Show(requests[id].stage.state); }
      Fail();
      End(id);
    }

    /** `async_set_updated_data`: the observation becomes the coordinator's data. */
    method Show(state: Observed)
      requires Valid()
      modifies this`data, this`lastUpdateSuccess, this`log
      ensures Valid() && data == Some(state) && lastUpdateSuccess && log == old(log) + [Learned(state), Trust(true)]
    {
      Observe(state);
      Trusted(true);
    }

    /** A confirmed observation. */
    method Observe(state: Observed)
      requires Valid()
      modifies this`data, this`log
      ensures Valid() && data == Some(state) && log == old(log) + [Learned(state)]
    {
      Note(Learned(state));
      data := Some(state);
    }

    /** The client call begins; only here does a request reach the client. */
    method Call(id: nat)
      requires Valid() && holder == Some(id) && !requests[id].stage.AtClient() && !stopped
      requires Current(requests[id]) && clock < requests[id].askedAt + COMMAND_TIMEOUT
      requires Permitted(log, requests[id].kind)
      requires Debounced(requests[id].kind) ==> requests[id].askedAt + DEBOUNCE <= clock
      modifies this`requests, this`log
      ensures Valid() && log == old(log) + [Called(id, requests[id].kind, clock)]
      ensures requests == old(requests)[id := old(requests)[id].(stage := Calling)]
    {
      Note(Called(id, requests[id].kind, clock));
      requests := requests[id := requests[id].(stage := Calling)];
    }

    method Hold(id: nat)
      requires Valid() && holder.None? && !polling && id in requests && requests[id].stage.Queued?
      modifies this`requests, this`holder
      ensures Valid() && holder == Some(id) && requests == old(requests)[id := old(requests)[id].(stage := Holding)]
    {
      holder := Some(id);
      requests := requests[id := requests[id].(stage := Holding)];
    }

    /** Off reads the lamp afresh before it saves where it comes from. */
    method Refresh(id: nat)
      requires Valid() && holder == Some(id) && requests[id].stage.Holding? && !stopped
      modifies this`requests, this`log
      ensures Valid() && log == old(log) + [Read(Requester(id))]
      ensures requests == old(requests)[id := old(requests)[id].(stage := Refreshing)]
    {
      Note(Read(Requester(id)));
      requests := requests[id := requests[id].(stage := Refreshing)];
    }

    /** The lock is granted to a queued request: it is dropped when late, unsupported, overtaken or
        (a colour) when the roles changed; Off first refreshes. */
    method TakeLock(id: nat, rolesChanged: bool)
      requires Valid() && holder.None? && !polling && id in requests && requests[id].stage.Queued?
      requires Debounced(requests[id].kind) ==> requests[id].askedAt + DEBOUNCE <= clock
      modifies this`data, this`commandEpoch, this`compactGeneration, this`failures, this`lastUpdateSuccess,
               this`requests, this`holder, this`log
      ensures Valid() && old(log) <= log && (holder == Some(id) || holder.None?)
      ensures holder == Some(id) <==>
                && old(clock < requests[id].askedAt + COMMAND_TIMEOUT && Permitted(log, requests[id].kind)
                   && CurrentAsk(log, id, requests[id].kind).Some?)
                && !(old(requests)[id].kind.Compact? && rolesChanged)
      ensures holder == Some(id) ==>
                && commandEpoch == old(commandEpoch) && lastUpdateSuccess == old(lastUpdateSuccess)
                && (if requests[id].kind.Off?
                     then log == old(log) + [Read(Requester(id))] && requests[id].stage.Refreshing?
                    else log == old(log) + [Called(id, requests[id].kind, clock)] && requests[id].stage.Calling?)
      ensures holder.None? ==> requests == old(requests)[id := old(requests)[id].(stage := Done)]
      ensures data == old(data)
      ensures commandEpoch == old(commandEpoch) + if old(clock >= requests[id].askedAt + COMMAND_TIMEOUT) then 1 else 0
    {
      var r := requests[id];
      if clock >= r.askedAt + COMMAND_TIMEOUT {
        Abort(id);
        return;
      }
      if !Supported(r.kind) || !Current(r) || (r.kind.Compact? && rolesChanged) {
        End(id);
        return;
      }
      Hold(id);
      if r.kind.Off? { Refresh(id); } else { Call(id); }
    }

    /** Off's own refresh returned: `state` is what it read, `conflict` that it contradicts the data. */
    method OffRefreshed(id: nat, state: Option<Observed>, conflict: bool)
      requires Valid() && holder == Some(id) && requests[id].stage.Refreshing? && requests[id].kind.Off?
      modifies this`data, this`commandEpoch, this`compactGeneration, this`failures, this`lastUpdateSuccess,
               this`requests, this`holder, this`log
      ensures Valid() && old(log) <= log && (holder == Some(id) || holder.None?)
      ensures holder == Some(id) <==>
                && state.Some? && !conflict && !stopped && !quiescing && state.value.powerSupported
                && state.value.mode in {AUTOMATIC, MANUAL} && old(Current(requests[id]))
      ensures holder == Some(id) ==>
                && requests[id].stage.Preparing? && Current(requests[id])
                && log == old(log) + [Learned(state.value), Trust(true), Returned(Requester(id))]
      ensures if state.None? || conflict then commandEpoch == old(commandEpoch) + 1 && data == old(data)
                     && !lastUpdateSuccess
              else commandEpoch == old(commandEpoch) && data == state && lastUpdateSuccess
    {
      if state.None? || conflict {
        Abort(id);
        return;
      }
      Show(state.value);
      var r := requests[id];
      if !PowerSupported() || r.epoch != commandEpoch || state.value.mode == SHUTDOWN {
        End(id);
        return;
      }
      Prepare(id);
    }

    /** The lock stays with Off while its origin is saved. */
    method Prepare(id: nat)
      requires Valid() && holder == Some(id) && requests[id].stage.Refreshing?
      modifies this`requests, this`log
      ensures Valid() && log == old(log) + [Returned(Requester(id))]
      ensures requests == old(requests)[id := old(requests)[id].(stage := Preparing)]
    {
      Note(Returned(Requester(id)));
      requests := requests[id := requests[id].(stage := Preparing)];
    }

    /** Off's origin was saved, or not; the checks are repeated before the client is called. */
    method OffPrepared(id: nat, saved: bool)
      requires Valid() && holder == Some(id) && requests[id].stage.Preparing? && requests[id].kind.Off?
      modifies this`data, this`commandEpoch, this`compactGeneration, this`failures, this`lastUpdateSuccess,
               this`requests, this`holder, this`log
      ensures Valid() && old(log) <= log && (holder == Some(id) || holder.None?)
      ensures !saved ==> commandEpoch == old(commandEpoch) && holder.None? && log == old(log)
      ensures data == old(data)
      ensures holder == Some(id) <==>
                saved && clock < old(requests)[id].askedAt + COMMAND_TIMEOUT && Permitted(old(log), Off)
                && CurrentAsk(old(log), id, Off).Some?
      ensures holder == Some(id) ==> log == old(log) + [Called(id, Off, clock)]
    {
      var r := requests[id];
      if !saved {
        End(id);
        return;
      }
      if clock >= r.askedAt + COMMAND_TIMEOUT {
        Abort(id);
        return;
      }
      if !PowerSupported() || r.epoch != commandEpoch {
        End(id);
        return;
      }
      Call(id);
    }

    /** The client call returned; `inputError` is the colour request that found no basis. */
    method ClientReturned(id: nat, state: Option<Observed>, inputError: bool)
      requires Valid() && holder == Some(id) && requests[id].stage.Calling?
      modifies this`data, this`commandEpoch, this`compactGeneration, this`failures, this`lastUpdateSuccess,
               this`requests, this`holder, this`log
      ensures Valid() && data == old(data)
      ensures commandEpoch == old(commandEpoch) + if state.None? || inputError then 1 else 0
      ensures state.Some? ==>
                && holder == Some(id) && lastUpdateSuccess == old(lastUpdateSuccess) && failures == 0
                && requests == old(requests)[id := old(requests)[id].(stage := Publishing(state.value))]
                && log == old(log) + [Returned(Requester(id))] + if inputError then [Bumped] else []
      ensures state.None? ==>
                && holder.None? && !lastUpdateSuccess
                && requests == old(requests)[id := old(requests)[id].(stage := Done)]
                && log == old(log) + [Bumped, Trust(false), Returned(Requester(id))]
    {
      if state.None? {
        Abort(id);
        return;
      }
      Return(id, state.value);
      if inputError { Bump(); }
    }

    method Return(id: nat, state: Observed)
      requires Valid() && holder == Some(id) && requests[id].stage.Calling?
      modifies this`requests, this`failures, this`log
      ensures Valid() && log == old(log) + [Returned(Requester(id))] && failures == 0
      ensures requests == old(requests)[id := old(requests)[id].(stage := Publishing(state))]
    {
      Note(Returned(Requester(id)));
      failures, requests := 0, requests[id := requests[id].(stage := Publishing(state))];
    }

    /** Its observation was remembered, or that failed; either way it is shown. */
    method Published(id: nat)
      requires Valid() && holder == Some(id) && requests[id].stage.Publishing?
      modifies this`data, this`lastUpdateSuccess, this`requests, this`holder, this`log
      ensures Valid() && log == old(log) + Shown(old(requests)[id].stage) && holder.None? && lastUpdateSuccess
      ensures data == Some(old(requests)[id].stage.state)
      ensures requests == old(requests)[id := old(requests)[id].(stage := Done)]
    {
      Show(requests[id].stage.state);
      End(id);
    }

    method StartPoll()
      requires Valid() && holder.None? && !polling && !stopped && (!quiescing || resuming)
      modifies this`polling, this`log
      ensures Valid() && polling && log == old(log) + [Read(Poller)]
    {
      Note(Read(Poller));
      polling := true;
    }

    method EndPoll(state: Option<Observed>)
      requires Valid() && polling
      modifies this`polling, this`data, this`commandEpoch, this`compactGeneration, this`failures,
               this`lastUpdateSuccess, this`log
      ensures Valid() && !polling
      ensures log == old(log) + [Returned(Poller)]
                     + if state.Some? then [Learned(state.value), Trust(true)] else [Bumped, Trust(false)]
      ensures commandEpoch == old(commandEpoch) + if state.None? then 1 else 0
      ensures lastUpdateSuccess == state.Some? && data == (if state.Some? then state else old(data))
    {
      StopPolling();
      if state.Some? {
        failures := 0;
        Show(state.value);
      } else {
        Fail();
      }
    }

    method StopPolling()
      requires Valid() && polling
      modifies this`polling, this`log
      ensures Valid() && !polling && log == old(log) + [Returned(Poller)]
    {
      Note(Returned(Poller));
      polling := false;
    }

    method Quiesce(on: bool)
      requires Valid()
      modifies this`quiescing, this`log
      ensures Valid() && quiescing == on && log == old(log) + [Unloading(on)]
    {
      Note(Unloading(on));
      quiescing := on;
    }

    method PrepareUnload()
      requires Valid()
      modifies this`quiescing, this`commandEpoch, this`compactGeneration, this`log
      ensures Valid() && quiescing && commandEpoch == old(commandEpoch) + 1
      ensures log == old(log) + [Unloading(true), Bumped]
    {
      Quiesce(true);
      Bump();
    }

    /** A failed unload reads again before new actions are accepted. */
    method Resume(reading: bool)
      requires Valid()
      modifies this`resuming, this`quiescing, this`log
      ensures Valid() && resuming == reading && quiescing == (reading && old(quiescing))
      ensures log == old(log) + if reading then [] else [Unloading(false)]
    {
      resuming := reading;
      if !reading { Quiesce(false); }
    }

    method Shutdown()
      requires Valid()
      modifies this`stopped, this`quiescing, this`commandEpoch, this`compactGeneration, this`log
      ensures Valid() && stopped && quiescing && log == old(log) + [Stopped] && commandEpoch == old(commandEpoch) + 1
    {
      Note(Stopped);
      stopped, quiescing, commandEpoch, compactGeneration := true, true, commandEpoch + 1, compactGeneration + 1;
    }
  }

  /** Any schedule of requests, polls, faults, expiry and unloading keeps the log safe. */
  method Serve(coordinator: Coordinator, steps: nat)
    requires coordinator.Valid()
    modifies coordinator
    ensures coordinator.Valid() && Safe(coordinator.log) && old(coordinator.log) <= coordinator.log
  {
    var n := 0;
    while n < steps
      invariant coordinator.Valid() && old(coordinator.log) <= coordinator.log
    {
      var choice: int := *;
      var duration: int := *;
      var flag: bool := *;
      var kind: Kind := *;
      var state: Option<Observed> := *;
      if choice == 0 {
        var _ := coordinator.Ask(kind);
      } else if choice == 1 && duration >= 0 {
        coordinator.Advance(duration);
      } else if choice == 2 {
        coordinator.PrepareUnload();
      } else if choice == 3 {
        coordinator.Resume(flag);
      } else if choice == 4 {
        coordinator.Shutdown();
      } else if choice == 5 {
        Poll(coordinator, state);
      } else {
        var id: int := *;
        if id >= 0 && id in coordinator.requests && !coordinator.requests[id].stage.Done? {
          Proceed(coordinator, id, choice == 6, flag, state);
        }
      }
      n := n + 1;
    }
  }

  method Poll(coordinator: Coordinator, state: Option<Observed>)
    requires coordinator.Valid()
    modifies coordinator
    ensures coordinator.Valid() && old(coordinator.log) <= coordinator.log
  {
    if coordinator.polling {
      coordinator.EndPoll(state);
    } else if coordinator.holder.None? && !coordinator.stopped && (!coordinator.quiescing || coordinator.resuming) {
      coordinator.StartPoll();
    }
  }

  method Proceed(coordinator: Coordinator, id: nat, abort: bool, flag: bool, state: Option<Observed>)
    requires coordinator.Valid() && id in coordinator.requests && !coordinator.requests[id].stage.Done?
    modifies coordinator
    ensures coordinator.Valid() && old(coordinator.log) <= coordinator.log
  {
    var r := coordinator.requests[id];
    if abort {
      coordinator.Abort(id);
    } else if r.stage.Queued? {
      if coordinator.holder.None? && !coordinator.polling
         && (Debounced(r.kind) ==> r.askedAt + DEBOUNCE <= coordinator.clock) {
        coordinator.TakeLock(id, flag);
      }
    } else {
      assert coordinator.RequestValid(id);
      match r.stage {
        case Refreshing => if r.kind.Off? { coordinator.OffRefreshed(id, state, flag); }
        case Preparing => if r.kind.Off? { coordinator.OffPrepared(id, flag); }
        case Calling => coordinator.ClientReturned(id, state, flag);
        case Publishing(_) => coordinator.Published(id);
        case _ =>
      }
    }
  }
}
