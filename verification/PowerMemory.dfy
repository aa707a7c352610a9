/**
  The remembered return state of a lamp that was switched off: what may be saved, what a save that
  fails or is cut off leaves behind, and exactly which history lets a Manual vector be restored.
 */
module PowerMemory {
  import opened Lamp
  import opened Wrappers

  datatype Observation = Observation(profile: Profile, channels: Channels)

  datatype Origin = Origin(profile: Profile, mode: int, manualChannels: Option<Channels>, confirmed: bool,
                           offChannels: Option<Channels>)

  datatype Memory = Memory(lastManual: Option<Observation>, origin: Option<Origin>)

  /** A stored record; only the empty one of a new entry has no revision. */
  datatype Record = Record(revision: Option<nat>, memory: Memory)

  const EMPTY := Record(None, Memory(None, None))

  predicate IsByte(b: int) { 0 <= b <= 255 }

  /** What a parsed system reply always satisfies. */
  predicate ByteProfile(p: Profile) {
    IsByte(p.controller.0) && IsByte(p.controller.1) && IsByte(p.version.0) && IsByte(p.version.1) && IsByte(p.count)
  }

  predicate ValidProfile(p: Profile) {
    ByteProfile(p) && p.count == 6
  }

  predicate Nonzero(c: Channels) {
    ValidChannels(c) && c != ZERO
  }

  predicate Parsed(s: State) {
    ByteProfile(s.profile) && ValidChannels(s.channels)
  }

  /** `_validate`. */
  predicate ValidMemory(m: Memory) {
    && (m.lastManual.Some? ==> ValidProfile(m.lastManual.value.profile) && Nonzero(m.lastManual.value.channels))
    && (m.origin.Some? ==>
          var o := m.origin.value;
          && ValidProfile(o.profile)
          && (o.mode == AUTOMATIC || o.mode == MANUAL)
          && (o.manualChannels.Some? ==> Nonzero(o.manualChannels.value))
          && (if o.confirmed then o.offChannels.Some? && ValidChannels(o.offChannels.value) else o.offChannels.None?))
  }

  predicate ValidRecord(r: Record) {
    r.revision.Some? && ValidMemory(r.memory)
  }

  predicate Running(mode: int) {
    mode == AUTOMATIC || mode == MANUAL
  }

  /** A Manual observation worth remembering. */
  predicate Remembers(s: State) {
    s.profile == VERIFIED && s.mode == MANUAL && s.channels != ZERO
  }

  /** `_observed_record`. */
  function ObservedMemory(m: Memory, s: State): Memory {
    Memory(if Remembers(s) then Some(Observation(s.profile, s.channels)) else m.lastManual,
           if Running(s.mode) then None else m.origin)
  }

  /** The record of `async_prepare_off`. */
  function OffMemory(m: Memory, s: State): Memory {
    var seen := ObservedMemory(m, s);
    var manual := if seen.lastManual.Some? && seen.lastManual.value.profile == s.profile
      then Some(seen.lastManual.value.channels) else None;
    seen.(origin := Some(Origin(s.profile, s.mode, manual, false, None)))
  }

  predicate Confirms(m: Memory, s: State) {
    m.origin.Some? && m.origin.value.profile == s.profile && s.mode == SHUTDOWN
  }

  /** The record of `async_confirm_off`. */
  function ConfirmedMemory(m: Memory, s: State): Memory
    requires Confirms(m, s)
  {
    m.(origin := Some(m.origin.value.(confirmed := true, offChannels := Some(s.channels))))
  }

  /** `manual_restore`: the vector that On may bring back. */
  function Restorable(m: Memory, error: bool, s: State): Option<Channels> {
    if error || m.origin.None? then None
    else
      var o := m.origin.value;
      if !o.confirmed || o.profile != s.profile || o.offChannels != Some(s.channels) then None
      else if o.mode == AUTOMATIC then None
      else o.manualChannels
  }

  lemma ObservedValid(m: Memory, s: State)
    requires ValidMemory(m) && Parsed(s)
    ensures ValidMemory(ObservedMemory(m, s))
  {
  }

  /** A saved Off origin is valid exactly when the lamp reports six channels; nothing in
      `async_prepare_off` itself checks that. */
  lemma OffMemoryValidIff(m: Memory, s: State)
    requires ValidMemory(m) && Parsed(s) && Running(s.mode)
    ensures ValidMemory(OffMemory(m, s)) <==> s.profile.count == 6
  {
    assert Remembers(s) ==> ValidProfile(s.profile);
  }

  // ----- Histories since the last load -----

  /** `Kept` needed no save. */
  datatype Outcome = Kept | Saved | Failed

  datatype Event =
    | Seen(state: State, outcome: Outcome)
    | Intended(state: State, outcome: Outcome)
    | ConfirmedOff(state: State, outcome: Outcome)

  predicate Fits(m: Memory, e: Event) {
    match e
    case Seen(s, outcome) => outcome.Kept? <==> ObservedMemory(m, s) == m
    case Intended(s, outcome) => Running(s.mode) && !outcome.Kept?
    case ConfirmedOff(s, outcome) => Confirms(m, s) && !outcome.Kept?
  }

  function After(m: Memory, e: Event): Memory {
    if e.outcome.Failed? then m
    else match e
         case Seen(s, _) => ObservedMemory(m, s)
         case Intended(s, _) => OffMemory(m, s)
         case ConfirmedOff(s, _) => if Confirms(m, s) then ConfirmedMemory(m, s) else m
  }

  predicate Consistent(loaded: Memory, h: seq<Event>) {
    h == [] || (Consistent(loaded, h[..|h| - 1]) && Fits(Replay(loaded, h[..|h| - 1]), h[|h| - 1]))
  }

  function Replay(loaded: Memory, h: seq<Event>): Memory {
    if h == [] then loaded else After(Replay(loaded, h[..|h| - 1]), h[|h| - 1])
  }

  /** `error` reports whether the last attempted save failed. */
  function ErrorAfter(initial: bool, h: seq<Event>): bool {
    if h == [] then initial
    else match h[|h| - 1].outcome
         case Kept => ErrorAfter(initial, h[..|h| - 1])
         case Saved => false
         case Failed => true
  }

  /** The coordinator's order: Off is confirmed directly behind its own saved intent. */
  ghost predicate Ordered(h: seq<Event>) {
    forall j | 0 <= j < |h| && h[j].ConfirmedOff? ::
      0 < j && h[j - 1].Intended? && h[j - 1].outcome.Saved?
  }

  lemma OrderKept(h: seq<Event>, e: Event)
    requires Ordered(h)
    requires e.ConfirmedOff? ==> h != [] && h[|h| - 1].Intended? && h[|h| - 1].outcome.Saved?
    ensures Ordered(h + [e])
  {
  }

  /** The last Manual observation that was really saved (or loaded). */
  function LastManual(loaded: Option<Observation>, h: seq<Event>): Option<Observation> {
    if h == [] then loaded
    else
      var e := h[|h| - 1];
      if !e.ConfirmedOff? && !e.outcome.Failed? && Remembers(e.state)
        then Some(Observation(e.state.profile, e.state.channels))
      else LastManual(loaded, h[..|h| - 1])
  }

  /** Only readings of a lamp that was neither in Manual nor in Automatic. */
  ghost predicate OnlyOffSeen(h: seq<Event>, from: nat) {
    forall k | from <= k < |h| :: h[k].Seen? && h[k].state.mode != AUTOMATIC && h[k].state.mode != MANUAL
  }

  /** Off was intended from Manual at `i`, both saves succeeded, Off was confirmed with the profile
      and output of `s`, nothing ran since, and `c` was the last saved Manual vector at the intent. */
  ghost predicate Chain(loaded: Memory, h: seq<Event>, i: int, s: State, c: Channels) {
    && 0 <= i && i + 1 < |h|
    && h[i].Intended? && h[i].outcome.Saved? && h[i].state.mode == MANUAL && h[i].state.profile == s.profile
    && h[i + 1].ConfirmedOff? && h[i + 1].outcome.Saved?
    && h[i + 1].state == State(SHUTDOWN, s.profile, s.channels)
    && OnlyOffSeen(h, i + 2)
    && LastManual(loaded.lastManual, h[..i + 1]) == Some(Observation(s.profile, c))
  }

  /** The event `k` really put a nonzero Manual vector of the verified profile on record. */
  predicate Records(h: seq<Event>, k: int) {
    && 0 <= k < |h| && !h[k].ConfirmedOff? && !h[k].outcome.Failed?
    && h[k].state.profile == Profile((28, 30), (26, 29), 6) && h[k].state.mode == MANUAL
    && h[k].state.channels != [0, 0, 0, 0, 0, 0]
  }

  /** What is remembered is the last such vector, or without one the loaded one. */
  lemma {:induction false} LastManualMeaning(loaded: Option<Observation>, h: seq<Event>, k: int)
    requires -1 <= k < |h| && (k >= 0 ==> Records(h, k)) && forall n | k < n < |h| :: !Records(h, n)
    ensures LastManual(loaded, h) ==
            if k < 0 then loaded else Some(Observation(h[k].state.profile, h[k].state.channels))
  {
    if h != [] {
      var n := |h| - 1;
      assert Records(h, n) <==> !h[n].ConfirmedOff? && !h[n].outcome.Failed? && Remembers(h[n].state);
      if k < n {
        assert forall m | 0 <= m < n :: Records(h[..n], m) == Records(h, m);
        LastManualMeaning(loaded, h[..n], k);
      }
    }
  }

  predicate ByteTuple(p: Profile) {
    && 0 <= p.controller.0 < 256 && 0 <= p.controller.1 < 256 && 0 <= p.version.0 < 256 && 0 <= p.version.1 < 256
    && p.count == 6
  }

  /** A stored record is believed exactly if every vector in it is a nonzero one of percentages (the output in Off
      may be zero), every profile is one of six channels in bytes, the origin ran, and only a confirmed origin
      knows the output in Off. */
  lemma LoadsIff(durable: Option<Record>, readable: bool)
    ensures Loads(durable, readable) <==>
              readable && (durable.None? ||
                (durable.value.revision.Some?
                 && (durable.value.memory.lastManual.None? || BelievedManual(durable.value.memory.lastManual.value))
                 && (durable.value.memory.origin.None? || BelievedOrigin(durable.value.memory.origin.value))))
  {
  }

  predicate BelievedManual(o: Observation) {
    ByteTuple(o.profile) && (forall i | 0 <= i < 6 :: 0 <= o.channels[i] <= 100)
    && exists i :: 0 <= i < 6 && o.channels[i] != 0
  }

  predicate BelievedOrigin(o: Origin) {
    && ByteTuple(o.profile) && (o.mode == 0 || o.mode == 1)
    && (o.manualChannels.None? || BelievedManual(Observation(o.profile, o.manualChannels.value)))
    && (o.confirmed <==> o.offChannels.Some?)
    && (o.offChannels.Some? ==> forall i | 0 <= i < 6 :: 0 <= o.offChannels.value[i] <= 100)
  }

  /** What comes back is a nonzero vector for a six-channel lamp, whatever valid record was loaded. */
  lemma ValidRestores(m: Memory, error: bool, s: State)
    requires ValidMemory(m) && Restorable(m, error, s).Some?
    ensures var c := Restorable(m, error, s).value;
            (forall i | 0 <= i < 6 :: 0 <= c[i] <= 100) && c != [0, 0, 0, 0, 0, 0] && s.profile.count == 6
  {
    assert ValidProfile(m.origin.value.profile);
  }

  lemma {:induction false} ReplayLastManual(loaded: Memory, h: seq<Event>)
    requires Consistent(loaded, h)
    ensures Replay(loaded, h).lastManual == LastManual(loaded.lastManual, h)
  {
    if h != [] {
      ReplayLastManual(loaded, h[..|h| - 1]);
    }
  }

  /** Readings of a lamp that is off change neither the memory nor the error. */
  lemma {:induction false} OffReadingsKeep(loaded: Memory, initial: bool, h: seq<Event>, n: nat)
    requires Consistent(loaded, h) && n <= |h| && OnlyOffSeen(h, n)
    ensures Consistent(loaded, h[..n]) && Replay(loaded, h) == Replay(loaded, h[..n])
    ensures ErrorAfter(initial, h) == ErrorAfter(initial, h[..n])
  {
    if n == |h| {
      assert h[..n] == h;
    } else {
      var init := h[..|h| - 1];
      assert forall k | 0 <= k < |init| :: init[k] == h[k];
      OffReadingsKeep(loaded, initial, init, n);
      assert init[..n] == h[..n];
      assert !Remembers(h[|h| - 1].state)
         && ObservedMemory(Replay(loaded, init), h[|h| - 1].state) == Replay(loaded, init);
    }
  }

  /** Where the last confirmed Off of a restorable history lies. */
  lemma {:induction false} OffEnding(loaded: Memory, initial: bool, h: seq<Event>, s: State) returns (n: nat)
    requires Consistent(loaded, h) && Ordered(h)
    requires Restorable(Replay(loaded, h), ErrorAfter(initial, h), s).Some?
    ensures n <= |h| && OnlyOffSeen(h, n)
    ensures n == 0 || (h[n - 1].ConfirmedOff? && h[n - 1].outcome.Saved?)
  {
    if h == [] {
      n := 0;
    } else {
      var init := h[..|h| - 1];
      assert forall k | 0 <= k < |init| :: init[k] == h[k];
      if h[|h| - 1].ConfirmedOff? {
        n := |h|;
      } else {
        assert h[|h| - 1].Seen? && !Running(h[|h| - 1].state.mode);
        OffReadingsKeep(loaded, initial, h, |init|);
        n := OffEnding(loaded, initial, init, s);
      }
    }
  }

  /** What a confirmed Off directly behind its intent makes restorable. */
  lemma ConfirmedRestores(loaded: Memory, initial: bool, h: seq<Event>, s: State)
    requires Consistent(loaded, h) && |h| >= 2
    requires h[|h| - 2].Intended? && h[|h| - 2].outcome.Saved? && h[|h| - 1].ConfirmedOff? && h[|h| - 1].outcome.Saved?
    ensures Restorable(Replay(loaded, h), ErrorAfter(initial, h), s) ==
            var off := h[|h| - 2].state;
            var last := LastManual(loaded.lastManual, h[..|h| - 1]);
            if off.mode == MANUAL && off.profile == s.profile && h[|h| - 1].state.channels == s.channels
               && last.Some? && last.value.profile == s.profile then Some(last.value.channels) else None
  {
    var init := h[..|h| - 1];
    var start := init[..|init| - 1];
    assert init[|init| - 1] == h[|h| - 2] && start == h[..|h| - 2];
    ReplayLastManual(loaded, init);
    assert Replay(loaded, init) == OffMemory(Replay(loaded, start), h[|h| - 2].state);
    assert Replay(loaded, h) == ConfirmedMemory(Replay(loaded, init), h[|h| - 1].state);
  }

  lemma RestoreHasChain(loaded: Memory, initial: bool, h: seq<Event>, s: State, c: Channels)
    requires Consistent(loaded, h) && Ordered(h)
    requires Restorable(Replay(loaded, h), ErrorAfter(initial, h), s) == Some(c)
    ensures (exists i :: Chain(loaded, h, i, s, c)) || (Restorable(loaded, initial, s) == Some(c) && OnlyOffSeen(h, 0))
  {
    var n := OffEnding(loaded, initial, h, s);
    OffReadingsKeep(loaded, initial, h, n);
    var g := h[..n];
    if n > 0 {
      assert g[n - 1] == h[n - 1] && g[n - 2] == h[n - 2] && g[..n - 1] == h[..n - 1];
      ConfirmedRestores(loaded, initial, g, s);
      assert Chain(loaded, h, n - 2, s, c);
    } else {
      assert g == [];
    }
  }

  lemma ChainRestores(loaded: Memory, initial: bool, h: seq<Event>, i: int, s: State, c: Channels)
    requires Consistent(loaded, h) && Chain(loaded, h, i, s, c)
    ensures Restorable(Replay(loaded, h), ErrorAfter(initial, h), s) == Some(c)
  {
    OffReadingsKeep(loaded, initial, h, i + 2);
    var g := h[..i + 2];
    assert g[i] == h[i] && g[i + 1] == h[i + 1] && g[..i + 1] == h[..i + 1];
    ConfirmedRestores(loaded, initial, g, s);
  }

  /** A whole saved Manual Off chain since the load, or a loaded one with nothing but readings of the lamp
      being off. */
  ghost predicate Earned(loaded: Memory, initial: bool, h: seq<Event>, s: State, c: Channels) {
    (exists i :: Chain(loaded, h, i, s, c)) || (Restorable(loaded, initial, s) == Some(c) && OnlyOffSeen(h, 0))
  }

  /** Exactly these histories restore `c`. */
  lemma RestoreIff(loaded: Memory, initial: bool, h: seq<Event>, s: State, c: Channels)
    requires Consistent(loaded, h) && Ordered(h)
    ensures Restorable(Replay(loaded, h), ErrorAfter(initial, h), s) == Some(c) <==> Earned(loaded, initial, h, s, c)
  {
    if Restorable(Replay(loaded, h), ErrorAfter(initial, h), s) == Some(c) {
      RestoreHasChain(loaded, initial, h, s, c);
    }
    forall i | Chain(loaded, h, i, s, c)
      ensures Restorable(Replay(loaded, h), ErrorAfter(initial, h), s) == Some(c)
    {
      ChainRestores(loaded, initial, h, i, s, c);
    }
    if Restorable(loaded, initial, s) == Some(c) && OnlyOffSeen(h, 0) {
      OffReadingsKeep(loaded, initial, h, 0);
      assert h[..0] == [];
    }
  }

  /** A nonzero Manual vector that is switched off and confirmed comes back, however often the dark
      lamp is read meanwhile. */
  lemma OffThenOnRestores(loaded: Memory, initial: bool, before: seq<Event>, manual: State, off: State,
                          readings: seq<Event>)
    requires Remembers(manual) && off.mode == SHUTDOWN && off.profile == manual.profile
    requires var h := before + [Intended(manual, Saved), ConfirmedOff(off, Saved)] + readings;
             Consistent(loaded, h) && Ordered(h) && OnlyOffSeen(h, |before| + 2)
    ensures var h := before + [Intended(manual, Saved), ConfirmedOff(off, Saved)] + readings;
            Restorable(Replay(loaded, h), ErrorAfter(initial, h), off) == Some(manual.channels)
  {
    var h := before + [Intended(manual, Saved), ConfirmedOff(off, Saved)] + readings;
    var i := |before|;
    assert h[i] == Intended(manual, Saved) && h[i + 1] == ConfirmedOff(off, Saved);
    assert h[..i + 1][|h[..i + 1]| - 1] == h[i];
    assert Chain(loaded, h, i, off, manual.channels);
    RestoreIff(loaded, initial, h, off, manual.channels);
  }

  // ----- Loading again -----

  /** What becomes of one save: whether the write lands, raises or is cancelled, and whether the fresh
      load behind it answers at all. */
  datatype Fate = Fate(landed: bool, raised: bool, cancelled: bool, reread: bool) {
    predicate Believed() { landed && !raised && !cancelled && reread }
  }

  /** What the file holds of a record that was saved or loaded without an error. */
  function Stored(r: Record): Option<Record> {
    if r == EMPTY then None else Some(r)
  }

  /** A load accepts the file. */
  predicate Loads(durable: Option<Record>, readable: bool) {
    readable && (durable.Some? ==> ValidRecord(durable.value))
  }

  /** The record that a load leaves; it fails exactly when it does not accept the file. */
  function Loaded(durable: Option<Record>, readable: bool): Record {
    if Loads(durable, readable) && durable.Some? then durable.value else EMPTY
  }

  /** The memory would bring a vector back for some lamp. */
  predicate HoldsVector(m: Memory) {
    m.origin.Some? && m.origin.value.confirmed && m.origin.value.mode != AUTOMATIC
    && m.origin.value.manualChannels.Some?
    && m.origin.value.offChannels.Some?
  }

  lemma HoldsVectorIff(m: Memory)
    ensures HoldsVector(m) <==> exists s :: Restorable(m, false, s).Some?
  {
    if HoldsVector(m) {
      var s := State(SHUTDOWN, m.origin.value.profile, m.origin.value.offChannels.value);
      assert Restorable(m, false, s).Some?;
    }
  }

  /** A reload answers every question as before. */
  ghost predicate SameAnswers(m: Memory, error: bool, m': Memory, error': bool) {
    forall s :: Restorable(m', error', s) == Restorable(m, error, s)
  }

  /** A load that accepts the file changes no answer if and only if no save had failed or the file holds
      no vector; one that does not, if and only if there was none to give. Behind a failed save the
      answers are exactly those of the file, which may be older than what the lamp was seen to do. */
  lemma ReloadKeepsAnswersIff(record: Record, error: bool, durable: Option<Record>, readable: bool)
    requires !error ==> durable == Stored(record)
    ensures SameAnswers(record.memory, error, Loaded(durable, readable).memory, !Loads(durable, readable))
            <==> if Loads(durable, readable) then !error || durable.None? || !HoldsVector(durable.value.memory)
                 else error || !HoldsVector(record.memory)
  {
    HoldsVectorIff(record.memory);
    HoldsVectorIff(Loaded(durable, readable).memory);
    var m, m', e' := record.memory, Loaded(durable, readable).memory, !Loads(durable, readable);
    assert forall s :: error ==> Restorable(m, error, s).None?;
    if Loads(durable, readable) && error && HoldsVector(m') {
      var s :| Restorable(m', false, s).Some?;
      assert Restorable(m', e', s) != Restorable(m, error, s);
    }
    if !Loads(durable, readable) && !error && HoldsVector(m) {
      var s :| Restorable(m, false, s).Some?;
      assert Restorable(m', e', s) != Restorable(m, error, s);
    }
  }

  class AquariusPowerMemory {
    var record: Record
    var error: bool
    var writeBlocked: bool
    /** What the file holds, and the revisions already drawn. */
    var durable: Option<Record>
    var revisions: nat
    ghost var started: bool
    ghost var loaded: Memory
    ghost var loadedError: bool
    ghost var history: seq<Event>

    constructor (durable: Option<Record>, revisions: nat)
      requires durable.Some? && durable.value.revision.Some? ==> durable.value.revision.value < revisions
      ensures Valid() && !started && history == [] && record == EMPTY && !error && !writeBlocked
              && this.durable == durable
    {
      this.durable, this.revisions, record, error, writeBlocked := durable, revisions, EMPTY, false, false;
      started, loaded, loadedError, history := false, EMPTY.memory, false, [];
    }

    ghost predicate Valid()
      reads this
    {
      && Consistent(loaded, history)
      && record.memory == Replay(loaded, history)
      && error == ErrorAfter(loadedError, history)
      && (writeBlocked ==> error)
      && (durable.Some? && durable.value.revision.Some? ==> durable.value.revision.value < revisions)
      && (started && !error ==> durable == Stored(record))
    }

    /** Everything remembered, here or on disk, would be accepted by the next load. */
    predicate Sound()
      reads this
    {
      ValidMemory(record.memory) && (durable.Some? ==> ValidRecord(durable.value))
    }

    /** `async_load`: an unreadable or invalid file is preserved and blocks every later save. */
    method Load(readable: bool)
      requires Valid() && !started && history == [] && record == EMPTY && !error && !writeBlocked
      modifies this
      ensures Valid() && started && history == [] && durable == old(durable) && revisions == old(revisions)
      ensures record == Loaded(durable, readable) && error == writeBlocked == !Loads(durable, readable)
      ensures loaded == record.memory && loadedError == error
      ensures ValidMemory(record.memory)
    {
      if !readable || (durable.Some? && !ValidRecord(durable.value)) {
        error, writeBlocked := true, true;
      } else if durable.Some? {
        record := durable.value;
      }
      started, loaded, loadedError := true, record.memory, error;
    }

    /** `_save`: believed only when a fresh load returns exactly this revision. */
    method Save(memory: Memory, fate: Fate) returns (saved: bool)
      requires writeBlocked ==> error
      requires durable.Some? && durable.value.revision.Some? ==> durable.value.revision.value < revisions
      modifies this`record, this`error, this`durable, this`revisions
      ensures saved <==> !writeBlocked && fate.Believed()
      ensures record == (if saved then Record(Some(old(revisions)), memory) else old(record)) && error == !saved
      ensures durable == if !writeBlocked && fate.landed then Some(Record(Some(old(revisions)), memory))
              else old(durable)
      ensures durable.Some? && durable.value.revision.Some? ==> durable.value.revision.value < revisions
      ensures old(Sound()) && ValidMemory(memory) ==> Sound()
    {
      if writeBlocked { return false; }
      var candidate := Record(Some(revisions), memory);
      revisions := revisions + 1;
      if fate.landed { durable := Some(candidate); }
      if fate.raised || fate.cancelled || !fate.reread || durable != Some(candidate) {
        error := true;
        return false;
      }
      record, error := candidate, false;
      return true;
    }

    ghost method Note(e: Event)
      requires Consistent(loaded, history) && Fits(Replay(loaded, history), e)
      modifies this`history
      ensures history == old(history) + [e] && Consistent(loaded, history)
      ensures Replay(loaded, history) == After(Replay(loaded, old(history)), e)
      ensures ErrorAfter(loadedError, history) ==
                if e.outcome.Kept? then ErrorAfter(loadedError, old(history)) else e.outcome.Failed?
    {
      ghost var before := history;
      history := history + [e];
      assert history[..|history| - 1] == before;
    }

    /** `async_observe`. */
    method Observe(state: State, fate: Fate) returns (outcome: Outcome)
      requires Valid()
      modifies this
      ensures Valid() && history == old(history) + [Seen(state, outcome)]
      ensures started == old(started) && loaded == old(loaded) && loadedError == old(loadedError)
              && writeBlocked == old(writeBlocked)
      ensures outcome == if ObservedMemory(old(record).memory, state) == old(record).memory then Kept
                         else if !writeBlocked && fate.Believed() then Saved else Failed
      ensures outcome.Kept? ==> error == old(error)
      ensures !outcome.Saved? ==> record == old(record)
      ensures durable == if !outcome.Kept? && !writeBlocked && fate.landed
                         then Some(Record(Some(old(revisions)), ObservedMemory(old(record).memory, state)))
                         else old(durable)
      ensures old(Sound()) && Parsed(state) ==> Sound()
    {
      var memory := ObservedMemory(record.memory, state);
      if ValidMemory(record.memory) && Parsed(state) { ObservedValid(record.memory, state); }
      outcome := Remember(memory, fate);
      Note(Seen(state, outcome));
    }

    /** Save only what differs. */
    method Remember(memory: Memory, fate: Fate) returns (outcome: Outcome)
      requires writeBlocked ==> error
      requires durable.Some? && durable.value.revision.Some? ==> durable.value.revision.value < revisions
      modifies this`record, this`error, this`durable, this`revisions
      ensures outcome == if memory == old(record).memory then Kept else if !writeBlocked && fate.Believed() then Saved
              else Failed
      ensures record == if outcome.Saved? then Record(Some(old(revisions)), memory) else old(record)
      ensures error == if outcome.Kept? then old(error) else outcome.Failed?
      ensures durable == if !outcome.Kept? && !writeBlocked && fate.landed
                then Some(Record(Some(old(revisions)), memory)) else old(durable)
      ensures durable.Some? && durable.value.revision.Some? ==> durable.value.revision.value < revisions
      ensures old(Sound()) && ValidMemory(memory) ==> Sound()
    {
      if memory == record.memory { return Kept; }
      var saved := Save(memory, fate);
      outcome := if saved then Saved else Failed;
    }

    /** `async_prepare_off`; refused (without an event) outside Manual and Automatic. */
    method PrepareOff(state: State, fate: Fate) returns (saved: bool)
      requires Valid()
      modifies this
      ensures Valid() && started == old(started) && loaded == old(loaded) && loadedError == old(loadedError)
      ensures writeBlocked == old(writeBlocked) && (saved <==> Running(state.mode) && !writeBlocked && fate.Believed())
      ensures record == if saved then Record(Some(old(revisions)), OffMemory(old(record).memory, state))
              else old(record)
      ensures durable == if Running(state.mode) && !writeBlocked && fate.landed
                         then Some(Record(Some(old(revisions)), OffMemory(old(record).memory, state))) else old(durable)
      ensures !Running(state.mode) ==> history == old(history)
      ensures Running(state.mode) ==> history == old(history) + [Intended(state, if saved then Saved else Failed)]
      ensures old(Sound()) && Parsed(state) && state.profile.count == 6 ==> Sound()
      ensures old(Sound()) && Parsed(state) && saved ==> (Sound() <==> state.profile.count == 6)
    {
      if !Running(state.mode) { return false; }
      ghost var before := record.memory;
      saved := Save(OffMemory(record.memory, state), fate);
      if ValidMemory(before) && Parsed(state) { OffMemoryValidIff(before, state); }
      Note(Intended(state, if saved then Saved else Failed));
    }

    /** `async_confirm_off`; refused when it does not match the saved intent. */
    method ConfirmOff(state: State, fate: Fate) returns (saved: bool)
      requires Valid()
      modifies this
      ensures Valid() && started == old(started) && loaded == old(loaded) && loadedError == old(loadedError)
      ensures writeBlocked == old(writeBlocked)
      ensures saved <==> Confirms(old(record).memory, state) && !writeBlocked && fate.Believed()
      ensures record == if saved then Record(Some(old(revisions)), ConfirmedMemory(old(record).memory, state))
              else old(record)
      ensures durable == if Confirms(old(record).memory, state) && !writeBlocked && fate.landed
                         then Some(Record(Some(old(revisions)), ConfirmedMemory(old(record).memory, state)))
                         else old(durable)
      ensures !Confirms(old(record).memory, state) ==> history == old(history)
      ensures Confirms(old(record).memory, state) ==>
                history == old(history) + [ConfirmedOff(state, if saved then Saved else Failed)]
      ensures old(Sound()) && Parsed(state) ==> Sound()
    {
      if !Confirms(record.memory, state) { return false; }
      saved := Save(ConfirmedMemory(record.memory, state), fate);
      Note(ConfirmedOff(state, if saved then Saved else Failed));
    }

    /** `manual_restore`: under the coordinator's order its answer has exactly one meaning. */
    method ManualRestore(state: State) returns (channels: Option<Channels>)
      requires Valid()
      ensures channels == Restorable(record.memory, error, state)
      ensures Ordered(history) ==> forall c :: channels == Some(c) <==> Earned(loaded, loadedError, history, state, c)
    {
      channels := Restorable(record.memory, error, state);
      if Ordered(history) {
        forall c: Channels
          ensures channels == Some(c) <==> Earned(loaded, loadedError, history, state, c)
        {
          RestoreIff(loaded, loadedError, history, state, c);
        }
      }
    }

    /** The coordinator's Off: the intent is saved before the client is called, and only a confirmed
        Shutdown of the same profile is confirmed here. `off` is what the client returned, if it did. */
    method SwitchOff(before: State, off: Option<State>, intent: Fate, confirmation: Fate)
      requires Valid() && Ordered(history) && Sound() && before.profile == VERIFIED && Parsed(before)
      requires off.Some? ==> Parsed(off.value)
      modifies this
      ensures Valid() && Ordered(history) && Sound() && started == old(started)
      ensures old(history) <= history && loaded == old(loaded) && loadedError == old(loadedError)
    {
      var saved := PrepareOff(before, intent);
      if Running(before.mode) { OrderKept(old(history), Intended(before, if saved then Saved else Failed)); }
      if !saved || off.None? { return; }
      ghost var intended := history;
      var confirmed := ConfirmOff(off.value, confirmation);
      if history != intended { OrderKept(intended, ConfirmedOff(off.value, if confirmed then Saved else Failed)); }
    }

    /** A memory that was loaded with the very record of an earlier one goes on with its history. */
    ghost method Resume(loaded: Memory, loadedError: bool, history: seq<Event>)
      requires Valid() && Consistent(loaded, history)
      requires record.memory == Replay(loaded, history) && error == ErrorAfter(loadedError, history)
      modifies this`loaded, this`loadedError, this`history
      ensures Valid() && this.loaded == loaded && this.loadedError == loadedError && this.history == history
    {
      this.loaded, this.loadedError, this.history := loaded, loadedError, history;
    }
  }

  /** The integration is set up again: a new memory loads the file that the old one left. As long as no
      save had failed and the file is accepted, the new one remembers exactly what the old one did, and
      its history simply goes on; otherwise a new history begins with what was loaded. */
  method Reload(memory: AquariusPowerMemory, readable: bool) returns (next: AquariusPowerMemory)
    requires memory.Valid() && memory.started
    ensures fresh(next) && next.Valid() && next.started && next.durable == memory.durable
    ensures next.record == Loaded(memory.durable, readable)
            && next.error == next.writeBlocked == !Loads(memory.durable, readable)
    ensures if !memory.error && !next.error then
              && next.record == memory.record && next.history == memory.history
              && next.loaded == memory.loaded && next.loadedError == memory.loadedError
            else
              next.history == [] && next.loaded == next.record.memory && next.loadedError == next.error
    ensures SameAnswers(memory.record.memory, memory.error, next.record.memory, next.error)
            <==> if !next.error then !memory.error || memory.durable.None? || !HoldsVector(memory.durable.value.memory)
                 else memory.error || !HoldsVector(memory.record.memory)
    ensures memory.Sound() ==> next.Sound()
  {
    next := new AquariusPowerMemory(memory.durable, memory.revisions);
    next.Load(readable);
    ReloadKeepsAnswersIff(memory.record, memory.error, memory.durable, readable);
    if !memory.error && !next.error { next.Resume(memory.loaded, memory.loadedError, memory.history); }
  }

  const LIT := State(MANUAL, VERIFIED, [9, 0, 0, 0, 0, 0])
  const DARK := State(SHUTDOWN, VERIFIED, ZERO)
  const LIT_ANEW := State(MANUAL, VERIFIED, [0, 7, 0, 0, 0, 0])

  /** A remembered Off of `LIT`, which a later reading should clear. */
  lemma RememberedOff()
    ensures var intended := OffMemory(EMPTY.memory, LIT);
            && Confirms(intended, DARK)
            && var off := ConfirmedMemory(intended, DARK);
               && ValidMemory(off) && HoldsVector(off) && ObservedMemory(off, LIT_ANEW) != off
               && Restorable(off, false, DARK) == Some(LIT.channels)
  {
    assert LIT.channels[0] != 0 && LIT_ANEW.channels[1] != 0;
  }

  /** The history theorem ends where a load follows a failed save: Off is remembered, the lamp is then seen
      to run, the save that should clear the origin is lost, and the next load trusts the stale origin. */
  method StaleOriginSurvivesReload() returns (before: Option<Channels>, failed: bool, after: Option<Channels>)
    ensures before == None && failed && after == Some(LIT.channels)
  {
    RememberedOff();
    var written, lost := Fate(true, false, false, true), Fate(false, false, false, true);
    var memory := new AquariusPowerMemory(None, 0);
    memory.Load(true);
    var _ := memory.PrepareOff(LIT, written);
    var _ := memory.ConfirmOff(DARK, written);
    ghost var remembered := memory.record;
    var _ := memory.Observe(LIT_ANEW, lost);
    assert memory.durable == Some(remembered) && memory.error;
    before := memory.ManualRestore(DARK);
    failed := memory.error;
    var next := Reload(memory, true);
    after := next.ManualRestore(DARK);
  }

  datatype Action =
    | Reading(state: State, fate: Fate)
    | SwitchingOff(before: State, off: Option<State>, intent: Fate, confirmation: Fate)
    | Reloading(readable: bool)

  predicate Gated(a: Action) {
    match a
    case Reading(s, _) => Parsed(s)
    case SwitchingOff(before, off, _, _) =>
      before.profile == VERIFIED && Parsed(before) && (off.Some? ==> Parsed(off.value))
    case Reloading(_) => true
  }

  /** Any run in the coordinator's order, with reloads anywhere, keeps every saved record valid and the
      history ordered, so its final answer has the meaning of `ManualRestore`. The history reaches back to
      the last reload that found a failed save or a file it could not accept. */
  method Serve(memory: AquariusPowerMemory, actions: seq<Action>, state: State)
    returns (last: AquariusPowerMemory, channels: Option<Channels>)
    requires memory.Valid() && memory.started && memory.Sound() && Ordered(memory.history)
    requires forall i | 0 <= i < |actions| :: Gated(actions[i])
    modifies memory
    ensures last.Valid() && last.started && last.Sound() && Ordered(last.history)
    ensures channels == Restorable(last.record.memory, last.error, state)
    ensures forall c :: channels == Some(c) <==> Earned(last.loaded, last.loadedError, last.history, state, c)
  {
    last := memory;
    for k := 0 to |actions|
      invariant last == memory || fresh(last)
      invariant last.Valid() && last.started && last.Sound() && Ordered(last.history)
    {
      match actions[k] {
        case Reading(s, fate) =>
          ghost var start := last.history;
          var outcome := last.Observe(s, fate);
          OrderKept(start, Seen(s, outcome));
        case SwitchingOff(before, off, intent, confirmation) =>
          last.SwitchOff(before, off, intent, confirmation);
        case Reloading(readable) =>
          last := Reload(last, readable);
      }
    }
    channels := last.ManualRestore(state);
  }
}
