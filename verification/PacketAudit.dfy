/**
  The passive audit: packets are filed into flows, each flow's client bytes are laid out by sequence
  number modulo 2^32 (section 3.4 of RFC 9293), and the verdict rests on what that layout shows.
 */
module PacketAudit {
  import opened CaptureFilter
  import opened Wrappers

  const MAX_BYTES := 1048576
  const MAX_STREAM := 65536
  const MAX_PACKETS := 50000
  const MAX_FLOWS := 256
  const CYCLE := 0x1_0000_0000
  const COMMAND := 20

  datatype Problem =
    | BudgetExceeded | Truncated | UnsupportedOrShort | InvalidIpv4 | ScopeMismatch | Fragmentation | InvalidTcp
    | FlowBudgetExceeded | TupleReused | UnexpectedSynAck | ConflictingFin
    | StatisticsUnavailable | KernelDrops | StatisticsMismatch
    | NoStreamStart | StreamRange | ConflictingRetransmission | BytesMissingBeforeFin | NoStreamEnd
    | AcknowledgementBeyond | NotAcknowledged | SequenceGap | Unparsed | NoPositiveControl

  type Peer = (seq<byte>, nat)

  datatype Piece = Piece(sequence: nat, payload: seq<byte>)

  datatype Flow = Flow(isn: Option<nat>, pieces: seq<Piece>, acknowledgements: seq<nat>, fin: Option<nat>, reset: bool,
                       responseBytes: nat, problems: set<Problem>)

  const NEW_FLOW := Flow(None, [], [], None, false, 0, {})

  // ----- Laying out bytes -----

  /** Where a sequence number lies behind the start of its stream. */
  function Behind(origin: nat, sequence: nat): nat {
    (sequence - origin) % CYCLE
  }

  predicate Covers(origin: nat, piece: Piece, i: nat) {
    var o := Behind(origin, piece.sequence);
    o <= i < o + |piece.payload|
  }

  function ByteAt(origin: nat, piece: Piece, i: nat): byte
    requires Covers(origin, piece, i)
  {
    piece.payload[i - Behind(origin, piece.sequence)]
  }

  predicate InRange(origin: nat, piece: Piece) {
    Behind(origin, piece.sequence) + |piece.payload| <= MAX_STREAM
  }

  /** The map after `payload` was laid at `o`, byte by byte: what is already there stays. */
  function Put(values: map<nat, byte>, o: nat, payload: seq<byte>): map<nat, byte> {
    if payload == [] then values
    else
      var n := |payload| - 1;
      var before := Put(values, o, payload[..n]);
      if o + n in before then before else before[o + n := payload[n]]
  }

  lemma {:induction false} PutLookup(values: map<nat, byte>, o: nat, payload: seq<byte>, i: nat)
    ensures i in Put(values, o, payload) <==> i in values || o <= i < o + |payload|
    ensures i in values ==> Put(values, o, payload)[i] == values[i]
    ensures i !in values && o <= i < o + |payload| ==> Put(values, o, payload)[i] == payload[i - o]
  {
    if payload != [] {
      var n := |payload| - 1;
      PutLookup(values, o, payload[..n], i);
    }
  }

  predicate Differs(values: map<nat, byte>, o: nat, payload: seq<byte>) {
    exists i :: i in values && o <= i < o + |payload| && values[i] != payload[i - o]
  }

  function Lay(values: map<nat, byte>, origin: nat, piece: Piece): map<nat, byte> {
    Put(values, Behind(origin, piece.sequence), piece.payload)
  }

  lemma LayLookup(values: map<nat, byte>, origin: nat, piece: Piece, i: nat)
    ensures i in Lay(values, origin, piece) <==> i in values || Covers(origin, piece, i)
    ensures i in values ==> Lay(values, origin, piece)[i] == values[i]
    ensures i !in values && Covers(origin, piece, i) ==> Lay(values, origin, piece)[i] == ByteAt(origin, piece, i)
  {
    PutLookup(values, Behind(origin, piece.sequence), piece.payload, i);
  }

  predicate Clashes(values: map<nat, byte>, origin: nat, piece: Piece) {
    Differs(values, Behind(origin, piece.sequence), piece.payload)
  }

  /** The layout of all pieces in range, in the order they were captured. */
  function Layout(origin: nat, pieces: seq<Piece>): map<nat, byte> {
    if pieces == [] then map[]
    else
      var before := Layout(origin, pieces[..|pieces| - 1]);
      var piece := pieces[|pieces| - 1];
      if InRange(origin, piece) then Lay(before, origin, piece) else before
  }

  predicate Conflicting(origin: nat, pieces: seq<Piece>) {
    pieces != [] &&
    var before := pieces[..|pieces| - 1];
    var piece := pieces[|pieces| - 1];
    Conflicting(origin, before) || (InRange(origin, piece) && Clashes(Layout(origin, before), origin, piece))
  }

  /** Every laid byte comes from a piece. */
  lemma {:induction false} LaidFrom(origin: nat, pieces: seq<Piece>, i: nat) returns (k: nat)
    requires i in Layout(origin, pieces)
    ensures k < |pieces| && InRange(origin, pieces[k]) && Covers(origin, pieces[k], i)
    ensures ByteAt(origin, pieces[k], i) == Layout(origin, pieces)[i]
  {
    var init := pieces[..|pieces| - 1];
    var before := Layout(origin, init);
    LayLookup(before, origin, pieces[|pieces| - 1], i);
    if i in before {
      k := LaidFrom(origin, init, i);
      assert init[k] == pieces[k];
    } else {
      k := |pieces| - 1;
    }
  }

  /** Every piece in range is laid; without a conflict, with its own bytes. */
  lemma {:induction false} IsLaid(origin: nat, pieces: seq<Piece>, k: nat, i: nat)
    requires k < |pieces| && InRange(origin, pieces[k]) && Covers(origin, pieces[k], i)
    ensures i in Layout(origin, pieces)
    ensures !Conflicting(origin, pieces) ==> Layout(origin, pieces)[i] == ByteAt(origin, pieces[k], i)
  {
    var init := pieces[..|pieces| - 1];
    var before := Layout(origin, init);
    LayLookup(before, origin, pieces[|pieces| - 1], i);
    if k < |init| {
      assert init[k] == pieces[k];
      IsLaid(origin, init, k, i);
    } else {
      assert Clashes(before, origin, pieces[k]) <== i in before && before[i] != ByteAt(origin, pieces[k], i);
    }
  }

  lemma {:induction false} ConflictPair(origin: nat, pieces: seq<Piece>) returns (a: nat, b: nat, i: nat)
    requires Conflicting(origin, pieces)
    ensures a < |pieces| && b < |pieces| && InRange(origin, pieces[a]) && InRange(origin, pieces[b])
    ensures Covers(origin, pieces[a], i) && Covers(origin, pieces[b], i)
            && ByteAt(origin, pieces[a], i) != ByteAt(origin, pieces[b], i)
  {
    var init := pieces[..|pieces| - 1];
    var last := pieces[|pieces| - 1];
    assert forall k | 0 <= k < |init| :: init[k] == pieces[k];
    if Conflicting(origin, init) {
      a, b, i := ConflictPair(origin, init);
    } else {
      b := |pieces| - 1;
      i :| i in Layout(origin, init) && Covers(origin, last, i) && Layout(origin, init)[i] != ByteAt(origin, last, i);
      a := LaidFrom(origin, init, i);
    }
  }

  lemma SamePieceLaid(origin: nat, s: seq<Piece>, t: seq<Piece>, k: nat, i: nat)
    requires k < |s| && InRange(origin, s[k]) && Covers(origin, s[k], i) && s[k] in t
    ensures i in Layout(origin, t)
    ensures !Conflicting(origin, t) ==> Layout(origin, t)[i] == ByteAt(origin, s[k], i)
  {
    var j :| 0 <= j < |t| && t[j] == s[k];
    IsLaid(origin, t, j, i);
  }

  lemma NoNewConflict(origin: nat, s: seq<Piece>, t: seq<Piece>)
    requires !Conflicting(origin, s) && forall p :: p in t ==> p in s
    ensures !Conflicting(origin, t)
  {
    if Conflicting(origin, t) {
      var a, b, i := ConflictPair(origin, t);
      SamePieceLaid(origin, t, s, a, i);
      SamePieceLaid(origin, t, s, b, i);
    }
  }

  lemma SubsetLaid(origin: nat, s: seq<Piece>, t: seq<Piece>, i: nat)
    requires !Conflicting(origin, t) && (forall p :: p in s ==> p in t) && i in Layout(origin, s)
    ensures i in Layout(origin, t) && Layout(origin, t)[i] == Layout(origin, s)[i]
  {
    var k := LaidFrom(origin, s, i);
    SamePieceLaid(origin, s, t, k, i);
  }

  /** Without conflicts, reordering and exact retransmission are invisible: the same set of pieces
      gives the same byte map, and no conflict appears. */
  lemma OrderIsInvisible(origin: nat, s: seq<Piece>, t: seq<Piece>)
    requires !Conflicting(origin, s) && forall p :: p in s <==> p in t
    ensures !Conflicting(origin, t) && Layout(origin, s) == Layout(origin, t)
  {
    NoNewConflict(origin, s, t);
    forall i | i in Layout(origin, s)
      ensures i in Layout(origin, t) && Layout(origin, t)[i] == Layout(origin, s)[i]
    {
      SubsetLaid(origin, s, t, i);
    }
    forall i | i in Layout(origin, t)
      ensures i in Layout(origin, s)
    {
      SubsetLaid(origin, t, s, i);
    }
  }

  // ----- What a clean flow is -----

  datatype Query = SystemQuery | ChannelQuery

  function QueryBytes(q: Query): (b: seq<byte>)
    ensures |b| == COMMAND
  {
    [0xF1, if q.SystemQuery? then 0xE1 else 0xE2, 0xFC] + seq(16, _ => 0) + [0xF3]
  }

  /** A concatenation of queries. */
  function Queries(kinds: seq<Query>): (b: seq<byte>)
    ensures |b| == COMMAND * |kinds|
  {
    if kinds == [] then [] else Queries(kinds[..|kinds| - 1]) + QueryBytes(kinds[|kinds| - 1])
  }

  function Origin(flow: Flow): nat
    requires flow.isn.Some?
  {
    (flow.isn.value + 1) % CYCLE
  }

  /** A piece is the part of `stream` that its sequence number says. */
  predicate Matches(origin: nat, piece: Piece, stream: seq<byte>) {
    var o := Behind(origin, piece.sequence);
    o + |piece.payload| <= |stream| && stream[o..o + |piece.payload|] == piece.payload
  }

  predicate Covered(origin: nat, pieces: seq<Piece>, i: nat) {
    exists k :: 0 <= k < |pieces| && Covers(origin, pieces[k], i)
  }

  /** The client sent exactly `stream`, a concatenation of queries: every captured piece is its part
      of it, no byte is missing, it ended, and its acknowledgements fit. */
  ghost predicate Explains(flow: Flow, stream: seq<byte>, kinds: seq<Query>) {
    && flow.problems == {} && flow.isn.Some? && stream == Queries(kinds)
    && var origin := Origin(flow);
       && (forall k | 0 <= k < |flow.pieces| ::
            InRange(origin, flow.pieces[k]) && Matches(origin, flow.pieces[k], stream))
       && (forall i: nat | i < |stream| :: Covered(origin, flow.pieces, i))
       && (if flow.fin.Some? then Behind(origin, flow.fin.value) == |stream| else flow.reset)
       && (forall k | 0 <= k < |flow.acknowledgements| ::
             Behind(origin, flow.acknowledgements[k]) <= |stream| + (if flow.fin.Some? then 1 else 0))
       && (stream != [] ==>
            exists k :: 0 <= k < |flow.acknowledgements| && Behind(origin, flow.acknowledgements[k]) >= |stream|)
  }

  /** Each captured piece is the slice of `truth` at its place, under sequence numbers that may wrap. */
  ghost predicate SlicesOf(flow: Flow, truth: seq<byte>, places: seq<nat>)
    requires flow.isn.Some?
  {
    && |truth| < CYCLE && |places| == |flow.pieces|
    && forall k | 0 <= k < |places| :: SliceAt(Origin(flow), flow.pieces[k], truth, places[k])
  }

  predicate SliceAt(origin: nat, piece: Piece, truth: seq<byte>, place: nat) {
    && piece.sequence == (origin + place) % CYCLE && place + |piece.payload| <= |truth|
    && truth[place..place + |piece.payload|] == piece.payload
  }

  /** Every byte at the front of the layout, in order. */
  ghost predicate Recovered(flow: Flow, stream: seq<byte>)
    requires flow.isn.Some?
  {
    forall i: nat | i < |stream| ::
      i in Layout(Origin(flow), flow.pieces) && Layout(Origin(flow), flow.pieces)[i] == stream[i]
  }

  /** A slice shows the byte of the true stream wherever it covers one, also behind a wrap. */
  lemma SliceByte(origin: nat, piece: Piece, truth: seq<byte>, place: nat, i: nat)
    requires origin < CYCLE && |truth| < CYCLE && Covers(origin, piece, i) && SliceAt(origin, piece, truth, place)
    ensures i < |truth| && ByteAt(origin, piece, i) == truth[i]
  {
    WrappedDistance(origin, place);
    assert truth[i] == truth[place..place + |piece.payload|][i - place];
  }

  /** Slices of one true stream, shorter than one sequence cycle, never conflict. */
  lemma SlicesAgree(flow: Flow, truth: seq<byte>, places: seq<nat>)
    requires flow.isn.Some? && SlicesOf(flow, truth, places)
    ensures !Conflicting(Origin(flow), flow.pieces)
  {
    var origin := Origin(flow);
    if Conflicting(origin, flow.pieces) {
      var a, b, i := ConflictPair(origin, flow.pieces);
      SliceByte(origin, flow.pieces[a], truth, places[a], i);
      SliceByte(origin, flow.pieces[b], truth, places[b], i);
    }
  }

  /** If the captured pieces are slices of a true stream, whatever it says and wherever its sequence
      numbers wrap, all bytes recovered from the start are a prefix of it. */
  lemma RecoversPrefix(flow: Flow, stream: seq<byte>, truth: seq<byte>, places: seq<nat>)
    requires flow.isn.Some? && SlicesOf(flow, truth, places) && Recovered(flow, stream)
    ensures stream <= truth
  {
    if stream != [] { RecoveredByte(flow, stream, truth, places, |stream| - 1); }
    forall i: nat | i < |stream|
      ensures stream[i] == truth[i]
    {
      RecoveredByte(flow, stream, truth, places, i);
    }
  }

  lemma RecoveredByte(flow: Flow, stream: seq<byte>, truth: seq<byte>, places: seq<nat>, i: nat)
    requires flow.isn.Some? && SlicesOf(flow, truth, places) && Recovered(flow, stream) && i < |stream|
    ensures i < |truth| && stream[i] == truth[i]
  {
    var k := LaidFrom(Origin(flow), flow.pieces, i);
    SliceByte(Origin(flow), flow.pieces[k], truth, places[k], i);
  }

  lemma WrappedDistance(origin: nat, distance: nat)
    requires origin < CYCLE && distance < CYCLE
    ensures Behind(origin, (origin + distance) % CYCLE) == distance
  {
  }

  // ----- The verdict -----

  datatype Counts = Counts(system: nat, channel: nat, writes: nat, others: nat, unparsed: nat, clientBytes: nat)

  datatype Status = WriteObserved | OtherCommandObserved | Inconclusive | QueryOnlyObserved

  datatype Report = Report(status: Status, counts: Counts, problems: set<Problem>, responses: nat)

  lemma SubsetSize<T>(a: set<T>, b: set<T>)
    requires a <= b
    ensures |a| <= |b|
  {
    assert b == a + (b - a);
  }

  /** One piece, byte by byte. */
  method LayPiece(values: map<nat, byte>, offset: nat, payload: seq<byte>)
    returns (laid: map<nat, byte>, conflict: bool)
    ensures laid == Put(values, offset, payload)
    ensures conflict <==> Differs(values, offset, payload)
  {
    laid, conflict := values, false;
    var n := 0;
    while n < |payload|
      invariant n <= |payload|
      invariant laid == Put(values, offset, payload[..n])
      invariant conflict <==> Differs(values, offset, payload[..n])
    {
      var index := offset + n;
      DiffersGrows(values, offset, payload, n);
      PutLookup(values, offset, payload[..n], index);
      assert payload[..n + 1][..n] == payload[..n];
      if index in laid && laid[index] != payload[n] { conflict := true; }
      if index !in laid { laid := laid[index := payload[n]]; }
      n := n + 1;
    }
    assert payload[..n] == payload;
  }

  lemma DiffersGrows(values: map<nat, byte>, o: nat, payload: seq<byte>, n: nat)
    requires n < |payload|
    ensures Differs(values, o, payload[..n + 1]) <==>
              Differs(values, o, payload[..n]) || (o + n in values && values[o + n] != payload[n])
  {
    var less, more := payload[..n], payload[..n + 1];
    assert forall k | 0 <= k < n :: more[k] == less[k];
    if Differs(values, o, less) {
      var i :| i in values && o <= i < o + |less| && values[i] != less[i - o];
      assert values[i] != more[i - o];
    }
    if o + n in values && values[o + n] != payload[n] {
      assert values[o + n] != more[o + n - o];
    }
  }

  /** All pieces of one stream, in the order they were captured. */
  method Assemble(origin: nat, pieces: seq<Piece>) returns (values: map<nat, byte>, overrun: bool, conflict: bool)
    ensures values == Layout(origin, pieces)
    ensures overrun <==> exists k :: 0 <= k < |pieces| && !InRange(origin, pieces[k])
    ensures conflict <==> Conflicting(origin, pieces)
  {
    values, overrun, conflict := map[], false, false;
    for n := 0 to |pieces|
      invariant values == Layout(origin, pieces[..n])
      invariant overrun <==> exists k :: 0 <= k < n && !InRange(origin, pieces[k])
      invariant conflict <==> Conflicting(origin, pieces[..n])
    {
      assert pieces[..n + 1][..n] == pieces[..n] && pieces[..n + 1][n] == pieces[n];
      var piece := pieces[n];
      if !InRange(origin, piece) {
        overrun := true;
        continue;
      }
      var clash: bool;
      values, clash := LayPiece(values, Behind(origin, piece.sequence), piece.payload);
      conflict := conflict || clash;
    }
    assert pieces[..|pieces|] == pieces;
  }

  /** One more than the largest laid index. */
  method EndOf(values: map<nat, byte>) returns (end: nat)
    ensures forall i | i in values :: i < end
    ensures end > 0 ==> end - 1 in values
  {
    end := 0;
    var keys := values.Keys;
    while keys != {}
      invariant keys <= values.Keys
      invariant forall i | i in values && i !in keys :: i < end
      invariant end > 0 ==> end - 1 in values
      decreases |keys|
    {
      var i :| i in keys;
      keys := keys - {i};
      if end <= i { end := i + 1; }
    }
  }

  method ContiguousPrefix(values: map<nat, byte>, end: nat) returns (prefix: nat)
    requires forall i | i in values :: i < end
    ensures prefix <= end && prefix !in values && forall i: nat | i < prefix :: i in values
  {
    prefix := 0;
    while prefix in values
      invariant prefix <= end && forall i: nat | i < prefix :: i in values
      decreases end - prefix
    {
      prefix := prefix + 1;
    }
  }

  predicate Framed(block: seq<byte>) {
    |block| == COMMAND && block[0] == 0xF1 && block[COMMAND - 1] == 0xF3
  }

  predicate IsQuery(block: seq<byte>) {
    block == QueryBytes(SystemQuery) || block == QueryBytes(ChannelQuery)
  }

  function Block(stream: seq<byte>, c: nat): seq<byte>
    requires COMMAND * c + COMMAND <= |stream|
  {
    stream[COMMAND * c..COMMAND * c + COMMAND]
  }

  lemma {:induction false} QueryBlock(kinds: seq<Query>, c: nat)
    requires c < |kinds|
    ensures Block(Queries(kinds), c) == QueryBytes(kinds[c])
  {
    var n := |kinds| - 1;
    if c < n {
      QueryBlock(kinds[..n], c);
      assert Block(Queries(kinds), c) == Block(Queries(kinds[..n]), c);
    }
  }

  datatype Command = Queried(query: Query) | Written | OtherCommand

  predicate Recognised(block: seq<byte>) {
    IsQuery(block) || Framed(block)
  }

  function CommandOf(block: seq<byte>): Command
    requires Recognised(block)
  {
    if block == QueryBytes(SystemQuery) then Queried(SystemQuery)
    else if block == QueryBytes(ChannelQuery) then Queried(ChannelQuery)
    else if block[2] == 0xFA then Written
    else OtherCommand
  }

  predicate RecognisedAt(stream: seq<byte>, c: nat) {
    COMMAND * c + COMMAND <= |stream| && Recognised(Block(stream, c))
  }

  function CommandAt(stream: seq<byte>, c: nat): Command
    requires RecognisedAt(stream, c)
  {
    CommandOf(Block(stream, c))
  }

  /** The first block from `c` on that is no command. */
  function FirstUnknown(stream: seq<byte>, c: nat): (n: nat)
    ensures n >= c && !RecognisedAt(stream, n) && forall d | c <= d < n :: RecognisedAt(stream, d)
    decreases |stream| - COMMAND * c
  {
    if RecognisedAt(stream, c) then FirstUnknown(stream, c + 1) else c
  }

  function FirstCommands(stream: seq<byte>, n: nat): (commands: seq<Command>)
    requires forall c | 0 <= c < n :: RecognisedAt(stream, c)
    ensures |commands| == n && forall c | 0 <= c < n :: RecognisedAt(stream, c) && commands[c] == CommandAt(stream, c)
  {
    if n == 0 then [] else FirstCommands(stream, n - 1) + [CommandAt(stream, n - 1)]
  }

  /** The commands that a stream starts with. */
  function Commands(stream: seq<byte>): seq<Command> {
    FirstCommands(stream, FirstUnknown(stream, 0))
  }

  function CountOf(commands: seq<Command>, wanted: Command): nat {
    if commands == [] then 0
    else CountOf(commands[..|commands| - 1], wanted) + (if commands[|commands| - 1] == wanted then 1 else 0)
  }

  /** What a scan of these commands counts. */
  function Tally(commands: seq<Command>): Scan {
    Scan(COMMAND * |commands|, CountOf(commands, Queried(SystemQuery)), CountOf(commands, Queried(ChannelQuery)),
         CountOf(commands, Written), CountOf(commands, OtherCommand))
  }

  lemma {:induction false} CountPositive(commands: seq<Command>, wanted: Command)
    ensures CountOf(commands, wanted) > 0 <==> wanted in commands
  {
    if commands != [] {
      CountPositive(commands[..|commands| - 1], wanted);
      assert commands == commands[..|commands| - 1] + [commands[|commands| - 1]];
    }
  }

  function Asked(kinds: seq<Query>): seq<Command> {
    seq(|kinds|, i requires 0 <= i < |kinds| => Queried(kinds[i]))
  }

  lemma QueryCommand(kinds: seq<Query>, c: nat)
    requires c < |kinds|
    ensures RecognisedAt(Queries(kinds), c) && CommandAt(Queries(kinds), c) == Queried(kinds[c])
  {
    QueryBlock(kinds, c);
    QueryIsCommand(kinds[c]);
  }

  lemma QueryIsCommand(q: Query)
    ensures Recognised(QueryBytes(q)) && CommandOf(QueryBytes(q)) == Queried(q)
  {
    QueriesDiffer();
  }

  lemma QueriesGiveCommands(kinds: seq<Query>)
    ensures Commands(Queries(kinds)) == Asked(kinds)
  {
    var stream := Queries(kinds);
    forall c: nat | c < |kinds|
      ensures RecognisedAt(stream, c) && CommandAt(stream, c) == Queried(kinds[c])
    {
      QueryCommand(kinds, c);
    }
    var n := FirstUnknown(stream, 0);
    assert n >= |kinds| && !RecognisedAt(stream, |kinds|);
    assert forall c | 0 <= c < n :: FirstCommands(stream, n)[c] == CommandAt(stream, c);
  }

  lemma CommandsWereQueries(stream: seq<byte>, kinds: seq<Query>)
    requires Commands(stream) == Asked(kinds) && |stream| == COMMAND * |kinds|
    ensures stream == Queries(kinds)
  {
    forall c: nat | c < |kinds|
      ensures Block(stream, c) == QueryBytes(kinds[c])
    {
      assert Commands(stream)[c] == CommandAt(stream, c) == Asked(kinds)[c];
    }
    BlocksAreQueries(stream, kinds);
  }

  /** A stream is a concatenation of queries exactly when its commands are these queries and reach
      its end. */
  lemma QueriesAreCommands(stream: seq<byte>, kinds: seq<Query>)
    ensures stream == Queries(kinds) <==> Commands(stream) == Asked(kinds) && |stream| == COMMAND * |kinds|
  {
    QueriesGiveCommands(kinds);
    if Commands(stream) == Asked(kinds) && |stream| == COMMAND * |kinds| {
      CommandsWereQueries(stream, kinds);
    }
  }

  lemma QueriesDiffer()
    ensures QueryBytes(SystemQuery) != QueryBytes(ChannelQuery)
  {
    assert QueryBytes(SystemQuery)[1] != QueryBytes(ChannelQuery)[1];
  }

  lemma {:induction false} BlocksAreQueries(stream: seq<byte>, kinds: seq<Query>)
    requires |stream| == COMMAND * |kinds| && forall c: nat | c < |kinds| :: Block(stream, c) == QueryBytes(kinds[c])
    ensures stream == Queries(kinds)
  {
    if kinds != [] {
      var n := |kinds| - 1;
      var front := stream[..COMMAND * n];
      forall c: nat | c < n
        ensures Block(front, c) == QueryBytes(kinds[..n][c])
      {
        assert Block(front, c) == Block(stream, c);
      }
      BlocksAreQueries(front, kinds[..n]);
      assert stream == front + Block(stream, n);
    }
  }

  datatype Scan = Scan(cursor: nat, system: nat, channel: nat, writes: nat, others: nat)

  function Added(scan: Scan, command: Command): Scan {
    match command
    case Queried(SystemQuery) => scan.(cursor := scan.cursor + COMMAND, system := scan.system + 1)
    case Queried(ChannelQuery) => scan.(cursor := scan.cursor + COMMAND, channel := scan.channel + 1)
    case Written => scan.(cursor := scan.cursor + COMMAND, writes := scan.writes + 1)
    case OtherCommand => scan.(cursor := scan.cursor + COMMAND, others := scan.others + 1)
  }

  lemma TallyGrows(stream: seq<byte>, n: nat)
    requires forall c | 0 <= c <= n :: RecognisedAt(stream, c)
    ensures Tally(FirstCommands(stream, n + 1)) == Added(Tally(FirstCommands(stream, n)), CommandAt(stream, n))
  {
    var before := FirstCommands(stream, n);
    assert FirstCommands(stream, n + 1) == before + [CommandAt(stream, n)];
    assert (before + [CommandAt(stream, n)])[..n] == before;
  }

  /** Which command a block is, if it is one. */
  method Classify(block: seq<byte>) returns (command: Option<Command>)
    requires |block| == COMMAND
    ensures command == if Recognised(block) then Some(CommandOf(block)) else None
  {
    if block == QueryBytes(SystemQuery) { return Some(Queried(SystemQuery)); }
    if block == QueryBytes(ChannelQuery) { return Some(Queried(ChannelQuery)); }
    if block[0] == 0xF1 && block[COMMAND - 1] == 0xF3 {
      return Some(if block[2] == 0xFA then Written else OtherCommand);
    }
    return None;
  }

  /** The commands at the front of a stream, up to the first block that is none. */
  method ScanCommands(stream: seq<byte>) returns (scan: Scan)
    ensures scan == Tally(Commands(stream)) && scan.cursor <= |stream|
  {
    scan := Scan(0, 0, 0, 0, 0);
    ghost var n := 0;
    while scan.cursor + COMMAND <= |stream|
      invariant scan.cursor == COMMAND * n <= |stream|
      invariant FirstUnknown(stream, 0) == FirstUnknown(stream, n) && forall c | 0 <= c < n :: RecognisedAt(stream, c)
      invariant scan == Tally(FirstCommands(stream, n))
      decreases |stream| - scan.cursor
    {
      var command := Classify(stream[scan.cursor..scan.cursor + COMMAND]);
      assert stream[scan.cursor..scan.cursor + COMMAND] == Block(stream, n);
      if command.None? { break; }
      TallyGrows(stream, n);
      scan, n := Added(scan, command.value), n + 1;
    }
  }

  // ----- One flow -----

  /** The layout of an explained flow is exactly its stream. */
  lemma ExplainedLayout(flow: Flow, stream: seq<byte>, kinds: seq<Query>)
    requires Explains(flow, stream, kinds)
    ensures !Conflicting(Origin(flow), flow.pieces)
    ensures forall i: nat :: i in Layout(Origin(flow), flow.pieces) <==> i < |stream|
    ensures forall i: nat | i < |stream| ::
              i in Layout(Origin(flow), flow.pieces) && Layout(Origin(flow), flow.pieces)[i] == stream[i]
  {
    var origin, pieces := Origin(flow), flow.pieces;
    if Conflicting(origin, pieces) {
      var a, b, i := ConflictPair(origin, pieces);
      MatchedByte(origin, pieces[a], stream, i);
      MatchedByte(origin, pieces[b], stream, i);
    }
    forall i: nat | i in Layout(origin, pieces)
      ensures i < |stream| && Layout(origin, pieces)[i] == stream[i]
    {
      var k := LaidFrom(origin, pieces, i);
      MatchedByte(origin, pieces[k], stream, i);
    }
    forall i: nat | i < |stream|
      ensures i in Layout(origin, pieces)
    {
      assert Covered(origin, pieces, i);
      var k :| 0 <= k < |pieces| && Covers(origin, pieces[k], i);
      IsLaid(origin, pieces, k, i);
    }
  }

  lemma MatchedByte(origin: nat, piece: Piece, stream: seq<byte>, i: nat)
    requires Matches(origin, piece, stream) && Covers(origin, piece, i)
    ensures i < |stream| && stream[i] == ByteAt(origin, piece, i)
  {
    var o := Behind(origin, piece.sequence);
    assert stream[i] == stream[o..o + |piece.payload|][i - o];
  }

  /** The contiguous bytes of a layout that has them all. */
  ghost predicate LaysOut(values: map<nat, byte>, stream: seq<byte>) {
    && (forall i: nat :: i in values <==> i < |stream|)
    && forall i: nat | i < |stream| :: i in values && values[i] == stream[i]
  }

  lemma HeldPieces(origin: nat, pieces: seq<Piece>, stream: seq<byte>)
    requires !Conflicting(origin, pieces)
             && (forall k | 0 <= k < |pieces| :: InRange(origin, pieces[k]) && pieces[k].payload != [])
    requires LaysOut(Layout(origin, pieces), stream)
    ensures forall k | 0 <= k < |pieces| :: Matches(origin, pieces[k], stream)
    ensures forall i: nat | i < |stream| :: Covered(origin, pieces, i)
  {
    forall k | 0 <= k < |pieces|
      ensures Matches(origin, pieces[k], stream)
    {
      HeldPiece(origin, pieces, stream, k);
    }
    forall i: nat | i < |stream|
      ensures Covered(origin, pieces, i)
    {
      var k := LaidFrom(origin, pieces, i);
    }
  }

  lemma HeldPiece(origin: nat, pieces: seq<Piece>, stream: seq<byte>, k: nat)
    requires k < |pieces| && !Conflicting(origin, pieces) && InRange(origin, pieces[k]) && pieces[k].payload != []
    requires LaysOut(Layout(origin, pieces), stream)
    ensures Matches(origin, pieces[k], stream)
  {
    var o, n := Behind(origin, pieces[k].sequence), |pieces[k].payload|;
    forall j: nat | j < n
      ensures o + j < |stream| && stream[o + j] == pieces[k].payload[j]
    {
      IsLaid(origin, pieces, k, o + j);
    }
    IsLaid(origin, pieces, k, o + n - 1);
    assert o + n <= |stream|;
    assert stream[o..o + n] == pieces[k].payload;
  }

  lemma LayoutSize(values: map<nat, byte>, n: nat)
    requires forall i: nat | i < n :: i in values
    ensures |values| >= n
    ensures (forall i | i in values :: i < n) ==> |values| == n
  {
    var span := FirstNumbers(n);
    SubsetSize(span, values.Keys);
    if forall i | i in values :: i < n {
      assert values.Keys == span;
    }
  }

  function FirstNumbers(n: nat): (s: set<nat>)
    ensures |s| == n && forall i: nat :: i in s <==> i < n
  {
    if n == 0 then {} else FirstNumbers(n - 1) + {n - 1}
  }

  /** The largest acknowledged distance, or 0. */
  method Acknowledged(origin: nat, acknowledgements: seq<nat>) returns (most: nat)
    ensures forall k | 0 <= k < |acknowledgements| :: Behind(origin, acknowledgements[k]) <= most
    ensures most == 0 || exists k :: 0 <= k < |acknowledgements| && Behind(origin, acknowledgements[k]) == most
  {
    most := 0;
    for n := 0 to |acknowledgements|
      invariant forall k | 0 <= k < n :: Behind(origin, acknowledgements[k]) <= most
      invariant most == 0 || exists k :: 0 <= k < n && Behind(origin, acknowledgements[k]) == most
    {
      if most < Behind(origin, acknowledgements[n]) { most := Behind(origin, acknowledgements[n]); }
    }
  }

  /** Some concatenation of queries explains the flow. */
  ghost predicate Explained(flow: Flow) {
    exists stream, kinds :: Explains(flow, stream, kinds)
  }

  /** How a flow ended, against the `end` of its bytes. */
  predicate EndsWell(flow: Flow, end: nat)
    requires flow.isn.Some?
  {
    var origin := Origin(flow);
    && (if flow.fin.Some? then Behind(origin, flow.fin.value) == end else flow.reset)
    && (forall k | 0 <= k < |flow.acknowledgements| ::
          Behind(origin, flow.acknowledgements[k]) <= end + (if flow.fin.Some? then 1 else 0))
    && (end > 0 ==> exists k :: 0 <= k < |flow.acknowledgements| && Behind(origin, flow.acknowledgements[k]) >= end)
  }

  method CheckEnd(flow: Flow, end: nat) returns (problems: set<Problem>)
    requires flow.isn.Some?
    ensures problems == {} <==> EndsWell(flow, end)
  {
    var origin := Origin(flow);
    problems := {};
    if flow.fin.Some? {
      if Behind(origin, flow.fin.value) != end { problems := problems + {BytesMissingBeforeFin}; }
    } else if !flow.reset {
      problems := problems + {NoStreamEnd};
    }
    var acknowledged := Acknowledged(origin, flow.acknowledgements);
    var allowance := end + if flow.fin.Some? then 1 else 0;
    if acknowledged > allowance { problems := problems + {AcknowledgementBeyond}; }
    if end > 0 && acknowledged < end { problems := problems + {NotAcknowledged}; }
  }

  /** What the loops find about one flow. */
  datatype Finding = Finding(problems: set<Problem>, clientBytes: nat, unparsed: nat, scan: Scan)

  function Plus(a: Counts, b: Counts): Counts {
    Counts(a.system + b.system, a.channel + b.channel, a.writes + b.writes, a.others + b.others,
           a.unparsed + b.unparsed, a.clientBytes + b.clientBytes)
  }

  function CountsFound(f: Finding): Counts {
    Counts(f.scan.system, f.scan.channel, f.scan.writes, f.scan.others, f.unparsed, f.clientBytes)
  }

  /** Nothing but complete queries. */
  predicate Blank(found: set<Problem>, c: Counts) {
    found == {} && c.unparsed == 0 && c.writes == 0 && c.others == 0
  }

  predicate Clean(f: Finding) {
    Blank(f.problems, CountsFound(f))
  }

  lemma BlankSum(found: set<Problem>, c: Counts, f: Finding)
    ensures Blank(found + f.problems, Plus(c, CountsFound(f))) <==> Blank(found, c) && Clean(f)
  {
  }

  /** All bytes from the start of the stream up to the first that was not captured. */
  ghost predicate Longest(flow: Flow, stream: seq<byte>)
    requires flow.isn.Some?
  {
    Recovered(flow, stream) && |stream| !in Layout(Origin(flow), flow.pieces)
  }

  lemma FirstGap(values: map<nat, byte>, n: nat) returns (gap: nat)
    requires forall i: nat | i < n :: i in values
    ensures gap !in values && forall i: nat | i < gap :: i in values
    decreases |values| - n
  {
    gap := n;
    if n in values {
      LayoutSize(values, n + 1);
      gap := FirstGap(values, n + 1);
    }
  }

  lemma LongestExists(flow: Flow)
    requires flow.isn.Some?
    ensures exists stream :: Longest(flow, stream)
  {
    var values := Layout(Origin(flow), flow.pieces);
    var gap := FirstGap(values, 0);
    var stream := seq(gap, i requires 0 <= i < gap => values[i]);
    assert Longest(flow, stream);
  }

  lemma LongestIsUnique(flow: Flow, s: seq<byte>, t: seq<byte>)
    requires flow.isn.Some? && Longest(flow, s) && Longest(flow, t)
    ensures s == t
  {
  }

  /** What the client said, as far as it was captured without a gap. */
  ghost function StreamOf(flow: Flow): (stream: seq<byte>)
    requires flow.isn.Some?
    ensures Longest(flow, stream)
  {
    LongestExists(flow);
    var stream :| Longest(flow, stream);
    stream
  }

  /** The commands that the client gave; none are known of a flow without its start. */
  ghost function CommandsOf(flow: Flow): seq<Command> {
    if flow.isn.None? then [] else Commands(StreamOf(flow))
  }

  function LaidBytes(flow: Flow): nat {
    if flow.isn.None? then 0 else |Layout(Origin(flow), flow.pieces)|
  }

  lemma CommandsAreLaid(flow: Flow)
    ensures COMMAND * |CommandsOf(flow)| <= LaidBytes(flow)
  {
    if flow.isn.Some? {
      var stream := StreamOf(flow);
      var n := FirstUnknown(stream, 0);
      assert n > 0 ==> RecognisedAt(stream, n - 1);
      LayoutSize(Layout(Origin(flow), flow.pieces), |stream|);
    }
  }

  /** The share of one flow in the report. */
  ghost function CountsOf(flow: Flow): Counts {
    CommandsAreLaid(flow);
    var scan := Tally(CommandsOf(flow));
    Counts(scan.system, scan.channel, scan.writes, scan.others, LaidBytes(flow) - scan.cursor, LaidBytes(flow))
  }

  ghost function Totals(flows: seq<Flow>): Counts {
    if flows == [] then Counts(0, 0, 0, 0, 0, 0) else Plus(Totals(flows[..|flows| - 1]), CountsOf(flows[|flows| - 1]))
  }

  function Responses(flows: seq<Flow>): nat {
    if flows == [] then 0 else Responses(flows[..|flows| - 1]) + flows[|flows| - 1].responseBytes
  }

  ghost predicate Any<T(!new)>(s: seq<T>, holds: T -> bool) {
    exists k :: 0 <= k < |s| && holds(s[k])
  }

  lemma AnyGrows<T(!new)>(s: seq<T>, holds: T -> bool)
    requires s != []
    ensures Any(s, holds) <==> Any(s[..|s| - 1], holds) || holds(s[|s| - 1])
  {
    var init := s[..|s| - 1];
    assert forall k | 0 <= k < |init| :: init[k] == s[k];
    if Any(init, holds) {
      var k :| 0 <= k < |init| && holds(init[k]);
      assert holds(s[k]);
    }
    if Any(s, holds) {
      var k :| 0 <= k < |s| && holds(s[k]);
      assert k < |init| ==> holds(init[k]);
    }
  }

  /** Some flow gave the command. */
  ghost predicate Given(flows: seq<Flow>, wanted: Command) {
    Any(flows, flow => wanted in CommandsOf(flow))
  }

  /** Some response byte was captured. */
  ghost predicate Answered(flows: seq<Flow>) {
    Any(flows, (flow: Flow) => flow.responseBytes > 0)
  }

  lemma GivenGrows(flows: seq<Flow>, wanted: Command)
    requires flows != []
    ensures var n := |flows| - 1; Given(flows, wanted) <==> Given(flows[..n], wanted) || wanted in CommandsOf(flows[n])
  {
    AnyGrows(flows, flow => wanted in CommandsOf(flow));
  }

  lemma TotalsGrow(flows: seq<Flow>, n: nat)
    requires n < |flows|
    ensures Totals(flows[..n + 1]) == Plus(Totals(flows[..n]), CountsOf(flows[n]))
    ensures Responses(flows[..n + 1]) == Responses(flows[..n]) + flows[n].responseBytes
  {
    assert flows[..n + 1][..n] == flows[..n] && flows[..n + 1][n] == flows[n];
  }

  /** A total is positive exactly when some flow contributes to it. */
  lemma {:induction false} TotalsMeaning(flows: seq<Flow>)
    ensures Totals(flows).system > 0 <==> Given(flows, Queried(SystemQuery))
    ensures Totals(flows).channel > 0 <==> Given(flows, Queried(ChannelQuery))
    ensures Totals(flows).writes > 0 <==> Given(flows, Written)
    ensures Totals(flows).others > 0 <==> Given(flows, OtherCommand)
  {
    if flows != [] {
      var n := |flows| - 1;
      TotalsMeaning(flows[..n]);
      forall wanted
        ensures CountOf(CommandsOf(flows[n]), wanted) > 0 <==> wanted in CommandsOf(flows[n])
        ensures Given(flows, wanted) <==> Given(flows[..n], wanted) || wanted in CommandsOf(flows[n])
      {
        CountPositive(CommandsOf(flows[n]), wanted);
        GivenGrows(flows, wanted);
      }
    }
  }

  lemma {:induction false} ResponsesMeaning(flows: seq<Flow>)
    ensures Responses(flows) > 0 <==> Answered(flows)
  {
    if flows != [] {
      var n := |flows| - 1;
      ResponsesMeaning(flows[..n]);
      AnyGrows(flows, (flow: Flow) => flow.responseBytes > 0);
    }
  }

  /** An explained flow gave exactly its queries. */
  lemma ExplainedCommands(flow: Flow, stream: seq<byte>, kinds: seq<Query>)
    requires Explains(flow, stream, kinds)
    ensures CommandsOf(flow) == Asked(kinds)
  {
    ExplainedLayout(flow, stream, kinds);
    LongestIsUnique(flow, stream, StreamOf(flow));
    QueriesAreCommands(stream, kinds);
  }

  /** A command that the audit reports lies, as a whole, in what the client really sent. */
  lemma CommandsAreTrue(flow: Flow, truth: seq<byte>, places: seq<nat>, c: nat)
    requires flow.isn.Some? && SlicesOf(flow, truth, places) && c < |CommandsOf(flow)|
    ensures RecognisedAt(truth, c) && CommandAt(truth, c) == CommandsOf(flow)[c]
  {
    var stream := StreamOf(flow);
    RecoversPrefix(flow, stream, truth, places);
    assert RecognisedAt(stream, c);
    assert Block(truth, c) == Block(stream, c);
  }

  predicate FlowValid(flow: Flow) {
    forall k | 0 <= k < |flow.pieces| :: flow.pieces[k].payload != []
  }

  /** The bytes of one flow: laid out, measured and scanned. */
  method Judge(flow: Flow) returns (f: Finding)
    requires FlowValid(flow)
    ensures flow.problems <= f.problems
    ensures CountsFound(f) == CountsOf(flow)
    ensures Clean(f) <==> Explained(flow)
  {
    if flow.isn.None? {
      return Finding(flow.problems + {NoStreamStart}, 0, 0, Scan(0, 0, 0, 0, 0));
    }
    var origin := Origin(flow);
    var values, overrun, conflict := Assemble(origin, flow.pieces);
    var end := EndOf(values);
    var problems := CheckEnd(flow, end);
    var prefix := ContiguousPrefix(values, end);
    var stream := seq(prefix, i requires 0 <= i && i in values => values[i]);
    LongestIsUnique(flow, stream, StreamOf(flow));
    var scan := ScanCommands(stream);
    LayoutSize(values, prefix);
    f := Finding(flow.problems + problems
                 + (if overrun then {StreamRange} else {}) + (if conflict then {ConflictingRetransmission} else {})
                 + (if prefix != end then {SequenceGap} else {}),
                 |values|, |values| - scan.cursor, scan);
    if Clean(f) { CleanIsExplained(flow, values, stream, end); }
    if Explained(flow) {
      var s, ks :| Explains(flow, s, ks);
      ExplainedIsClean(flow, values, end, prefix, stream, scan, s, ks);
    }
  }

  /** Commands without a write or another command are queries. */
  lemma OnlyQueries(commands: seq<Command>) returns (kinds: seq<Query>)
    requires CountOf(commands, Written) == 0 && CountOf(commands, OtherCommand) == 0
    ensures commands == Asked(kinds)
  {
    CountPositive(commands, Written);
    CountPositive(commands, OtherCommand);
    assert forall i | 0 <= i < |commands| :: commands[i] in commands;
    kinds := seq(|commands|, i requires 0 <= i < |commands| => if commands[i].Queried? then commands[i].query
    else SystemQuery);
  }

  lemma CleanIsExplained(flow: Flow, values: map<nat, byte>, stream: seq<byte>, end: nat)
    requires FlowValid(flow) && flow.isn.Some? && values == Layout(Origin(flow), flow.pieces)
    requires Longest(flow, stream) && |stream| == end && (forall i | i in values :: i < end)
    requires var scan := Tally(Commands(stream)); scan.cursor == |values| && scan.writes == 0 && scan.others == 0
    requires EndsWell(flow, end) && flow.problems == {}
    requires !Conflicting(Origin(flow), flow.pieces) && forall k | 0 <= k < |flow.pieces| ::
               InRange(Origin(flow), flow.pieces[k])
    ensures Explained(flow)
  {
    LayoutSize(values, end);
    var kinds := OnlyQueries(Commands(stream));
    QueriesAreCommands(stream, kinds);
    HeldPieces(Origin(flow), flow.pieces, stream);
    assert Explains(flow, stream, kinds);
  }

  lemma ExplainedIsClean(flow: Flow, values: map<nat, byte>, end: nat, prefix: nat, stream: seq<byte>, scan: Scan,
                         s: seq<byte>, ks: seq<Query>)
    requires Explains(flow, s, ks) && values == Layout(Origin(flow), flow.pieces)
    requires Longest(flow, stream) && |stream| == prefix <= end && scan == Tally(Commands(stream))
    requires (forall i | i in values :: i < end) && (end > 0 ==> end - 1 in values)
    ensures prefix == end == |s| == |values| && EndsWell(flow, end) && !Conflicting(Origin(flow), flow.pieces)
    ensures scan.cursor == |values| && scan.writes == 0 && scan.others == 0
  {
    ExplainedLayout(flow, s, ks);
    LongestIsUnique(flow, stream, s);
    assert end == |s|;
    LayoutSize(values, end);
    QueriesAreCommands(stream, ks);
    CountPositive(Commands(stream), Written);
    CountPositive(Commands(stream), OtherCommand);
  }

  // ----- Parsing one packet -----

  /** The fields of a TCP segment to or from the target. */
  datatype Segment = Segment(outbound: bool, peer: Peer, sequence: nat, acknowledgement: nat, flags: nat,
                             payload: seq<byte>)

  datatype Parsed = Rejected(problem: Problem) | Accepted(segment: Segment)

  const FIN := 1
  const SYN := 2
  const RST := 4
  const ACK := 16

  predicate Flagged(flags: nat, bit: nat)
    requires bit > 0
  {
    flags / bit % 2 == 1
  }

  function SynLength(flags: nat): nat { if Flagged(flags, SYN) then 1 else 0 }

  function Parse(packet: seq<byte>, target: seq<byte>, port: nat): Parsed {
    if |packet| < 54 || packet[12..14] != [8, 0] then Rejected(UnsupportedOrShort)
    else
      var ip := packet[14..];
      var version: int := ip[0] / 16;
      var ihl: int := ip[0] % 16;
      var total := Half(ip, 2);
      if version != 4 || 4 * ihl < 20 || total < 4 * ihl + 20 || |ip| < total then Rejected(InvalidIpv4)
      else if ip[9] != 6 then Rejected(ScopeMismatch)
      else if Half(ip, 6) % 0x4000 != 0 then Rejected(Fragmentation)
      else ParseTcp(ip, ip[4 * ihl..total], target, port)
  }

  function ParseTcp(ip: seq<byte>, tcp: seq<byte>, target: seq<byte>, port: nat): Parsed
    requires 20 <= |ip| && 20 <= |tcp|
  {
    var source, destination := Half(tcp, 0), Half(tcp, 2);
    var words: int := tcp[12] / 16;
    var outbound := ip[16..20] == target && destination == port;
    var inbound := ip[12..16] == target && source == port;
    if 4 * words < 20 || |tcp| < 4 * words then Rejected(InvalidTcp)
    else if outbound == inbound then Rejected(ScopeMismatch)
    else Accepted(Segment(outbound, if outbound then (ip[12..16], source) else (ip[16..20], destination),
                          Word(tcp, 4), Word(tcp, 8), tcp[13], tcp[4 * words..]))
  }

  /** A connection attempt whose number differs from the one that its tuple already has. */
  predicate Reopens(flow: Flow, s: Segment) {
    s.outbound && Flagged(s.flags, SYN) && !Flagged(s.flags, ACK) && flow.isn.Some? && flow.isn.value != s.sequence
  }

  /** The piece that an outbound segment contributes. */
  function PieceOf(s: Segment): Piece {
    Piece((s.sequence + SynLength(s.flags)) % CYCLE, s.payload)
  }

  /** What one segment adds to its flow. */
  function Updated(flow: Flow, s: Segment): Flow {
    var reset := flow.reset || Flagged(s.flags, RST);
    if !s.outbound then
      flow.(acknowledgements := if Flagged(s.flags, ACK) then flow.acknowledgements + [s.acknowledgement]
      else flow.acknowledgements,
            responseBytes := flow.responseBytes + |s.payload|, reset := reset)
    else
      var opening := Flagged(s.flags, SYN);
      var end := (s.sequence + |s.payload| + SynLength(s.flags)) % CYCLE;
      var closing := Flagged(s.flags, FIN);
      Flow(if opening then Some(s.sequence) else flow.isn,
           if s.payload == [] then flow.pieces else flow.pieces + [PieceOf(s)],
           flow.acknowledgements,
           if closing then Some(end) else flow.fin,
           reset, flow.responseBytes,
           flow.problems
           + (if opening && Flagged(s.flags, ACK) then {UnexpectedSynAck} else {})
           + (if closing && flow.fin.Some? && flow.fin.value != end then {ConflictingFin} else {}))
  }

  datatype Capture = Capture(packet: seq<byte>, truncated: bool)

  /** Where the bytes and marks of an accepted segment are kept. */
  predicate FiledIn(flow: Flow, s: Segment) {
    && (s.outbound && s.payload != [] ==> PieceOf(s) in flow.pieces)
    && (!s.outbound && Flagged(s.flags, ACK) ==> s.acknowledgement in flow.acknowledgements)
  }

  ghost predicate Filed(flows: seq<Flow>, c: Capture, target: seq<byte>, port: nat) {
    && !c.truncated && Parse(c.packet, target, port).Accepted?
    && exists k :: 0 <= k < |flows| && FiledIn(flows[k], Parse(c.packet, target, port).segment)
  }

  lemma UpdatedKeeps(flow: Flow, s: Segment, other: Segment)
    ensures FiledIn(Updated(flow, s), s)
    ensures FiledIn(flow, other) ==> FiledIn(Updated(flow, s), other)
    ensures FlowValid(flow) ==> FlowValid(Updated(flow, s))
    ensures flow.problems <= Updated(flow, s).problems
  {
    var u := Updated(flow, s);
    assert s.outbound && s.payload != [] ==> u.pieces[|u.pieces| - 1] == PieceOf(s);
    assert !s.outbound && Flagged(s.flags, ACK) ==> u.acknowledgements[|u.acknowledgements| - 1] == s.acknowledgement;
  }

  /** The flow that a segment belongs to is a new one: its tuple is unknown or reopened. */
  predicate Opens(flows: seq<Flow>, current: map<Peer, nat>, s: Segment)
    requires forall peer | peer in current :: current[peer] < |flows|
  {
    s.peer !in current || Reopens(flows[current[s.peer]], s)
  }

  /** A reopened tuple whose old flow was never closed is a problem of the old flow. */
  function Superseded(flow: Flow): Flow {
    if flow.fin.None? && !flow.reset then flow.(problems := flow.problems + {TupleReused}) else flow
  }

  /** What the segments of one connection add up to, in the order they were captured. */
  function Gathered(segments: seq<Segment>): Flow {
    if segments == [] then NEW_FLOW else Updated(Gathered(segments[..|segments| - 1]), segments[|segments| - 1])
  }

  /** The flow holds these segments; only its problems may have grown since. */
  predicate Holds(flow: Flow, segments: seq<Segment>) {
    flow == Gathered(segments).(problems := flow.problems)
  }

  lemma HoldsMore(flow: Flow, segments: seq<Segment>, s: Segment)
    requires Holds(flow, segments)
    ensures Holds(Updated(flow, s), segments + [s])
  {
    assert (segments + [s])[..|segments|] == segments;
  }

  /** An outbound segment of a connection that opened with `isn` carries the slice of the client's true
      stream at its place: the number of the SYN itself is not counted, its payload starts at 0. */
  predicate Carries(isn: nat, s: Segment, truth: seq<byte>, place: nat) {
    s.outbound ==>
      && (Flagged(s.flags, SYN) ==> s.sequence == isn)
      && place + |s.payload| <= |truth| && truth[place..place + |s.payload|] == s.payload
      && (s.sequence + SynLength(s.flags)) % CYCLE == (isn + 1 + place) % CYCLE
  }

  ghost predicate AllCarry(isn: nat, segments: seq<Segment>, truth: seq<byte>, places: seq<nat>) {
    && |truth| < CYCLE && |places| == |segments|
    && forall k | 0 <= k < |segments| :: Carries(isn, segments[k], truth, places[k])
  }

  /** The places of the segments that add a piece. */
  function PiecePlaces(segments: seq<Segment>, places: seq<nat>): seq<nat>
    requires |places| == |segments|
  {
    if segments == [] then []
    else
      var n := |segments| - 1;
      var s := segments[n];
      PiecePlaces(segments[..n], places[..n]) + if s.outbound && s.payload != [] then [places[n]] else []
  }

  lemma CarriedPiece(isn: nat, flow: Flow, s: Segment, truth: seq<byte>, place: nat)
    requires Carries(isn, s, truth, place) && (flow.isn.None? || flow.isn.value == isn)
    ensures Updated(flow, s).isn.None? || Updated(flow, s).isn.value == isn
    ensures Updated(flow, s).pieces == flow.pieces + if s.outbound && s.payload != [] then [PieceOf(s)] else []
    ensures s.outbound && s.payload != [] ==> SliceAt((isn + 1) % CYCLE, PieceOf(s), truth, place)
  {
    assert ((isn + 1) % CYCLE + place) % CYCLE == (isn + 1 + place) % CYCLE;
  }

  ghost predicate AllSlices(origin: nat, pieces: seq<Piece>, truth: seq<byte>, places: seq<nat>) {
    |places| == |pieces| && forall k | 0 <= k < |pieces| :: SliceAt(origin, pieces[k], truth, places[k])
  }

  /** However the segments of a connection were reordered, repeated or mixed with answers: if they carry
      slices of one true stream, the pieces of their flow are slices of it. */
  lemma {:induction false} GatheredSlices(isn: nat, segments: seq<Segment>, truth: seq<byte>, places: seq<nat>)
    requires AllCarry(isn, segments, truth, places)
    ensures Gathered(segments).isn.None? || Gathered(segments).isn.value == isn
    ensures AllSlices((isn + 1) % CYCLE, Gathered(segments).pieces, truth, PiecePlaces(segments, places))
  {
    if segments != [] {
      var n := |segments| - 1;
      GatheredSlices(isn, segments[..n], truth, places[..n]);
      CarriedPiece(isn, Gathered(segments[..n]), segments[n], truth, places[n]);
    }
  }

  lemma HeldSlices(flow: Flow, isn: nat, segments: seq<Segment>, truth: seq<byte>, places: seq<nat>)
    requires Holds(flow, segments) && AllCarry(isn, segments, truth, places) && flow.isn.Some?
    ensures SlicesOf(flow, truth, PiecePlaces(segments, places))
  {
    GatheredSlices(isn, segments, truth, places);
  }

  /** The soundness of the audit: if a flow's segments carry slices of what its client sent, across
      sequence wrap, then there is no conflict, all bytes recovered are a prefix of the truth, and every
      command reported, a write above all, is a command of the truth. */
  lemma FlowIsSound(flow: Flow, isn: nat, segments: seq<Segment>, truth: seq<byte>, places: seq<nat>)
    requires Holds(flow, segments) && AllCarry(isn, segments, truth, places) && flow.isn.Some?
    ensures !Conflicting(Origin(flow), flow.pieces) && StreamOf(flow) <= truth
    ensures forall c: nat | c < |CommandsOf(flow)| ::
              RecognisedAt(truth, c) && CommandAt(truth, c) == CommandsOf(flow)[c]
  {
    HeldSlices(flow, isn, segments, truth, places);
    SlicesAgree(flow, truth, PiecePlaces(segments, places));
    RecoversPrefix(flow, StreamOf(flow), truth, PiecePlaces(segments, places));
    forall c: nat | c < |CommandsOf(flow)|
      ensures RecognisedAt(truth, c) && CommandAt(truth, c) == CommandsOf(flow)[c]
    {
      CommandsAreTrue(flow, truth, PiecePlaces(segments, places), c);
    }
  }

  /** The opening SYN fixes the origin: its own payload, if any, starts at distance 0. */
  lemma SynOpensStream(s: Segment)
    requires s.outbound && Flagged(s.flags, SYN) && s.sequence < CYCLE && |s.payload| < CYCLE
    ensures Gathered([s]).isn == Some(s.sequence) && AllCarry(s.sequence, [s], s.payload, [0])
    ensures StreamOf(Gathered([s])) <= s.payload
  {
    assert Gathered([s]) == Updated(NEW_FLOW, s) by { assert [s][..0] == []; }
    assert s.payload[0..|s.payload|] == s.payload;
    assert Holds(Gathered([s]), [s]);
    FlowIsSound(Gathered([s]), s.sequence, [s], s.payload, [0]);
  }

  /** The payload of a filed packet is a part of its flow's concatenation of queries. */
  lemma PayloadInsideQueries(flow: Flow, stream: seq<byte>, kinds: seq<Query>, s: Segment) returns (o: nat)
    requires Explains(flow, stream, kinds) && FiledIn(flow, s) && s.outbound && s.payload != []
    ensures o == Behind(Origin(flow), PieceOf(s).sequence)
    ensures o + |s.payload| <= |stream| && Queries(kinds)[o..o + |s.payload|] == s.payload
  {
    o := Behind(Origin(flow), PieceOf(s).sequence);
    var k :| 0 <= k < |flow.pieces| && flow.pieces[k] == PieceOf(s);
    assert Matches(Origin(flow), flow.pieces[k], stream);
  }

  /** Every packet was whole, parsed and filed. */
  ghost predicate AllFiled(flows: seq<Flow>, fed: seq<Capture>, target: seq<byte>, port: nat) {
    forall k | 0 <= k < |fed| :: Filed(flows, fed[k], target, port)
  }

  /** What was filed in a flow stays there. */
  ghost predicate Keeps(flows: seq<Flow>, flows': seq<Flow>) {
    |flows| <= |flows'| && forall s, k | 0 <= k < |flows| && FiledIn(flows[k], s) :: FiledIn(flows'[k], s)
  }

  lemma AllFiledGrows(flows: seq<Flow>, flows': seq<Flow>, fed: seq<Capture>, c: Capture, target: seq<byte>, port: nat)
    requires AllFiled(flows, fed, target, port) && Keeps(flows, flows') && Filed(flows', c, target, port)
    ensures AllFiled(flows', fed + [c], target, port)
  {
    forall n | 0 <= n < |fed|
      ensures Filed(flows', fed[n], target, port)
    {
      assert Filed(flows, fed[n], target, port);
      var k :| 0 <= k < |flows| && FiledIn(flows[k], Parse(fed[n].packet, target, port).segment);
      assert FiledIn(flows'[k], Parse(fed[n].packet, target, port).segment);
    }
  }

  /** Each flow holds exactly the segments filed in it. */
  ghost predicate AllHold(flows: seq<Flow>, filed: seq<seq<Segment>>) {
    |filed| == |flows| && forall k | 0 <= k < |flows| :: Holds(flows[k], filed[k])
  }

  ghost predicate WasFed(s: Segment, fed: seq<Capture>, target: seq<byte>, port: nat) {
    exists k :: 0 <= k < |fed| && Parse(fed[k].packet, target, port) == Accepted(s)
  }

  /** Every filed segment was parsed from a packet. */
  ghost predicate AllFed(filed: seq<seq<Segment>>, fed: seq<Capture>, target: seq<byte>, port: nat) {
    forall k, n | 0 <= k < |filed| && 0 <= n < |filed[k]| :: WasFed(filed[k][n], fed, target, port)
  }

  /** One more segment is filed in flow `k`, which may be a new one. */
  function Refiled(filed: seq<seq<Segment>>, k: nat, s: Segment): seq<seq<Segment>>
    requires k <= |filed|
  {
    if k == |filed| then filed + [[s]] else filed[k := filed[k] + [s]]
  }

  ghost predicate OneFiled(filed: seq<seq<Segment>>, filed': seq<seq<Segment>>, s: Segment) {
    exists k: nat :: k <= |filed| && filed' == Refiled(filed, k, s)
  }

  /** An accepted segment is filed once, unless a budget is exhausted; a rejected packet is not filed. */
  ghost predicate FiledFrom(filed: seq<seq<Segment>>, filed': seq<seq<Segment>>, parsed: Parsed, more: bool) {
    if parsed.Accepted? && more then OneFiled(filed, filed', parsed.segment) else filed' == filed
  }

  function Marked(truncated: bool): set<Problem> { if truncated then {Truncated} else {} }

  function Found(parsed: Parsed, more: bool): set<Problem> {
    if parsed.Rejected? then {parsed.problem} else if more then {} else {FlowBudgetExceeded}
  }

  lemma SupersededHolds(flow: Flow, segments: seq<Segment>)
    requires Holds(flow, segments)
    ensures Holds(Superseded(flow), segments)
  {
  }

  lemma StillHeld(flows: seq<Flow>, filed: seq<seq<Segment>>, flows': seq<Flow>)
    requires AllHold(flows, filed) && |flows'| == |flows|
    requires forall j | 0 <= j < |flows| :: flows'[j] == flows[j] || flows'[j] == Superseded(flows[j])
    ensures AllHold(flows', filed)
  {
    forall j | 0 <= j < |flows|
      ensures Holds(flows'[j], filed[j])
    {
      SupersededHolds(flows[j], filed[j]);
    }
  }

  lemma RefiledHolds(flows: seq<Flow>, filed: seq<seq<Segment>>, flows': seq<Flow>, k: nat, s: Segment)
    requires AllHold(flows, filed) && k < |flows'| == (if k == |flows| then |flows| + 1 else |flows|)
    requires flows'[k] == Updated(if k == |flows| then NEW_FLOW else flows[k], s)
    requires forall j | 0 <= j < |flows| && j != k :: flows'[j] == flows[j] || flows'[j] == Superseded(flows[j])
    ensures AllHold(flows', Refiled(filed, k, s))
  {
    forall j | 0 <= j < |flows'|
      ensures Holds(flows'[j], Refiled(filed, k, s)[j])
    {
      if j == k {
        HoldsMore(if k == |flows| then NEW_FLOW else flows[k], if k == |flows| then [] else filed[k], s);
        assert [] + [s] == [s];
      } else {
        SupersededHolds(flows[j], filed[j]);
      }
    }
  }

  lemma MoreFed(filed: seq<seq<Segment>>, fed: seq<Capture>, c: Capture, target: seq<byte>, port: nat)
    requires AllFed(filed, fed, target, port)
    ensures AllFed(filed, fed + [c], target, port)
  {
    forall k, n | 0 <= k < |filed| && 0 <= n < |filed[k]|
      ensures WasFed(filed[k][n], fed + [c], target, port)
    {
      assert WasFed(filed[k][n], fed, target, port);
      var m :| 0 <= m < |fed| && Parse(fed[m].packet, target, port) == Accepted(filed[k][n]);
      assert (fed + [c])[m] == fed[m];
    }
  }

  lemma RefiledFed(filed: seq<seq<Segment>>, fed: seq<Capture>, k: nat, s: Segment, target: seq<byte>, port: nat)
    requires AllFed(filed, fed, target, port) && WasFed(s, fed, target, port) && k <= |filed|
    ensures AllFed(Refiled(filed, k, s), fed, target, port)
  {
  }

  // ----- Connections -----

  /** The segment that asks for a new connection. */
  predicate Asks(s: Segment) {
    s.outbound && Flagged(s.flags, SYN) && !Flagged(s.flags, ACK)
  }

  /** A flow holds the segments of one peer only, and `current` names each peer's latest flow. */
  ghost predicate Tuples(filed: seq<seq<Segment>>, current: map<Peer, nat>) {
    && (forall k | 0 <= k < |filed| ::
          && filed[k] != [] && filed[k][0].peer in current && k <= current[filed[k][0].peer]
          && forall n | 0 <= n < |filed[k]| :: filed[k][n].peer == filed[k][0].peer)
    && forall peer | peer in current ::
         current[peer] < |filed| && filed[current[peer]] != [] && filed[current[peer]][0].peer == peer
  }

  /** Flow `k` is the next one of the peer of flow `j`. */
  ghost predicate Follows(filed: seq<seq<Segment>>, j: nat, k: nat)
    requires j < k < |filed| && forall i | 0 <= i < |filed| :: filed[i] != []
  {
    filed[j][0].peer == filed[k][0].peer && forall i | j < i < k :: filed[i][0].peer != filed[k][0].peer
  }

  /** A peer's next flow begins where it asks for a connection with another number than it had. */
  ghost predicate Reconnects(filed: seq<seq<Segment>>) {
    && (forall i | 0 <= i < |filed| :: filed[i] != [])
    && forall j: nat, k: nat | j < k < |filed| && Follows(filed, j, k) ::
         Asks(filed[k][0]) && Gathered(filed[j]).isn.Some? && Gathered(filed[j]).isn.value != filed[k][0].sequence
  }

  /** Unless the client itself claimed to accept a connection, a flow knows one number for all its requests. */
  ghost predicate OneStart(segments: seq<Segment>) {
    (forall n | 0 <= n < |segments| && segments[n].outbound && Flagged(segments[n].flags, SYN) :: Asks(segments[n])) ==>
      forall n | 0 <= n < |segments| && Asks(segments[n]) :: Gathered(segments).isn == Some(segments[n].sequence)
  }

  ghost predicate AllOneStart(filed: seq<seq<Segment>>) {
    forall k | 0 <= k < |filed| :: OneStart(filed[k])
  }

  /** A flow that was superseded although it was neither closed nor reset says so. */
  ghost predicate ReuseNoted(flows: seq<Flow>, filed: seq<seq<Segment>>, current: map<Peer, nat>)
    requires |flows| == |filed| && Tuples(filed, current)
  {
    forall k | 0 <= k < |flows| && k < current[filed[k][0].peer] ::
      flows[k].fin.Some? || flows[k].reset || TupleReused in flows[k].problems
  }

  /** One peer and one opening number in each flow, a new flow only for another number, and a note when it
      replaces one that was still open. */
  ghost predicate Connected(flows: seq<Flow>, filed: seq<seq<Segment>>, current: map<Peer, nat>) {
    && |filed| == |flows| && Tuples(filed, current) && Reconnects(filed) && AllOneStart(filed)
    && ReuseNoted(flows, filed, current)
  }

  lemma {:induction false} RequestIsKnown(segments: seq<Segment>, n: nat)
    requires n < |segments| && segments[n].outbound && Flagged(segments[n].flags, SYN)
    ensures Gathered(segments).isn.Some?
  {
    if n < |segments| - 1 { RequestIsKnown(segments[..|segments| - 1], n); }
  }

  lemma OneStartGrows(segments: seq<Segment>, s: Segment)
    requires OneStart(segments) && !Reopens(Gathered(segments), s)
    ensures OneStart(segments + [s])
  {
    var all := segments + [s];
    assert all[..|segments|] == segments;
    if forall n | 0 <= n < |all| && all[n].outbound && Flagged(all[n].flags, SYN) :: Asks(all[n]) {
      assert forall n | 0 <= n < |segments| :: all[n] == segments[n];
      assert all[|segments|] == s;
      forall n | 0 <= n < |all| && Asks(all[n])
        ensures Gathered(all).isn == Some(all[n].sequence)
      {
        if n < |segments| { RequestIsKnown(segments, n); }
      }
    }
  }

  lemma OneSegmentStarts(s: Segment)
    ensures OneStart([s]) && Gathered([s]) == Updated(NEW_FLOW, s)
  {
    assert [s][..0] == [];
  }

  lemma RefiledTuples(filed: seq<seq<Segment>>, current: map<Peer, nat>, current': map<Peer, nat>, k: nat, s: Segment)
    requires Tuples(filed, current) && k <= |filed|
    requires if k == |filed| then current' == current[s.peer := k]
             else current' == current && s.peer in current && current[s.peer] == k
    ensures Tuples(Refiled(filed, k, s), current')
  {
  }

  lemma RefiledReconnects(filed: seq<seq<Segment>>, current: map<Peer, nat>, k: nat, s: Segment)
    requires Tuples(filed, current) && Reconnects(filed) && k <= |filed|
    requires if k == |filed| then s.peer in current ==> Reopens(Gathered(filed[current[s.peer]]), s)
             else s.peer in current && current[s.peer] == k
    ensures Reconnects(Refiled(filed, k, s))
  {
    var after := Refiled(filed, k, s);
    forall j: nat, i: nat | j < i < |after| && Follows(after, j, i)
      ensures Asks(after[i][0]) && Gathered(after[j]).isn.Some? && Gathered(after[j]).isn.value != after[i][0].sequence
    {
      if k == |filed| && i == k {
        assert after[j] == filed[j];
        assert j <= current[s.peer];
        assert after[current[s.peer]][0].peer == s.peer;
      } else {
        assert i <= current[filed[i][0].peer];
        assert after[j] == filed[j] && after[i][0] == filed[i][0];
        assert Follows(filed, j, i) by {
          forall m | j < m < i ensures filed[m][0].peer != filed[i][0].peer { assert after[m][0] == filed[m][0]; }
        }
      }
    }
  }

  lemma RefiledOneStart(filed: seq<seq<Segment>>, k: nat, s: Segment)
    requires AllOneStart(filed) && k <= |filed| && (k < |filed| ==> !Reopens(Gathered(filed[k]), s))
    ensures AllOneStart(Refiled(filed, k, s))
  {
    OneSegmentStarts(s);
    if k < |filed| { OneStartGrows(filed[k], s); }
  }

  /** What became of the other flows when a segment was filed in flow `k`. */
  ghost predicate OthersMoved(flows: seq<Flow>, flows': seq<Flow>, current: map<Peer, nat>, k: nat, peer: Peer)
    requires |flows| <= |flows'|
  {
    forall j | 0 <= j < |flows| && j != k ::
      flows'[j] == if peer in current && j == current[peer] then Superseded(flows[j]) else flows[j]
  }

  lemma RefiledNotes(flows: seq<Flow>, filed: seq<seq<Segment>>, current: map<Peer, nat>, flows': seq<Flow>,
                     current': map<Peer, nat>, k: nat, s: Segment)
    requires |filed| == |flows| && Tuples(filed, current) && ReuseNoted(flows, filed, current)
             && k <= |flows| <= |flows'|
    requires |flows'| == (if k == |flows| then |flows| + 1 else |flows|)
             && OthersMoved(flows, flows', current, k, s.peer)
    requires if k == |flows| then current' == current[s.peer := k]
             else current' == current && s.peer in current && current[s.peer] == k
    requires Tuples(Refiled(filed, k, s), current')
    ensures ReuseNoted(flows', Refiled(filed, k, s), current')
  {
    var after: seq<seq<Segment>> := Refiled(filed, k, s);
    forall j: nat | j < |after| && j < current'[after[j][0].peer]
      ensures flows'[j].fin.Some? || flows'[j].reset || TupleReused in flows'[j].problems
    {
      assert j != k;
      assert after[j] == filed[j];
    }
  }

  lemma RefiledConnected(flows: seq<Flow>, filed: seq<seq<Segment>>, current: map<Peer, nat>, flows': seq<Flow>,
                         current': map<Peer, nat>, k: nat, s: Segment)
    requires AllHold(flows, filed) && Connected(flows, filed, current) && k <= |flows| <= |flows'|
    requires k == (if Opens(flows, current, s) then |flows| else current[s.peer])
    requires current' == if Opens(flows, current, s) then current[s.peer := k] else current
    requires |flows'| == (if k == |flows| then |flows| + 1 else |flows|)
             && OthersMoved(flows, flows', current, k, s.peer)
    requires flows'[k] == Updated(if k == |flows| then NEW_FLOW else flows[k], s)
    ensures Connected(flows', Refiled(filed, k, s), current')
  {
    RefiledTuples(filed, current, current', k, s);
    RefiledReconnects(filed, current, k, s);
    RefiledOneStart(filed, k, s);
    RefiledNotes(flows, filed, current, flows', current', k, s);
  }

  lemma UnfiledConnected(flows: seq<Flow>, filed: seq<seq<Segment>>, current: map<Peer, nat>, flows': seq<Flow>)
    requires Connected(flows, filed, current) && |flows'| == |flows|
    requires forall j | 0 <= j < |flows| :: flows'[j] == flows[j] || flows'[j] == Superseded(flows[j])
    ensures Connected(flows', filed, current)
  {
  }

  class Audit {
    const target: seq<byte>
    const port: nat
    var flows: seq<Flow>
    var current: map<Peer, nat>
    var problems: set<Problem>
    var packets: nat
    var bytes: nat
    ghost var fed: seq<Capture>
    /** The segments filed in each flow, in order. */
    ghost var filed: seq<seq<Segment>>

    constructor (target: seq<byte>, port: nat)
      ensures Valid() && flows == [] && problems == {} && fed == [] && this.target == target && this.port == port
    {
      this.target, this.port := target, port;
      flows, current, problems, packets, bytes, fed, filed := [], map[], {}, 0, 0, [], [];
    }

    /** Every packet fed is counted, and as long as nothing is a problem every one was whole, parsed
        and filed in a flow. */
    ghost predicate Valid()
      reads this
    {
      && packets == |fed| && AllHold(flows, filed) && AllFed(filed, fed, target, port)
      && Connected(flows, filed, current)
      && (forall k | 0 <= k < |flows| :: FlowValid(flows[k]))
      && (problems == {} ==> AllFiled(flows, fed, target, port))
    }

    /** `feed`. */
    method Feed(packet: seq<byte>, truncated: bool) returns (more: bool)
      requires Valid()
      modifies this
      ensures Valid() && fed == old(fed) + [Capture(packet, truncated)] && bytes == old(bytes) + |packet|
      ensures if packets > MAX_PACKETS || bytes > MAX_BYTES then
                !more && filed == old(filed) && problems == old(problems) + {BudgetExceeded}
              else
                && FiledFrom(old(filed), filed, Parse(packet, target, port), more)
                && problems == old(problems) + Marked(truncated) + Found(Parse(packet, target, port), more)
                && (!more ==> |filed| >= MAX_FLOWS)
    {
      ghost var c := Capture(packet, truncated);
      var within := Count(packet, c);
      if !within { return false; }
      problems := problems + Marked(truncated);
      more := Take(packet, old(fed), c);
    }

    /** The budgets. */
    method Count(packet: seq<byte>, ghost c: Capture) returns (within: bool)
      requires Valid()
      modifies this`packets, this`bytes, this`problems, this`fed
      ensures fed == old(fed) + [c] && packets == |fed| && bytes == old(bytes) + |packet|
      ensures AllFed(filed, fed, target, port)
      ensures within <==> packets <= MAX_PACKETS && bytes <= MAX_BYTES
      ensures problems == if within then old(problems) else old(problems) + {BudgetExceeded}
    {
      packets, bytes := packets + 1, bytes + |packet|;
      MoreFed(filed, fed, c, target, port);
      fed := fed + [c];
      within := packets <= MAX_PACKETS && bytes <= MAX_BYTES;
      if !within { problems := problems + {BudgetExceeded}; }
    }

    /** What `feed` does with a packet that is within the budgets. */
    method Take(packet: seq<byte>, ghost before: seq<Capture>, ghost c: Capture) returns (more: bool)
      requires Connected(flows, filed, current) && AllHold(flows, filed) && AllFed(filed, fed, target, port)
      requires forall k | 0 <= k < |flows| :: FlowValid(flows[k])
      requires fed == before + [c] && c.packet == packet && (c.truncated ==> problems != {}) && packets == |fed|
      requires problems == {} ==> AllFiled(flows, before, target, port)
      modifies this`flows, this`current, this`problems, this`filed
      ensures Valid() && problems == old(problems) + Found(Parse(packet, target, port), more)
      ensures FiledFrom(old(filed), filed, Parse(packet, target, port), more) && (!more ==> |filed| >= MAX_FLOWS)
    {
      var parsed := Parse(packet, target, port);
      if parsed.Rejected? {
        problems := problems + {parsed.problem};
        return true;
      }
      assert WasFed(parsed.segment, fed, target, port) by { assert fed[|before|] == c; }
      more := FileFed(parsed.segment);
      if problems == {} { AllFiledGrows(old(flows), flows, before, c, target, port); }
    }

    /** A segment that was fed, and the record of where it is filed. */
    method FileFed(s: Segment) returns (more: bool)
      requires Connected(flows, filed, current) && forall k | 0 <= k < |flows| :: FlowValid(flows[k])
      requires AllHold(flows, filed) && AllFed(filed, fed, target, port) && WasFed(s, fed, target, port)
      modifies this`flows, this`current, this`problems, this`filed
      ensures Connected(flows, filed, current) && forall k | 0 <= k < |flows| :: FlowValid(flows[k])
      ensures AllHold(flows, filed) && AllFed(filed, fed, target, port) && Keeps(old(flows), flows)
      ensures if more then OneFiled(old(filed), filed, s) else filed == old(filed) && |flows| >= MAX_FLOWS
      ensures problems == if more then old(problems) else old(problems) + {FlowBudgetExceeded}
      ensures more ==> exists k :: 0 <= k < |flows| && FiledIn(flows[k], s)
    {
      more := File(s);
      if !more {
        StillHeld(old(flows), filed, flows);
        UnfiledConnected(old(flows), filed, current, flows);
        return;
      }
      ghost var k := current[s.peer];
      RefiledHolds(old(flows), filed, flows, k, s);
      RefiledFed(filed, fed, k, s, target, port);
      RefiledConnected(old(flows), filed, old(current), flows, current, k, s);
      filed := Refiled(filed, k, s);
    }

    /** The flow of the segment's tuple, a new one when the tuple is unknown or reopened. */
    method File(s: Segment) returns (more: bool)
      requires forall peer | peer in current :: current[peer] < |flows|
      requires forall k | 0 <= k < |flows| :: FlowValid(flows[k])
      modifies this`flows, this`current, this`problems
      ensures forall peer | peer in current :: current[peer] < |flows|
      ensures forall k | 0 <= k < |flows| :: FlowValid(flows[k])
      ensures Keeps(old(flows), flows)
      ensures more ==> problems == old(problems) && exists k :: 0 <= k < |flows| && FiledIn(flows[k], s)
      ensures !more ==>
                && problems == old(problems) + {FlowBudgetExceeded} && |flows| == |old(flows)| >= MAX_FLOWS
                && current == old(current)
      ensures !more ==>
                forall k | 0 <= k < |flows| :: flows[k] == old(flows)[k] || flows[k] == Superseded(old(flows)[k])
      ensures more ==>
                && s.peer in current
                && (if old(Opens(flows, current, s)) then
                      && current == old(current)[s.peer := |old(flows)|] && |flows| == |old(flows)| + 1
                      && flows[|old(flows)|] == Updated(NEW_FLOW, s)
                    else
                      && current == old(current) && |flows| == |old(flows)|
                      && flows[current[s.peer]] == Updated(old(flows)[current[s.peer]], s))
                && OthersMoved(old(flows), flows, old(current), current[s.peer], s.peer)
    {
      var known := Get(current, s.peer);
      if known.Some? && Reopens(flows[known.value], s) {
        flows := flows[known.value := Superseded(flows[known.value])];
        known := None;
      }
      if known.None? {
        if |flows| >= MAX_FLOWS {
          problems := problems + {FlowBudgetExceeded};
          return false;
        }
        known := Some(|flows|);
        current := current[s.peer := |flows|];
        flows := flows + [NEW_FLOW];
      }
      var flow := flows[known.value];
      forall other
        ensures FiledIn(flow, other) ==> FiledIn(Updated(flow, s), other)
      {
        UpdatedKeeps(flow, s, other);
      }
      UpdatedKeeps(flow, s, s);
      flows := flows[known.value := Updated(flow, s)];
      assert FiledIn(flows[known.value], s);
      return true;
    }

    ghost predicate AllExplained(n: nat)
      requires n <= |flows|
      reads this
    {
      forall k | 0 <= k < n :: Explained(flows[k])
    }

    method CheckStatistics(kernelPackets: Option<nat>, kernelDrops: Option<nat>) returns (found: set<Problem>)
      ensures found == {} <==> kernelDrops == Some(0) && kernelPackets == Some(packets)
    {
      found := {};
      if kernelPackets.None? || kernelDrops.None? { return {StatisticsUnavailable}; }
      if kernelDrops.value > 0 { found := found + {KernelDrops}; }
      if kernelPackets.value != packets + kernelDrops.value { found := found + {StatisticsMismatch}; }
    }

    ghost predicate Examined(n: nat, found: set<Problem>, counts: Counts, responses: nat)
      requires n <= |flows|
      reads this
    {
      && counts == Totals(flows[..n]) && responses == Responses(flows[..n])
      && (Blank(found, counts) <==> AllExplained(n))
    }

    method ExamineNext(n: nat, found: set<Problem>, counts: Counts, responses: nat)
      returns (found': set<Problem>, counts': Counts, responses': nat)
      requires n < |flows| && FlowValid(flows[n]) && Examined(n, found, counts, responses)
      ensures Examined(n + 1, found', counts', responses')
    {
      TotalsGrow(flows, n);
      var finding := Judge(flows[n]);
      BlankSum(found, counts, finding);
      found', counts' := found + finding.problems, Plus(counts, CountsFound(finding));
      responses' := responses + flows[n].responseBytes;
      assert AllExplained(n + 1) <==> AllExplained(n) && Explained(flows[n]);
    }

    /** Every flow in turn. */
    method ExamineAll() returns (found: set<Problem>, counts: Counts, responses: nat)
      requires Valid()
      ensures counts == Totals(flows) && responses == Responses(flows)
      ensures Blank(found, counts) <==> AllExplained(|flows|)
    {
      found, counts, responses := {}, Counts(0, 0, 0, 0, 0, 0), 0;
      for n := 0 to |flows|
        invariant Examined(n, found, counts, responses)
      {
        found, counts, responses := ExamineNext(n, found, counts, responses);
      }
      assert flows[..|flows|] == flows;
    }

    /** `finish`: the counts are those of what the clients said. WRITE_OBSERVED exactly when some flow
        gave a write, OTHER_COMMAND_OBSERVED when none did but some gave another command, and
        QUERY_ONLY_OBSERVED exactly when no packet was a problem or missing from the statistics, every
        flow is explained by queries, and both queries and a response byte were captured. */
    method Finish(kernelPackets: Option<nat>, kernelDrops: Option<nat>) returns (report: Report)
      requires Valid()
      ensures report.counts == Totals(flows) && report.responses == Responses(flows)
      ensures report.status.WriteObserved? <==> Given(flows, Written)
      ensures report.status.OtherCommandObserved? <==> !Given(flows, Written) && Given(flows, OtherCommand)
      ensures report.status.QueryOnlyObserved? <==>
                && problems == {} && kernelDrops == Some(0) && kernelPackets == Some(packets)
                && AllExplained(|flows|)
                && Given(flows, Queried(SystemQuery)) && Given(flows, Queried(ChannelQuery)) && Answered(flows)
      ensures report.status.QueryOnlyObserved? ==> AllFiled(flows, fed, target, port)
      ensures report.status.QueryOnlyObserved? ==> report.problems == {}
    {
      var statistics := CheckStatistics(kernelPackets, kernelDrops);
      var found, counts, responses := ExamineAll();
      TotalsMeaning(flows);
      ResponsesMeaning(flows);
      found := found + problems + statistics;
      if counts.unparsed > 0 { found := found + {Unparsed}; }
      if counts.system == 0 || counts.channel == 0 || responses == 0 { found := found + {NoPositiveControl}; }
      var status := if counts.writes > 0 then WriteObserved
                    else if counts.others > 0 then OtherCommandObserved
                    else if found != {} then Inconclusive
                    else QueryOnlyObserved;
      report := Report(status, counts, found, responses);
    }
  }
}
