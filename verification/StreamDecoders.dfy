/**
  The two decoders of the lamp's byte stream: one resynchronizes behind noise, one refuses it.
  Both consume whole messages from the front of a buffer; what is incomplete waits for more bytes.
 */
module StreamDecoders {
  import opened Wrappers

  const CORE_SIZE := 20
  const START: byte := 0xF1
  const END: byte := 0xF3
  const EXTENDED_HEADER: seq<byte> := [0x01, 0xFE, 0x68]
  const EXTENDED_TRAILER: seq<byte> := [0x67, 0xFD, 0x02]
  const LARGEST_EXTENDED := 262
  const STRICT_LIMIT := 4096

  datatype Message = Primary(raw: seq<byte>) | Extended(raw: seq<byte>) | AckCandidate(raw: seq<byte>)

  /** What the front of a nonempty buffer is. */
  datatype Front = Incomplete | Whole(message: Message) | Noise | Malformed

  predicate IsAck(b: byte) { b == 0xF5 || b == 0xF6 }

  predicate HeaderSoFar(b: seq<byte>) {
    var n := Min(|b|, 3);
    b[..n] == EXTENDED_HEADER[..n]
  }

  /** The size that an extended frame announces. */
  function AnnouncedSize(b: seq<byte>): (n: int)
    requires 4 <= |b|
    ensures 7 <= n <= LARGEST_EXTENDED
  {
    var length: int := b[3];
    7 + length
  }

  function FrontOf(b: seq<byte>): Front
    requires b != []
  {
    if b[0] == START then
      if |b| < CORE_SIZE then Incomplete
      else if b[CORE_SIZE - 1] == END then Whole(Primary(b[..CORE_SIZE]))
      else Noise
    else if b[0] == 0x01 then
      if !HeaderSoFar(b) then Noise
      else if |b| < 4 || |b| < AnnouncedSize(b) then Incomplete
      else if b[AnnouncedSize(b) - 3..AnnouncedSize(b)] != EXTENDED_TRAILER then Malformed
      else Whole(Extended(b[..AnnouncedSize(b)]))
    else if IsAck(b[0]) then Whole(AckCandidate(b[..1]))
    else Noise
  }

  /** What is taken off the front: a whole message, or one byte of noise. */
  function Taken(f: Front): nat
    requires f.Whole? || f.Noise?
  {
    if f.Whole? then |f.message.raw| else 1
  }

  lemma FrontBounds(b: seq<byte>)
    requires b != []
    ensures FrontOf(b).Whole? ==> 0 < Taken(FrontOf(b)) <= |b| && FrontOf(b).message.raw == b[..Taken(FrontOf(b))]
    ensures FrontOf(b).Incomplete? ==> |b| < LARGEST_EXTENDED
  {
  }

  /** The result of consuming a buffer; a malformed extended frame empties it and raises. */
  datatype Drained = Drained(messages: seq<Message>, rest: seq<byte>, discarded: nat, ok: bool)

  function Drain(b: seq<byte>): Drained
    decreases |b|
  {
    if b == [] then Drained([], [], 0, true)
    else
      FrontBounds(b);
      match FrontOf(b)
      case Incomplete => Drained([], b, 0, true)
      case Malformed => Drained([], [], 0, false)
      case Whole(message) =>
        var after := Drain(b[|message.raw|..]);
        after.(messages := [message] + after.messages)
      case Noise =>
        var after := Drain(b[1..]);
        after.(discarded := after.discarded + 1)
  }

  function Prepend(messages: seq<Message>, discarded: nat, d: Drained): Drained {
    Drained(messages + d.messages, d.rest, discarded + d.discarded, d.ok)
  }

  /** A decision, once made, does not change when more bytes arrive. */
  lemma FrontIsStable(b: seq<byte>, more: seq<byte>)
    requires b != [] && !FrontOf(b).Incomplete?
    ensures FrontOf(b + more) == FrontOf(b)
  {
    var c := b + more;
    assert c[0] == b[0];
    if b[0] == START {
      assert c[..CORE_SIZE] == b[..CORE_SIZE];
    } else if b[0] == 0x01 {
      HeaderIsStable(b, more);
      if HeaderSoFar(b) {
        var n := AnnouncedSize(b);
        assert c[n - 3..n] == b[n - 3..n] && c[..n] == b[..n];
      }
    } else {
      assert c[..1] == b[..1];
    }
  }

  lemma HeaderIsStable(b: seq<byte>, more: seq<byte>)
    requires !HeaderSoFar(b) || |b| >= 3
    ensures HeaderSoFar(b + more) == HeaderSoFar(b)
  {
    var n := Min(|b|, 3);
    var c := b + more;
    assert c[..n] == b[..n];
    assert c[..Min(|c|, 3)][..n] == b[..n];
    assert EXTENDED_HEADER[..Min(|c|, 3)][..n] == EXTENDED_HEADER[..n];
  }

  function Lead(f: Front): seq<Message> { if f.Whole? then [f.message] else [] }

  function Skipped(f: Front): nat { if f.Whole? then 0 else 1 }

  /** One step of the loop. */
  lemma DrainStep(b: seq<byte>)
    requires b != [] && (FrontOf(b).Whole? || FrontOf(b).Noise?)
    ensures 0 < Taken(FrontOf(b)) <= |b|
    ensures Drain(b) == Prepend(Lead(FrontOf(b)), Skipped(FrontOf(b)), Drain(b[Taken(FrontOf(b))..]))
  {
    FrontBounds(b);
  }

  lemma PrependPrepend(m: seq<Message>, d: nat, n: seq<Message>, e: nat, x: Drained)
    ensures Prepend(m, d, Prepend(n, e, x)) == Prepend(m + n, d + e, x)
  {
    assert m + (n + x.messages) == (m + n) + x.messages;
  }

  /** Consuming `b` gave `d`; consuming it with more behind it gave `e`. */
  ghost predicate Splits(d: Drained, e: Drained, more: seq<byte>) {
    if d.ok then e == Prepend(d.messages, d.discarded, Drain(d.rest + more)) else !e.ok
  }

  lemma SplitsStep(m: seq<Message>, skipped: nat, d: Drained, e: Drained, more: seq<byte>)
    requires Splits(d, e, more)
    ensures Splits(Prepend(m, skipped, d), Prepend(m, skipped, e), more)
  {
    if d.ok {
      PrependPrepend(m, skipped, d.messages, d.discarded, Drain(d.rest + more));
    }
  }

  /** Consuming part of a stream first changes nothing. */
  lemma {:induction false} DrainSplits(b: seq<byte>, more: seq<byte>)
    ensures Splits(Drain(b), Drain(b + more), more)
    decreases |b|
  {
    if b == [] {
      assert b + more == more;
    } else if FrontOf(b).Malformed? {
      FrontIsStable(b, more);
    } else if !FrontOf(b).Incomplete? {
      StepAlike(b, more);
      DrainStep(b);
      DrainSplits(b[Taken(FrontOf(b))..], more);
      SplitsStep(Lead(FrontOf(b)), Skipped(FrontOf(b)), Drain(b[Taken(FrontOf(b))..]),
        Drain(b[Taken(FrontOf(b))..] + more), more);
    }
  }

  lemma StepAlike(b: seq<byte>, more: seq<byte>)
    requires b != [] && (FrontOf(b).Whole? || FrontOf(b).Noise?)
    ensures 0 < Taken(FrontOf(b)) <= |b|
    ensures Drain(b + more) == Prepend(Lead(FrontOf(b)), Skipped(FrontOf(b)), Drain(b[Taken(FrontOf(b))..] + more))
  {
    FrontBounds(b);
    FrontIsStable(b, more);
    DrainStep(b + more);
    var n := Taken(FrontOf(b));
    assert (b + more)[n..] == b[n..] + more;
  }

  lemma {:induction false} RestIsSettled(b: seq<byte>)
    requires Drain(b).ok
    ensures Settled(Drain(b).rest)
    decreases |b|
  {
    if b != [] {
      FrontBounds(b);
      if !FrontOf(b).Incomplete? {
        RestIsSettled(b[Taken(FrontOf(b))..]);
      }
    }
  }

  /** A buffer between two feeds: nothing in it can be decided yet. */
  predicate Settled(b: seq<byte>) {
    b == [] || FrontOf(b).Incomplete?
  }

  lemma SettledDrain(b: seq<byte>)
    requires Settled(b)
    ensures Drain(b) == Drained([], b, 0, true)
    ensures |b| < LARGEST_EXTENDED
  {
    if b != [] { FrontBounds(b); }
  }

  // ----- One feed and many -----

  function Fed(buffer: seq<byte>, data: seq<byte>, limit: nat): Drained {
    if |buffer| + |data| > limit then Drained([], [], 0, false) else Drain(buffer + data)
  }

  function FedAll(buffer: seq<byte>, chunks: seq<seq<byte>>, limit: nat): Drained
    decreases |chunks|
  {
    if chunks == [] then Drained([], buffer, 0, true)
    else
      var first := Fed(buffer, chunks[0], limit);
      if !first.ok then first else Prepend(first.messages, first.discarded, FedAll(first.rest, chunks[1..], limit))
  }

  function Flatten(chunks: seq<seq<byte>>): seq<byte> {
    if chunks == [] then [] else chunks[0] + Flatten(chunks[1..])
  }

  lemma {:induction false} DrainShrinks(b: seq<byte>)
    ensures |Drain(b).rest| <= |b|
    decreases |b|
  {
    if b != [] && !FrontOf(b).Incomplete? && !FrontOf(b).Malformed? {
      FrontBounds(b);
      DrainShrinks(b[Taken(FrontOf(b))..]);
    }
  }

  /** Chunking: when a whole byte string can be fed, any split of it gives the same messages, the
      same leftover and the same discard count. */
  lemma {:induction false} ChunkingIsInvisible(buffer: seq<byte>, chunks: seq<seq<byte>>, limit: nat)
    requires Settled(buffer) && Fed(buffer, Flatten(chunks), limit).ok
    ensures FedAll(buffer, chunks, limit) == Fed(buffer, Flatten(chunks), limit)
    decreases |chunks|
  {
    if chunks == [] {
      assert buffer + [] == buffer;
      SettledDrain(buffer);
    } else {
      var tail := Flatten(chunks[1..]);
      var front := buffer + chunks[0];
      assert buffer + Flatten(chunks) == front + tail;
      DrainSplits(front, tail);
      DrainShrinks(front);
      RestIsSettled(front);
      ChunkingIsInvisible(Drain(front).rest, chunks[1..], limit);
    }
  }

  /** After any successful feed at most 261 bytes wait, so reads of up to 1024 bytes never reach a
      limit of 1285 or more. */
  lemma LeftoverBound(buffer: seq<byte>, data: seq<byte>, limit: nat)
    requires Fed(buffer, data, limit).ok
    ensures |Fed(buffer, data, limit).rest| <= 261
    ensures forall next: seq<byte> | |next| <= 1024 && 1285 <= limit ::
              |Fed(buffer, data, limit).rest| + |next| <= limit
  {
    RestIsSettled(buffer + data);
    SettledDrain(Drain(buffer + data).rest);
  }

  /** The bound is reached. */
  lemma LeftoverBoundIsTight()
    ensures var b := EXTENDED_HEADER + [255] + seq(257, _ => 0); |b| == 261 && Drain(b) == Drained([], b, 0, true)
  {
  }

  /** However long the stream: chunks that leave room for the longest leftover never raise. */
  lemma {:induction false} StreamedIsWhole(buffer: seq<byte>, chunks: seq<seq<byte>>, limit: nat)
    requires Settled(buffer) && Drain(buffer + Flatten(chunks)).ok
    requires forall i | 0 <= i < |chunks| :: |chunks[i]| + 261 <= limit
    ensures FedAll(buffer, chunks, limit) == Drain(buffer + Flatten(chunks))
    decreases |chunks|
  {
    SettledDrain(buffer);
    if chunks == [] {
      assert buffer + [] == buffer;
    } else {
      var tail := Flatten(chunks[1..]);
      var front := buffer + chunks[0];
      assert buffer + Flatten(chunks) == front + tail;
      DrainSplits(front, tail);
      RestIsSettled(front);
      StreamedIsWhole(Drain(front).rest, chunks[1..], limit);
    }
  }

  // ----- Encoding -----

  datatype Item = Core(payload: seq<byte>) | Long(body: seq<byte>) | Ack(b: byte)

  predicate Encodable(item: Item) {
    match item
    case Core(payload) => |payload| <= CORE_SIZE - 2
    case Long(body) => |body| <= 255
    case Ack(b) => IsAck(b)
  }

  /** `frame_payload`. */
  function FramePayload(payload: seq<byte>): (frame: seq<byte>)
    requires |payload| <= CORE_SIZE - 2
    ensures |frame| == CORE_SIZE && frame[0] == START && frame[CORE_SIZE - 1] == END
            && frame[1..1 + |payload|] == payload
  {
    [START] + payload + seq(CORE_SIZE - 2 - |payload|, _ => 0) + [END]
  }

  function EncodeItem(item: Item): seq<byte>
    requires Encodable(item)
  {
    match item
    case Core(payload) => FramePayload(payload)
    case Long(body) => EXTENDED_HEADER + [|body|] + body + EXTENDED_TRAILER
    case Ack(b) => [b]
  }

  function MessageOf(item: Item): Message
    requires Encodable(item)
  {
    match item
    case Core(_) => Primary(EncodeItem(item))
    case Long(_) => Extended(EncodeItem(item))
    case Ack(_) => AckCandidate(EncodeItem(item))
  }

  function Encode(items: seq<Item>): seq<byte>
    requires forall i | 0 <= i < |items| :: Encodable(items[i])
  {
    if items == [] then [] else EncodeItem(items[0]) + Encode(items[1..])
  }

  function Messages(items: seq<Item>): seq<Message>
    requires forall i | 0 <= i < |items| :: Encodable(items[i])
  {
    if items == [] then [] else [MessageOf(items[0])] + Messages(items[1..])
  }

  lemma FrontOfItem(item: Item)
    requires Encodable(item)
    ensures EncodeItem(item) != [] && FrontOf(EncodeItem(item)) == Whole(MessageOf(item))
  {
    var b := EncodeItem(item);
    match item {
      case Core(_) => assert b[..CORE_SIZE] == b;
      case Long(body) =>
        assert b[..3] == EXTENDED_HEADER && AnnouncedSize(b) == |b| && b[|b| - 3..] == EXTENDED_TRAILER;
        assert b[|b| - 3..|b|] == b[|b| - 3..] && b[..|b|] == b;
      case Ack(_) => assert b[..1] == b;
    }
  }

  /** Any encoded sequence decodes to itself: markers inside payloads never surface. */
  lemma {:induction false} EncodedDecodes(items: seq<Item>)
    requires forall i | 0 <= i < |items| :: Encodable(items[i])
    ensures Drain(Encode(items)) == Drained(Messages(items), [], 0, true)
  {
    if items != [] {
      var b, tail := EncodeItem(items[0]), Encode(items[1..]);
      FrontOfItem(items[0]);
      FrontIsStable(b, tail);
      DrainStep(b + tail);
      assert (b + tail)[|b|..] == tail;
      EncodedDecodes(items[1..]);
    }
  }

  /** And so it does in any chunks that a 1024-byte read can deliver. */
  lemma ChunkedEncodedDecodes(items: seq<Item>, chunks: seq<seq<byte>>, limit: nat)
    requires forall i | 0 <= i < |items| :: Encodable(items[i])
    requires Flatten(chunks) == Encode(items) && 1285 <= limit && forall i | 0 <= i < |chunks| :: |chunks[i]| <= 1024
    ensures FedAll([], chunks, limit) == Drained(Messages(items), [], 0, true)
  {
    EncodedDecodes(items);
    assert [] + Flatten(chunks) == Encode(items);
    StreamedIsWhole([], chunks, limit);
  }

  // ----- Noise -----

  /** A byte that starts nothing. */
  predicate Neutral(b: byte) {
    b != 0xF1 && b != 0x01 && b != 0xF5 && b != 0xF6
  }

  /** Noise in front costs exactly its own bytes: what follows is decoded as if it stood alone. */
  lemma {:induction false} NoiseIsSkipped(noise: seq<byte>, b: seq<byte>)
    requires forall i | 0 <= i < |noise| :: Neutral(noise[i])
    ensures Drain(noise + b) == Prepend([], |noise|, Drain(b))
  {
    if noise == [] {
      assert noise + b == b;
    } else {
      NoiseIsSkipped(noise[1..], b);
      assert (noise + b)[1..] == noise[1..] + b;
      DrainStep(noise + b);
    }
  }

  /** A frame that lost its end is dropped byte by byte, and the decoder is back in step behind it. */
  lemma DamagedFrameIsSkipped(inside: seq<byte>, b: seq<byte>)
    requires |inside| == CORE_SIZE - 1 && (forall i | 0 <= i < |inside| :: Neutral(inside[i]))
    requires inside[CORE_SIZE - 2] != END
    ensures Drain([START] + inside + b) == Prepend([], CORE_SIZE, Drain(b))
  {
    var all := [START] + inside + b;
    assert all[0] == START && all[CORE_SIZE - 1] == inside[CORE_SIZE - 2];
    DrainStep(all);
    assert all[1..] == inside + b;
    NoiseIsSkipped(inside, b);
  }

  /** A byte that looks like an extended frame but does not go on like one is dropped alone. */
  lemma FalseHeaderIsSkipped(next: byte, b: seq<byte>)
    requires next != 0xFE
    ensures Drain([0x01, next] + b) == Prepend([], 1, Drain([next] + b))
  {
    var all := [0x01, next] + b;
    assert Min(|all|, 3) >= 2 && all[..Min(|all|, 3)][1] == next && EXTENDED_HEADER[..Min(|all|, 3)][1] == 0xFE;
    DrainStep(all);
    assert all[1..] == [next] + b;
  }

  /** An extended frame of the announced size without its trailer cannot be skipped: everything is dropped. */
  lemma DamagedTrailerRaises(body: seq<byte>, trailer: seq<byte>, b: seq<byte>)
    requires |body| <= 255 && |trailer| == 3 && trailer != [0x67, 0xFD, 0x02]
    ensures Drain([0x01, 0xFE, 0x68, |body|] + body + trailer + b) == Drained([], [], 0, false)
  {
    var all := [0x01, 0xFE, 0x68, |body|] + body + trailer + b;
    assert all[..3] == EXTENDED_HEADER;
    assert all[4 + |body|..7 + |body|] == trailer;
  }

  // ----- The strict decoder -----

  datatype StrictFront = Need | Frame(raw: seq<byte>) | Skip(size: nat) | Refuse

  function StrictFrontOf(b: seq<byte>): StrictFront
    requires b != []
  {
    if b[0] == 0xF1 then
      if |b| < 20 then Need else if b[19] != 0xF3 then Refuse else Frame(b[..20])
    else if b[0] == 1 then
      var prefix := Min(3, |b|);
      if b[..prefix] != EXTENDED_HEADER[..prefix] then Refuse
      else if |b| < 4 then Need
      else
        var size := AnnouncedSize(b);
        if |b| < size then Need
        else if b[size - 3..size] != EXTENDED_TRAILER then Refuse
        else Skip(size)
    else if b[0] == 0xF5 || b[0] == 0xF6 then Skip(1)
    else Refuse
  }

  datatype StrictDrained = StrictDrained(frames: seq<seq<byte>>, rest: seq<byte>, ok: bool)

  function StrictDrain(b: seq<byte>): StrictDrained
    decreases |b|
  {
    if b == [] then StrictDrained([], [], true)
    else match StrictFrontOf(b)
         case Need => StrictDrained([], b, true)
         case Refuse => StrictDrained([], b, false)
         case Frame(raw) => var after := StrictDrain(b[20..]); after.(frames := [raw] + after.frames)
         case Skip(size) => StrictDrain(b[size..])
  }

  function StrictFed(buffer: seq<byte>, data: seq<byte>): StrictDrained {
    if |buffer| + |data| > STRICT_LIMIT then StrictDrained([], buffer, false) else StrictDrain(buffer + data)
  }

  function StrictFedAll(buffer: seq<byte>, chunks: seq<seq<byte>>): StrictDrained
    decreases |chunks|
  {
    if chunks == [] then StrictDrained([], buffer, true)
    else
      var first := StrictFed(buffer, chunks[0]);
      if !first.ok then first
      else
        var after := StrictFedAll(first.rest, chunks[1..]);
        after.(frames := first.frames + after.frames)
  }

  function Primaries(messages: seq<Message>): seq<seq<byte>> {
    if messages == [] then []
    else (if messages[0].Primary? then [messages[0].raw] else []) + Primaries(messages[1..])
  }

  lemma {:induction false} PrimariesAppend(a: seq<Message>, b: seq<Message>)
    ensures Primaries(a + b) == Primaries(a) + Primaries(b)
  {
    if a == [] {
      assert a + b == b;
    } else {
      PrimariesAppend(a[1..], b);
      assert (a + b)[1..] == a[1..] + b;
    }
  }

  /** The strict decoder refuses exactly what the other one would drop or reject. */
  lemma FrontsAgree(b: seq<byte>)
    requires b != []
    ensures StrictFrontOf(b).Refuse? <==> FrontOf(b).Noise? || FrontOf(b).Malformed?
    ensures StrictFrontOf(b).Need? <==> FrontOf(b).Incomplete?
    ensures StrictFrontOf(b).Frame? ==>
              FrontOf(b) == Whole(Primary(StrictFrontOf(b).raw)) && |StrictFrontOf(b).raw| == 20
    ensures StrictFrontOf(b).Skip? ==>
              FrontOf(b).Whole? && !FrontOf(b).message.Primary? && Taken(FrontOf(b)) == StrictFrontOf(b).size
  {
    assert Min(3, |b|) == Min(|b|, 3);
  }

  /** One buffer: strict decoding succeeds exactly when the other decoder succeeds and drops
      nothing, and then both see the same primary frames and the same leftover. */
  lemma {:induction false} StrictRefines(b: seq<byte>)
    ensures StrictDrain(b).ok <==> Drain(b).ok && Drain(b).discarded == 0
    ensures StrictDrain(b).ok ==>
              StrictDrain(b).frames == Primaries(Drain(b).messages) && StrictDrain(b).rest == Drain(b).rest
    decreases |b|
  {
    if b != [] {
      FrontsAgree(b);
      if FrontOf(b).Whole? {
        DrainStep(b);
        var tail := b[Taken(FrontOf(b))..];
        StrictRefines(tail);
        PrimariesAppend([FrontOf(b).message], Drain(tail).messages);
      } else if FrontOf(b).Noise? {
        DrainStep(b);
      }
    }
  }

  /** Any chunk sequence on which the strict decoder never raises. */
  lemma {:induction false} StrictRefinesChunks(buffer: seq<byte>, chunks: seq<seq<byte>>, limit: nat)
    requires StrictFedAll(buffer, chunks).ok && STRICT_LIMIT <= limit
    ensures var strict, lenient := StrictFedAll(buffer, chunks), FedAll(buffer, chunks, limit);
            && lenient.ok && lenient.discarded == 0
            && Primaries(lenient.messages) == strict.frames && lenient.rest == strict.rest
    decreases |chunks|
  {
    if chunks != [] {
      StrictRefines(buffer + chunks[0]);
      var first := Drain(buffer + chunks[0]);
      StrictRefinesChunks(first.rest, chunks[1..], limit);
      PrimariesAppend(first.messages, FedAll(first.rest, chunks[1..], limit).messages);
    }
  }

  // ----- Channel frames -----

  /** `permute_channels`: `None` for anything but six percentages. */
  function Permute(values: seq<int>, swap: bool): Option<seq<byte>> {
    if |values| != 6 || exists i :: 0 <= i < 6 && !(0 <= values[i] <= 100) then None
    else
      var v: seq<byte> := seq(6, i requires 0 <= i < 6 => values[i]);
      Some(if swap then [v[0], v[1], v[3], v[2], v[4], v[5]] else v)
  }

  /** `channel_write_frame`. */
  function ChannelWrite(values: seq<int>, swap: bool): Option<seq<byte>> {
    match Permute(values, swap)
    case None => None
    case Some(wire) => Some(FramePayload([0xE2, 0xFA] + wire))
  }

  /** `parse_channels`. */
  function ParseChannels(frame: seq<byte>, swap: bool): Option<seq<byte>> {
    if |frame| != CORE_SIZE || frame[0] != START || frame[CORE_SIZE - 1] != END then None
    else if frame[1] != 0xE2 || (frame[2] != 0xFC && frame[2] != 0xFA) then None
    else Permute(frame[3..9], swap)
  }

  lemma PermuteTwice(values: seq<int>, swap: bool)
    requires Permute(values, swap).Some?
    ensures Permute(Permute(values, swap).value, swap) == Some(values)
  {
    var w := Permute(values, swap).value;
    assert forall i | 0 <= i < 6 :: 0 <= w[i] <= 100;
    assert Permute(w, swap).value == values;
  }

  /** What is written is what a readback of the same controller would parse, and it passes both
      decoders as exactly one primary frame, whatever surrounds it. */
  lemma ChannelFrameRoundTrip(values: seq<int>, swap: bool, tail: seq<byte>)
    requires ChannelWrite(values, swap).Some?
    ensures var frame := ChannelWrite(values, swap).value;
            && ParseChannels(frame, swap) == Some(values)
            && FrontOf(frame + tail) == Whole(Primary(frame))
            && StrictFrontOf(frame + tail) == Frame(frame)
  {
    var wire := Permute(values, swap).value;
    var payload := [0xE2, 0xFA] + wire;
    var frame := FramePayload(payload);
    assert frame[1..9] == payload && payload[2..] == wire;
    assert frame[3..9] == frame[1..9][2..8] == wire;
    assert frame[1] == payload[0] && frame[2] == payload[1];
    PermuteTwice(values, swap);
    FrontOfItem(Core(payload));
    FrontIsStable(frame, tail);
    FrontsAgree(frame + tail);
  }

  // ----- The decoders themselves -----

  class StreamDecoder {
    const maxBuffer: nat
    var discardedBytes: nat
    var buffer: seq<byte>

    constructor (maxBuffer: nat)
      requires LARGEST_EXTENDED <= maxBuffer
      ensures this.maxBuffer == maxBuffer && discardedBytes == 0 && buffer == []
    {
      this.maxBuffer, discardedBytes, buffer := maxBuffer, 0, [];
    }

    /** `feed`; `None` is its ProtocolError. */
    method Feed(data: seq<byte>) returns (messages: Option<seq<Message>>)
      modifies this
      ensures var d := Fed(old(buffer), data, maxBuffer);
              && messages == (if d.ok then Some(d.messages) else None)
              && buffer == d.rest && discardedBytes == old(discardedBytes) + d.discarded
    {
      if |buffer| + |data| > maxBuffer {
        buffer := [];
        return None;
      }
      buffer := buffer + data;
      ghost var whole := buffer;
      var collected: seq<Message> := [];
      while buffer != []
        invariant discardedBytes >= old(discardedBytes)
        invariant Drain(whole) == Prepend(collected, discardedBytes - old(discardedBytes), Drain(buffer))
        decreases |buffer|
      {
        ghost var before := Drain(buffer);
        ghost var (front, gone) := (FrontOf(buffer), discardedBytes - old(discardedBytes));
        FrontBounds(buffer);
        if buffer[0] == 0xF1 {
          if |buffer| < 20 { break; }
          if buffer[19] == 0xF3 {
            DrainStep(buffer);
            PrependPrepend(collected, gone, Lead(front), Skipped(front), Drain(buffer[20..]));
            collected := collected + [Primary(buffer[..20])];
            buffer := buffer[20..];
            continue;
          }
        } else if buffer[0] == 0x01 {
          var prefix := Min(|buffer|, 3);
          if buffer[..prefix] == EXTENDED_HEADER[..prefix] {
            if |buffer| < 4 { break; }
            var length := AnnouncedSize(buffer);
            if |buffer| < length { break; }
            if buffer[length - 3..length] != EXTENDED_TRAILER {
              buffer := [];
              return None;
            }
            DrainStep(buffer);
            PrependPrepend(collected, gone, Lead(front), Skipped(front), Drain(buffer[length..]));
            collected := collected + [Extended(buffer[..length])];
            buffer := buffer[length..];
            continue;
          }
        } else if buffer[0] == 0xF5 || buffer[0] == 0xF6 {
          DrainStep(buffer);
          PrependPrepend(collected, gone, Lead(front), Skipped(front), Drain(buffer[1..]));
          collected := collected + [AckCandidate(buffer[..1])];
          buffer := buffer[1..];
          continue;
        }
        DrainStep(buffer);
        PrependPrepend(collected, gone, [], 1, Drain(buffer[1..]));
        buffer := buffer[1..];
        discardedBytes := discardedBytes + 1;
      }
      SettledDrain(buffer);
      assert collected + [] == collected;
      return Some(collected);
    }
  }

  class StrictDecoder {
    var buffer: seq<byte>

    constructor ()
      ensures buffer == []
    {
      buffer := [];
    }

    /** `feed`; `None` is its UnsafeState. */
    method Feed(data: seq<byte>) returns (frames: Option<seq<seq<byte>>>)
      modifies this
      ensures var d := StrictFed(old(buffer), data);
              frames == (if d.ok then Some(d.frames) else None) && buffer == d.rest
    {
      if |buffer| + |data| > STRICT_LIMIT { return None; }
      buffer := buffer + data;
      ghost var whole := buffer;
      var messages: seq<seq<byte>> := [];
      while buffer != []
        invariant StrictDrain(whole) == var d := StrictDrain(buffer); d.(frames := messages + d.frames)
        decreases |buffer|
      {
        if buffer[0] == 0xF1 {
          if |buffer| < 20 { break; }
          if buffer[19] != 0xF3 { return None; }
          assert messages + ([buffer[..20]] + StrictDrain(buffer[20..]).frames) ==
            (messages + [buffer[..20]]) + StrictDrain(buffer[20..]).frames;
          messages := messages + [buffer[..20]];
          buffer := buffer[20..];
        } else if buffer[0] == 1 {
          var prefix := Min(3, |buffer|);
          if buffer[..prefix] != EXTENDED_HEADER[..prefix] { return None; }
          if |buffer| < 4 { break; }
          var size := AnnouncedSize(buffer);
          if |buffer| < size { break; }
          if buffer[size - 3..size] != EXTENDED_TRAILER { return None; }
          buffer := buffer[size..];
        } else if buffer[0] == 0xF5 || buffer[0] == 0xF6 {
          buffer := buffer[1..];
        } else {
          return None;
        }
      }
      assert messages + [] == messages;
      return Some(messages);
    }
  }
}
