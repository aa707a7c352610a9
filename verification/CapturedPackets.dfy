/**
  What the packets of a capture really carry. An Ethernet frame with an IPv4 header and a TCP header
  (section 3.1 of RFC 791 and of RFC 9293) is built here from its fields, independently of the audit's
  parser; the audit accepts exactly the packets so built, with these fields.
 */
module CapturedPackets {
  import opened CaptureFilter
  import opened PacketAudit
  import opened Wrappers

  /** Everything in a packet that the audit does not look at. `window` also covers the TCP checksum and
      the urgent pointer; `padding` is what the link adds behind the IPv4 packet. */
  datatype Envelope = Envelope(link: seq<byte>, service: byte, marking: seq<byte>, fragment: seq<byte>, life: byte,
                               ipSum: seq<byte>, ipOptions: seq<byte>, spare: nat, window: seq<byte>,
                               tcpOptions: seq<byte>, padding: seq<byte>)

  function TotalLength(e: Envelope, s: Segment): nat {
    40 + |e.ipOptions| + |e.tcpOptions| + |s.payload|
  }

  /** Zero to ten option words on both headers, no fragment, and a total length of sixteen bits. */
  predicate Fits(e: Envelope, s: Segment) {
    && |e.link| == 12 && |e.marking| == 2 && |e.ipSum| == 2 && e.spare < 16 && |e.window| == 6
    && |e.fragment| == 2 && e.fragment[0] % 64 == 0 && e.fragment[1] == 0
    && |e.ipOptions| % 4 == 0 && |e.ipOptions| <= 40 && |e.tcpOptions| % 4 == 0 && |e.tcpOptions| <= 40
    && TotalLength(e, s) < 65536
  }

  /** A segment between the target's port and some other endpoint, with fields of their width. */
  predicate ValidSegment(s: Segment, target: seq<byte>, port: nat) {
    && |target| == 4 && port < 65536 && |s.peer.0| == 4 && s.peer.1 < 65536 && s.peer != (target, port)
    && s.sequence < CYCLE && s.acknowledgement < CYCLE && s.flags < 256
  }

  function Pair(n: nat): (p: seq<byte>)
    requires n < 65536
    ensures |p| == 2
  {
    [n / 256, n % 256]
  }

  function Quad(n: nat): (p: seq<byte>)
    requires n < CYCLE
    ensures |p| == 4
  {
    Pair(n / 65536) + Pair(n % 65536)
  }

  function TcpHeader(e: Envelope, s: Segment, source: nat, destination: nat): (p: seq<byte>)
    requires Fits(e, s) && source < 65536 && destination < 65536
    requires s.sequence < CYCLE && s.acknowledgement < CYCLE && s.flags < 256
    ensures |p| == 20 + |e.tcpOptions|
  {
    Pair(source) + Pair(destination) + Quad(s.sequence) + Quad(s.acknowledgement)
    + [16 * (5 + |e.tcpOptions| / 4) + e.spare, s.flags] + e.window + e.tcpOptions
  }

  function IpHeader(e: Envelope, s: Segment, source: seq<byte>, destination: seq<byte>): (p: seq<byte>)
    requires Fits(e, s) && |source| == 4 && |destination| == 4
    ensures |p| == 20 + |e.ipOptions|
  {
    [64 + 5 + |e.ipOptions| / 4, e.service] + Pair(TotalLength(e, s)) + e.marking + e.fragment + [e.life, 6] + e.ipSum
    + source + destination + e.ipOptions
  }

  function Built(e: Envelope, s: Segment, target: seq<byte>, port: nat): seq<byte>
    requires Fits(e, s) && ValidSegment(s, target, port)
  {
    var addresses := if s.outbound then (s.peer.0, target) else (target, s.peer.0);
    var ports := if s.outbound then (s.peer.1, port) else (port, s.peer.1);
    e.link + [8, 0]
    + (IpHeader(e, s, addresses.0, addresses.1) + (TcpHeader(e, s, ports.0, ports.1) + s.payload) + e.padding)
  }

  lemma PairHalf(p: seq<byte>, i: nat, n: nat)
    requires i + 2 <= |p| && n < 65536
    ensures p[i..i + 2] == Pair(n) <==> Half(p, i) == n
  {
    assert p[i..i + 2] == [p[i], p[i + 1]];
  }

  lemma QuadWord(p: seq<byte>, i: nat, n: nat)
    requires i + 4 <= |p| && n < CYCLE
    ensures p[i..i + 4] == Quad(n) <==> Word(p, i) == n
  {
    PairHalf(p, i, n / 65536);
    PairHalf(p, i + 2, n % 65536);
    assert p[i..i + 4] == p[i..i + 2] + p[i + 2..i + 4];
    assert Quad(n)[..2] == Pair(n / 65536) && Quad(n)[2..] == Pair(n % 65536);
  }

  lemma FragmentBits(p: seq<byte>, i: nat)
    requires i + 2 <= |p|
    ensures Half(p, i) % 0x4000 == 0 <==> p[i] % 64 == 0 && p[i + 1] == 0
  {
    var high: int, low: int := p[i], p[i + 1];
    assert 256 * high + low == 0x4000 * (high / 64) + (256 * (high % 64) + low);
  }

  /** The fields of a TCP header stand where the audit looks for them, and nothing else fits there. */
  lemma TcpFields(tcp: seq<byte>, e: Envelope, s: Segment, source: nat, destination: nat)
    requires Fits(e, s) && source < 65536 && destination < 65536
    requires s.sequence < CYCLE && s.acknowledgement < CYCLE && s.flags < 256
    requires |tcp| >= 20 + |e.tcpOptions|
    ensures TcpHeader(e, s, source, destination) <= tcp <==>
              && Half(tcp, 0) == source && Half(tcp, 2) == destination
              && Word(tcp, 4) == s.sequence && Word(tcp, 8) == s.acknowledgement
              && tcp[12] == 16 * (5 + |e.tcpOptions| / 4) + e.spare && tcp[13] == s.flags
              && tcp[14..20] == e.window && tcp[20..20 + |e.tcpOptions|] == e.tcpOptions
  {
    PairHalf(tcp, 0, source);
    PairHalf(tcp, 2, destination);
    QuadWord(tcp, 4, s.sequence);
    QuadWord(tcp, 8, s.acknowledgement);
    var h := TcpHeader(e, s, source, destination);
    var front := tcp[..|h|];
    assert front == tcp[0..2] + tcp[2..4] + tcp[4..8] + tcp[8..12] + tcp[12..14] + tcp[14..20]
                    + tcp[20..20 + |e.tcpOptions|];
    assert tcp[12..14] == [tcp[12], tcp[13]];
    assert h[0..2] == Pair(source) && h[2..4] == Pair(destination) && h[4..8] == Quad(s.sequence);
    assert h[8..12] == Quad(s.acknowledgement) && h[14..20] == e.window && h[20..] == e.tcpOptions;
    assert h <= tcp <==> front == h;
  }

  lemma IpFields(ip: seq<byte>, e: Envelope, s: Segment, source: seq<byte>, destination: seq<byte>)
    requires Fits(e, s) && |source| == 4 && |destination| == 4 && |ip| >= 20 + |e.ipOptions|
    ensures IpHeader(e, s, source, destination) <= ip <==>
              && ip[0] == 64 + 5 + |e.ipOptions| / 4 && ip[1] == e.service && Half(ip, 2) == TotalLength(e, s)
              && ip[4..6] == e.marking && ip[6..8] == e.fragment && ip[8] == e.life && ip[9] == 6
              && ip[10..12] == e.ipSum && ip[12..16] == source && ip[16..20] == destination
              && ip[20..20 + |e.ipOptions|] == e.ipOptions
  {
    PairHalf(ip, 2, TotalLength(e, s));
    var h := IpHeader(e, s, source, destination);
    var front := ip[..|h|];
    assert front == ip[0..2] + ip[2..4] + ip[4..6] + ip[6..8] + ip[8..10] + ip[10..12] + ip[12..16] + ip[16..20]
                    + ip[20..20 + |e.ipOptions|];
    assert ip[0..2] == [ip[0], ip[1]] && ip[8..10] == [ip[8], ip[9]];
    assert h[0..2] == [64 + 5 + |e.ipOptions| / 4, e.service] && h[2..4] == Pair(TotalLength(e, s));
    assert h[4..6] == e.marking && h[6..8] == e.fragment && h[8..10] == [e.life, 6] && h[10..12] == e.ipSum;
    assert h[12..16] == source && h[16..20] == destination && h[20..] == e.ipOptions;
    assert h <= ip <==> front == h;
  }

  /** An IPv4 packet that the audit hands on to its TCP part. */
  predicate Routed(packet: seq<byte>) {
    && |packet| >= 54 && packet[12] == 8 && packet[13] == 0
    && var ip := packet[14..];
       && ip[0] / 16 == 4 && ip[0] % 16 >= 5 && 4 * (ip[0] % 16) + 20 <= Half(ip, 2) <= |ip|
       && ip[9] == 6 && ip[6] % 64 == 0 && ip[7] == 0
  }

  function IpLength(packet: seq<byte>): (n: nat)
    requires Routed(packet)
    ensures 20 <= n && n + 20 <= Half(packet[14..], 2)
  {
    4 * (packet[14] % 16)
  }

  lemma ParseRouted(packet: seq<byte>, target: seq<byte>, port: nat)
    ensures Parse(packet, target, port).Accepted? ==> Routed(packet)
    ensures Routed(packet) ==>
              var ip := packet[14..];
              Parse(packet, target, port) == ParseTcp(ip, ip[IpLength(packet)..Half(ip, 2)], target, port)
  {
    if |packet| >= 54 {
      assert packet[12..14] == [packet[12], packet[13]];
      FragmentBits(packet[14..], 6);
    }
  }

  lemma TcpRead(ip: seq<byte>, tcp: seq<byte>, e: Envelope, s: Segment, target: seq<byte>, port: nat)
    requires Fits(e, s) && ValidSegment(s, target, port) && |ip| >= 20 && |tcp| >= 20 + |e.tcpOptions|
    requires TcpHeader(e, s, if s.outbound then s.peer.1 else port, if s.outbound then port else s.peer.1) <= tcp
    requires tcp[20 + |e.tcpOptions|..] == s.payload
    requires if s.outbound then ip[12..16] == s.peer.0 && ip[16..20] == target
             else ip[12..16] == target && ip[16..20] == s.peer.0
    ensures ParseTcp(ip, tcp, target, port) == Accepted(s)
  {
    TcpFields(tcp, e, s, if s.outbound then s.peer.1 else port, if s.outbound then port else s.peer.1);
  }

  /** Whatever the options on both headers and the padding behind the packet, the audit sees the segment
      that was sent: its direction, peer, numbers, flags and payload. */
  lemma BuiltIsAccepted(e: Envelope, s: Segment, target: seq<byte>, port: nat)
    requires Fits(e, s) && ValidSegment(s, target, port)
    ensures Parse(Built(e, s, target, port), target, port) == Accepted(s)
  {
    var addresses := if s.outbound then (s.peer.0, target) else (target, s.peer.0);
    var ports := if s.outbound then (s.peer.1, port) else (port, s.peer.1);
    var h, t := IpHeader(e, s, addresses.0, addresses.1), TcpHeader(e, s, ports.0, ports.1);
    IpBuilt(e.link, h, t, s.payload, e.padding, e, s, addresses.0, addresses.1);
    var packet := Built(e, s, target, port);
    var ip, tcp := packet[14..], t + s.payload;
    ParseRouted(packet, target, port);
    assert t <= tcp && tcp[|t|..] == s.payload;
    TcpRead(ip, tcp, e, s, target, port);
  }

  lemma IpBuilt(link: seq<byte>, h: seq<byte>, t: seq<byte>, payload: seq<byte>, padding: seq<byte>, e: Envelope,
                s: Segment, source: seq<byte>, destination: seq<byte>)
    requires Fits(e, s) && |source| == 4 && |destination| == 4 && |link| == 12
    requires h == IpHeader(e, s, source, destination) && |t| == 20 + |e.tcpOptions| && payload == s.payload
    ensures var packet := link + [8, 0] + (h + (t + payload) + padding);
            && Routed(packet) && IpLength(packet) == |h| && Half(packet[14..], 2) == TotalLength(e, s)
            && packet[14..][12..16] == source && packet[14..][16..20] == destination
            && packet[14..][|h|..TotalLength(e, s)] == t + payload
  {
    var ip := h + (t + payload) + padding;
    var packet := link + [8, 0] + ip;
    assert packet[14..] == ip;
    assert h <= ip;
    IpFields(ip, e, s, source, destination);
    assert ip[6..8] == e.fragment;
    assert ip[6..8][0] == ip[6] && ip[6..8][1] == ip[7];
    assert ip[|h|..TotalLength(e, s)] == t + payload;
  }

  lemma TcpAccepted(ip: seq<byte>, tcp: seq<byte>, target: seq<byte>, port: nat)
    requires |ip| >= 20 && |tcp| >= 20 && |target| == 4 && port < 65536
    requires ParseTcp(ip, tcp, target, port).Accepted?
    ensures var s := ParseTcp(ip, tcp, target, port).segment;
            && ValidSegment(s, target, port) && 20 <= 4 * (tcp[12] / 16) <= |tcp|
            && s.sequence == Word(tcp, 4) && s.acknowledgement == Word(tcp, 8) && s.flags == tcp[13]
            && s.payload == tcp[4 * (tcp[12] / 16)..]
            && (if s.outbound then
                  ip[12..16] == s.peer.0 && ip[16..20] == target && Half(tcp, 0) == s.peer.1 && Half(tcp, 2) == port
                else
                  ip[12..16] == target && ip[16..20] == s.peer.0 && Half(tcp, 0) == port && Half(tcp, 2) == s.peer.1)
  {
  }

  /** Nothing else is accepted: every accepted packet was built from its segment. */
  lemma AcceptedIsBuilt(packet: seq<byte>, target: seq<byte>, port: nat) returns (e: Envelope)
    requires Parse(packet, target, port).Accepted? && |target| == 4 && port < 65536
    ensures var s := Parse(packet, target, port).segment;
            Fits(e, s) && ValidSegment(s, target, port) && packet == Built(e, s, target, port)
  {
    ParseRouted(packet, target, port);
    var ip := packet[14..];
    var tcp := ip[IpLength(packet)..Half(ip, 2)];
    TcpAccepted(ip, tcp, target, port);
    e := RoutedIsBuilt(packet, tcp, ParseTcp(ip, tcp, target, port).segment, target, port);
  }

  lemma RoutedIsBuilt(packet: seq<byte>, tcp: seq<byte>, s: Segment, target: seq<byte>, port: nat)
    returns (e: Envelope)
    requires Routed(packet) && tcp == packet[14..][IpLength(packet)..Half(packet[14..], 2)]
    requires ValidSegment(s, target, port) && 20 <= 4 * (tcp[12] / 16) <= |tcp|
    requires s.sequence == Word(tcp, 4) && s.acknowledgement == Word(tcp, 8) && s.flags == tcp[13]
    requires s.payload == tcp[4 * (tcp[12] / 16)..]
    requires if s.outbound then
               packet[14..][12..16] == s.peer.0 && packet[14..][16..20] == target
               && Half(tcp, 0) == s.peer.1 && Half(tcp, 2) == port
             else
               packet[14..][12..16] == target && packet[14..][16..20] == s.peer.0
               && Half(tcp, 0) == port && Half(tcp, 2) == s.peer.1
    ensures Fits(e, s) && packet == Built(e, s, target, port)
  {
    var ip := packet[14..];
    e := EnvelopeOf(packet, tcp, s);
    TcpTaken(tcp, e, s, Half(tcp, 0), Half(tcp, 2), 4 * (tcp[12] / 16));
    IpTaken(ip, e, s, ip[12..16], ip[16..20], IpLength(packet), Half(ip, 2));
    assert packet == packet[..12] + [8, 0] + ip;
  }

  function EnvelopeOf(packet: seq<byte>, tcp: seq<byte>, s: Segment): (e: Envelope)
    requires Routed(packet) && tcp == packet[14..][IpLength(packet)..Half(packet[14..], 2)]
    requires 20 <= 4 * (tcp[12] / 16) <= |tcp| && s.payload == tcp[4 * (tcp[12] / 16)..]
    ensures Fits(e, s)
  {
    var ip := packet[14..];
    Envelope(packet[..12], ip[1], ip[4..6], ip[6..8], ip[8], ip[10..12], ip[20..IpLength(packet)], tcp[12] % 16,
             tcp[14..20], tcp[20..4 * (tcp[12] / 16)], ip[Half(ip, 2)..])
  }

  lemma TcpTaken(tcp: seq<byte>, e: Envelope, s: Segment, source: nat, destination: nat, t: nat)
    requires Fits(e, s) && 20 <= t <= |tcp| && t == 4 * (tcp[12] / 16)
    requires source == Half(tcp, 0) && destination == Half(tcp, 2) && s.flags == tcp[13]
    requires s.sequence == Word(tcp, 4) && s.acknowledgement == Word(tcp, 8) && s.payload == tcp[t..]
    requires e.spare == tcp[12] % 16 && e.window == tcp[14..20] && e.tcpOptions == tcp[20..t]
    ensures tcp == TcpHeader(e, s, source, destination) + s.payload
  {
    TcpFields(tcp, e, s, source, destination);
    assert tcp == tcp[..t] + tcp[t..];
  }

  lemma IpTaken(ip: seq<byte>, e: Envelope, s: Segment, source: seq<byte>, destination: seq<byte>, h: nat, total: nat)
    requires Fits(e, s) && 20 <= h <= total <= |ip| && total == Half(ip, 2) == TotalLength(e, s)
    requires ip[0] / 16 == 4 && h == 4 * (ip[0] % 16) && ip[9] == 6
    requires source == ip[12..16] && destination == ip[16..20] && e.service == ip[1] && e.marking == ip[4..6]
    requires e.fragment == ip[6..8] && e.life == ip[8] && e.ipSum == ip[10..12] && e.ipOptions == ip[20..h]
    requires e.padding == ip[total..]
    ensures ip == IpHeader(e, s, source, destination) + ip[h..total] + e.padding
  {
    IpFields(ip, e, s, source, destination);
    assert ip == ip[..h] + ip[h..total] + ip[total..];
  }

  /** The audit's parser reads exactly the packets that the headers' formats allow. */
  lemma AcceptsExactly(packet: seq<byte>, s: Segment, target: seq<byte>, port: nat)
    requires |target| == 4 && port < 65536
    ensures Parse(packet, target, port) == Accepted(s) <==>
              exists e :: Fits(e, s) && ValidSegment(s, target, port) && packet == Built(e, s, target, port)
  {
    if Parse(packet, target, port) == Accepted(s) {
      var e := AcceptedIsBuilt(packet, target, port);
    }
    if e :| Fits(e, s) && ValidSegment(s, target, port) && packet == Built(e, s, target, port) {
      BuiltIsAccepted(e, s, target, port);
    }
  }

  // ----- What a flow keeps of its packets -----

  /** The control bits of a TCP header, section 3.1 of RFC 9293. */
  lemma ControlBits(fin: nat, syn: nat, rst: nat, psh: nat, ack: nat, rest: nat)
    requires fin < 2 && syn < 2 && rst < 2 && psh < 2 && ack < 2
    ensures var flags := fin + 2 * syn + 4 * rst + 8 * psh + 16 * ack + 32 * rest;
            && (Flagged(flags, FIN) <==> fin == 1) && (Flagged(flags, SYN) <==> syn == 1)
            && (Flagged(flags, RST) <==> rst == 1) && (Flagged(flags, ACK) <==> ack == 1)
  {
    var flags := fin + 2 * syn + 4 * rst + 8 * psh + 16 * ack + 32 * rest;
    assert flags / 2 == syn + 2 * rst + 4 * psh + 8 * ack + 16 * rest;
    assert flags / 4 == rst + 2 * psh + 4 * ack + 8 * rest;
    assert flags / 16 == ack + 2 * rest;
  }

  predicate Outbound(segments: seq<Segment>, k: int, flag: nat)
    requires flag > 0
  {
    0 <= k < |segments| && segments[k].outbound && Flagged(segments[k].flags, flag)
  }

  /** The number behind everything that an outbound segment takes up. */
  function EndNumber(s: Segment): nat {
    (s.sequence + |s.payload| + if Flagged(s.flags, SYN) then 1 else 0) % CYCLE
  }

  /** `k` is the last segment of the client that carries the flag. */
  ghost predicate LastWith(segments: seq<Segment>, k: int, flag: nat)
    requires flag > 0
  {
    Outbound(segments, k, flag) && forall n | k < n < |segments| :: !Outbound(segments, n, flag)
  }

  /** A flow starts with the number of the client's last SYN and ends with that of its last FIN. */
  lemma {:induction false} GatheredEnds(segments: seq<Segment>)
    ensures Gathered(segments).isn.None? ==> forall k :: !Outbound(segments, k, SYN)
    ensures Gathered(segments).isn.Some? ==>
              exists k :: LastWith(segments, k, SYN) && Gathered(segments).isn.value == segments[k].sequence
    ensures Gathered(segments).fin.None? ==> forall k :: !Outbound(segments, k, FIN)
    ensures Gathered(segments).fin.Some? ==>
              exists k :: LastWith(segments, k, FIN) && Gathered(segments).fin.value == EndNumber(segments[k])
  {
    if segments != [] {
      var n := |segments| - 1;
      var init := segments[..n];
      GatheredEnds(init);
      assert forall k | 0 <= k < n :: segments[k] == init[k];
      forall flag: nat, k | flag > 0 && k < n
        ensures Outbound(segments, k, flag) == Outbound(init, k, flag)
      {
      }
      forall flag: nat, k | flag > 0 && LastWith(init, k, flag) && !Outbound(segments, n, flag)
        ensures LastWith(segments, k, flag)
      {
      }
      assert forall flag: nat | flag > 0 && Outbound(segments, n, flag) :: LastWith(segments, n, flag);
    }
  }

  predicate Carrier(segments: seq<Segment>, k: int, piece: Piece) {
    && 0 <= k < |segments| && segments[k].outbound && segments[k].payload != [] && piece.payload == segments[k].payload
    && piece.sequence == (segments[k].sequence + if Flagged(segments[k].flags, SYN) then 1 else 0) % CYCLE
  }

  predicate Acknowledges(segments: seq<Segment>, k: int, number: nat) {
    0 <= k < |segments| && !segments[k].outbound && Flagged(segments[k].flags, ACK)
    && segments[k].acknowledgement == number
  }

  ghost predicate TwoEnds(segments: seq<Segment>) {
    exists j, k :: Outbound(segments, j, FIN) && Outbound(segments, k, FIN)
                   && EndNumber(segments[j]) != EndNumber(segments[k])
  }

  ghost predicate ClientAccepts(segments: seq<Segment>) {
    exists k :: Outbound(segments, k, SYN) && Flagged(segments[k].flags, ACK)
  }

  /** Some FIN of `segments` closes elsewhere than `s` does. */
  ghost predicate ClosesElsewhere(segments: seq<Segment>, s: Segment) {
    exists k :: Outbound(segments, k, FIN) && EndNumber(segments[k]) != EndNumber(s)
  }

  /** A flow is marked exactly when the client itself accepted a connection. */
  lemma {:induction false} AcceptMark(segments: seq<Segment>)
    ensures UnexpectedSynAck in Gathered(segments).problems <==> ClientAccepts(segments)
  {
    if segments != [] {
      var n := |segments| - 1;
      var init := segments[..n];
      AcceptMark(init);
      if k :| Outbound(init, k, SYN) && Flagged(init[k].flags, ACK) {
        assert Outbound(segments, k, SYN) && Flagged(segments[k].flags, ACK);
      }
      if k :| Outbound(segments, k, SYN) && Flagged(segments[k].flags, ACK) {
        assert k < n ==> Outbound(init, k, SYN) && Flagged(init[k].flags, ACK);
      }
    }
  }

  /** A flow is marked exactly when its client closed it at two different ends. */
  lemma {:induction false} EndMark(segments: seq<Segment>)
    ensures ConflictingFin in Gathered(segments).problems <==> TwoEnds(segments)
  {
    if segments != [] {
      var n := |segments| - 1;
      var init := segments[..n];
      EndMark(init);
      GatheredEnds(init);
      EndsGrow(segments);
      if !TwoEnds(init) && ClosesElsewhere(init, segments[n]) {
        var k :| Outbound(init, k, FIN) && EndNumber(init[k]) != EndNumber(segments[n]);
        var l :| LastWith(init, l, FIN) && Gathered(init).fin.value == EndNumber(init[l]);
        assert EndNumber(init[k]) == EndNumber(init[l]);
      }
    }
  }

  lemma EndsGrow(segments: seq<Segment>)
    requires segments != []
    ensures var n := |segments| - 1;
            TwoEnds(segments) <==>
              (TwoEnds(segments[..n]) || (Outbound(segments, n, FIN) && ClosesElsewhere(segments[..n], segments[n])))
  {
    var n := |segments| - 1;
    var init := segments[..n];
    if j, k :| Outbound(init, j, FIN) && Outbound(init, k, FIN) && EndNumber(init[j]) != EndNumber(init[k]) {
      assert Outbound(segments, j, FIN) && Outbound(segments, k, FIN);
    }
    if Outbound(segments, n, FIN) && ClosesElsewhere(init, segments[n]) {
      var k :| Outbound(init, k, FIN) && EndNumber(init[k]) != EndNumber(segments[n]);
      assert Outbound(segments, k, FIN);
    }
    if j, k :| Outbound(segments, j, FIN) && Outbound(segments, k, FIN)
               && EndNumber(segments[j]) != EndNumber(segments[k]) {
      assert (j < n ==> Outbound(init, j, FIN)) && (k < n ==> Outbound(init, k, FIN));
    }
  }

  lemma CarrierGrows(segments: seq<Segment>, piece: Piece)
    requires segments != []
    ensures var n := |segments| - 1;
            (exists k :: Carrier(segments, k, piece)) <==>
              (exists k :: Carrier(segments[..n], k, piece)) || Carrier(segments, n, piece)
  {
    var init := segments[..|segments| - 1];
    if k :| Carrier(segments, k, piece) && k < |init| { assert Carrier(init, k, piece); }
    if k :| Carrier(init, k, piece) { assert Carrier(segments, k, piece); }
  }

  /** The pieces are the client's payloads at their numbers. */
  lemma {:induction false} PiecesMeaning(segments: seq<Segment>, piece: Piece)
    ensures piece in Gathered(segments).pieces <==> exists k :: Carrier(segments, k, piece)
  {
    if segments != [] {
      var n := |segments| - 1;
      var s := segments[n];
      PiecesMeaning(segments[..n], piece);
      CarrierGrows(segments, piece);
      assert piece in Gathered(segments).pieces <==>
             piece in Gathered(segments[..n]).pieces || (s.outbound && s.payload != [] && piece == PieceOf(s));
    }
  }

  lemma AcknowledgesGrows(segments: seq<Segment>, a: nat)
    requires segments != []
    ensures var n := |segments| - 1;
            (exists k :: Acknowledges(segments, k, a)) <==>
              (exists k :: Acknowledges(segments[..n], k, a)) || Acknowledges(segments, n, a)
  {
    var init := segments[..|segments| - 1];
    if k :| Acknowledges(segments, k, a) && k < |init| { assert Acknowledges(init, k, a); }
    if k :| Acknowledges(init, k, a) { assert Acknowledges(segments, k, a); }
  }

  /** The acknowledgements are those of the lamp, and a flow counts as reset when either side reset it. */
  lemma {:induction false} SignalsMeaning(segments: seq<Segment>, a: nat)
    ensures a in Gathered(segments).acknowledgements <==> exists k :: Acknowledges(segments, k, a)
    ensures Gathered(segments).reset <==> exists k :: 0 <= k < |segments| && Flagged(segments[k].flags, RST)
  {
    if segments != [] {
      var n := |segments| - 1;
      SignalsMeaning(segments[..n], a);
      AcknowledgesGrows(segments, a);
      assert forall k | 0 <= k < n :: segments[k] == segments[..n][k];
    }
  }

  /** What the lamp answered, in the order it was captured. */
  function Responded(segments: seq<Segment>): seq<byte> {
    if segments == [] then []
    else Responded(segments[..|segments| - 1])
         + if segments[|segments| - 1].outbound then [] else segments[|segments| - 1].payload
  }

  lemma {:induction false} ResponsesCounted(segments: seq<Segment>)
    ensures Gathered(segments).responseBytes == |Responded(segments)|
  {
    if segments != [] { ResponsesCounted(segments[..|segments| - 1]); }
  }

  ghost predicate HasPlace(isn: nat, s: Segment, truth: seq<byte>) {
    exists place: nat :: Carries(isn, s, truth, place)
  }

  /** The packets of a connection carry the client's true stream: whoever sends a payload at some number
      sends the bytes that the stream has there. */
  ghost predicate TruePackets(fed: seq<Capture>, segments: seq<Segment>, isn: nat, truth: seq<byte>, target: seq<byte>,
                              port: nat) {
    |truth| < CYCLE
    && forall c, e, s | c in fed && s in segments && Fits(e, s) && ValidSegment(s, target, port)
         && c.packet == Built(e, s, target, port) :: HasPlace(isn, s, truth)
  }

  /** The whole way from packets to verdict: if the packets that were filed in a flow were built from slices of
      one client's stream, in any order and with any headers, then the flow has no conflict, what it recovers
      is a prefix of that stream, and every command it reports is a command of the stream. */
  lemma PacketsToCommands(flow: Flow, segments: seq<Segment>, fed: seq<Capture>, isn: nat, truth: seq<byte>,
                          target: seq<byte>, port: nat)
    requires |target| == 4 && port < 65536 && flow.isn.Some? && Holds(flow, segments)
    requires forall n | 0 <= n < |segments| :: WasFed(segments[n], fed, target, port)
    requires TruePackets(fed, segments, isn, truth, target, port)
    ensures !Conflicting(Origin(flow), flow.pieces) && StreamOf(flow) <= truth
    ensures forall c: nat | c < |CommandsOf(flow)| ::
              RecognisedAt(truth, c) && CommandAt(truth, c) == CommandsOf(flow)[c]
  {
    forall n: nat | n < |segments|
      ensures HasPlace(isn, segments[n], truth)
    {
      assert WasFed(segments[n], fed, target, port);
      var k :| 0 <= k < |fed| && Parse(fed[k].packet, target, port) == Accepted(segments[n]);
      var e := AcceptedIsBuilt(fed[k].packet, target, port);
      assert fed[k] in fed && segments[n] in segments;
    }
    var places := Places(isn, segments, truth);
    FlowIsSound(flow, isn, segments, truth, places);
  }

  lemma Places(isn: nat, segments: seq<Segment>, truth: seq<byte>) returns (places: seq<nat>)
    requires |truth| < CYCLE
    requires forall n: nat | n < |segments| :: HasPlace(isn, segments[n], truth)
    ensures AllCarry(isn, segments, truth, places)
  {
    places := [];
    while |places| < |segments|
      invariant |places| <= |segments|
      invariant forall k | 0 <= k < |places| :: Carries(isn, segments[k], truth, places[k])
    {
      var place: nat :| Carries(isn, segments[|places|], truth, place);
      places := places + [place];
    }
  }
}
