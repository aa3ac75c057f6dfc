/** The PUBLISH encoders and the parser as they run: buffers filled and read with a running index. */
module PublishLoops {
  import opened Base
  import opened LengthField
  import opened PublishCodec

  // ---------------------------------------------------------------- the length field

  /** `encode_remaining_length` */
  method EncodeLengthInto(out: array<byte>, n: nat) returns (idx: nat)
    requires out.Length == 4
    modifies out
    ensures idx <= 4 && out[..idx] == EncodeLength(n, 4)
  {
    idx := 0;
    var rem := n;
    while true
      invariant idx < 4
      invariant EncodeLength(n, 4) == out[..idx] + EncodeLength(rem, 4 - idx)
      decreases 4 - idx
    {
      ghost var done := out[..idx];
      EncodeStep(done, rem, 4 - idx);
      var b := rem % 128;
      rem := rem / 128;
      if rem > 0 {
        b := b + 128;
      }
      out[idx] := b;
      idx := idx + 1;
      assert out[..idx] == done + [b];
      if !(rem > 0 && idx < 4) {
        break;
      }
    }
  }

  /** One round of the encoding loop. */
  lemma EncodeStep(done: seq<byte>, rem: nat, room: nat)
    requires room > 0
    ensures rem < 128 ==> done + EncodeLength(rem, room) == done + [rem]
    ensures rem >= 128 && room == 1 ==> done + EncodeLength(rem, room) == done + [128 + rem % 128]
    ensures rem >= 128 && room > 1 ==>
      done + EncodeLength(rem, room) == (done + [128 + rem % 128]) + EncodeLength(rem / 128, room - 1)
  {
  }

  /** `read_remaining_length` on the bytes the socket will still deliver. */
  method ReadLengthFrom(stream: seq<byte>, from: nat) returns (ok: bool, value: nat, at: nat)
    requires from <= |stream|
    ensures ok <==> DecodeLength(stream[from..]).Read?
    ensures ok ==> at <= |stream| && DecodeLength(stream[from..]) == Read(value, stream[at..])
  {
    var multiplier: nat := 1;
    value, at := 0, from;
    while true
      invariant from <= at <= |stream|
      invariant ReadLength(stream[from..], 1, 0) == ReadLength(stream[at..], multiplier, value)
      decreases |stream| - at
    {
      if at == |stream| {
        return false, value, at;
      }
      var encoded := stream[at];
      assert stream[at..][1..] == stream[at + 1..];
      at := at + 1;
      value := value + (encoded % 128) * multiplier;
      multiplier := multiplier * 128;
      if multiplier > LIMIT {
        return false, value, at;
      }
      if encoded / 128 != 1 {
        break;
      }
    }
    ok := true;
  }

  // ---------------------------------------------------------------- filling a buffer

  /** Append `bs` at `at`. */
  method Append(buf: array<byte>, at: nat, bs: seq<byte>) returns (end: nat)
    requires at + |bs| <= buf.Length
    modifies buf
    ensures end == at + |bs| && buf[..end] == old(buf[..at]) + bs
  {
    forall k | 0 <= k < |bs| {
      buf[at + k] := bs[k];
    }
    end := at + |bs|;
  }

  function PacketLength(m: Message): nat {
    1 + |EncodeLength(RemainingLength(m), 4)| + RemainingLength(m)
  }

  lemma PacketLengthIs(m: Message)
    requires Encodable(m)
    ensures |Wire(m)| == PacketLength(m)
  {
    BodyLength(m);
  }

  /** Everything before the topic. */
  function Fixed(m: Message): seq<byte>
    requires Encodable(m)
  {
    [Header(m.qos, m.retain)] + (EncodeLength(RemainingLength(m), 4) + TwoBytes(|m.topic|))
  }

  lemma WireInPieces(m: Message)
    requires Encodable(m)
    ensures Wire(m) == Fixed(m) + (m.topic + (IdField(m) + m.payload))
  {
    Regroup([Header(m.qos, m.retain)], EncodeLength(RemainingLength(m), 4), TwoBytes(|m.topic|),
            m.topic + (IdField(m) + m.payload));
  }

  method FillFixed(buf: array<byte>, header: byte, m: Message) returns (idx: nat)
    requires Encodable(m) && header == Header(m.qos, m.retain) && |Fixed(m)| <= buf.Length
    modifies buf
    ensures idx == |Fixed(m)| && buf[..idx] == Fixed(m)
  {
    var enc := new byte[4];
    var encLen := EncodeLengthInto(enc, RemainingLength(m));
    idx := Append(buf, 0, [header]);
    idx := Append(buf, idx, enc[..encLen]);
    idx := Append(buf, idx, TwoBytes(|m.topic|));
  }

  method FillRest(buf: array<byte>, at: nat, topic: seq<byte>, id: seq<byte>, payload: seq<byte>) returns (idx: nat)
    requires at + |topic| + |id| + |payload| <= buf.Length
    modifies buf
    ensures idx == at + |topic| + |id| + |payload|
    ensures buf[..idx] == old(buf[..at]) + (topic + (id + payload))
  {
    idx := Append(buf, at, topic);
    if |id| > 0 {
      idx := Append(buf, idx, id);
    }
    idx := Append(buf, idx, payload);
  }

  /** The writes common to the two encoders that fill a buffer. */
  method Fill(buf: array<byte>, header: byte, m: Message) returns (idx: nat)
    requires Encodable(m) && header == Header(m.qos, m.retain) && |Wire(m)| <= buf.Length
    modifies buf
    ensures idx == |Wire(m)| && buf[..idx] == Wire(m)
  {
    WireInPieces(m);
    idx := FillFixed(buf, header, m);
    idx := FillRest(buf, idx, m.topic, if m.qos != 0 then TwoBytes(m.pid) else [], m.payload);
  }

  // ---------------------------------------------------------------- the three encoders

  predicate SockAccepts(m: Message) {
    |m.topic| <= 65535 && RemainingLength(m) <= MAX_PACKET
  }

  predicate BufferAccepts(m: Message) {
    SockAccepts(m) && PacketLength(m) <= MAX_PACKET
  }

  predicate CStrings(m: Message) {
    m.qos < 256 && m.pid < 65536 && NulFree(m.topic) && NulFree(m.payload)
  }

  /** `build_qos1_publish_packet`; `heap` says whether the allocation succeeds. */
  method BuildQos1(topic: seq<byte>, payload: seq<byte>, retain: bool, pid: nat, heap: bool)
    returns (packet: array?<byte>)
    requires CStrings(Message(topic, payload, 1, retain, pid))
    ensures packet != null <==> heap && pid != 0 && BufferAccepts(Message(topic, payload, 1, retain, pid))
    ensures packet != null ==> fresh(packet) && packet[..] == Wire(Message(topic, payload, 1, retain, pid))
  {
    var m := Message(topic, payload, 1, retain, pid);
    var total := PacketLength(m);
    if pid == 0 || |topic| > 65535 || RemainingLength(m) > MAX_PACKET || total > MAX_PACKET {
      return null;
    }
    if !heap {
      return null;
    }
    packet := new byte[total];
    PacketLengthIs(m);
    var idx := Fill(packet, if retain then 0x33 else 0x32, m);
    assert packet[..] == packet[..idx];
  }

  /** `send_publish_packet` up to the send: the slot's transmit buffer is filled. */
  method FillPublish(buf: array<byte>, m: Message) returns (ok: bool, idx: nat)
    requires CStrings(m) && buf.Length == MAX_PACKET
    modifies buf
    ensures ok <==> BufferAccepts(m)
    ensures ok ==> idx <= MAX_PACKET && buf[..idx] == Wire(m)
    ensures !ok ==> buf[..] == old(buf[..])
  {
    idx := 0;
    ok := |m.topic| <= 65535 && RemainingLength(m) <= MAX_PACKET && PacketLength(m) <= MAX_PACKET;
    if ok {
      PacketLengthIs(m);
      idx := Fill(buf, Header(m.qos, m.retain), m);
    }
  }

  /** A socket that takes `room` more bytes and then fails. */
  class Socket {
    var sent: seq<byte>
    var room: nat

    constructor (room: nat)
      ensures this.room == room && sent == []
    {
      this.room, sent := room, [];
    }

    /** `send_all` */
    method SendAll(bs: seq<byte>) returns (ok: bool)
      modifies this
      ensures ok <==> old(room) >= |bs|
      ensures sent == old(sent) + Taken(bs, old(room)) && room == old(room) - |Taken(bs, old(room))|
    {
      var taken := Taken(bs, room);
      sent, room := sent + taken, room - |taken|;
      ok := |taken| == |bs|;
    }
  }

  /** What a socket with `room` takes of `bs`. */
  function Taken(bs: seq<byte>, room: nat): (t: seq<byte>)
    ensures |t| == if room < |bs| then room else |bs|
    ensures t <= bs
  {
    if room < |bs| then bs[..room] else bs
  }

  lemma TakenJoin(a: seq<byte>, b: seq<byte>, room: nat)
    ensures Taken(a + b, room) == if room < |a| then Taken(a, room) else a + Taken(b, room - |a|)
  {
  }

  /**
   `send_publish_packet_to_sock`: the packet in up to four pieces. However the socket
   behaves, what has gone out is a prefix of the packet, all of it on success.
   */
  method PublishToSock(sock: Socket, m: Message) returns (ok: bool)
    requires CStrings(m)
    modifies sock
    ensures ok <==> SockAccepts(m) && |Wire(m)| <= old(sock.room)
    ensures SockAccepts(m) ==> sock.sent == old(sock.sent) + Taken(Wire(m), old(sock.room))
    ensures !SockAccepts(m) ==> sock.sent == old(sock.sent)
  {
    if |m.topic| > 65535 || RemainingLength(m) > MAX_PACKET {
      return false;
    }
    var fixed := new byte[9];
    var idx := FillFixed(fixed, Header(m.qos, m.retain), m);
    ok := SendPieces(sock, fixed[..idx], m.topic, if m.qos != 0 then TwoBytes(m.pid) else [], m.payload);
    WireInPieces(m);
  }

  /** Send the pieces one by one; empty ones after the first are not sent. */
  method SendPieces(sock: Socket, fixed: seq<byte>, topic: seq<byte>, id: seq<byte>, payload: seq<byte>)
    returns (ok: bool)
    modifies sock
    ensures ok <==> old(sock.room) >= |fixed| + |topic| + |id| + |payload|
    ensures sock.sent == old(sock.sent) + Taken(fixed + (topic + (id + payload)), old(sock.room))
  {
    TakenJoin(fixed, topic + (id + payload), sock.room);
    ok := sock.SendAll(fixed);
    if ok {
      ok := SendRest(sock, topic, id, payload);
    }
  }

  method SendRest(sock: Socket, topic: seq<byte>, id: seq<byte>, payload: seq<byte>) returns (ok: bool)
    modifies sock
    ensures ok <==> old(sock.room) >= |topic| + |id| + |payload|
    ensures sock.sent == old(sock.sent) + Taken(topic + (id + payload), old(sock.room))
  {
    TakenJoin(topic, id + payload, sock.room);
    ok := SendSome(sock, topic);
    if ok {
      ok := SendEnd(sock, id, payload);
    }
  }

  method SendEnd(sock: Socket, id: seq<byte>, payload: seq<byte>) returns (ok: bool)
    modifies sock
    ensures ok <==> old(sock.room) >= |id| + |payload|
    ensures sock.sent == old(sock.sent) + Taken(id + payload, old(sock.room))
  {
    TakenJoin(id, payload, sock.room);
    ok := SendSome(sock, id);
    if ok {
      ok := SendSome(sock, payload);
    }
  }

  method SendSome(sock: Socket, bs: seq<byte>) returns (ok: bool)
    modifies sock
    ensures ok <==> old(sock.room) >= |bs|
    ensures sock.sent == old(sock.sent) + Taken(bs, old(sock.room))
    ensures sock.room == old(sock.room) - |Taken(bs, old(sock.room))|
  {
    ok := true;
    if |bs| > 0 {
      ok := sock.SendAll(bs);
    }
  }

  // ---------------------------------------------------------------- the parser

  /** The C string stored from `from` on, ended by a zero byte at or before `end`. */
  method CStringAt(buf: array<byte>, from: nat, end: nat) returns (s: seq<byte>)
    requires from <= end < buf.Length && buf[end] == 0
    ensures s == CString(buf[from..end])
  {
    var i := from;
    while buf[i] != 0
      invariant from <= i <= end
      invariant forall j :: from <= j < i ==> buf[j] != 0
      decreases end - i
    {
      i := i + 1;
    }
    s := buf[from..i];
    ghost var text := buf[from..end];
    CStringIs(text, i - from);
    assert text[..i - from] == s;
  }

  /** The topic is copied out and ended with a zero. */
  method CopyTopic(buf: array<byte>, len: nat, topicLen: nat) returns (topic: seq<byte>)
    requires 2 + topicLen <= len <= buf.Length && topicLen < MAX_TOPIC
    ensures topic == CString(buf[..len][2..2 + topicLen])
  {
    var text := buf[2..2 + topicLen];
    SubSlice(buf[..], len, 2, 2 + topicLen);
    topic := EndTopic(text);
  }

  method EndTopic(text: seq<byte>) returns (topic: seq<byte>)
    requires |text| < MAX_TOPIC
    ensures topic == CString(text)
  {
    var local := new byte[MAX_TOPIC];
    var end := Append(local, 0, text);
    local[end] := 0;
    assert local[0..end] == text;
    topic := CStringAt(local, 0, end);
  }

  lemma SubSlice(s: seq<byte>, len: nat, i: nat, j: nat)
    requires i <= j <= len <= |s|
    ensures s[..len][i..j] == s[i..j]
  {
  }

  /** The payload is ended with a zero behind the body. */
  method EndPayload(buf: array<byte>, off: nat, len: nat) returns (payload: seq<byte>)
    requires off <= len < buf.Length
    modifies buf
    ensures buf[..len] == old(buf[..len])
    ensures payload == CString(old(buf[..len])[off..])
  {
    ghost var body := buf[..len];
    buf[len] := 0;
    assert buf[..len] == body;
    assert buf[off..len] == body[off..];
    payload := CStringAt(buf, off, len);
  }

  /** The parsing part of `handle_publish`. */
  method ParsePublish(header: byte, buf: array<byte>, len: nat, allowed: seq<byte> -> bool) returns (r: Outcome)
    requires buf.Length == MAX_PACKET + 1 && len <= MAX_PACKET
    modifies buf
    ensures r == HandlePublish(header, old(buf[..len]), allowed)
    ensures buf[..len] == old(buf[..len])
  {
    if len < 2 {
      return Malformed;
    }
    var topicLen := Word(buf[0], buf[1]);
    var off := 2;
    if off + topicLen > len || topicLen >= MAX_TOPIC {
      return Malformed;
    }
    var topic := CopyTopic(buf, len, topicLen);
    off := off + topicLen;
    var pid, qos := 0, (header / 2) % 4;
    if qos != 0 {
      if off + 2 > len {
        return Malformed;
      }
      pid := Word(buf[off], buf[off + 1]);
      off := off + 2;
    }
    if qos > 1 || (qos == 1 && pid == 0) {
      return Malformed;
    }
    if !allowed(topic) {
      return Denied(qos, pid);
    }
    if len - off >= MAX_PAYLOAD {
      return Malformed;
    }
    var payload := EndPayload(buf, off, len);
    r := Parsed(Message(topic, payload, qos, header % 2 == 1, pid));
  }

  /** What `handle_publish` does with an outcome: its result, the acknowledgement it sends, the message it hands on. */
  datatype Reaction = Reaction(ok: bool, puback: Option<nat>, handed: Option<Message>)

  /** `acked` is the outcome of sending the acknowledgement. */
  function React(outcome: Outcome, acked: bool): Reaction {
    match outcome
    case Malformed => Reaction(false, None, None)
    case Denied(qos, pid) => Reaction(true, if qos == 1 then Some(pid) else None, None)
    case Parsed(m) =>
      if m.qos == 1 && !acked then Reaction(false, Some(m.pid), None)
      else Reaction(true, if m.qos == 1 then Some(m.pid) else None, Some(m))
  }

  /**
   Every message handed on at quality of service 1 was acknowledged first, with its own id; a malformed
   one is neither acknowledged nor handed on, a denied one is acknowledged only; no id is ever zero.
   */
  lemma ReactionIsSound(header: byte, buf: seq<byte>, allowed: seq<byte> -> bool, acked: bool)
    ensures var outcome := HandlePublish(header, buf, allowed);
      var r := React(outcome, acked);
      && (r.handed.Some? ==> outcome == Parsed(r.handed.value) && r.ok && allowed(r.handed.value.topic) &&
                             (r.handed.value.qos == 1 ==> acked && r.puback == Some(r.handed.value.pid)))
      && (r.puback.Some? ==> (header / 2) % 4 == 1 && r.puback.value != 0)
      && (outcome.Malformed? ==> r.puback.None? && r.handed.None? && !r.ok)
      && (outcome.Denied? ==> r.handed.None? && (r.puback.Some? <==> (header / 2) % 4 == 1))
  {
    var outcome := HandlePublish(header, buf, allowed);
    if outcome.Parsed? {
      AcceptedIsReceivable(header, buf, allowed);
    }
  }

  /** A connected client as the broker sees it: acknowledgements sent to it, messages taken from it. */
  class Client {
    var pubacks: seq<nat>
    var messages: seq<Message>

    constructor ()
      ensures pubacks == [] && messages == []
    {
      pubacks, messages := [], [];
    }

    /** `handle_publish`; `acked` is the outcome of sending an acknowledgement, counted as sent either way. */
    method OnPublish(header: byte, buf: array<byte>, len: nat, allowed: seq<byte> -> bool, acked: bool)
      returns (ok: bool)
      requires buf.Length == MAX_PACKET + 1 && len <= MAX_PACKET
      modifies this, buf
      ensures var r := React(HandlePublish(header, old(buf[..len]), allowed), acked);
        && ok == r.ok
        && pubacks == old(pubacks) + (if r.puback.Some? then [r.puback.value] else [])
        && messages == old(messages) + (if r.handed.Some? then [r.handed.value] else [])
    {
      var outcome := ParsePublish(header, buf, len, allowed);
      match outcome
      case Malformed => return false;
      case Denied(qos, pid) =>
        if qos == 1 {
          pubacks := pubacks + [pid];
        }
        return true;
      case Parsed(m) =>
        if m.qos == 1 {
          pubacks := pubacks + [m.pid];
          if !acked {
            return false;
          }
        }
        messages := messages + [m];
        return true;
    }
  }
}
