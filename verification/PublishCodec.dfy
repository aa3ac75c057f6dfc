/** The variable-length "remaining length" field. */
module LengthField {
  import opened Base

  const LIMIT: nat := 128 * 128 * 128

  /** Base-128 digits of `n`, lowest first, in at most `room` bytes; a full field is cut short. */
  function EncodeLength(n: nat, room: nat): (bs: seq<byte>)
    requires room > 0
    ensures 1 <= |bs| <= room
    decreases room
  {
    if n < 128 then [n]
    else if room == 1 then [128 + n % 128]
    else [128 + n % 128] + EncodeLength(n / 128, room - 1)
  }

  datatype Reading = Bad | Read(value: nat, rest: seq<byte>)

  /** The reader with `multiplier` and `value` accumulated so far. */
  function ReadLength(bs: seq<byte>, multiplier: nat, value: nat): Reading {
    if bs == [] then Bad
    else
      var v, m := value + (bs[0] % 128) * multiplier, multiplier * 128;
      if m > LIMIT then Bad
      else if bs[0] / 128 == 1 then ReadLength(bs[1..], m, v)
      else Read(v, bs[1..])
  }

  function DecodeLength(bs: seq<byte>): Reading {
    ReadLength(bs, 1, 0)
  }

  lemma ReadCons(b: byte, tail: seq<byte>, multiplier: nat, value: nat)
    ensures ReadLength([b] + tail, multiplier, value) ==
      if multiplier * 128 > LIMIT then Bad
      else if b / 128 == 1 then ReadLength(tail, multiplier * 128, value + (b % 128) * multiplier)
      else Read(value + (b % 128) * multiplier, tail)
  {
    assert ([b] + tail)[1..] == tail;
  }

  lemma EncodeCons(n: nat, room: nat, tail: seq<byte>)
    requires room > 1 && n >= 128
    ensures EncodeLength(n, room) + tail == [128 + n % 128] + (EncodeLength(n / 128, room - 1) + tail)
  {
  }

  /**
   Every length below 2^21 is read back, whatever follows it; every longer one is refused,
   because the reader gives up on a fourth byte.
   */
  lemma LengthRoundTrip(n: nat, tail: seq<byte>)
    ensures DecodeLength(EncodeLength(n, 4) + tail) == if n < LIMIT then Read(n, tail) else Bad
  {
    if n < 128 {
      ReadMore(n, tail, 1, 0);
    } else {
      EncodeCons(n, 4, tail);
      var m, d := Digits(n);
      ReadMore(d, EncodeLength(m, 3) + tail, 1, 0);
      SecondByte(n, m, d, tail);
    }
  }

  /** A byte with more to follow, and a last byte. */
  lemma ReadMore(c: nat, tail: seq<byte>, multiplier: nat, value: nat)
    requires c < 128 && multiplier * 128 <= LIMIT
    ensures ReadLength([128 + c] + tail, multiplier, value) ==
      ReadLength(tail, multiplier * 128, value + c * multiplier)
    ensures ReadLength([c] + tail, multiplier, value) == Read(value + c * multiplier, tail)
  {
    ReadCons(128 + c, tail, multiplier, value);
    ReadCons(c, tail, multiplier, value);
    assert (128 + c) % 128 == c && (128 + c) / 128 == 1;
  }

  /** With the lowest digit `d` read and `m` still to come. */
  lemma SecondByte(n: nat, m: nat, d: nat, tail: seq<byte>)
    requires n == d + m * 128 && d < 128
    ensures ReadLength(EncodeLength(m, 3) + tail, 128, d) == if n < LIMIT then Read(n, tail) else Bad
  {
    if m < 128 {
      ReadMore(m, tail, 128, d);
    } else {
      EncodeCons(m, 3, tail);
      var k, c := Digits(m);
      ReadMore(c, EncodeLength(k, 2) + tail, 128, d);
      ThirdByte(n, k, d + c * 128, tail);
    }
  }

  lemma Digits(m: nat) returns (k: nat, c: nat)
    ensures k == m / 128 && c == m % 128 && m == c + k * 128 && c < 128
  {
    k, c := m / 128, m % 128;
  }

  /** With the two lowest digits read as `v` and `k` still to come. */
  lemma ThirdByte(n: nat, k: nat, v: nat, tail: seq<byte>)
    requires n == v + k * 16384 && v < 16384
    ensures ReadLength(EncodeLength(k, 2) + tail, 16384, v) == if n < LIMIT then Read(n, tail) else Bad
  {
    if k < 128 {
      ReadMore(k, tail, 16384, v);
    } else {
      EncodeCons(k, 2, tail);
      var more, c := Digits(k);
      var rest := EncodeLength(more, 1) + tail;
      ReadMore(c, rest, 16384, v);
      FourthByte(rest, v + c * 16384);
    }
  }

  lemma FourthByte(bs: seq<byte>, value: nat)
    ensures ReadLength(bs, LIMIT, value) == Bad
  {
  }

  /** What the reader accepts is below 2^21 and takes one to three bytes. */
  lemma DecodedIsSmall(bs: seq<byte>)
    requires DecodeLength(bs).Read?
    ensures DecodeLength(bs).value < LIMIT
    ensures |DecodeLength(bs).rest| < |bs| <= |DecodeLength(bs).rest| + 3
  {
    ReadIsSmall(bs, 1, 0);
  }

  lemma {:induction false} ReadIsSmall(bs: seq<byte>, multiplier: nat, value: nat)
    requires multiplier in {1, 128, 128 * 128, LIMIT} && value < multiplier
    requires ReadLength(bs, multiplier, value).Read?
    ensures ReadLength(bs, multiplier, value).value < LIMIT
    ensures |ReadLength(bs, multiplier, value).rest| < |bs|
    ensures multiplier == 1 ==> |bs| <= |ReadLength(bs, multiplier, value).rest| + 3
    ensures multiplier == 128 ==> |bs| <= |ReadLength(bs, multiplier, value).rest| + 2
    ensures multiplier == 128 * 128 ==> |bs| <= |ReadLength(bs, multiplier, value).rest| + 1
    ensures multiplier != LIMIT
  {
    var v := value + (bs[0] % 128) * multiplier;
    if multiplier != LIMIT && bs[0] / 128 == 1 {
      ReadIsSmall(bs[1..], multiplier * 128, v);
    }
  }
}

/** PUBLISH packets: section 3.3 of MQTT 3.1.1, at quality of service 0 and 1. */
module PublishCodec {
  import opened Base
  import opened LengthField
  import Broker

  const MAX_TOPIC: nat := 96
  const MAX_PACKET: nat := 14336
  const MAX_PAYLOAD: nat := 14336

  /** Topic and payload are the bytes of C strings. */
  datatype Message = Message(topic: seq<byte>, payload: seq<byte>, qos: nat, retain: bool, pid: nat)

  predicate NulFree(s: seq<byte>) {
    0 !in s
  }

  /** An even byte with the bit of weight `w` set. */
  function SetBit(b: int, w: int): (r: int)
    requires 0 <= b < 256 && b % 2 == 0 && (w == 16 || w == 32)
    ensures 0 <= r < 256 && r % 2 == 0 && (b < 16 ==> r == b + w) && (b < 32 && w == 32 ==> r == b + w)
  {
    if (b / w) % 2 == 0 then b + w else b
  }

  /** `0x30 | (qos << 1) | retain` in eight bits. */
  function Header(qos: byte, retain: bool): (h: byte)
    ensures qos <= 3 ==> h == 0x30 + 2 * qos + (if retain then 1 else 0)
  {
    var b: int := (2 * qos) % 256;
    SetBit(SetBit(b, 16), 32) + (if retain then 1 else 0)
  }

  /** A two-byte number, high byte first. */
  function Word(hi: byte, lo: byte): nat {
    var h: nat := hi;
    h * 256 + lo
  }

  function TwoBytes(n: nat): (bs: seq<byte>)
    requires n < 65536
    ensures |bs| == 2 && Word(bs[0], bs[1]) == n
  {
    [n / 256, n % 256]
  }

  predicate Encodable(m: Message) {
    && |m.topic| <= 65535 && m.qos < 256 && m.pid < 65536
    && NulFree(m.topic) && NulFree(m.payload)
  }

  /** Everything after the length field. */
  function Body(m: Message): seq<byte>
    requires Encodable(m)
  {
    TwoBytes(|m.topic|) + (m.topic + ((if m.qos != 0 then TwoBytes(m.pid) else []) + m.payload))
  }

  function RemainingLength(m: Message): nat {
    2 + |m.topic| + |m.payload| + (if m.qos != 0 then 2 else 0)
  }

  /** The packet of section 3.3: fixed header, length, topic, packet id when acknowledged, payload. */
  function Wire(m: Message): seq<byte>
    requires Encodable(m)
  {
    [Header(m.qos, m.retain)] + (EncodeLength(RemainingLength(m), 4) + Body(m))
  }

  /** What the QoS 1 encoder turns into a packet. */
  predicate Sendable(m: Message) {
    m.qos == 1 && m.pid != 0 && Encodable(m) && |Wire(m)| <= MAX_PACKET
  }

  // ---------------------------------------------------------------- receiving

  /** A C string ends at its first zero byte. */
  function CString(bs: seq<byte>): (s: seq<byte>)
    ensures NulFree(s)
  {
    if bs == [] || bs[0] == 0 then [] else [bs[0]] + CString(bs[1..])
  }

  lemma {:induction false} CStringOfNulFree(bs: seq<byte>)
    requires NulFree(bs)
    ensures CString(bs) == bs
  {
    if bs != [] { CStringOfNulFree(bs[1..]); }
  }

  /** Cut at its first zero byte, a text is its C string. */
  lemma {:induction false} CStringIs(bs: seq<byte>, k: nat)
    requires k <= |bs| && (forall i :: 0 <= i < k ==> bs[i] != 0) && (k < |bs| ==> bs[k] == 0)
    ensures CString(bs) == bs[..k]
  {
    if k > 0 {
      CStringIs(bs[1..], k - 1);
      assert bs[..k] == [bs[0]] + bs[1..][..k - 1];
    }
  }

  datatype Outcome = Malformed | Denied(qos: nat, pid: nat) | Parsed(message: Message)

  /** `handle_publish` up to the point where the message is acknowledged and handed on. */
  function HandlePublish(header: byte, buf: seq<byte>, allowed: seq<byte> -> bool): Outcome {
    if |buf| < 2 then Malformed
    else
      var topicLen := Word(buf[0], buf[1]);
      if 2 + topicLen > |buf| || topicLen >= MAX_TOPIC then Malformed
      else
        var topic := CString(buf[2..2 + topicLen]);
        var qos := (header / 2) % 4;
        var off := 2 + topicLen;
        if qos != 0 && off + 2 > |buf| then Malformed
        else
          var pid := if qos != 0 then Word(buf[off], buf[off + 1]) else 0;
          var start := if qos != 0 then off + 2 else off;
          if qos > 1 || (qos == 1 && pid == 0) then Malformed
          else if !allowed(topic) then Denied(qos, pid)
          else if |buf| - start >= MAX_PAYLOAD then Malformed
          else Parsed(Message(topic, CString(buf[start..]), qos, header % 2 == 1, pid))
  }

  datatype Received = Dropped | Got(outcome: Outcome, rest: seq<byte>)

  /** One round of the client loop on a PUBLISH: header byte, length field, body. */
  function Receive(stream: seq<byte>, allowed: seq<byte> -> bool): Received {
    if stream == [] then Dropped
    else
      var length := DecodeLength(stream[1..]);
      if length.Bad? || length.value > MAX_PACKET || length.value > |length.rest| then Dropped
      else Got(HandlePublish(stream[0], length.rest[..length.value], allowed), length.rest[length.value..])
  }

  /** The message a receiver is told of: a packet id is carried only at quality of service 1. */
  function Delivered(m: Message): Message {
    if m.qos == 0 then m.(pid := 0) else m
  }

  /** Cutting `a + (b + c)` at the lengths of the pieces. */
  lemma Cut(a: seq<byte>, b: seq<byte>, c: seq<byte>, s: seq<byte>)
    requires s == a + (b + c)
    ensures s[|a|..|a| + |b|] == b
    ensures s[|a| + |b|..] == c
  {
  }

  predicate Receivable(m: Message) {
    Encodable(m) && |m.topic| < MAX_TOPIC && m.qos <= 1 && (m.qos == 1 ==> m.pid != 0)
  }

  /** The body is parsed back; bits of the header other than quality of service and retain play no part. */
  lemma BodyRoundTrip(m: Message, header: byte, allowed: seq<byte> -> bool)
    requires Receivable(m) && allowed(m.topic) && |m.payload| < MAX_PAYLOAD
    requires (header / 2) % 4 == m.qos && (header % 2 == 1 <==> m.retain)
    ensures HandlePublish(header, Body(m), allowed) == Parsed(Delivered(m))
  {
    BodyLength(m);
    TopicOfBody(m);
    PayloadOfBody(m);
    if m.qos != 0 { PidOfBody(m); }
  }

  /** The packet id field: empty at quality of service 0. */
  function IdField(m: Message): seq<byte>
    requires Encodable(m)
  {
    if m.qos != 0 then TwoBytes(m.pid) else []
  }

  lemma TopicOfBody(m: Message)
    requires Encodable(m)
    ensures |Body(m)| >= 2 + |m.topic| && Word(Body(m)[0], Body(m)[1]) == |m.topic|
    ensures CString(Body(m)[2..2 + |m.topic|]) == m.topic
  {
    Cut(TwoBytes(|m.topic|), m.topic, IdField(m) + m.payload, Body(m));
    CStringOfNulFree(m.topic);
  }

  lemma PayloadOfBody(m: Message)
    requires Encodable(m)
    ensures var start := 2 + |m.topic| + |IdField(m)|;
      start <= |Body(m)| && CString(Body(m)[start..]) == m.payload
  {
    LastPiece(TwoBytes(|m.topic|), m.topic, IdField(m), m.payload, Body(m));
    CStringOfNulFree(m.payload);
  }

  lemma LastPiece(a: seq<byte>, b: seq<byte>, c: seq<byte>, d: seq<byte>, s: seq<byte>)
    requires s == a + (b + (c + d))
    ensures |s| == |a| + |b| + |c| + |d| && s[|a| + |b| + |c|..] == d
  {
    Cut(a, b, c + d, s);
    Cut([], c, d, c + d);
    assert s[|a| + |b|..][|c|..] == s[|a| + |b| + |c|..];
  }

  lemma PidOfBody(m: Message)
    requires Encodable(m) && m.qos != 0
    ensures |Body(m)| >= 4 + |m.topic|
    ensures Word(Body(m)[2 + |m.topic|], Body(m)[3 + |m.topic|]) == m.pid
  {
  }

  lemma BodyLength(m: Message)
    requires Encodable(m)
    ensures |Body(m)| == RemainingLength(m)
  {
  }

  /** A header that differs from the built one at most in the DUP flag. */
  lemma HeaderKeepsFields(m: Message, header: byte)
    requires m.qos <= 1 && Broker.SetDup(header) == Broker.SetDup(Header(m.qos, m.retain))
    ensures (header / 2) % 4 == m.qos && (header % 2 == 1 <==> m.retain)
  {
  }

  lemma SameButDupSplits(packet: seq<byte>, header: byte, rest: seq<byte>)
    requires Broker.SameButDup(packet, [header] + rest)
    ensures packet == [packet[0]] + rest && Broker.SetDup(packet[0]) == Broker.SetDup(header)
  {
    assert ([header] + rest)[1..] == rest;
  }

  /** One packet off the stream, given its length field. */
  lemma ReceiveSplit(header: byte, body: seq<byte>, tail: seq<byte>, allowed: seq<byte> -> bool)
    requires |body| <= MAX_PACKET
    ensures Receive([header] + (EncodeLength(|body|, 4) + (body + tail)), allowed) ==
      Got(HandlePublish(header, body, allowed), tail)
  {
    var stream := [header] + (EncodeLength(|body|, 4) + (body + tail));
    assert stream[1..] == EncodeLength(|body|, 4) + (body + tail);
    LengthRoundTrip(|body|, body + tail);
    assert (body + tail)[..|body|] == body && (body + tail)[|body|..] == tail;
  }

  lemma Regroup(h: seq<byte>, l: seq<byte>, b: seq<byte>, tail: seq<byte>)
    ensures (h + (l + b)) + tail == h + (l + (b + tail))
  {
  }

  /**
   Whatever copy of the packet is sent, first transmission or retransmission with DUP, the
   receiver recovers topic, payload, quality of service, retain flag and packet id, and the
   stream is left exactly behind the packet.
   */
  lemma PublishRoundTrip(m: Message, packet: seq<byte>, tail: seq<byte>, allowed: seq<byte> -> bool)
    requires Receivable(m) && RemainingLength(m) <= MAX_PACKET && allowed(m.topic)
    requires Broker.SameButDup(packet, Wire(m))
    ensures Receive(packet + tail, allowed) == Got(Parsed(Delivered(m)), tail)
  {
    var rest := EncodeLength(RemainingLength(m), 4) + Body(m);
    SameButDupSplits(packet, Header(m.qos, m.retain), rest);
    var header := packet[0];
    HeaderKeepsFields(m, header);
    BodyLength(m);
    Regroup([header], EncodeLength(RemainingLength(m), 4), Body(m), tail);
    ReceiveSplit(header, Body(m), tail, allowed);
    BodyRoundTrip(m, header, allowed);
  }

  /** The untouched packet is the case without DUP. */
  lemma WireRoundTrip(m: Message, tail: seq<byte>, allowed: seq<byte> -> bool)
    requires Receivable(m) && RemainingLength(m) <= MAX_PACKET && allowed(m.topic)
    ensures Receive(Wire(m) + tail, allowed) == Got(Parsed(Delivered(m)), tail)
  {
    PublishRoundTrip(m, Wire(m), tail, allowed);
  }

  /** So two receivable messages with the same packet are the same message. */
  lemma WireIsInjective(m: Message, n: Message)
    requires Receivable(m) && Receivable(n)
    requires RemainingLength(m) <= MAX_PACKET && RemainingLength(n) <= MAX_PACKET
    requires Wire(m) == Wire(n)
    ensures Delivered(m) == Delivered(n)
  {
    WireRoundTrip(m, [], t => true);
    WireRoundTrip(n, [], t => true);
  }

  // ---------------------------------------------------------------- parsing first

  /** Where a body that the parser accepts is cut. */
  function PayloadStart(header: byte, buf: seq<byte>): nat
    requires |buf| >= 2
  {
    2 + Word(buf[0], buf[1]) + (if (header / 2) % 4 != 0 then 2 else 0)
  }

  /** Neither the topic nor the payload of the body holds a zero byte. */
  predicate CleanBody(header: byte, buf: seq<byte>)
    requires |buf| >= 2 && PayloadStart(header, buf) <= |buf|
  {
    NulFree(buf[2..2 + Word(buf[0], buf[1])]) && NulFree(buf[PayloadStart(header, buf)..])
  }

  /** Whatever is accepted is a message of quality of service 0 or 1 with an id exactly at 1, within the limits. */
  lemma AcceptedIsReceivable(header: byte, buf: seq<byte>, allowed: seq<byte> -> bool)
    requires HandlePublish(header, buf, allowed).Parsed?
    ensures var m := HandlePublish(header, buf, allowed).message;
      && Receivable(m) && allowed(m.topic) && |m.payload| < MAX_PAYLOAD && (m.pid != 0 <==> m.qos == 1)
      && |buf| >= 2 && PayloadStart(header, buf) <= |buf|
  {
    var topicLen := Word(buf[0], buf[1]);
    CStringIsPrefix(buf[2..2 + topicLen]);
    CStringIsPrefix(buf[PayloadStart(header, buf)..]);
  }

  lemma {:induction false} CStringIsPrefix(bs: seq<byte>)
    ensures CString(bs) <= bs
  {
    if bs != [] && bs[0] != 0 { CStringIsPrefix(bs[1..]); }
  }

  /** Encoding what was parsed from a body without zero bytes gives that body back. */
  lemma ParseThenEncode(header: byte, buf: seq<byte>, allowed: seq<byte> -> bool)
    requires HandlePublish(header, buf, allowed).Parsed?
    requires |buf| >= 2 && PayloadStart(header, buf) <= |buf| && CleanBody(header, buf)
    ensures var m := HandlePublish(header, buf, allowed).message; Encodable(m) && Body(m) == buf
  {
    AcceptedIsReceivable(header, buf, allowed);
    var m := HandlePublish(header, buf, allowed).message;
    var n := Word(buf[0], buf[1]);
    var topic, payload := buf[2..2 + n], buf[PayloadStart(header, buf)..];
    CStringOfNulFree(topic);
    CStringOfNulFree(payload);
    assert m.topic == topic && m.payload == payload;
    TwoBytesAt(buf, 0);
    if m.qos != 0 {
      TwoBytesAt(buf, 2 + n);
    }
    Pieces(buf, TwoBytes(n), topic, IdField(m), payload);
  }

  /** Two bytes of a body read and written back. */
  lemma TwoBytesAt(buf: seq<byte>, i: nat)
    requires i + 2 <= |buf|
    ensures Word(buf[i], buf[i + 1]) < 65536 && TwoBytes(Word(buf[i], buf[i + 1])) == buf[i..i + 2]
  {
    TwoBytesBack(buf[i], buf[i + 1]);
    assert buf[i..i + 2] == [buf[i], buf[i + 1]];
  }

  lemma TwoBytesBack(hi: byte, lo: byte)
    ensures Word(hi, lo) < 65536 && TwoBytes(Word(hi, lo)) == [hi, lo]
  {
  }

  lemma Pieces(buf: seq<byte>, len: seq<byte>, topic: seq<byte>, id: seq<byte>, payload: seq<byte>)
    requires |len| + |topic| + |id| + |payload| == |buf|
    requires len == buf[..|len|] && topic == buf[|len|..|len| + |topic|]
    requires id == buf[|len| + |topic|..|len| + |topic| + |id|] && payload == buf[|len| + |topic| + |id|..]
    ensures len + (topic + (id + payload)) == buf
  {
  }
}
