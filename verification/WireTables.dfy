/**
 The two tables fed from the wire: SUBSCRIBE, UNSUBSCRIBE and retained PUBLISH packets hold only
 topics that fit a table entry, so the tables are finite maps whatever a client sends.
 */
module WireTables {
  import opened Base
  import opened Broker
  import PublishCodec
  import RetainTable
  import SubscriptionTable

  function Text(bs: seq<byte>): (s: string)
    ensures |s| == |bs|
  {
    seq(|bs|, i requires 0 <= i < |bs| => (bs[i] as int) as char)
  }

  // ---------------------------------------------------------------- topics in a packet

  datatype Piece = Piece(text: string, next: nat)

  /** `parse_utf8_str` into a buffer of `size` characters: the text as a C string, and where it ended. */
  function ParseText(buf: seq<byte>, off: nat, size: nat): (r: Option<Piece>)
    ensures r.Some? ==> off + 2 + |r.value.text| <= r.value.next <= |buf| && |r.value.text| < size
  {
    if off + 2 > |buf| then None
    else
      var n := PublishCodec.Word(buf[off], buf[off + 1]);
      if off + 2 + n > |buf| || n >= size then None
      else
        PublishCodec.CStringIsPrefix(buf[off + 2..off + 2 + n]);
        Some(Piece(Text(PublishCodec.CString(buf[off + 2..off + 2 + n])), off + 2 + n))
  }

  function ParseTopic(buf: seq<byte>, off: nat): Option<Piece> {
    ParseText(buf, off, PublishCodec.MAX_TOPIC)
  }

  /** What a packet asks for, up to its first malformed topic. */
  datatype Request = Request(topic: string, qos: nat)
  datatype Requests = Requests(list: seq<Request>, wellFormed: bool)

  function RequestAt(buf: seq<byte>, piece: Piece): Request {
    Request(piece.text, if piece.next < |buf| then buf[piece.next] else 0)
  }

  /** The loop of `handle_subscribe` from `off` on, after `n` topics; the byte behind the packet is zero. */
  function ParseSubscribe(buf: seq<byte>, off: nat, n: nat): (r: Requests)
    requires off <= |buf| + 1 && n <= SubscriptionTable.MAX_SUBS
    ensures |r.list| <= SubscriptionTable.MAX_SUBS - n
    ensures forall i :: 0 <= i < |r.list| ==> |r.list[i].topic| <= SubscriptionTable.TOPIC_MAX
    decreases |buf| + 1 - off
  {
    if off + 3 > |buf| || n == SubscriptionTable.MAX_SUBS then Requests([], true)
    else
      match ParseTopic(buf, off)
      case None => Requests([], false)
      case Some(piece) =>
        var rest := ParseSubscribe(buf, piece.next + 1, n + 1);
        Requests([RequestAt(buf, piece)] + rest.list, rest.wellFormed)
  }

  /** The loop of `handle_unsubscribe` from `off` on. */
  function ParseUnsubscribe(buf: seq<byte>, off: nat): (r: Requests)
    requires off <= |buf|
    ensures forall i :: 0 <= i < |r.list| ==> |r.list[i].topic| <= SubscriptionTable.TOPIC_MAX
    decreases |buf| - off
  {
    if off + 2 > |buf| then Requests([], true)
    else
      match ParseTopic(buf, off)
      case None => Requests([], false)
      case Some(piece) =>
        var rest := ParseUnsubscribe(buf, piece.next);
        Requests([Request(piece.text, 0)] + rest.list, rest.wellFormed)
  }

  predicate OpsFit(ops: seq<SubscriptionTable.Op>) {
    forall i :: 0 <= i < |ops| ==> |ops[i].topic| <= SubscriptionTable.TOPIC_MAX
  }

  /** The requests the access table lets through. */
  function SubscribeOps(list: seq<Request>, allowed: string -> bool): (ops: seq<SubscriptionTable.Op>)
    ensures (forall i :: 0 <= i < |list| ==> |list[i].topic| <= SubscriptionTable.TOPIC_MAX) ==> OpsFit(ops)
  {
    if list == [] then []
    else
      (if allowed(list[0].topic) then [SubscriptionTable.Subscribe(list[0].topic, list[0].qos)] else []) +
      SubscribeOps(list[1..], allowed)
  }

  function UnsubscribeOps(list: seq<Request>): (ops: seq<SubscriptionTable.Op>)
    ensures |ops| == |list| && forall i :: 0 <= i < |list| ==> ops[i] == SubscriptionTable.Unsubscribe(list[i].topic)
  {
    seq(|list|, i requires 0 <= i < |list| => SubscriptionTable.Unsubscribe(list[i].topic))
  }

  datatype Packet = SubscribePacket(buf: seq<byte>) | UnsubscribePacket(buf: seq<byte>)

  /** The two bytes of the packet id come first. */
  function OpsOf(p: Packet, allowed: string -> bool): (ops: seq<SubscriptionTable.Op>)
    ensures OpsFit(ops)
  {
    if |p.buf| < 2 then []
    else if p.SubscribePacket? then SubscribeOps(ParseSubscribe(p.buf, 2, 0).list, allowed)
    else UnsubscribeOps(ParseUnsubscribe(p.buf, 2).list)
  }

  function AllOps(ps: seq<Packet>, allowed: string -> bool): (ops: seq<SubscriptionTable.Op>)
    ensures OpsFit(ops)
  {
    if ps == [] then [] else OpsOf(ps[0], allowed) + AllOps(ps[1..], allowed)
  }

  /** Whatever packets a client sends, its subscriptions are a finite map of at most 16 topics. */
  lemma SubscriptionsFromWire(ps: seq<Packet>, allowed: string -> bool)
    ensures var subs := SubscriptionTable.Run([], AllOps(ps, allowed));
      && SubscriptionTable.Distinct(subs) && |subs| <= SubscriptionTable.MAX_SUBS
      && SubscriptionTable.View(subs) == SubscriptionTable.RunMap(map[], AllOps(ps, allowed))
  {
    SubscriptionTable.RunRefines([], AllOps(ps, allowed));
    assert SubscriptionTable.View([]) == map[];
  }

  // ---------------------------------------------------------------- wills

  const CLIENT_ID_SIZE: nat := 32

  datatype Will = Will(topic: string, payload: string, qos: nat, retain: bool)

  /** The part of a CONNECT body behind the client id, and its flags. */
  datatype Opening = Opening(flags: byte, rest: nat)

  /** `handle_connect` up to the will. A client id with a zero byte ends early here, as its `strlen` does. */
  function ParseOpening(buf: seq<byte>): (r: Option<Opening>)
    ensures r.Some? ==> r.value.rest <= |buf|
  {
    match ParseText(buf, 0, 8)
    case None => None
    case Some(proto) =>
      if (proto.text != "MQTT" && proto.text != "MQIsdp") || proto.next + 4 > |buf| then None
      else
        match ParseText(buf, proto.next + 4, CLIENT_ID_SIZE)
        case None => None
        case Some(id) =>
          if buf[proto.next] != 4 then None
          else Some(Opening(buf[proto.next + 1], proto.next + 4 + 2 + |id.text|))
  }

  /** The will a CONNECT leaves in its session. */
  function WillOf(buf: seq<byte>): (w: Option<Will>)
    ensures w.Some? ==> |w.value.topic| < PublishCodec.MAX_TOPIC && |w.value.payload| < PublishCodec.MAX_PAYLOAD
  {
    match ParseOpening(buf)
    case None => None
    case Some(open) =>
      if (open.flags / 4) % 2 == 0 then None
      else
        match ParseTopic(buf, open.rest)
        case None => None
        case Some(topic) =>
          match ParseText(buf, topic.next, PublishCodec.MAX_PAYLOAD)
          case None => None
          case Some(payload) =>
            Some(Will(topic.text, payload.text, (open.flags / 8) % 4, (open.flags / 32) % 2 == 1))
  }

  // ---------------------------------------------------------------- retained messages

  /**
   What makes the broker publish: a PUBLISH packet, or the end of a session that came up with the given
   CONNECT body and whose will is not suppressed. Firmware code publishes without the retain flag.
   */
  datatype Publication = PublishPacket(header: byte, body: seq<byte>) | SessionEnd(connect: seq<byte>)

  function Stores(p: Publication, allowed: seq<byte> -> bool): (ops: seq<RetainTable.Op>)
    ensures |ops| <= 1
  {
    match p
    case PublishPacket(header, body) =>
      var r := PublishCodec.HandlePublish(header, body, allowed);
      if r.Parsed? && r.message.retain
      then [RetainTable.Op(Text(r.message.topic), Text(r.message.payload), r.message.qos)] else []
    case SessionEnd(connect) =>
      var w := WillOf(connect);
      if w.Some? && w.value.retain then [RetainTable.Op(w.value.topic, w.value.payload, w.value.qos)] else []
  }

  /** The stores a sequence of publications causes: packets accepted with the retain flag, and retained wills. */
  function RetainOps(ps: seq<Publication>, allowed: seq<byte> -> bool): seq<RetainTable.Op> {
    if ps == [] then [] else Stores(ps[0], allowed) + RetainOps(ps[1..], allowed)
  }

  predicate StoreFits(op: RetainTable.Op) {
    |op.topic| <= RetainTable.KEY_MAX && |op.payload| <= RetainTable.VALUE_MAX
  }

  lemma StoredFits(p: Publication, allowed: seq<byte> -> bool)
    ensures forall op :: op in Stores(p, allowed) ==> StoreFits(op)
  {
    if p.PublishPacket? && PublishCodec.HandlePublish(p.header, p.body, allowed).Parsed? {
      PublishCodec.AcceptedIsReceivable(p.header, p.body, allowed);
    }
  }

  lemma {:induction false} RetainFits(ps: seq<Publication>, allowed: seq<byte> -> bool)
    ensures forall op :: op in RetainOps(ps, allowed) ==> StoreFits(op)
  {
    if ps != [] {
      StoredFits(ps[0], allowed);
      RetainFits(ps[1..], allowed);
    }
  }

  /** Whatever is published, wills included, the retained messages are a finite map of at most 32 topics. */
  lemma RetainedFromWire(ps: seq<Publication>, allowed: seq<byte> -> bool)
    ensures var cells := RetainTable.Run(RetainTable.Empty(), RetainOps(ps, allowed));
      && RetainTable.Distinct(cells) && |RetainTable.Keys(cells)| <= RetainTable.RETAIN_MAX
      && RetainTable.View(cells) == RetainTable.RunMap(map[], RetainOps(ps, allowed))
  {
    var ops := RetainOps(ps, allowed);
    RetainFits(ps, allowed);
    assert forall i :: 0 <= i < |ops| ==> StoreFits(ops[i]);
    RetainTable.RunRefines(ops);
    RetainTable.KeyCount(RetainTable.Run(RetainTable.Empty(), ops));
  }
}
