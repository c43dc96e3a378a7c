// Message of common/Message.{hh,cc}: the tagged union exchanged between the
// server and its clients, one message per packet.
module Messages {
  import opened Common
  import opened Defs
  import opened BitStream
  import opened Orders
  import opened Settings

  datatype Message =
    | Undefined
    | ClientConnect(name: Name)
    | ClientOrder(order: Order)
    | ClientTickDone
    | ServerConnect(yourPlayerId: PlayerId)
    | ServerTick(orders: seq<Order>)
    | ServerStart(settings: GameSettings)
      /** A type past SERVER_START: read and write have no case for it, so
          nothing follows the type. */
    | Unknown(tag: StrayTag)

  /** Message::Type ordinals. */
  function TypeTag(m: Message): (t: nat)
    ensures t < 0x1_0000_0000
    ensures t == 0 <==> m.Undefined?
    ensures t < 7 <==> !m.Unknown?
  {
    match m
    case Undefined => 0
    case ClientConnect(_) => 1
    case ClientOrder(_) => 2
    case ClientTickDone => 3
    case ServerConnect(_) => 4
    case ServerTick(_) => 5
    case ServerStart(_) => 6
    case Unknown(t) => t
  }

  /** What write(Message) demands of a message: not UNDEFINED (it asserts),
      no empty string (writeBytes asserts a non-empty write), no UNDEFINED order
      (write(Order) asserts) and vectors whose size fits a size_t. */
  predicate Encodable(m: Message)
  {
    match m
    case Undefined => false
    case ClientConnect(name) => |name| > 0
    case ClientOrder(o) => !o.cmd.Undefined?
    case ClientTickDone => true
    case ServerConnect(_) => true
    case ServerTick(os) => |os| < SIZE_LIMIT && forall o :: o in os ==> !o.cmd.Undefined?
    case ServerStart(s) => |s.players| < SIZE_LIMIT && NamesNonEmpty(s)
    case Unknown(_) => true
  }

  /** The payload of a message, as the switch in write(Message) emits it. */
  function EncodeBody(m: Message): seq<byte>
    requires Encodable(m)
  {
    Widths();
    match m
    case ClientConnect(name) => EncodeString(name)
    case ClientOrder(o) => EncodeOrder(o)
    case ClientTickDone => []
    case ServerConnect(id) => Bytes(id as nat, U16)
    case ServerTick(os) => EncodeOrders(os)
    case ServerStart(s) => EncodeSettings(s)
    case Unknown(_) => []
  }

  /** write(Message): the type, then the payload. */
  function EncodeMessage(m: Message): seq<byte>
    requires Encodable(m)
  {
    Widths();
    Bytes(TypeTag(m), ENUM) + EncodeBody(m)
  }

  /** read(Message) once the receiver has read the type and constructed a
      message of that type. UNDEFINED is rejected (read asserts); for a type
      past SERVER_START nothing more is read. */
  function DecodeBody(tag: nat, bs: seq<byte>): Option<(Message, seq<byte>)>
  {
    Widths();
    SizeLimit();
    if tag == 1 then
      var s :- DecodeString(bs);
      Some((ClientConnect(s.0), s.1))
    else if tag == 2 then
      var o :- DecodeOrder(bs);
      Some((ClientOrder(o.0), o.1))
    else if tag == 3 then
      Some((ClientTickDone, bs))
    else if tag == 4 then
      var id :- DecodePrim(bs, U16);
      Some((ServerConnect(id.0 as PlayerId), id.1))
    else if tag == 5 then
      var os :- DecodeOrders(bs);
      Some((ServerTick(os.0), os.1))
    else if tag == 6 then
      var s :- DecodeSettings(bs);
      Some((ServerStart(s.0), s.1))
    else if 7 <= tag < 0x1_0000_0000 then
      Some((Message.Unknown(tag), bs))
    else
      None
  }

  /** The receiving side: read the type, then the message of that type. */
  function DecodeMessage(bs: seq<byte>): (r: Option<(Message, seq<byte>)>)
    ensures r.Some? ==> !r.value.0.Undefined?
  {
    var tag :- DecodePrim(bs, ENUM);
    DecodeBody(tag.0, tag.1)
  }

  lemma DecodeEncodeBody(m: Message, rest: seq<byte>)
    requires Encodable(m)
    ensures DecodeBody(TypeTag(m), EncodeBody(m) + rest) == Some((m, rest))
  {
    Widths();
    match m
    case ClientConnect(name) => DecodeEncodeString(name, rest);
    case ClientOrder(o) => DecodeEncodeOrder(o, rest);
    case ClientTickDone => assert EncodeBody(m) + rest == rest;
    case ServerConnect(id) => DecodePrimBytes(id as nat, U16, rest);
    case ServerTick(os) => DecodeEncodeOrders(os, rest);
    case ServerStart(s) => DecodeEncodeSettings(s, rest);
    case Unknown(_) => assert EncodeBody(m) + rest == rest;
  }

  /** Every message write(Message) accepts is read back as itself, consuming
      exactly its bytes. */
  lemma DecodeEncodeMessage(m: Message, rest: seq<byte>)
    requires Encodable(m)
    ensures DecodeMessage(EncodeMessage(m) + rest) == Some((m, rest))
  {
    Widths();
    assert EncodeMessage(m) + rest == Bytes(TypeTag(m), ENUM) + (EncodeBody(m) + rest);
    DecodePrimBytes(TypeTag(m), ENUM, EncodeBody(m) + rest);
    DecodeEncodeBody(m, rest);
  }

  /** Two encodable messages with the same bytes are the same message. */
  lemma EncodeMessageInjective(m1: Message, m2: Message)
    requires Encodable(m1) && Encodable(m2) && EncodeMessage(m1) == EncodeMessage(m2)
    ensures m1 == m2
  {
    DecodeEncodeMessage(m1, []);
    DecodeEncodeMessage(m2, []);
    assert EncodeMessage(m1) + [] == EncodeMessage(m1);
    assert EncodeMessage(m2) + [] == EncodeMessage(m2);
  }

  /** The payload of a message, as the switch in write(Message) emits it. */
  method WriteBody(w: Writer, m: Message)
    requires Encodable(m)
    modifies w
    ensures w.buffer == old(w.buffer) + EncodeBody(m)
  {
    Widths();
    match m
    case ClientConnect(name) => WriteString(w, name);
    case ClientOrder(o) => WriteOrder(w, o);
    case ClientTickDone =>
    case ServerConnect(id) => WritePrim(w, id as nat, U16);
    case ServerTick(os) => WriteOrders(w, os);
    case ServerStart(s) => WriteSettings(w, s);
    case Unknown(_) =>
  }

  /** write(Message). */
  method WriteMessage(w: Writer, m: Message)
    requires Encodable(m)
    modifies w
    ensures w.buffer == old(w.buffer) + EncodeMessage(m)
  {
    Widths();
    ghost var pre := w.buffer;
    WritePrim(w, TypeTag(m), ENUM);
    WriteBody(w, m);
    Append2(pre, Bytes(TypeTag(m), ENUM), EncodeBody(m));
  }

  /** read(Message), given the type the receiver has already read. */
  method ReadBody(r: Reader, tag: nat) returns (m: Message)
    requires r.Valid() && DecodeBody(tag, r.Rest()).Some?
    modifies r
    ensures r.Valid() && old(DecodeBody(tag, r.Rest())) == Some((m, r.Rest()))
  {
    Widths();
    SizeLimit();
    if tag == 1 {
      var s := ReadString(r);
      m := ClientConnect(s);
    } else if tag == 2 {
      var o := ReadOrder(r);
      m := ClientOrder(o);
    } else if tag == 3 {
      m := ClientTickDone;
    } else if tag == 4 {
      var id := ReadPrim(r, U16);
      m := ServerConnect(id as PlayerId);
    } else if tag == 5 {
      var os := ReadOrders(r);
      m := ServerTick(os);
    } else if tag == 6 {
      var s := ReadSettings(r);
      m := ServerStart(s);
    } else {
      m := Message.Unknown(tag);
    }
  }

  /** Message::toPacket: a fresh writer holding exactly the message. */
  method ToPacket(m: Message) returns (packet: seq<byte>)
    requires Encodable(m)
    ensures packet == EncodeMessage(m) && |packet| > 0
  {
    var w := new Writer();
    WriteMessage(w, m);
    packet := w.buffer;
  }

  /** What a receiver does with a packet: a reader over it, the type, then
      the message of that type. Bytes after the message are left unread. */
  method FromPacket(packet: seq<byte>) returns (m: Message)
    requires DecodeMessage(packet).Some?
    ensures DecodeMessage(packet).value.0 == m
  {
    var r := new Reader(packet);
    var tag := ReadPrim(r, ENUM);
    m := ReadBody(r, tag);
  }

  /** A message sent as a packet arrives as itself. */
  lemma PacketRoundTrip(m: Message)
    requires Encodable(m)
    ensures |EncodeMessage(m)| > 0 && DecodeMessage(EncodeMessage(m)) == Some((m, []))
  {
    DecodeEncodeMessage(m, []);
    assert EncodeMessage(m) + [] == EncodeMessage(m);
  }
}
