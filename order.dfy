// The Order tagged union of common/Order.{hh,cc} and its wire encoding: the
// issuing player, the type tag, then the fields of the active variant.
module Orders {
  import opened Common
  import opened Defs
  import opened BitStream

  /** The active variant of an order with its payload. */
  datatype Command =
    | Undefined
    | Build(objectId: ObjectId, buildingType: BuildingType, x: u16, y: u16)
    | Construct(queue: u16, from: ObjectId, to: ObjectId)
    | Attack(objectId: ObjectId, x: u16, y: u16)
    | Stop(objectId: ObjectId)
    | Remove(objectId: ObjectId)
    | RaiseMap(x: u16, y: u16, w: u16, h: u16)
      /** A type tag past RAISE_MAP: the switches of read and write have no
          case for it, so no field follows the tag. */
    | Unknown(tag: StrayTag)

  datatype Order = Order(player: PlayerId, cmd: Command)

  /** Order::Type ordinals. */
  function Tag(c: Command): (t: nat)
    ensures t < 0x1_0000_0000
    ensures t == 0 <==> c.Undefined?
    ensures t < 7 <==> !c.Unknown?
  {
    match c
    case Undefined => 0
    case Build(_, _, _, _) => 1
    case Construct(_, _, _) => 2
    case Attack(_, _, _) => 3
    case Stop(_) => 4
    case Remove(_) => 5
    case RaiseMap(_, _, _, _) => 6
    case Unknown(t) => t
  }

  /** The variant's fields in the order `write` emits them. */
  function EncodePayload(c: Command): seq<byte>
  {
    Widths();
    match c
    case Undefined => []
    case Build(id, t, x, y) =>
      Bytes(id as nat, U32) + Bytes(BuildingTypeOrdinal(t), ENUM) + Bytes(x as nat, U16) + Bytes(y as nat, U16)
    case Construct(q, f, t) =>
      Bytes(q as nat, U16) + Bytes(f as nat, U32) + Bytes(t as nat, U32)
    case Attack(id, x, y) =>
      Bytes(id as nat, U32) + Bytes(x as nat, U16) + Bytes(y as nat, U16)
    case Stop(id) => Bytes(id as nat, U32)
    case Remove(id) => Bytes(id as nat, U32)
    case RaiseMap(x, y, w, h) =>
      Bytes(x as nat, U16) + Bytes(y as nat, U16) + Bytes(w as nat, U16) + Bytes(h as nat, U16)
    case Unknown(_) => []
  }

  /** write(Order): player, type tag, payload. */
  function EncodeOrder(o: Order): seq<byte>
  {
    Widths();
    Bytes(o.player as nat, U16) + Bytes(Tag(o.cmd), ENUM) + EncodePayload(o.cmd)
  }

  function DecodeBuild(bs: seq<byte>): Option<(Command, seq<byte>)>
  {
    Widths();
    var id :- DecodePrim(bs, U32);
    var t :- DecodePrim(id.1, ENUM);
    var bt :- BuildingTypeFromOrdinal(t.0);
    var x :- DecodePrim(t.1, U16);
    var y :- DecodePrim(x.1, U16);
    Some((Build(id.0 as ObjectId, bt, x.0 as u16, y.0 as u16), y.1))
  }

  function DecodeConstruct(bs: seq<byte>): Option<(Command, seq<byte>)>
  {
    Widths();
    var q :- DecodePrim(bs, U16);
    var f :- DecodePrim(q.1, U32);
    var t :- DecodePrim(f.1, U32);
    Some((Construct(q.0 as u16, f.0 as ObjectId, t.0 as ObjectId), t.1))
  }

  function DecodeAttack(bs: seq<byte>): Option<(Command, seq<byte>)>
  {
    Widths();
    var id :- DecodePrim(bs, U32);
    var x :- DecodePrim(id.1, U16);
    var y :- DecodePrim(x.1, U16);
    Some((Attack(id.0 as ObjectId, x.0 as u16, y.0 as u16), y.1))
  }

  /** STOP and REMOVE carry only the object id. */
  function DecodeObjectId(bs: seq<byte>): Option<(ObjectId, seq<byte>)>
  {
    Widths();
    var id :- DecodePrim(bs, U32);
    Some((id.0 as ObjectId, id.1))
  }

  function DecodeRaiseMap(bs: seq<byte>): Option<(Command, seq<byte>)>
  {
    Widths();
    var x :- DecodePrim(bs, U16);
    var y :- DecodePrim(x.1, U16);
    var w :- DecodePrim(y.1, U16);
    var h :- DecodePrim(w.1, U16);
    Some((RaiseMap(x.0 as u16, y.0 as u16, w.0 as u16, h.0 as u16), h.1))
  }

  /** read(Order) after the tag: the fields of the variant named by `tag`.
      UNDEFINED is rejected (the source asserts); a tag past RAISE_MAP is kept
      and nothing more is read. */
  function DecodePayload(tag: nat, bs: seq<byte>): Option<(Command, seq<byte>)>
  {
    if tag == 1 then DecodeBuild(bs)
    else if tag == 2 then DecodeConstruct(bs)
    else if tag == 3 then DecodeAttack(bs)
    else if tag == 4 then
      var id :- DecodeObjectId(bs);
      Some((Stop(id.0), id.1))
    else if tag == 5 then
      var id :- DecodeObjectId(bs);
      Some((Remove(id.0), id.1))
    else if tag == 6 then DecodeRaiseMap(bs)
    else if 7 <= tag < 0x1_0000_0000 then Some((Unknown(tag), bs))
    else None
  }

  /** read(Order): player, type tag, then the payload of that type. */
  function DecodeOrder(bs: seq<byte>): (r: Option<(Order, seq<byte>)>)
    ensures r.Some? ==> !r.value.0.cmd.Undefined?
  {
    Widths();
    var p :- DecodePrim(bs, U16);
    var t :- DecodePrim(p.1, ENUM);
    var c :- DecodePayload(t.0, t.1);
    Some((Order(p.0 as PlayerId, c.0), c.1))
  }

  /** Reading a primitive off the front of `bytes(v) + rest`. */
  lemma Prim(v: nat, width: nat, rest: seq<byte>)
    requires width > 0 && v < Pow256(width)
    ensures DecodePrim(Bytes(v, width) + rest, width) == Some((v, rest))
  {
    DecodePrimBytes(v, width, rest);
  }

  lemma BuildRoundTrip(c: Command, rest: seq<byte>)
    requires c.Build?
    ensures DecodeBuild(EncodePayload(c) + rest) == Some((c, rest))
  {
    Widths();
    var b1, b2, b3, b4 := Bytes(c.objectId as nat, U32), Bytes(BuildingTypeOrdinal(c.buildingType), ENUM),
                          Bytes(c.x as nat, U16), Bytes(c.y as nat, U16);
    assert EncodePayload(c) + rest == b1 + (b2 + (b3 + (b4 + rest)));
    Prim(c.objectId as nat, U32, b2 + (b3 + (b4 + rest)));
    Prim(BuildingTypeOrdinal(c.buildingType), ENUM, b3 + (b4 + rest));
    BuildingTypeOrdinalRoundTrip(c.buildingType);
    Prim(c.x as nat, U16, b4 + rest);
    Prim(c.y as nat, U16, rest);
  }

  lemma ConstructRoundTrip(c: Command, rest: seq<byte>)
    requires c.Construct?
    ensures DecodeConstruct(EncodePayload(c) + rest) == Some((c, rest))
  {
    Widths();
    var b1, b2, b3 := Bytes(c.queue as nat, U16), Bytes(c.from as nat, U32), Bytes(c.to as nat, U32);
    assert EncodePayload(c) + rest == b1 + (b2 + (b3 + rest));
    Prim(c.queue as nat, U16, b2 + (b3 + rest));
    Prim(c.from as nat, U32, b3 + rest);
    Prim(c.to as nat, U32, rest);
  }

  lemma AttackRoundTrip(c: Command, rest: seq<byte>)
    requires c.Attack?
    ensures DecodeAttack(EncodePayload(c) + rest) == Some((c, rest))
  {
    Widths();
    var b1, b2, b3 := Bytes(c.objectId as nat, U32), Bytes(c.x as nat, U16), Bytes(c.y as nat, U16);
    assert EncodePayload(c) + rest == b1 + (b2 + (b3 + rest));
    Prim(c.objectId as nat, U32, b2 + (b3 + rest));
    Prim(c.x as nat, U16, b3 + rest);
    Prim(c.y as nat, U16, rest);
  }

  lemma RaiseMapRoundTrip(c: Command, rest: seq<byte>)
    requires c.RaiseMap?
    ensures DecodeRaiseMap(EncodePayload(c) + rest) == Some((c, rest))
  {
    Widths();
    var b1, b2, b3, b4 := Bytes(c.x as nat, U16), Bytes(c.y as nat, U16),
                          Bytes(c.w as nat, U16), Bytes(c.h as nat, U16);
    assert EncodePayload(c) + rest == b1 + (b2 + (b3 + (b4 + rest)));
    Prim(c.x as nat, U16, b2 + (b3 + (b4 + rest)));
    Prim(c.y as nat, U16, b3 + (b4 + rest));
    Prim(c.w as nat, U16, b4 + rest);
    Prim(c.h as nat, U16, rest);
  }

  lemma DecodeEncodePayload(c: Command, rest: seq<byte>)
    requires !c.Undefined?
    ensures DecodePayload(Tag(c), EncodePayload(c) + rest) == Some((c, rest))
  {
    Widths();
    match c
    case Build(_, _, _, _) => BuildRoundTrip(c, rest);
    case Construct(_, _, _) => ConstructRoundTrip(c, rest);
    case Attack(_, _, _) => AttackRoundTrip(c, rest);
    case Stop(id) => Prim(id as nat, U32, rest);
    case Remove(id) => Prim(id as nat, U32, rest);
    case RaiseMap(_, _, _, _) => RaiseMapRoundTrip(c, rest);
    case Unknown(_) => assert EncodePayload(c) + rest == rest;
  }

  /** Every order but UNDEFINED round-trips, and reading it consumes exactly
      the bytes writing it produced. */
  lemma DecodeEncodeOrder(o: Order, rest: seq<byte>)
    requires !o.cmd.Undefined?
    ensures DecodeOrder(EncodeOrder(o) + rest) == Some((o, rest))
  {
    Widths();
    var b1, b2, b3 := Bytes(o.player as nat, U16), Bytes(Tag(o.cmd), ENUM), EncodePayload(o.cmd);
    assert EncodeOrder(o) + rest == b1 + (b2 + (b3 + rest));
    DecodePrimBytes(o.player as nat, U16, b2 + (b3 + rest));
    DecodePrimBytes(Tag(o.cmd), ENUM, b3 + rest);
    DecodeEncodePayload(o.cmd, rest);
  }

  /** UNDEFINED never decodes: a tag of 0 is rejected whatever follows. */
  lemma UndefinedRejected(player: PlayerId, rest: seq<byte>)
    ensures DecodeOrder(EncodeOrder(Order(player, Undefined)) + rest) == None
  {
    Widths();
    var b1, b2 := Bytes(player as nat, U16), Bytes(0, ENUM);
    assert EncodeOrder(Order(player, Undefined)) + rest == b1 + (b2 + rest);
    DecodePrimBytes(player as nat, U16, b2 + rest);
    DecodePrimBytes(0, ENUM, rest);
  }

  /** The fields of the active variant, as the switch in write(Order) emits them. */
  method WritePayload(w: Writer, c: Command)
    requires !c.Undefined?
    modifies w
    ensures w.buffer == old(w.buffer) + EncodePayload(c)
  {
    Widths();
    ghost var pre := w.buffer;
    match c
    case Build(id, t, x, y) =>
      WritePrim(w, id as nat, U32);
      WritePrim(w, BuildingTypeOrdinal(t), ENUM);
      WritePrim(w, x as nat, U16);
      WritePrim(w, y as nat, U16);
      Append4(pre, Bytes(id as nat, U32), Bytes(BuildingTypeOrdinal(t), ENUM), Bytes(x as nat, U16), Bytes(y as nat, U16));
    case Construct(q, f, t) =>
      WritePrim(w, q as nat, U16);
      WritePrim(w, f as nat, U32);
      WritePrim(w, t as nat, U32);
      Append3(pre, Bytes(q as nat, U16), Bytes(f as nat, U32), Bytes(t as nat, U32));
    case Attack(id, x, y) =>
      WritePrim(w, id as nat, U32);
      WritePrim(w, x as nat, U16);
      WritePrim(w, y as nat, U16);
      Append3(pre, Bytes(id as nat, U32), Bytes(x as nat, U16), Bytes(y as nat, U16));
    case Stop(id) =>
      WritePrim(w, id as nat, U32);
    case Remove(id) =>
      WritePrim(w, id as nat, U32);
    case RaiseMap(x, y, ww, h) =>
      WritePrim(w, x as nat, U16);
      WritePrim(w, y as nat, U16);
      WritePrim(w, ww as nat, U16);
      WritePrim(w, h as nat, U16);
      Append4(pre, Bytes(x as nat, U16), Bytes(y as nat, U16), Bytes(ww as nat, U16), Bytes(h as nat, U16));
    case Unknown(_) =>
  }

  /** write(Order). The source asserts that the order is not UNDEFINED. */
  method WriteOrder(w: Writer, o: Order)
    requires !o.cmd.Undefined?
    modifies w
    ensures w.buffer == old(w.buffer) + EncodeOrder(o)
  {
    Widths();
    ghost var pre := w.buffer;
    WritePrim(w, o.player as nat, U16);
    WritePrim(w, Tag(o.cmd), ENUM);
    WritePayload(w, o.cmd);
    Append3(pre, Bytes(o.player as nat, U16), Bytes(Tag(o.cmd), ENUM), EncodePayload(o.cmd));
  }

  method ReadBuild(r: Reader) returns (cmd: Command)
    requires r.Valid() && DecodeBuild(r.Rest()).Some?
    modifies r
    ensures r.Valid() && old(DecodeBuild(r.Rest())) == Some((cmd, r.Rest()))
  {
    Widths();
    var id := ReadPrim(r, U32);
    var t := ReadPrim(r, ENUM);
    var x := ReadPrim(r, U16);
    var y := ReadPrim(r, U16);
    cmd := Build(id as ObjectId, BuildingTypeFromOrdinal(t).value, x as u16, y as u16);
  }

  method ReadConstruct(r: Reader) returns (cmd: Command)
    requires r.Valid() && DecodeConstruct(r.Rest()).Some?
    modifies r
    ensures r.Valid() && old(DecodeConstruct(r.Rest())) == Some((cmd, r.Rest()))
  {
    Widths();
    var q := ReadPrim(r, U16);
    var f := ReadPrim(r, U32);
    var t := ReadPrim(r, U32);
    cmd := Construct(q as u16, f as ObjectId, t as ObjectId);
  }

  method ReadAttack(r: Reader) returns (cmd: Command)
    requires r.Valid() && DecodeAttack(r.Rest()).Some?
    modifies r
    ensures r.Valid() && old(DecodeAttack(r.Rest())) == Some((cmd, r.Rest()))
  {
    Widths();
    var id := ReadPrim(r, U32);
    var x := ReadPrim(r, U16);
    var y := ReadPrim(r, U16);
    cmd := Attack(id as ObjectId, x as u16, y as u16);
  }

  method ReadObjectId(r: Reader) returns (id: ObjectId)
    requires r.Valid() && DecodeObjectId(r.Rest()).Some?
    modifies r
    ensures r.Valid() && old(DecodeObjectId(r.Rest())) == Some((id, r.Rest()))
  {
    Widths();
    var v := ReadPrim(r, U32);
    id := v as ObjectId;
  }

  method ReadRaiseMap(r: Reader) returns (cmd: Command)
    requires r.Valid() && DecodeRaiseMap(r.Rest()).Some?
    modifies r
    ensures r.Valid() && old(DecodeRaiseMap(r.Rest())) == Some((cmd, r.Rest()))
  {
    Widths();
    var x := ReadPrim(r, U16);
    var y := ReadPrim(r, U16);
    var w := ReadPrim(r, U16);
    var h := ReadPrim(r, U16);
    cmd := RaiseMap(x as u16, y as u16, w as u16, h as u16);
  }

  /** The fields of the variant named by `tag`, as the switch in read(Order)
      fills them. */
  method ReadPayload(r: Reader, tag: nat) returns (cmd: Command)
    requires r.Valid() && DecodePayload(tag, r.Rest()).Some?
    modifies r
    ensures r.Valid() && old(DecodePayload(tag, r.Rest())) == Some((cmd, r.Rest()))
  {
    if tag == 1 {
      cmd := ReadBuild(r);
    } else if tag == 2 {
      cmd := ReadConstruct(r);
    } else if tag == 3 {
      cmd := ReadAttack(r);
    } else if tag == 4 {
      var id := ReadObjectId(r);
      cmd := Stop(id);
    } else if tag == 5 {
      var id := ReadObjectId(r);
      cmd := Remove(id);
    } else if tag == 6 {
      cmd := ReadRaiseMap(r);
    } else {
      cmd := Unknown(tag);
    }
  }

  /** read(Order): the player, the type, then the fields of that type. */
  method ReadOrder(r: Reader) returns (o: Order)
    requires r.Valid() && DecodeOrder(r.Rest()).Some?
    modifies r
    ensures r.Valid() && old(DecodeOrder(r.Rest())) == Some((o, r.Rest()))
  {
    Widths();
    var player := ReadPrim(r, U16);
    var tag := ReadPrim(r, ENUM);
    var cmd := ReadPayload(r, tag);
    o := Order(player as PlayerId, cmd);
  }

  /** The orders of a vector, as template write(std::vector<Order>) emits them. */
  function EncodeOrders(os: seq<Order>): seq<byte>
    requires |os| < SIZE_LIMIT
  {
    EncodeSeq(os, EncodeOrder)
  }

  function DecodeOrders(bs: seq<byte>): Option<(seq<Order>, seq<byte>)>
  {
    DecodeSeq(bs, DecodeOrder)
  }

  /** A list of orders round-trips with its order preserved. */
  lemma DecodeEncodeOrders(os: seq<Order>, rest: seq<byte>)
    requires |os| < SIZE_LIMIT
    requires forall o :: o in os ==> !o.cmd.Undefined?
    ensures DecodeOrders(EncodeOrders(os) + rest) == Some((os, rest))
  {
    forall o | o in os
      ensures RoundTrips(EncodeOrder, DecodeOrder, o)
    {
      forall rest' {
        DecodeEncodeOrder(o, rest');
      }
    }
    DecodeEncodeSeq(os, EncodeOrder, DecodeOrder, rest);
  }

  /** template write(std::vector<Order>): the count, then each order. */
  method WriteOrders(w: Writer, os: seq<Order>)
    requires |os| < SIZE_LIMIT
    requires forall o :: o in os ==> !o.cmd.Undefined?
    modifies w
    ensures w.buffer == old(w.buffer) + EncodeOrders(os)
  {
    SizeLimit();
    ghost var pre := w.buffer;
    WritePrim(w, |os|, SIZE_T);
    ghost var start := w.buffer;
    var i := 0;
    while i < |os|
      invariant 0 <= i <= |os|
      invariant w.buffer == start + Concat(os[..i], EncodeOrder)
    {
      WriteOrder(w, os[i]);
      ConcatSnoc(os, i, EncodeOrder);
      Append2(start, Concat(os[..i], EncodeOrder), EncodeOrder(os[i]));
      i := i + 1;
    }
    assert os[..|os|] == os;
    Append2(pre, Bytes(|os|, SIZE_T), Concat(os, EncodeOrder));
  }

  /** One order of a vector read, appended to the `os` read so far; `rem`
      are the `left` orders still to read, in order. */
  method ReadOrderInto(r: Reader, os: seq<Order>, left: nat, ghost rem: seq<Order>, ghost ys: seq<Order>, ghost rest: seq<byte>)
    returns (more: seq<Order>, ghost rem': seq<Order>)
    requires r.Valid() && left > 0 && left == |rem| && os + rem == ys
    requires DecodeElems(r.Rest(), left, DecodeOrder) == Some((rem, rest))
    modifies r
    ensures r.Valid() && left - 1 == |rem'| && more + rem' == ys
    ensures DecodeElems(r.Rest(), left - 1, DecodeOrder) == Some((rem', rest))
  {
    ghost var before := r.Rest();
    var o := ReadOrder(r);
    DecodeElemsStep(before, left, DecodeOrder, o, r.Rest(), rem, rest);
    more, rem' := os + [o], rem[1..];
    assert more + rem' == os + rem;
  }

  /** template read(std::vector<Order>): the count, then that many orders. */
  method ReadOrders(r: Reader) returns (os: seq<Order>)
    requires r.Valid() && DecodeOrders(r.Rest()).Some?
    modifies r
    ensures r.Valid() && old(DecodeOrders(r.Rest())) == Some((os, r.Rest()))
  {
    ghost var start := r.Rest();
    var n := ReadPrim(r, SIZE_T);
    DecodeSeqStart(start, DecodeOrder, n, r.Rest());
    ghost var all := DecodeElems(r.Rest(), n, DecodeOrder).value;
    os := ReadOrderElems(r, n, all.0, all.1);
  }

  /** The element loop of a vector read: `n` orders, in order. */
  method ReadOrderElems(r: Reader, n: nat, ghost ys: seq<Order>, ghost rest: seq<byte>) returns (os: seq<Order>)
    requires r.Valid() && DecodeElems(r.Rest(), n, DecodeOrder) == Some((ys, rest))
    modifies r
    ensures r.Valid() && os == ys && r.Rest() == rest
  {
    os := [];
    ghost var rem := ys;
    var left := n;
    while left > 0
      invariant r.Valid() && left == |rem|
      invariant DecodeElems(r.Rest(), left, DecodeOrder) == Some((rem, rest))
      invariant os + rem == ys
    {
      os, rem := ReadOrderInto(r, os, left, rem, ys, rest);
      left := left - 1;
    }
    assert os == os + rem;
  }
}
