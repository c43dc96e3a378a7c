// The byte-level stream codec of common/BitStream.{hh,cc}: an append-only
// writer, an index-based reader, fixed-width primitives written as their raw
// in-memory bytes, and size-prefixed strings and vectors.
//
// The specification of every encoding is a pure function producing bytes, and
// of every decoding a pure function that consumes a prefix of its input and
// returns the decoded value with the unread rest (None where the source's
// readBytes assertion would fail). The Writer and Reader classes and the
// read/write methods are proved against these functions.
module BitStream {
  import opened Common

  newtype byte = x: int | 0 <= x < 0x100

  // Widths in bytes of the fixed-width types the codec copies (a 64-bit host
  // with int-sized enums).
  const U8: nat := 1
  const U16: nat := 2
  const U32: nat := 4
  const ENUM: nat := 4
  const SIZE_T: nat := 8

  /** 256^n: the number of distinct values of an n-byte unsigned integer. */
  function Pow256(n: nat): (r: nat)
    ensures r > 0
  {
    if n == 0 then 1 else 256 * Pow256(n - 1)
  }

  /** A value an int-sized enum of seven enumerators can hold that names none
      of them (Order::Type and Message::Type both have seven). */
  type StrayTag = t: nat | 7 <= t < 0x1_0000_0000 witness 7

  /** The bound of a size_t. */
  const SIZE_LIMIT: nat := 0x1_0000_0000_0000_0000

  lemma SizeLimit()
    ensures Pow256(SIZE_T) == SIZE_LIMIT
  {
  }

  /** The value ranges of the narrower widths. */
  lemma Widths()
    ensures Pow256(U8) == 0x100 && Pow256(U16) == 0x1_0000
    ensures Pow256(U32) == 0x1_0000_0000 && Pow256(ENUM) == 0x1_0000_0000
  {
  }

  /** The in-memory representation of an unsigned `width`-byte value. The
      source copies raw memory; the host byte order is taken to be
      little-endian (least significant byte first). */
  function Bytes(v: nat, width: nat): (r: seq<byte>)
    requires v < Pow256(width)
    ensures |r| == width
  {
    if width == 0 then []
    else
      DivBound(v, width);
      [(v % 256) as byte] + Bytes(v / 256, width - 1)
  }

  lemma DivBound(v: nat, width: nat)
    requires width > 0 && v < Pow256(width)
    ensures v / 256 < Pow256(width - 1)
  {
  }

  /** The value whose in-memory representation is `bs`. */
  function Value(bs: seq<byte>): (v: nat)
    ensures v < Pow256(|bs|)
  {
    if bs == [] then 0 else bs[0] as nat + 256 * Value(bs[1..])
  }

  /** Reading back the bytes of a value gives the value. */
  lemma {:induction false} ValueOfBytes(v: nat, width: nat)
    requires v < Pow256(width)
    ensures Value(Bytes(v, width)) == v
  {
    if width > 0 {
      DivBound(v, width);
      var t := Bytes(v / 256, width - 1);
      ValueOfBytes(v / 256, width - 1);
      assert Bytes(v, width)[1..] == t;
    }
  }

  /** Two values of one width have the same bytes only if they are equal. */
  lemma BytesInjective(a: nat, b: nat, width: nat)
    requires a < Pow256(width) && b < Pow256(width)
    requires Bytes(a, width) == Bytes(b, width)
    ensures a == b
  {
    ValueOfBytes(a, width);
    ValueOfBytes(b, width);
  }

  /** template read<T>: consumes exactly `width` bytes from the front of `bs`;
      None when fewer remain (readBytes asserts index + size <= length). */
  function DecodePrim(bs: seq<byte>, width: nat): (r: Option<(nat, seq<byte>)>)
    requires width > 0
    ensures r.Some? <==> width <= |bs|
    ensures r.Some? ==> r.value.0 < Pow256(width) && r.value.1 == bs[width..]
  {
    if width <= |bs| then Some((Value(bs[..width]), bs[width..])) else None
  }

  /** Writing a primitive and reading it back recovers it and leaves exactly
      what followed. */
  lemma DecodePrimBytes(v: nat, width: nat, rest: seq<byte>)
    requires width > 0 && v < Pow256(width)
    ensures DecodePrim(Bytes(v, width) + rest, width) == Some((v, rest))
  {
    var bs := Bytes(v, width) + rest;
    assert bs[..width] == Bytes(v, width);
    assert bs[width..] == rest;
    ValueOfBytes(v, width);
  }

  /** write(std::string): a size_t length prefix, then the raw characters with
      no terminator. */
  function EncodeString(s: seq<byte>): (r: seq<byte>)
    requires |s| < SIZE_LIMIT
    ensures |r| == SIZE_T + |s| && r[SIZE_T..] == s
  {
    SizeLimit();
    Bytes(|s|, SIZE_T) + s
  }

  /** read(std::string): None when the prefix is missing, when the string is
      empty (readBytes asserts size > 0) or when it is longer than what
      remains. */
  function DecodeString(bs: seq<byte>): (r: Option<(seq<byte>, seq<byte>)>)
    ensures r.Some? ==> 0 < |r.value.0| && |r.value.0| + SIZE_T <= |bs|
  {
    var prefix :- DecodePrim(bs, SIZE_T);
    var n, rest := prefix.0, prefix.1;
    if n == 0 || n > |rest| then None else Some((rest[..n], rest[n..]))
  }

  /** A non-empty string round-trips. */
  lemma DecodeEncodeString(s: seq<byte>, rest: seq<byte>)
    requires 0 < |s| < SIZE_LIMIT
    ensures DecodeString(EncodeString(s) + rest) == Some((s, rest))
  {
    SizeLimit();
    assert EncodeString(s) + rest == Bytes(|s|, SIZE_T) + (s + rest);
    DecodePrimBytes(|s|, SIZE_T, s + rest);
    assert (s + rest)[..|s|] == s;
    assert (s + rest)[|s|..] == rest;
  }

  /** An encoded empty string is the size prefix alone, and it does not decode:
      both directions would pass size 0 to writeBytes/readBytes. */
  lemma EmptyStringRejected(rest: seq<byte>)
    ensures EncodeString([]) == Bytes(0, SIZE_T)
    ensures DecodeString(EncodeString([]) + rest) == None
  {
    SizeLimit();
    DecodePrimBytes(0, SIZE_T, rest);
  }

  /** The elements of a vector written one after another, in order. */
  function Concat<T>(xs: seq<T>, enc: T -> seq<byte>): seq<byte>
  {
    if xs == [] then [] else enc(xs[0]) + Concat(xs[1..], enc)
  }

  /** template write(std::vector<T>): the size, then every element in order. */
  function EncodeSeq<T>(xs: seq<T>, enc: T -> seq<byte>): (r: seq<byte>)
    requires |xs| < SIZE_LIMIT
    ensures SIZE_T <= |r| && r[..SIZE_T] == Bytes(|xs|, SIZE_T) && r[SIZE_T..] == Concat(xs, enc)
  {
    SizeLimit();
    Bytes(|xs|, SIZE_T) + Concat(xs, enc)
  }

  /** Decodes `n` elements one after another. */
  function DecodeElems<T>(bs: seq<byte>, n: nat, dec: seq<byte> -> Option<(T, seq<byte>)>)
    : (r: Option<(seq<T>, seq<byte>)>)
    ensures r.Some? ==> |r.value.0| == n
    decreases n
  {
    if n == 0 then Some(([], bs))
    else
      var first :- dec(bs);
      var others :- DecodeElems(first.1, n - 1, dec);
      Some(([first.0] + others.0, others.1))
  }

  /** template read(std::vector<T>): reads the size, resizes, then reads every
      element in order. */
  function DecodeSeq<T>(bs: seq<byte>, dec: seq<byte> -> Option<(T, seq<byte>)>)
    : (r: Option<(seq<T>, seq<byte>)>)
  {
    var prefix :- DecodePrim(bs, SIZE_T);
    DecodeElems(prefix.1, prefix.0, dec)
  }

  /** `dec` reads back what `enc` writes for `x`, whatever follows it. */
  ghost predicate RoundTrips<T>(enc: T -> seq<byte>, dec: seq<byte> -> Option<(T, seq<byte>)>, x: T)
  {
    forall rest: seq<byte> :: dec(enc(x) + rest) == Some((x, rest))
  }

  lemma {:induction false} DecodeElemsConcat<T>(xs: seq<T>, enc: T -> seq<byte>,
                                              dec: seq<byte> -> Option<(T, seq<byte>)>,
                                              rest: seq<byte>)
    requires forall x :: x in xs ==> RoundTrips(enc, dec, x)
    ensures DecodeElems(Concat(xs, enc) + rest, |xs|, dec) == Some((xs, rest))
  {
    if xs != [] {
      var tail := Concat(xs[1..], enc) + rest;
      assert Concat(xs, enc) + rest == enc(xs[0]) + tail;
      assert RoundTrips(enc, dec, xs[0]);
      assert dec(enc(xs[0]) + tail) == Some((xs[0], tail));
      DecodeElemsConcat(xs[1..], enc, dec, rest);
      assert DecodeElems(tail, |xs| - 1, dec) == Some((xs[1..], rest));
      assert [xs[0]] + xs[1..] == xs;
    } else {
      assert Concat(xs, enc) + rest == rest;
    }
  }

  /** Appending one more element's bytes extends the concatenation. */
  lemma {:induction false} ConcatSnoc<T>(xs: seq<T>, i: nat, enc: T -> seq<byte>)
    requires i < |xs|
    ensures Concat(xs[..i + 1], enc) == Concat(xs[..i], enc) + enc(xs[i])
  {
    if i == 0 {
      assert xs[..1] == [xs[0]];
      assert Concat(xs[..1], enc) == enc(xs[0]) + Concat(xs[..1][1..], enc);
      assert xs[..1][1..] == [];
    } else {
      var t := xs[1..];
      ConcatSnoc(t, i - 1, enc);
      assert xs[..i + 1][1..] == t[..i];
      assert xs[..i][1..] == t[..i - 1];
      assert xs[..i + 1][0] == xs[0] && xs[..i][0] == xs[0];
    }
  }

  /** Regrouping of appended pieces, for the write methods. */
  lemma Append4(a: seq<byte>, b: seq<byte>, c: seq<byte>, d: seq<byte>, e: seq<byte>)
    ensures a + b + c + d + e == a + (b + c + d + e)
  {
  }

  lemma Append3(a: seq<byte>, b: seq<byte>, c: seq<byte>, d: seq<byte>)
    ensures a + b + c + d == a + (b + c + d)
  {
  }

  lemma Append2(a: seq<byte>, b: seq<byte>, c: seq<byte>)
    ensures a + b + c == a + (b + c)
  {
  }

  /** A vector read starts with its count, then reads that many elements. */
  lemma DecodeSeqStart<T>(bs: seq<byte>, dec: seq<byte> -> Option<(T, seq<byte>)>,
                          n: nat, next: seq<byte>)
    requires DecodeSeq(bs, dec).Some? && DecodePrim(bs, SIZE_T) == Some((n, next))
    ensures DecodeElems(next, n, dec) == DecodeSeq(bs, dec)
  {
  }

  /** One element of a vector read: the element just read is the first of the
      remaining ones, and the others follow from where it ended. */
  lemma DecodeElemsStep<T>(bs: seq<byte>, n: nat, dec: seq<byte> -> Option<(T, seq<byte>)>,
                           x: T, next: seq<byte>, ys: seq<T>, rest: seq<byte>)
    requires n > 0 && dec(bs) == Some((x, next))
    requires DecodeElems(bs, n, dec) == Some((ys, rest))
    ensures |ys| == n && ys[0] == x && DecodeElems(next, n - 1, dec) == Some((ys[1..], rest))
  {
    var others := DecodeElems(next, n - 1, dec);
    assert others.Some? && ys == [x] + others.value.0;
    assert ys[1..] == others.value.0;
  }

  /** A vector round-trips, keeping the order of its elements, whenever each
      of its elements does. */
  lemma DecodeEncodeSeq<T>(xs: seq<T>, enc: T -> seq<byte>,
                           dec: seq<byte> -> Option<(T, seq<byte>)>, rest: seq<byte>)
    requires |xs| < SIZE_LIMIT
    requires forall x :: x in xs ==> RoundTrips(enc, dec, x)
    ensures DecodeSeq(EncodeSeq(xs, enc) + rest, dec) == Some((xs, rest))
  {
    SizeLimit();
    assert EncodeSeq(xs, enc) + rest == Bytes(|xs|, SIZE_T) + (Concat(xs, enc) + rest);
    DecodePrimBytes(|xs|, SIZE_T, Concat(xs, enc) + rest);
    DecodeElemsConcat(xs, enc, dec, rest);
  }

  /** An empty vector is its size prefix alone and decodes to an empty vector
      without consuming anything more. */
  lemma EmptySeq<T>(enc: T -> seq<byte>, dec: seq<byte> -> Option<(T, seq<byte>)>, rest: seq<byte>)
    ensures EncodeSeq([], enc) == Bytes(0, SIZE_T)
    ensures DecodeSeq(EncodeSeq([], enc) + rest, dec) == Some(([], rest))
  {
    SizeLimit();
    DecodePrimBytes(0, SIZE_T, rest);
  }

  /** BitStreamWriter: a growing byte buffer. */
  class Writer {
    var buffer: seq<byte>

    constructor ()
      ensures buffer == []
    {
      buffer := [];
    }

    /** Appends exactly `data`; earlier bytes are unchanged. The source asserts
        a non-empty write. */
    method WriteBytes(data: seq<byte>)
      requires |data| > 0
      modifies this
      ensures buffer == old(buffer) + data
      ensures |buffer| == old(|buffer|) + |data| && buffer[..old(|buffer|)] == old(buffer)
    {
      buffer := buffer + data;
    }

    /** Number of bytes written so far. */
    function Size(): nat
      reads this
    {
      |buffer|
    }

    /** Empties the buffer. */
    method Reset()
      modifies this
      ensures buffer == [] && Size() == 0
    {
      buffer := [];
    }
  }

  /** template write<T>: appends the raw bytes of a fixed-width value. */
  method WritePrim(w: Writer, v: nat, width: nat)
    requires 0 < width && v < Pow256(width)
    modifies w
    ensures w.buffer == old(w.buffer) + Bytes(v, width)
  {
    w.WriteBytes(Bytes(v, width));
  }

  /** write(std::string): the length, then the characters. Both writes go
      through writeBytes, so the string must not be empty. */
  method WriteString(w: Writer, s: seq<byte>)
    requires 0 < |s| < SIZE_LIMIT
    modifies w
    ensures w.buffer == old(w.buffer) + EncodeString(s)
  {
    SizeLimit();
    WritePrim(w, |s|, SIZE_T);
    w.WriteBytes(s);
  }

  /** BitStreamReader: a read position over a fixed, non-empty byte buffer. */
  class Reader {
    const buffer: seq<byte>
    var index: nat

    ghost predicate Valid()
      reads this
    {
      index <= |buffer|
    }

    constructor (data: seq<byte>)
      requires |data| > 0
      ensures Valid() && buffer == data && index == 0
    {
      buffer := data;
      index := 0;
    }

    /** restVector: the bytes not yet read. */
    function Rest(): (r: seq<byte>)
      reads this
      requires Valid()
      ensures |r| == |buffer| - index && buffer[..index] + r == buffer
    {
      buffer[index..]
    }

    /** Everything has been read. */
    predicate Eof()
      reads this
      requires Valid()
      ensures Eof() <==> Rest() == []
    {
      index == |buffer|
    }

    /** Copies out the next `size` bytes and advances past them. */
    method ReadBytes(size: nat) returns (out: seq<byte>)
      requires Valid() && size > 0 && index + size <= |buffer|
      modifies this
      ensures Valid() && index == old(index) + size
      ensures out == buffer[old(index)..index] && old(Rest()) == out + Rest()
    {
      out := buffer[index..index + size];
      index := index + size;
      assert buffer[old(index)..] == out + buffer[index..];
    }

    /** Advances the position without reading; it never passes the end. */
    method Skip(offset: nat)
      requires Valid() && index + offset <= |buffer|
      modifies this
      ensures Valid() && index == old(index) + offset && Rest() == old(Rest())[offset..]
    {
      index := index + offset;
    }
  }

  /** template read<T>: reads a fixed-width value. */
  method ReadPrim(r: Reader, width: nat) returns (v: nat)
    requires r.Valid() && width > 0 && DecodePrim(r.Rest(), width).Some?
    modifies r
    ensures r.Valid() && old(DecodePrim(r.Rest(), width)) == Some((v, r.Rest()))
  {
    var bs := r.ReadBytes(width);
    v := Value(bs);
    assert old(r.Rest())[..width] == bs;
  }

  /** read(std::string): the length, then that many characters. */
  method ReadString(r: Reader) returns (s: seq<byte>)
    requires r.Valid() && DecodeString(r.Rest()).Some?
    modifies r
    ensures r.Valid() && old(DecodeString(r.Rest())) == Some((s, r.Rest()))
  {
    var n := ReadPrim(r, SIZE_T);
    s := r.ReadBytes(n);
  }
}
