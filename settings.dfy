// PlayerInfo and GameSettings of common/GameSettings.{hh,cc}: what the server
// sends every client when the game starts, and their wire encoding.
module Settings {
  import opened Common
  import opened Defs
  import opened BitStream

  /** A string the wire format can carry: its length fits a size_t. */
  type Name = s: seq<byte> | |s| < SIZE_LIMIT

  datatype PlayerInfo = PlayerInfo(id: PlayerId, name: Name, team: u32, color: u8)

  datatype GameSettings = GameSettings(
    players: seq<PlayerInfo>,
    randomSeed: u32,
    mapW: u32,
    mapH: u32,
    heightLimit: u32,
    tickLengthMs: u32)

  /** write(PlayerInfo): id, name, team, color. */
  function EncodePlayer(p: PlayerInfo): seq<byte>
  {
    Widths();
    Bytes(p.id as nat, U16) + EncodeString(p.name) + Bytes(p.team as nat, U32) + Bytes(p.color as nat, U8)
  }

  /** read(PlayerInfo). An empty name is rejected, as read(std::string) is. */
  function DecodePlayer(bs: seq<byte>): Option<(PlayerInfo, seq<byte>)>
  {
    Widths();
    var id :- DecodePrim(bs, U16);
    var name :- DecodeString(id.1);
    var team :- DecodePrim(name.1, U32);
    var color :- DecodePrim(team.1, U8);
    SizeLimit();
    Some((PlayerInfo(id.0 as PlayerId, name.0, team.0 as u32, color.0 as u8), color.1))
  }

  /** A player with a non-empty name round-trips. */
  lemma DecodeEncodePlayer(p: PlayerInfo, rest: seq<byte>)
    requires |p.name| > 0
    ensures DecodePlayer(EncodePlayer(p) + rest) == Some((p, rest))
  {
    Widths();
    var b1, b2, b3, b4 := Bytes(p.id as nat, U16), EncodeString(p.name),
                          Bytes(p.team as nat, U32), Bytes(p.color as nat, U8);
    assert EncodePlayer(p) + rest == b1 + (b2 + (b3 + (b4 + rest)));
    DecodePrimBytes(p.id as nat, U16, b2 + (b3 + (b4 + rest)));
    DecodeEncodeString(p.name, b3 + (b4 + rest));
    DecodePrimBytes(p.team as nat, U32, b4 + rest);
    DecodePrimBytes(p.color as nat, U8, rest);
  }

  /** A player with an empty name cannot be read back. */
  lemma EmptyNameRejected(p: PlayerInfo, rest: seq<byte>)
    requires p.name == []
    ensures DecodePlayer(EncodePlayer(p) + rest) == None
  {
    Widths();
    var b1, b2, b3 := Bytes(p.id as nat, U16), EncodeString(p.name),
                      Bytes(p.team as nat, U32) + Bytes(p.color as nat, U8);
    assert EncodePlayer(p) + rest == b1 + (b2 + (b3 + rest));
    DecodePrimBytes(p.id as nat, U16, b2 + (b3 + rest));
    EmptyStringRejected(b3 + rest);
  }

  /** The bytes of the five u32 settings that follow the player vector. */
  function EncodeNumbers(s: GameSettings): seq<byte>
  {
    Widths();
    Bytes(s.randomSeed as nat, U32) + Bytes(s.mapW as nat, U32) + Bytes(s.mapH as nat, U32)
      + Bytes(s.heightLimit as nat, U32) + Bytes(s.tickLengthMs as nat, U32)
  }

  /** write(GameSettings): the players, then seed, map size, height limit and
      tick length. */
  function EncodeSettings(s: GameSettings): seq<byte>
    requires |s.players| < SIZE_LIMIT
  {
    EncodeSeq(s.players, EncodePlayer) + EncodeNumbers(s)
  }

  /** read(GameSettings) of the five u32 settings, given the players. */
  function DecodeNumbers(players: seq<PlayerInfo>, bs: seq<byte>): Option<(GameSettings, seq<byte>)>
  {
    Widths();
    var seed :- DecodePrim(bs, U32);
    var w :- DecodePrim(seed.1, U32);
    var h :- DecodePrim(w.1, U32);
    var limit :- DecodePrim(h.1, U32);
    var tick :- DecodePrim(limit.1, U32);
    Some((GameSettings(players, seed.0 as u32, w.0 as u32, h.0 as u32, limit.0 as u32, tick.0 as u32), tick.1))
  }

  /** read(GameSettings). */
  function DecodeSettings(bs: seq<byte>): Option<(GameSettings, seq<byte>)>
  {
    var players :- DecodeSeq(bs, DecodePlayer);
    DecodeNumbers(players.0, players.1)
  }

  /** Every player name is non-empty, as the wire format needs. */
  predicate NamesNonEmpty(s: GameSettings)
  {
    forall p :: p in s.players ==> |p.name| > 0
  }

  lemma DecodeEncodeNumbers(s: GameSettings, rest: seq<byte>)
    ensures DecodeNumbers(s.players, EncodeNumbers(s) + rest) == Some((s, rest))
  {
    Widths();
    var b1, b2, b3, b4, b5 := Bytes(s.randomSeed as nat, U32), Bytes(s.mapW as nat, U32),
                              Bytes(s.mapH as nat, U32), Bytes(s.heightLimit as nat, U32),
                              Bytes(s.tickLengthMs as nat, U32);
    assert EncodeNumbers(s) + rest == b1 + (b2 + (b3 + (b4 + (b5 + rest))));
    DecodePrimBytes(s.randomSeed as nat, U32, b2 + (b3 + (b4 + (b5 + rest))));
    DecodePrimBytes(s.mapW as nat, U32, b3 + (b4 + (b5 + rest)));
    DecodePrimBytes(s.mapH as nat, U32, b4 + (b5 + rest));
    DecodePrimBytes(s.heightLimit as nat, U32, b5 + rest);
    DecodePrimBytes(s.tickLengthMs as nat, U32, rest);
  }

  /** Settings whose player names are all non-empty round-trip, keeping the
      order of the players. */
  lemma DecodeEncodeSettings(s: GameSettings, rest: seq<byte>)
    requires |s.players| < SIZE_LIMIT && NamesNonEmpty(s)
    ensures DecodeSettings(EncodeSettings(s) + rest) == Some((s, rest))
  {
    forall p | p in s.players
      ensures RoundTrips(EncodePlayer, DecodePlayer, p)
    {
      forall rest': seq<byte> {
        DecodeEncodePlayer(p, rest');
      }
    }
    var tail := EncodeNumbers(s) + rest;
    assert EncodeSettings(s) + rest == EncodeSeq(s.players, EncodePlayer) + tail;
    DecodeEncodeSeq(s.players, EncodePlayer, DecodePlayer, tail);
    DecodeEncodeNumbers(s, rest);
  }

  /** write(PlayerInfo). The name goes through writeBytes, which asserts a
      non-empty write. */
  method WritePlayer(w: Writer, p: PlayerInfo)
    requires |p.name| > 0
    modifies w
    ensures w.buffer == old(w.buffer) + EncodePlayer(p)
  {
    Widths();
    ghost var pre := w.buffer;
    WritePrim(w, p.id as nat, U16);
    WriteString(w, p.name);
    WritePrim(w, p.team as nat, U32);
    WritePrim(w, p.color as nat, U8);
    Append4(pre, Bytes(p.id as nat, U16), EncodeString(p.name), Bytes(p.team as nat, U32), Bytes(p.color as nat, U8));
  }

  /** read(PlayerInfo). */
  method ReadPlayer(r: Reader) returns (p: PlayerInfo)
    requires r.Valid() && DecodePlayer(r.Rest()).Some?
    modifies r
    ensures r.Valid() && old(DecodePlayer(r.Rest())) == Some((p, r.Rest()))
  {
    Widths();
    var id := ReadPrim(r, U16);
    var name := ReadString(r);
    var team := ReadPrim(r, U32);
    var color := ReadPrim(r, U8);
    SizeLimit();
    p := PlayerInfo(id as PlayerId, name, team as u32, color as u8);
  }

  /** template write(std::vector<PlayerInfo>). */
  method WritePlayers(w: Writer, ps: seq<PlayerInfo>)
    requires |ps| < SIZE_LIMIT
    requires forall p :: p in ps ==> |p.name| > 0
    modifies w
    ensures w.buffer == old(w.buffer) + EncodeSeq(ps, EncodePlayer)
  {
    SizeLimit();
    ghost var pre := w.buffer;
    WritePrim(w, |ps|, SIZE_T);
    ghost var start := w.buffer;
    var i := 0;
    while i < |ps|
      invariant 0 <= i <= |ps|
      invariant w.buffer == start + Concat(ps[..i], EncodePlayer)
    {
      WritePlayer(w, ps[i]);
      ConcatSnoc(ps, i, EncodePlayer);
      Append2(start, Concat(ps[..i], EncodePlayer), EncodePlayer(ps[i]));
      i := i + 1;
    }
    assert ps[..|ps|] == ps;
    Append2(pre, Bytes(|ps|, SIZE_T), Concat(ps, EncodePlayer));
  }

  /** One player of a vector read, appended to the `ps` read so far; `rem`
      are the `left` players still to read, in order. */
  method ReadPlayerInto(r: Reader, ps: seq<PlayerInfo>, left: nat, ghost rem: seq<PlayerInfo>, ghost ys: seq<PlayerInfo>, ghost rest: seq<byte>)
    returns (more: seq<PlayerInfo>, ghost rem': seq<PlayerInfo>)
    requires r.Valid() && left > 0 && left == |rem| && ps + rem == ys
    requires DecodeElems(r.Rest(), left, DecodePlayer) == Some((rem, rest))
    modifies r
    ensures r.Valid() && left - 1 == |rem'| && more + rem' == ys
    ensures DecodeElems(r.Rest(), left - 1, DecodePlayer) == Some((rem', rest))
  {
    ghost var before := r.Rest();
    var p := ReadPlayer(r);
    DecodeElemsStep(before, left, DecodePlayer, p, r.Rest(), rem, rest);
    more, rem' := ps + [p], rem[1..];
    assert more + rem' == ps + rem;
  }

  /** template read(std::vector<PlayerInfo>). */
  method ReadPlayers(r: Reader) returns (ps: seq<PlayerInfo>)
    requires r.Valid() && DecodeSeq(r.Rest(), DecodePlayer).Some?
    modifies r
    ensures r.Valid() && old(DecodeSeq(r.Rest(), DecodePlayer)) == Some((ps, r.Rest()))
  {
    ghost var start := r.Rest();
    var n := ReadPrim(r, SIZE_T);
    DecodeSeqStart(start, DecodePlayer, n, r.Rest());
    ghost var all := DecodeElems(r.Rest(), n, DecodePlayer).value;
    ps := ReadPlayerElems(r, n, all.0, all.1);
  }

  /** The element loop of a vector read: `n` players, in order. */
  method ReadPlayerElems(r: Reader, n: nat, ghost ys: seq<PlayerInfo>, ghost rest: seq<byte>) returns (ps: seq<PlayerInfo>)
    requires r.Valid() && DecodeElems(r.Rest(), n, DecodePlayer) == Some((ys, rest))
    modifies r
    ensures r.Valid() && ps == ys && r.Rest() == rest
  {
    ps := [];
    ghost var rem := ys;
    var left := n;
    while left > 0
      invariant r.Valid() && left == |rem|
      invariant DecodeElems(r.Rest(), left, DecodePlayer) == Some((rem, rest))
      invariant ps + rem == ys
    {
      ps, rem := ReadPlayerInto(r, ps, left, rem, ys, rest);
      left := left - 1;
    }
    assert ps == ps + rem;
  }

  /** write(GameSettings). */
  method WriteSettings(w: Writer, s: GameSettings)
    requires |s.players| < SIZE_LIMIT && NamesNonEmpty(s)
    modifies w
    ensures w.buffer == old(w.buffer) + EncodeSettings(s)
  {
    Widths();
    ghost var pre := w.buffer;
    WritePlayers(w, s.players);
    ghost var mid := w.buffer;
    WritePrim(w, s.randomSeed as nat, U32);
    WritePrim(w, s.mapW as nat, U32);
    WritePrim(w, s.mapH as nat, U32);
    WritePrim(w, s.heightLimit as nat, U32);
    WritePrim(w, s.tickLengthMs as nat, U32);
    Append4(mid, Bytes(s.randomSeed as nat, U32), Bytes(s.mapW as nat, U32),
            Bytes(s.mapH as nat, U32), Bytes(s.heightLimit as nat, U32));
    Append2(mid, Bytes(s.randomSeed as nat, U32) + Bytes(s.mapW as nat, U32) + Bytes(s.mapH as nat, U32)
                 + Bytes(s.heightLimit as nat, U32), Bytes(s.tickLengthMs as nat, U32));
    Append2(pre, EncodeSeq(s.players, EncodePlayer), EncodeNumbers(s));
  }

  /** read(GameSettings). */
  method ReadSettings(r: Reader) returns (s: GameSettings)
    requires r.Valid() && DecodeSettings(r.Rest()).Some?
    modifies r
    ensures r.Valid() && old(DecodeSettings(r.Rest())) == Some((s, r.Rest()))
  {
    Widths();
    var players := ReadPlayers(r);
    var seed := ReadPrim(r, U32);
    var w := ReadPrim(r, U32);
    var h := ReadPrim(r, U32);
    var limit := ReadPrim(r, U32);
    var tick := ReadPrim(r, U32);
    s := GameSettings(players, seed as u32, w as u32, h as u32, limit as u32, tick as u32);
  }
}
