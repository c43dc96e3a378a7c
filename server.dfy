// The lockstep server of server/Server.cc. Its globals are the fields of
// one Server object; ENet is abstracted away: a connection, a received
// message and a disconnection are method calls naming the client by its
// position in the client list, and every message sent is appended to the
// outbox, addressed to the receiving client's player id.
module Servers {
  import opened Defs
  import opened Orders
  import opened Settings
  import opened Messages

  /** ClientInfo: the ticks the client reported done and its PlayerInfo. */
  datatype ClientInfo = ClientInfo(ticksDone: nat, player: PlayerInfo)

  /** A message sent to the client of player `to`. */
  datatype Packet = Packet(to: PlayerId, msg: Message)

  /** numWaitPlayers in main: the game starts once this many clients are connected. */
  const NUM_WAIT_PLAYERS: nat := 1

  /** The settings main fills in before serving: a 256 x 256 map, height
      limit 15, 50 ms ticks and the clock's time as the random seed. */
  function InitialSettings(seed: u32): GameSettings
  {
    GameSettings([], seed, 256, 256, 15, 50)
  }

  /** broadcast(m): one packet per client, in connection order. */
  function Fanout(clients: seq<ClientInfo>, m: Message): (r: seq<Packet>)
    ensures |r| == |clients|
    ensures forall i | 0 <= i < |r| :: r[i] == Packet(clients[i].player.id, m)
  {
    if |clients| == 0 then [] else Fanout(clients[..|clients| - 1], m) + [Packet(clients[|clients| - 1].player.id, m)]
  }

  /** The PlayerInfo of every client, in connection order. */
  function PlayersOf(clients: seq<ClientInfo>): (r: seq<PlayerInfo>)
    ensures |r| == |clients|
    ensures forall i | 0 <= i < |r| :: r[i] == clients[i].player
  {
    if |clients| == 0 then [] else PlayersOf(clients[..|clients| - 1]) + [clients[|clients| - 1].player]
  }

  /** A new ClientInfo for the `n`-th player id: nothing done yet, no name,
      team `n` and colour `n % 4`. */
  function NewClient(n: PlayerId): ClientInfo
  {
    ClientInfo(0, PlayerInfo(n, [], n as u32, (n % 4) as u8))
  }

  /** ++playerCounter on the 16-bit PlayerId. */
  function NextPlayerId(n: PlayerId): (r: PlayerId)
    ensures r as int == (n as int + 1) % 0x1_0000
  {
    if n == 0xFFFF then 0 else n + 1
  }

  class Server {
    var settings: GameSettings
    var gameStarted: bool
    var playerCounter: PlayerId
    var clients: seq<ClientInfo>
    var ticksStarted: nat
    var nextOrders: seq<Order>
    var outbox: seq<Packet>
    var quit: bool
    /** The connections accepted so far; playerCounter is their number
        modulo 2^16. */
    ghost var accepted: nat

    /** Every client has reported at most the ticks started, and at most
        two fewer (the drift bound). Before the start nothing is started
        or buffered and no player is listed; after it at least two ticks
        are started. Until the 16-bit counter wraps, player ids are
        positive, at most the counter, and distinct. */
    ghost predicate Valid()
      reads this
    {
      (forall i | 0 <= i < |clients| :: clients[i].ticksDone <= ticksStarted <= clients[i].ticksDone + 2) &&
      (!gameStarted ==> ticksStarted == 0 && nextOrders == [] && settings.players == []) &&
      (gameStarted ==> ticksStarted >= 2) &&
      playerCounter as int == accepted % 0x1_0000 &&
      (accepted < 0x1_0000 ==>
         (forall i | 0 <= i < |clients| :: 0 < clients[i].player.id <= playerCounter) &&
         (forall i, j | 0 <= i < j < |clients| :: clients[i].player.id != clients[j].player.id))
    }

    /** Every client has finished the tick before the last one started
        (prevTickDone in main). */
    predicate CaughtUp()
      reads this
    {
      forall i | 0 <= i < |clients| :: ticksStarted <= clients[i].ticksDone + 1
    }

    /** The state of main before its loop. */
    constructor (seed: u32)
      ensures Valid()
      ensures settings == InitialSettings(seed) && !gameStarted && playerCounter == 0 && clients == []
      ensures ticksStarted == 0 && nextOrders == [] && outbox == [] && !quit
    {
      settings := InitialSettings(seed);
      gameStarted := false;
      playerCounter := 0;
      clients := [];
      ticksStarted := 0;
      nextOrders := [];
      outbox := [];
      quit := false;
      accepted := 0;
    }

    /** broadcast(m). */
    method Broadcast(m: Message)
      modifies this
      ensures outbox == old(outbox) + Fanout(clients, m)
      ensures settings == old(settings) && gameStarted == old(gameStarted) && playerCounter == old(playerCounter)
      ensures clients == old(clients) && ticksStarted == old(ticksStarted) && nextOrders == old(nextOrders)
      ensures quit == old(quit) && accepted == old(accepted)
    {
      var i := 0;
      while i < |clients|
        invariant i <= |clients|
        invariant outbox == old(outbox) + Fanout(clients[..i], m)
        invariant settings == old(settings) && gameStarted == old(gameStarted) && playerCounter == old(playerCounter)
        invariant clients == old(clients) && ticksStarted == old(ticksStarted) && nextOrders == old(nextOrders)
        invariant quit == old(quit) && accepted == old(accepted)
      {
        assert clients[..i + 1][..i] == clients[..i];
        outbox := outbox + [Packet(clients[i].player.id, m)];
        i := i + 1;
      }
      assert clients[..i] == clients;
    }

    /** startTick: the buffered orders go out to every client as one
        SERVER_TICK, in arrival order; the buffer empties and one more tick
        is started. The caller admits the tick only when every client has
        caught up. */
    method StartTick()
      requires gameStarted && CaughtUp()
      requires forall i | 0 <= i < |clients| :: clients[i].ticksDone <= ticksStarted
      modifies this
      ensures outbox == old(outbox) + Fanout(clients, ServerTick(old(nextOrders)))
      ensures nextOrders == [] && ticksStarted == old(ticksStarted) + 1
      ensures settings == old(settings) && gameStarted && playerCounter == old(playerCounter)
      ensures clients == old(clients) && quit == old(quit) && accepted == old(accepted)
      ensures forall i | 0 <= i < |clients| :: clients[i].ticksDone <= ticksStarted <= clients[i].ticksDone + 2
    {
      Broadcast(ServerTick(nextOrders));
      ticksStarted := ticksStarted + 1;
      nextOrders := [];
    }

    /** startGame: the settings list every client's PlayerInfo in
        connection order and go out to every client in SERVER_START. */
    method StartGame()
      requires !gameStarted && settings.players == []
      modifies this
      ensures settings == old(settings).(players := PlayersOf(clients))
      ensures outbox == old(outbox) + Fanout(clients, ServerStart(settings))
      ensures gameStarted && playerCounter == old(playerCounter) && clients == old(clients)
      ensures ticksStarted == old(ticksStarted) && nextOrders == old(nextOrders)
      ensures quit == old(quit) && accepted == old(accepted)
    {
      var i := 0;
      while i < |clients|
        invariant i <= |clients|
        invariant settings == old(settings).(players := PlayersOf(clients[..i]))
        invariant outbox == old(outbox) && !gameStarted && playerCounter == old(playerCounter)
        invariant clients == old(clients) && ticksStarted == old(ticksStarted) && nextOrders == old(nextOrders)
        invariant quit == old(quit) && accepted == old(accepted)
      {
        assert clients[..i + 1][..i] == clients[..i];
        settings := settings.(players := settings.players + [clients[i].player]);
        i := i + 1;
      }
      assert clients[..i] == clients;
      Broadcast(ServerStart(settings));
      gameStarted := true;
    }

    /** The first step of main's loop: once exactly NUM_WAIT_PLAYERS clients
        are connected, the game starts and two ticks are started at once. */
    method MaybeStartGame()
      requires Valid()
      modifies this
      ensures Valid()
      ensures old(!gameStarted && |clients| == NUM_WAIT_PLAYERS) ==>
                gameStarted && ticksStarted == 2 && nextOrders == [] &&
                settings == old(settings).(players := PlayersOf(clients)) &&
                outbox == old(outbox) + Fanout(clients, ServerStart(settings)) +
                          Fanout(clients, ServerTick([])) + Fanout(clients, ServerTick([]))
      ensures !old(!gameStarted && |clients| == NUM_WAIT_PLAYERS) ==>
                outbox == old(outbox) && ticksStarted == old(ticksStarted) && settings == old(settings) &&
                gameStarted == old(gameStarted)
      ensures clients == old(clients) && playerCounter == old(playerCounter) && quit == old(quit)
    {
      if !gameStarted && |clients| == NUM_WAIT_PLAYERS {
        StartGame();
        StartTick();
        StartTick();
      }
    }

    /** prevTickDone in main: whether every client has caught up. */
    method PrevTickDone() returns (done: bool)
      requires gameStarted && Valid()
      ensures done <==> CaughtUp()
    {
      done := true;
      var i := 0;
      while i < |clients|
        invariant i <= |clients|
        invariant done <==> forall j | 0 <= j < i :: ticksStarted <= clients[j].ticksDone + 1
      {
        done := done && clients[i].ticksDone >= ticksStarted - 1;
        i := i + 1;
      }
    }

    /** The second step of main's loop: after the start, a new tick starts
        exactly when every client has caught up. */
    method MaybeStartTick() returns (started: bool)
      requires Valid()
      modifies this
      ensures Valid()
      ensures started <==> old(gameStarted && CaughtUp())
      ensures started ==> outbox == old(outbox) + Fanout(clients, ServerTick(old(nextOrders))) &&
                          nextOrders == [] && ticksStarted == old(ticksStarted) + 1
      ensures !started ==> outbox == old(outbox) && nextOrders == old(nextOrders) && ticksStarted == old(ticksStarted)
      ensures clients == old(clients) && settings == old(settings) && gameStarted == old(gameStarted)
      ensures playerCounter == old(playerCounter) && quit == old(quit)
    {
      started := false;
      if gameStarted {
        started := PrevTickDone();
        if started {
          StartTick();
        }
      }
    }

    /** ENET_EVENT_TYPE_CONNECT: after the start the connection is
        rejected; before it the client joins the end of the list under the
        next player id. */
    method Connect() returns (ok: bool)
      requires Valid()
      modifies this
      ensures Valid()
      ensures ok <==> !old(gameStarted)
      ensures !ok ==> clients == old(clients) && playerCounter == old(playerCounter)
      ensures ok ==> playerCounter == NextPlayerId(old(playerCounter)) && clients == old(clients) + [NewClient(playerCounter)]
      ensures ok && old(accepted) < 0xFFFF ==> 0 < playerCounter && forall i | 0 <= i < |old(clients)| :: old(clients)[i].player.id < playerCounter
      ensures settings == old(settings) && gameStarted == old(gameStarted) && ticksStarted == old(ticksStarted)
      ensures nextOrders == old(nextOrders) && outbox == old(outbox) && quit == old(quit)
    {
      if gameStarted {
        return false;
      }
      playerCounter := NextPlayerId(playerCounter);
      accepted := accepted + 1;
      clients := clients + [NewClient(playerCounter)];
      ok := true;
    }

    /** handleMessage for a message from the client at position `k`.
        CLIENT_CONNECT records the name and answers SERVER_CONNECT with the
        player id; CLIENT_ORDER is ignored before the start and otherwise
        buffered with its player set to the sender's; CLIENT_TICK_DONE
        counts one more finished tick, which the source asserts was
        started; anything else is ignored. */
    method HandleMessage(k: nat, m: Message)
      requires Valid() && k < |clients|
      requires m.ClientTickDone? ==> clients[k].ticksDone < ticksStarted
      modifies this
      ensures Valid()
      ensures var c := old(clients)[k];
              match m
              case ClientConnect(name) =>
                clients == old(clients)[k := c.(player := c.player.(name := name))] &&
                outbox == old(outbox) + [Packet(c.player.id, ServerConnect(c.player.id))] &&
                nextOrders == old(nextOrders)
              case ClientOrder(o) =>
                clients == old(clients) && outbox == old(outbox) &&
                nextOrders == if old(gameStarted) then old(nextOrders) + [o.(player := c.player.id)] else old(nextOrders)
              case ClientTickDone =>
                clients == old(clients)[k := c.(ticksDone := c.ticksDone + 1)] &&
                outbox == old(outbox) && nextOrders == old(nextOrders)
              case _ =>
                clients == old(clients) && outbox == old(outbox) && nextOrders == old(nextOrders)
      ensures settings == old(settings) && gameStarted == old(gameStarted) && ticksStarted == old(ticksStarted)
      ensures playerCounter == old(playerCounter) && quit == old(quit)
    {
      var c := clients[k];
      match m
      case ClientConnect(name) =>
        clients := clients[k := c.(player := c.player.(name := name))];
        outbox := outbox + [Packet(c.player.id, ServerConnect(c.player.id))];
      case ClientOrder(o) =>
        if gameStarted {
          nextOrders := nextOrders + [o.(player := c.player.id)];
        }
      case ClientTickDone =>
        clients := clients[k := c.(ticksDone := c.ticksDone + 1)];
      case _ =>
    }

    /** ENET_EVENT_TYPE_DISCONNECT for the client at position `k`: exactly
        that client leaves the list, and the server quits once the list is
        empty. */
    method Disconnect(k: nat)
      requires Valid() && k < |clients|
      modifies this
      ensures Valid()
      ensures clients == old(clients)[..k] + old(clients)[k + 1..]
      ensures quit == (old(quit) || clients == [])
      ensures settings == old(settings) && gameStarted == old(gameStarted) && ticksStarted == old(ticksStarted)
      ensures playerCounter == old(playerCounter) && nextOrders == old(nextOrders) && outbox == old(outbox)
    {
      clients := clients[..k] + clients[k + 1..];
      if |clients| == 0 {
        quit := true;
      }
    }
  }
}
