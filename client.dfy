// The lockstep client of game/Client.cc. ENet is abstracted away: every
// message sent to the server is appended to the outbox, and received
// messages are handed to HandleMessage in arrival order. glfwGetTime
// becomes the input `elapsed`: whether a tick length has passed since
// the current tick started. The Sim's own inputs (noise heights, rand()
// draws, the building type table) come with each message that needs them.
module Clients {
  import opened Defs
  import opened Orders
  import opened Settings
  import opened Messages
  import opened SimStates
  import opened Simulation
  import Grid

  /** The number of CLIENT_TICK_DONE messages among `msgs`. */
  function DoneCount(msgs: seq<Message>): (n: nat)
    ensures n <= |msgs|
    ensures n == 0 <==> forall i | 0 <= i < |msgs| :: !msgs[i].ClientTickDone?
  {
    if |msgs| == 0 then 0
    else DoneCount(msgs[..|msgs| - 1]) + (if msgs[|msgs| - 1].ClientTickDone? then 1 else 0)
  }

  /** Appending one message counts it when it is a CLIENT_TICK_DONE. */
  lemma {:induction false} DoneCountSnoc(msgs: seq<Message>, m: Message)
    ensures DoneCount(msgs + [m]) == DoneCount(msgs) + (if m.ClientTickDone? then 1 else 0)
  {
    assert (msgs + [m])[..|msgs|] == msgs;
  }

  class Client {
    const username: Name
    var playerId: PlayerId
    var settings: GameSettings
    var sim: Sim?
    var tickRunning: bool
    var outbox: seq<Message>
    /** The SERVER_TICKs run so far. */
    ghost var ticksRun: nat
    ghost var Repr: set<object>

    /** The sim, when there is one, is sound and owned by the client; a
        tick runs only in a sim; and at most one CLIENT_TICK_DONE has gone
        out per tick run, counting the running one as not yet done. */
    ghost predicate Valid()
      reads this, Repr
    {
      (sim != null ==>
         sim in Repr && sim.state in Repr && sim.state.grid in Repr && sim.state.grid.points in Repr && sim.Valid()) &&
      (tickRunning ==> sim != null) &&
      DoneCount(outbox) + (if tickRunning then 1 else 0) <= ticksRun
    }

    /** Client::Client: no player id, no sim, no tick running. */
    constructor (username: Name)
      ensures Valid() && this.username == username
      ensures playerId == 0 && sim == null && !tickRunning && outbox == []
    {
      this.username := username;
      playerId := 0;
      settings := GameSettings([], 0, 0, 0, 0, 0);
      sim := null;
      tickRunning := false;
      outbox := [];
      ticksRun := 0;
      Repr := {};
    }

    /** The hello of Client::connect: CLIENT_CONNECT with the user name. */
    method Connect()
      requires Valid()
      modifies this
      ensures Valid()
      ensures outbox == old(outbox) + [ClientConnect(username)]
      ensures sim == old(sim) && tickRunning == old(tickRunning) && playerId == old(playerId) && Repr == old(Repr)
    {
      DoneCountSnoc(outbox, ClientConnect(username));
      outbox := outbox + [ClientConnect(username)];
    }

    /** Client::order: the order goes to the server only if the local sim
        accepts it; it is never applied locally, as only this client's own
        fields may change. */
    method Order(o: Order) returns (sent: bool)
      requires Valid() && sim != null
      modifies this
      ensures sim == old(sim) && tickRunning == old(tickRunning) && playerId == old(playerId) && Repr == old(Repr)
      ensures Valid()
      ensures sent <==> sim.state.ValidOrder(o)
      ensures outbox == old(outbox) + (if sent then [ClientOrder(o)] else [])
    {
      sent := sim.state.IsOrderValid(o);
      if sent {
        DoneCountSnoc(outbox, ClientOrder(o));
        outbox := outbox + [ClientOrder(o)];
      }
    }

    /** The first step of Client::update: once a tick length has elapsed
        in a running tick, the tick is over and CLIENT_TICK_DONE is sent. */
    method TickDone(elapsed: bool) returns (sent: bool)
      requires Valid()
      modifies this
      ensures Valid()
      ensures sent <==> old(tickRunning) && elapsed
      ensures outbox == old(outbox) + (if sent then [ClientTickDone] else [])
      ensures tickRunning == (old(tickRunning) && !sent)
      ensures sim == old(sim) && playerId == old(playerId) && Repr == old(Repr)
    {
      sent := tickRunning && elapsed;
      if sent {
        tickRunning := false;
        DoneCountSnoc(outbox, ClientTickDone);
        outbox := outbox + [ClientTickDone];
      }
    }

    /** Client::handleMessage. SERVER_CONNECT sets the player id;
        SERVER_START keeps the settings and builds a new sim from them
        (with `inputs` for what the sim draws from elsewhere); SERVER_TICK
        runs exactly its orders (with `rolls` for their rand() draws) and
        starts the tick, if there is a sim (`h` holds the intermediate states
        of that tick); anything else is ignored. */
    method HandleMessage(m: Message, inputs: Inputs, rolls: seq<Pos>) returns (ghost h: TickHistory)
      requires Valid()
      requires m.ServerStart? ==> Fits(m.settings, inputs)
      requires m.ServerTick? ==> |rolls| == |m.orders|
      modifies this, Repr
      ensures Valid() && outbox == old(outbox)
      ensures fresh(Repr - old(Repr))
      ensures match m
              case ServerConnect(id) =>
                playerId == id && sim == old(sim) && tickRunning == old(tickRunning)
              case ServerStart(s) =>
                settings == s && sim != null && fresh(sim) && sim.state.settings == s && sim.state.time == 0.0 &&
                sim.state.waterLevel == 1 && playerId == old(playerId) && tickRunning == old(tickRunning)
              case ServerTick(_) =>
                sim == old(sim) && playerId == old(playerId) &&
                (old(sim) != null ==> tickRunning && sim.state.time == old(sim.state.time) + sim.state.TickLength() &&
                                      TickRun(sim.state, m.orders, rolls, h) && |h.orders| > 0 &&
                                      h.orders[0] == old(sim.state.Now()) && Ends(h, sim.state.Now())) &&
                (old(sim) == null ==> tickRunning == old(tickRunning))
              case _ =>
                playerId == old(playerId) && sim == old(sim) && tickRunning == old(tickRunning)
    {
      ghost var w := World(map[], map[], 0, Grid.Ground(imap[], {}), 0.0, 0);
      h := TickHistory([], [], [], w, [], w, [], [], []);
      match m
      case ServerConnect(id) =>
        playerId := id;
      case ServerStart(s) =>
        Start(s, inputs);
      case ServerTick(orders) =>
        if sim != null {
          h := RunTick(orders, rolls);
        }
      case _ =>
    }

    /** SERVER_START: the settings are kept and a new sim is built from them. */
    method Start(s: GameSettings, inputs: Inputs)
      requires Valid() && Fits(s, inputs)
      modifies this
      ensures Valid() && outbox == old(outbox) && fresh(Repr)
      ensures settings == s && sim != null && fresh(sim) && sim.state.settings == s && sim.state.time == 0.0 &&
              sim.state.waterLevel == 1 && playerId == old(playerId) && tickRunning == old(tickRunning)
    {
      settings := s;
      sim := new Sim(s, inputs);
      Repr := {sim, sim.state, sim.state.grid, sim.state.grid.points};
    }

    /** SERVER_TICK with a sim: the sim runs exactly the orders received,
        and the tick starts. */
    method RunTick(orders: seq<Orders.Order>, rolls: seq<Pos>) returns (ghost h: TickHistory)
      requires Valid() && sim != null && |rolls| == |orders|
      modifies this, sim.state, sim.state.grid, sim.state.grid.points
      ensures Valid() && outbox == old(outbox) && Repr == old(Repr)
      ensures sim == old(sim) && playerId == old(playerId) && tickRunning
      ensures sim.state.time == old(sim.state.time) + sim.state.TickLength()
      ensures TickRun(sim.state, orders, rolls, h) && |h.orders| > 0 && h.orders[0] == old(sim.state.Now()) && Ends(h, sim.state.Now())
    {
      ghost var w := sim.state.Now();
      StartTick();
      h := Advance(orders, rolls, w);
    }

    /** The tick starts: it is running, and counts as one more tick run. */
    method StartTick()
      requires Valid() && sim != null
      modifies this
      ensures Valid() && outbox == old(outbox) && Repr == old(Repr)
      ensures sim == old(sim) && playerId == old(playerId) && tickRunning
    {
      tickRunning := true;
      ticksRun := ticksRun + 1;
    }

    /** The sim->runTick call of Client::runTick, which touches only the sim. */
    method Advance(orders: seq<Orders.Order>, rolls: seq<Pos>, ghost w: World) returns (ghost h: TickHistory)
      requires Valid() && sim != null && |rolls| == |orders| && w == sim.state.Now()
      modifies sim.state, sim.state.grid, sim.state.grid.points
      ensures Valid()
      ensures sim.state.time == w.time + sim.state.TickLength()
      ensures TickRun(sim.state, orders, rolls, h) && |h.orders| > 0 && h.orders[0] == w && Ends(h, sim.state.Now())
    {
      h := sim.RunTick(orders, rolls);
    }
  }
}
