/**
 * The match server: it pairs two connections into a session, sends each its
 * spawn state, cross-sends the spawns, counts down, then relays positions and
 * health between the two clients until both connections are gone, resets the
 * two replicas and waits for the next pair.
 *
 * Every socket call is replaced by a script of what it returns. A connection
 * is a script of its `set_nodelay` result, its successive send results and its
 * successive receive results; the listener is a script of accept results. When
 * a script runs out, the call it would answer has not returned yet and the
 * server is still waiting inside it (`Pending`). Sleeps and logging are left out.
 */
module Server {
  import opened Results
  import opened Protocol
  import opened ChannelErrors

  /** The server's replica of one player. */
  datatype Player = Player(pos: ChannelVector2<real>, target: ChannelVector2<real>, health: U8)

  /** `Player::new_player_1`: north end of the arena, looking south. */
  function NewPlayer1(): (p: Player)
    ensures p.pos == ChannelVector2(0.0, 18.0) && p.target == ChannelVector2(0.0, -1.0) && p.health == 100
  {
    Player.Player(ChannelVector2(0.0, 18.0), ChannelVector2(0.0, -1.0), 100)
  }

  /** `Player::new_player_2`: south end of the arena, looking north. */
  function NewPlayer2(): (p: Player)
    ensures p.pos == ChannelVector2(0.0, -18.0) && p.target == ChannelVector2(0.0, 1.0) && p.health == 100
  {
    Player.Player(ChannelVector2(0.0, -18.0), ChannelVector2(0.0, 1.0), 100)
  }

  /** `Player::reset_player_1`: whatever happened in the session, back to the first spawn. */
  function ResetPlayer1(p: Player): (r: Player)
    ensures r == NewPlayer1()
  {
    p.(pos := ChannelVector2(0.0, 18.0), target := ChannelVector2(0.0, -1.0), health := 100)
  }

  /** `Player::reset_player_2`: whatever happened in the session, back to the second spawn. */
  function ResetPlayer2(p: Player): (r: Player)
    ensures r == NewPlayer2()
  {
    p.(pos := ChannelVector2(0.0, -18.0), target := ChannelVector2(0.0, 1.0), health := 100)
  }

  /** The packet `Player::write_pos` sends. */
  function PosPacket(p: Player): (packet: Packet<real>)
    ensures packet.Player? && packet.pos == p.pos && packet.target == p.target
  {
    Packet.Player(p.pos, p.target)
  }

  /**
   * The packet the server's `Player::write_health` sends. It has the same
   * shape as the client's `Players.WriteHealth` because the two source
   * functions are written alike; each models its own.
   */
  function HealthPacket(p: Player): (packet: Packet<real>)
    ensures packet.Health? && packet.health == p.health
  {
    Health(p.health)
  }

  /**
   * `Player::read_pos`: a received `Player` packet replaces position and
   * target; any other packet is dropped. The call reports an error in every
   * case: the receive error if there was one, otherwise a codec error.
   */
  function ReadPos(p: Player, received: Result<Packet<real>, ChannelError>): (r: (Player, Result<(), ChannelError>))
    ensures r.1.Err?
    ensures received.Err? ==> r == (p, Err(received.error))
    ensures received.Ok? ==> r.1 == Err(ChannelError.Bincode)
    ensures received.Ok? && received.value.Player? ==>
      r.0 == p.(pos := received.value.pos, target := received.value.target)
    ensures received.Ok? && !received.value.Player? ==> r.0 == p
  {
    match received
    case Err(e) => (p, Err(e))
    case Ok(packet) =>
      var next := if packet.Player? then p.(pos := packet.pos, target := packet.target) else p;
      (next, Err(ChannelError.Bincode))
  }

  /**
   * `Player::read_health`: a received `Health` packet replaces the health;
   * any other packet is dropped. Like `ReadPos`, it always reports an error.
   */
  function ReadHealth(p: Player, received: Result<Packet<real>, ChannelError>): (r: (Player, Result<(), ChannelError>))
    ensures r.1.Err?
    ensures received.Err? ==> r == (p, Err(received.error))
    ensures received.Ok? ==> r.1 == Err(ChannelError.Bincode)
    ensures received.Ok? && received.value.Health? ==> r.0 == p.(health := received.value.health)
    ensures received.Ok? && !received.value.Health? ==> r.0 == p
  {
    match received
    case Err(e) => (p, Err(e))
    case Ok(packet) =>
      var next := if packet.Health? then p.(health := packet.health) else p;
      (next, Err(ChannelError.Bincode))
  }

  // ---------------------------------------------------------------------------
  // Connections as scripts
  // ---------------------------------------------------------------------------

  datatype Slot = One | Two

  /** What the server did that a client can observe, in order. */
  datatype Event = Sent(to: Slot, packet: Packet<real>) | AcceptedSecond

  /** An accepted connection: the results its `set_nodelay`, sends and receives return, in order. */
  datatype Conn = Conn(
    nodelay: Result<(), IoError>,
    sends: seq<Result<(), ChannelError>>,
    receives: seq<Result<Packet<real>, ChannelError>>)

  /** The connection after one more send has returned. */
  function AfterWrite(c: Conn): Conn
    requires |c.sends| > 0
  {
    c.(sends := c.sends[1..])
  }

  /** A failure that ends a session early: of the socket itself, or of a send. */
  datatype Failure = Socket(io: IoError) | Send(error: ChannelError)

  datatype SessionEnd = Finished | Failed(failure: Failure) | Pending

  /** A run of events made of sends only. */
  predicate AllSends(es: seq<Event>) {
    forall k :: 0 <= k < |es| ==> es[k].Sent?
  }

  /** The result of a run of sends: how many returned, and how the run ended. */
  datatype Sending = Sending(attempted: nat, end: SessionEnd, c1: Conn, c2: Conn)

  /**
   * Perform the sends in order, each on its connection, stopping at the
   * first one that fails (any error aborts, as `?` does) or that has not
   * returned yet.
   */
  function SendAll(sends: seq<Event>, c1: Conn, c2: Conn): (r: Sending)
    requires AllSends(sends)
    ensures r.attempted <= |sends|
    ensures r.end.Finished? <==> r.attempted == |sends| && !r.end.Failed?
    ensures r.end.Failed? ==> r.attempted > 0 && r.end.failure.Send?
    ensures r.end.Finished? ==>
      && SendsTo(sends, One) <= |c1.sends| && SendsTo(sends, Two) <= |c2.sends|
      && r.c1 == c1.(sends := c1.sends[SendsTo(sends, One)..])
      && r.c2 == c2.(sends := c2.sends[SendsTo(sends, Two)..])
    decreases |sends|
  {
    if sends == [] then Sending(0, Finished, c1, c2)
    else
      var c := if sends[0].to == One then c1 else c2;
      if c.sends == [] then Sending(0, Pending, c1, c2)
      else if c.sends[0].Err? then Sending(1, Failed(Send(c.sends[0].error)), c1, c2)
      else
        var rest := if sends[0].to == One then SendAll(sends[1..], AfterWrite(c1), c2)
                    else SendAll(sends[1..], c1, AfterWrite(c2));
        rest.(attempted := rest.attempted + 1)
  }

  /** The send script of the connection in `to`. */
  function Script(c1: Conn, c2: Conn, to: Slot): seq<Result<(), ChannelError>> {
    if to == One then c1.sends else c2.sends
  }

  /** How many of `es` are sends to `to`. */
  function SendsTo(es: seq<Event>, to: Slot): nat
    decreases |es|
  {
    if es == [] then 0 else (if es[0].Sent? && es[0].to == to then 1 else 0) + SendsTo(es[1..], to)
  }

  /**
   * The `k`-th send has an answer in its connection's script: the entry just
   * after those used by the earlier sends to the same connection.
   */
  predicate Answered(sends: seq<Event>, k: nat, c1: Conn, c2: Conn)
    requires AllSends(sends) && k < |sends|
  {
    SendsTo(sends[..k], sends[k].to) < |Script(c1, c2, sends[k].to)|
  }

  /** The script entry that answers the `k`-th send. */
  function Outcome(sends: seq<Event>, k: nat, c1: Conn, c2: Conn): Result<(), ChannelError>
    requires AllSends(sends) && k < |sends| && Answered(sends, k, c1, c2)
  {
    Script(c1, c2, sends[k].to)[SendsTo(sends[..k], sends[k].to)]
  }

  /** After the first send has returned, the `k`-th send is the `k - 1`-th of the rest. */
  lemma AnsweredAfterFirst(sends: seq<Event>, k: nat, c1: Conn, c2: Conn)
    requires AllSends(sends) && 1 <= k < |sends| && |Script(c1, c2, sends[0].to)| > 0
    ensures AllSends(sends[1..])
    ensures var d1 := if sends[0].to == One then AfterWrite(c1) else c1;
      var d2 := if sends[0].to == Two then AfterWrite(c2) else c2;
      && (Answered(sends, k, c1, c2) <==> Answered(sends[1..], k - 1, d1, d2))
      && (Answered(sends, k, c1, c2) ==> Outcome(sends, k, c1, c2) == Outcome(sends[1..], k - 1, d1, d2))
  {
    assert sends[..k][1..] == sends[1..][..k - 1];
    assert sends[1..][k - 1] == sends[k];
  }

  /**
   * The `k`-th send that `SendAll` counts found its answer in the scripts,
   * and that answer was a success unless it is the last send of a failed
   * run, whose answer is exactly the error reported.
   */
  lemma {:induction false} SentWasAnswered(sends: seq<Event>, c1: Conn, c2: Conn, k: nat)
    requires AllSends(sends) && k < SendAll(sends, c1, c2).attempted
    ensures Answered(sends, k, c1, c2)
    ensures var r := SendAll(sends, c1, c2);
      r.end.Failed? && k == r.attempted - 1 ==> Outcome(sends, k, c1, c2) == Err(r.end.failure.error)
    ensures var r := SendAll(sends, c1, c2);
      !(r.end.Failed? && k == r.attempted - 1) ==> Outcome(sends, k, c1, c2).Ok?
    decreases k
  {
    var to := sends[0].to;
    var c := if to == One then c1 else c2;
    assert Script(c1, c2, to) == c.sends;
    if k == 0 {
      assert sends[..0] == [];
    } else {
      var d1 := if to == One then AfterWrite(c1) else c1;
      var d2 := if to == Two then AfterWrite(c2) else c2;
      assert SendAll(sends, c1, c2) == SendAll(sends[1..], d1, d2).(attempted := SendAll(sends[1..], d1, d2).attempted + 1);
      AnsweredAfterFirst(sends, k, c1, c2);
      SentWasAnswered(sends[1..], d1, d2, k - 1);
    }
  }

  /** After a first send answered with success, `SendAll` goes on with the rest on the advanced scripts. */
  lemma SendAllAfterOk(sends: seq<Event>, c1: Conn, c2: Conn)
    requires AllSends(sends) && sends != []
    requires |Script(c1, c2, sends[0].to)| > 0 && Script(c1, c2, sends[0].to)[0].Ok?
    ensures var d1 := if sends[0].to == One then AfterWrite(c1) else c1;
      var d2 := if sends[0].to == Two then AfterWrite(c2) else c2;
      var rest := SendAll(sends[1..], d1, d2);
      && SendAll(sends, c1, c2).end == rest.end
      && SendAll(sends, c1, c2).attempted == rest.attempted + 1
  {
  }

  /** A first send without an answer holds the run at the start; one answered with an error fails it. */
  lemma SendAllAtFirst(sends: seq<Event>, c1: Conn, c2: Conn)
    requires AllSends(sends) && sends != []
    ensures Script(c1, c2, sends[0].to) == [] ==> SendAll(sends, c1, c2) == Sending(0, Pending, c1, c2)
    ensures Script(c1, c2, sends[0].to) != [] && Script(c1, c2, sends[0].to)[0].Err? ==>
      SendAll(sends, c1, c2).end.Failed?
  {
  }

  /** The inductive step of `PendingSendIsUnanswered`: past a successful first send, a waiting run waits on the same send. */
  lemma PendingAfterOk(sends: seq<Event>, c1: Conn, c2: Conn)
    requires AllSends(sends) && sends != []
    requires |Script(c1, c2, sends[0].to)| > 0 && Script(c1, c2, sends[0].to)[0].Ok?
    requires var d1 := if sends[0].to == One then AfterWrite(c1) else c1;
      var d2 := if sends[0].to == Two then AfterWrite(c2) else c2;
      var rest := SendAll(sends[1..], d1, d2);
      && rest.attempted < |sends| - 1
      && !Answered(sends[1..], rest.attempted, d1, d2)
    ensures SendAll(sends, c1, c2).attempted < |sends|
    ensures !Answered(sends, SendAll(sends, c1, c2).attempted, c1, c2)
  {
    var d1 := if sends[0].to == One then AfterWrite(c1) else c1;
    var d2 := if sends[0].to == Two then AfterWrite(c2) else c2;
    var k := SendAll(sends[1..], d1, d2).attempted;
    SendAllAfterOk(sends, c1, c2);
    AnsweredAfterFirst(sends, k + 1, c1, c2);
  }

  /** A run of sends that has not ended is waiting on a send whose script has run out. */
  lemma {:induction false} PendingSendIsUnanswered(sends: seq<Event>, c1: Conn, c2: Conn)
    requires AllSends(sends) && SendAll(sends, c1, c2).end.Pending?
    ensures SendAll(sends, c1, c2).attempted < |sends|
    ensures !Answered(sends, SendAll(sends, c1, c2).attempted, c1, c2)
    decreases |sends|
  {
    SendAllAtFirst(sends, c1, c2);
    if Script(c1, c2, sends[0].to) == [] {
      assert sends[..0] == [];
    } else {
      var d1 := if sends[0].to == One then AfterWrite(c1) else c1;
      var d2 := if sends[0].to == Two then AfterWrite(c2) else c2;
      SendAllAfterOk(sends, c1, c2);
      PendingSendIsUnanswered(sends[1..], d1, d2);
      PendingAfterOk(sends, c1, c2);
    }
  }

  /**
   * `SendAll` follows the scripts: every send it counts found its answer;
   * all but the last of them succeeded; a failed run's last send got exactly
   * the error reported; a run still waiting is waiting on a send whose
   * script has run out.
   */
  lemma SendAllFollowsScripts(sends: seq<Event>, c1: Conn, c2: Conn)
    requires AllSends(sends)
    ensures var r := SendAll(sends, c1, c2);
      && (forall k :: 0 <= k < r.attempted ==> Answered(sends, k, c1, c2))
      && (forall k :: 0 <= k < r.attempted - 1 ==> Outcome(sends, k, c1, c2).Ok?)
      && (r.attempted > 0 && !r.end.Failed? ==> Outcome(sends, r.attempted - 1, c1, c2).Ok?)
      && (r.end.Failed? ==> Outcome(sends, r.attempted - 1, c1, c2) == Err(r.end.failure.error))
      && (r.end.Pending? ==> r.attempted < |sends| && !Answered(sends, r.attempted, c1, c2))
  {
    forall k | 0 <= k < SendAll(sends, c1, c2).attempted
      ensures Answered(sends, k, c1, c2)
      ensures k < SendAll(sends, c1, c2).attempted - 1 ==> Outcome(sends, k, c1, c2).Ok?
    {
      SentWasAnswered(sends, c1, c2, k);
    }
    var r := SendAll(sends, c1, c2);
    if r.attempted > 0 {
      SentWasAnswered(sends, c1, c2, r.attempted - 1);
    }
    if r.end.Pending? {
      PendingSendIsUnanswered(sends, c1, c2);
    }
  }

  /** The run of sends finishes exactly when every send is answered with success. */
  lemma SendAllFinishesIffAllOk(sends: seq<Event>, c1: Conn, c2: Conn)
    requires AllSends(sends)
    ensures SendAll(sends, c1, c2).end.Finished? <==>
      forall k :: 0 <= k < |sends| ==> Answered(sends, k, c1, c2) && Outcome(sends, k, c1, c2).Ok?
  {
    SendAllFollowsScripts(sends, c1, c2);
  }

  /** The first send answered with an error ends the run with that error, and no later send is made. */
  lemma FirstErrorStopsSendAll(sends: seq<Event>, c1: Conn, c2: Conn, k: nat)
    requires AllSends(sends) && k < |sends|
    requires forall j :: 0 <= j <= k ==> Answered(sends, j, c1, c2)
    requires forall j :: 0 <= j < k ==> Outcome(sends, j, c1, c2).Ok?
    requires Outcome(sends, k, c1, c2).Err?
    ensures SendAll(sends, c1, c2).attempted == k + 1
    ensures SendAll(sends, c1, c2).end == Failed(Send(Outcome(sends, k, c1, c2).error))
  {
    SendAllFollowsScripts(sends, c1, c2);
  }

  // ---------------------------------------------------------------------------
  // Session setup
  // ---------------------------------------------------------------------------

  /** The countdown: 3, 2, 1, 0, each value to the first connection and then to the second. */
  function Countdown(): seq<Event> {
    [Sent(One, Time(3)), Sent(Two, Time(3)), Sent(One, Time(2)), Sent(Two, Time(2)),
     Sent(One, Time(1)), Sent(Two, Time(1)), Sent(One, Time(0)), Sent(Two, Time(0))]
  }

  /** The sends after the second accept: second spawn, the cross-send of both states, the countdown. */
  function SetupSends(p1: Player, p2: Player): (es: seq<Event>)
    ensures AllSends(es)
  {
    [Sent(Two, PosPacket(p2)), Sent(One, PosPacket(p2)), Sent(Two, PosPacket(p1))] + Countdown()
  }

  /** Everything a session does before its relay loop, in order. */
  function SetupTrace(p1: Player, p2: Player): seq<Event> {
    [Sent(One, PosPacket(p1)), AcceptedSecond] + SetupSends(p1, p2)
  }

  /** The order the clients see during setup. */
  lemma SetupOrder(p1: Player, p2: Player)
    ensures |SetupTrace(p1, p2)| == 13
    ensures SetupTrace(p1, p2)[0] == Sent(One, PosPacket(p1))
    ensures SetupTrace(p1, p2)[1] == AcceptedSecond
    ensures SetupTrace(p1, p2)[2] == Sent(Two, PosPacket(p2))
    ensures SetupTrace(p1, p2)[3] == Sent(One, PosPacket(p2))
    ensures SetupTrace(p1, p2)[4] == Sent(Two, PosPacket(p1))
    ensures forall k :: 0 <= k < 4 ==>
      SetupTrace(p1, p2)[5 + 2 * k] == Sent(One, Time(3 - k)) &&
      SetupTrace(p1, p2)[6 + 2 * k] == Sent(Two, Time(3 - k))
  {
  }

  // ---------------------------------------------------------------------------
  // The relay loop
  // ---------------------------------------------------------------------------

  /** The loop's state: both replicas and the two "closed" flags. */
  datatype Relay = Relay(p1: Player, p2: Player, closed1: bool, closed2: bool)

  /** A send error that marks its connection closed. */
  predicate WriteCloses(w: Result<(), ChannelError>) {
    w.Err? && w.error.Io?
  }

  /** A `read_pos` error that marks its connection closed: any I/O error. */
  predicate ReadPosCloses(e: Result<(), ChannelError>) {
    e.Err? && e.error.Io?
  }

  /** A `read_health` error that marks its connection closed: an aborted connection only. */
  predicate ReadHealthCloses(e: Result<(), ChannelError>) {
    e.Err? && e.error.Io? && e.error.io.kind == ConnectionAborted
  }

  /** Each iteration uses two sends and two receives on each connection. */
  predicate HasRound(c: Conn) {
    |c.sends| >= 2 && |c.receives| >= 2
  }

  function AfterRound(c: Conn): Conn
    requires HasRound(c)
  {
    c.(sends := c.sends[2..], receives := c.receives[2..])
  }

  /** The four sends of one iteration: each client gets its enemy's state and its own health. */
  function RoundSends(st: Relay): seq<Event> {
    [Sent(One, PosPacket(st.p2)), Sent(Two, PosPacket(st.p1)),
     Sent(One, HealthPacket(st.p1)), Sent(Two, HealthPacket(st.p2))]
  }

  /**
   * One iteration of the relay loop: send both states and healths, then read
   * each client's position and each client's report of its enemy's health.
   * The report read from the first connection lands in the second replica,
   * and the other way round.
   */
  function Round(st: Relay, c1: Conn, c2: Conn): (r: Relay)
    requires HasRound(c1) && HasRound(c2)
    ensures st.closed1 ==> r.closed1
    ensures st.closed2 ==> r.closed2
  {
    var closed1 := st.closed1 || WriteCloses(c1.sends[0]) || WriteCloses(c1.sends[1]);
    var closed2 := st.closed2 || WriteCloses(c2.sends[0]) || WriteCloses(c2.sends[1]);
    var (p1, pos1) := ReadPos(st.p1, c1.receives[0]);
    var (p2, pos2) := ReadPos(st.p2, c2.receives[0]);
    var (p2', health1) := ReadHealth(p2, c1.receives[1]);
    var (p1', health2) := ReadHealth(p1, c2.receives[1]);
    Relay(p1', p2',
      closed1 || ReadPosCloses(pos1) || ReadHealthCloses(health1),
      closed2 || ReadPosCloses(pos2) || ReadHealthCloses(health2))
  }

  /** A receive outcome that is an I/O error. */
  predicate IoFailure(r: Result<Packet<real>, ChannelError>) {
    r.Err? && r.error.Io?
  }

  /**
   * When an iteration closes a connection: an I/O error on either send, an
   * I/O error on the position read, or an aborted connection on the health
   * read of that same connection.
   */
  lemma RoundClosesOn(st: Relay, c1: Conn, c2: Conn)
    requires HasRound(c1) && HasRound(c2)
    ensures Round(st, c1, c2).closed1 <==>
      || st.closed1
      || (c1.sends[0].Err? && c1.sends[0].error.Io?)
      || (c1.sends[1].Err? && c1.sends[1].error.Io?)
      || IoFailure(c1.receives[0])
      || (IoFailure(c1.receives[1]) && c1.receives[1].error.io.kind == ConnectionAborted)
    ensures Round(st, c1, c2).closed2 <==>
      || st.closed2
      || (c2.sends[0].Err? && c2.sends[0].error.Io?)
      || (c2.sends[1].Err? && c2.sends[1].error.Io?)
      || IoFailure(c2.receives[0])
      || (IoFailure(c2.receives[1]) && c2.receives[1].error.io.kind == ConnectionAborted)
  {
  }

  /** A connection's flag depends on that connection's outcomes only. */
  lemma FlagsAreIndependent(st: Relay, c1: Conn, c2: Conn, d2: Conn)
    requires HasRound(c1) && HasRound(c2) && HasRound(d2)
    ensures Round(st, c1, c2).closed1 == Round(st, c1, d2).closed1
  {
  }

  /** Codec errors never close a connection. */
  lemma CodecErrorsNeverClose(st: Relay, c1: Conn, c2: Conn)
    requires HasRound(c1) && HasRound(c2)
    requires forall k :: 0 <= k < 2 ==> c1.sends[k].Ok? || c1.sends[k].error.Bincode?
    requires forall k :: 0 <= k < 2 ==> c1.receives[k].Ok? || c1.receives[k].error.Bincode?
    ensures Round(st, c1, c2).closed1 == st.closed1
  {
    assert c1.sends[0] == c1.sends[0 as nat];
    assert !IoFailure(c1.receives[0]) && !IoFailure(c1.receives[1]);
  }

  /** A health report read from one client is what the other client is sent in the next iteration. */
  lemma HealthIsRelayed(st: Relay, c1: Conn, c2: Conn)
    requires HasRound(c1) && HasRound(c2)
    ensures c1.receives[1].Ok? && c1.receives[1].value.Health? ==>
      RoundSends(Round(st, c1, c2))[3] == Sent(Two, Health(c1.receives[1].value.health))
    ensures c2.receives[1].Ok? && c2.receives[1].value.Health? ==>
      RoundSends(Round(st, c1, c2))[2] == Sent(One, Health(c2.receives[1].value.health))
  {
  }

  /** A position read from one client is what the other client is sent in the next iteration. */
  lemma PositionIsRelayed(st: Relay, c1: Conn, c2: Conn)
    requires HasRound(c1) && HasRound(c2)
    ensures c1.receives[0].Ok? && c1.receives[0].value.Player? ==>
      RoundSends(Round(st, c1, c2))[1] == Sent(Two, c1.receives[0].value)
    ensures c2.receives[0].Ok? && c2.receives[0].value.Player? ==>
      RoundSends(Round(st, c1, c2))[0] == Sent(One, c2.receives[0].value)
  {
  }

  // One iteration call by call: the four sends (calls 0 to 3), then the two
  // position reads (4 and 5), then the two health reads (6 and 7). Even calls
  // use the first connection, odd ones the second.

  /** Whether the `i`-th call of an iteration has an answer in its connection's script. */
  predicate CallReturns(i: nat, c1: Conn, c2: Conn)
    requires i < 8
  {
    var c := if i % 2 == 0 then c1 else c2;
    if i < 4 then |c.sends| > i / 2 else |c.receives| > (i - 4) / 2
  }

  /** How many calls of an iteration return, in call order, before one blocks. */
  function Returned(c1: Conn, c2: Conn): (n: nat)
    ensures n <= 8
    ensures forall i :: 0 <= i < n ==> CallReturns(i, c1, c2)
    ensures n < 8 ==> !CallReturns(n, c1, c2)
    ensures n == 8 <==> HasRound(c1) && HasRound(c2)
  {
    if |c1.sends| < 1 then 0
    else if |c2.sends| < 1 then 1
    else if |c1.sends| < 2 then 2
    else if |c2.sends| < 2 then 3
    else if |c1.receives| < 1 then 4
    else if |c2.receives| < 1 then 5
    else if |c1.receives| < 2 then 6
    else if |c2.receives| < 2 then 7
    else 8
  }

  /** The effect of the `i`-th call of an iteration on the loop's state. */
  function Call(st: Relay, i: nat, c1: Conn, c2: Conn): (r: Relay)
    requires i < 8 && CallReturns(i, c1, c2)
    ensures st.closed1 ==> r.closed1
    ensures st.closed2 ==> r.closed2
  {
    if i == 0 then st.(closed1 := st.closed1 || WriteCloses(c1.sends[0]))
    else if i == 1 then st.(closed2 := st.closed2 || WriteCloses(c2.sends[0]))
    else if i == 2 then st.(closed1 := st.closed1 || WriteCloses(c1.sends[1]))
    else if i == 3 then st.(closed2 := st.closed2 || WriteCloses(c2.sends[1]))
    else if i == 4 then
      var (p1, e) := ReadPos(st.p1, c1.receives[0]);
      st.(p1 := p1, closed1 := st.closed1 || ReadPosCloses(e))
    else if i == 5 then
      var (p2, e) := ReadPos(st.p2, c2.receives[0]);
      st.(p2 := p2, closed2 := st.closed2 || ReadPosCloses(e))
    else if i == 6 then
      var (p2, e) := ReadHealth(st.p2, c1.receives[1]);
      st.(p2 := p2, closed1 := st.closed1 || ReadHealthCloses(e))
    else
      var (p1, e) := ReadHealth(st.p1, c2.receives[1]);
      st.(p1 := p1, closed2 := st.closed2 || ReadHealthCloses(e))
  }

  /** The loop's state after the first `n` calls of an iteration. */
  function Calls(st: Relay, n: nat, c1: Conn, c2: Conn): (r: Relay)
    requires n <= Returned(c1, c2)
    ensures st.closed1 ==> r.closed1
    ensures st.closed2 ==> r.closed2
  {
    if n == 0 then st else Call(Calls(st, n - 1, c1, c2), n - 1, c1, c2)
  }

  /** Running the eight calls one by one is exactly one whole iteration. */
  lemma {:induction false} CallsMakeRound(st: Relay, c1: Conn, c2: Conn)
    requires HasRound(c1) && HasRound(c2)
    ensures Calls(st, 8, c1, c2) == Round(st, c1, c2)
  {
    var s1 := Call(st, 0, c1, c2);
    assert Calls(st, 1, c1, c2) == s1;
    var s2 := Call(s1, 1, c1, c2);
    assert Calls(st, 2, c1, c2) == s2;
    var s3 := Call(s2, 2, c1, c2);
    assert Calls(st, 3, c1, c2) == s3;
    var s4 := Call(s3, 3, c1, c2);
    assert Calls(st, 4, c1, c2) == s4;
    var s5 := Call(s4, 4, c1, c2);
    assert Calls(st, 5, c1, c2) == s5;
    var s6 := Call(s5, 5, c1, c2);
    assert Calls(st, 6, c1, c2) == s6;
    var s7 := Call(s6, 6, c1, c2);
    assert Calls(st, 7, c1, c2) == s7;
    assert Calls(st, 8, c1, c2) == Call(s7, 7, c1, c2);
  }

  datatype RelayResult = RelayResult(trace: seq<Event>, end: SessionEnd, last: Relay)

  /**
   * The relay loop: stop as soon as both flags are set, otherwise run one
   * more iteration. The loop itself never fails. When a script runs out the
   * loop is blocked inside an iteration: the calls before the blocking one
   * have taken effect, and the sends among them are in the trace.
   */
  function RelayLoop(st: Relay, c1: Conn, c2: Conn): (r: RelayResult)
    ensures r.end.Finished? || r.end.Pending?
    ensures r.end.Finished? ==> r.last.closed1 && r.last.closed2
    ensures st.closed1 ==> r.last.closed1
    ensures st.closed2 ==> r.last.closed2
    ensures r.end.Finished? ==> |r.trace| % 4 == 0
    ensures st.closed1 && st.closed2 ==> r == RelayResult([], Finished, st)
    decreases |c1.sends|
  {
    if st.closed1 && st.closed2 then RelayResult([], Finished, st)
    else if !HasRound(c1) || !HasRound(c2) then
      var n := Returned(c1, c2);
      RelayResult(RoundSends(st)[..if n < 4 then n else 4], Pending, Calls(st, n, c1, c2))
    else
      var rest := RelayLoop(Round(st, c1, c2), AfterRound(c1), AfterRound(c2));
      rest.(trace := RoundSends(st) + rest.trace)
  }

  /**
   * Every iteration starts with both flags not yet set: the loop exits at the
   * first point both are. Whatever it sends begins with the current state's
   * four sends, as far as they got.
   */
  lemma RelayRunsWhileOpen(st: Relay, c1: Conn, c2: Conn)
    ensures var r := RelayLoop(st, c1, c2);
      && (r.trace != [] ==> !(st.closed1 && st.closed2))
      && (r.trace <= RoundSends(st) || RoundSends(st) <= r.trace)
  {
  }

  /**
   * After a whole iteration the loop carries on from the state that
   * iteration left, on the rest of the scripts: the replicas updated by the
   * reads are the ones the next iteration sends from.
   */
  lemma RelayContinuesFromRound(st: Relay, c1: Conn, c2: Conn)
    requires !(st.closed1 && st.closed2) && HasRound(c1) && HasRound(c2)
    ensures var r := RelayLoop(st, c1, c2);
      var next := Round(st, c1, c2);
      && |r.trace| >= 4 && r.trace[..4] == RoundSends(st)
      && r.trace[4..] == RelayLoop(next, AfterRound(c1), AfterRound(c2)).trace
      && (r.trace[4..] <= RoundSends(next) || RoundSends(next) <= r.trace[4..])
      && (next.closed1 && next.closed2 ==> r == RelayResult(RoundSends(st), Finished, next))
  {
    RelayRunsWhileOpen(Round(st, c1, c2), AfterRound(c1), AfterRound(c2));
  }

  /**
   * The relay over the loop: a position or health report read from one
   * client in an iteration is what the other client is sent in the next
   * iteration, as far as the loop got.
   */
  lemma RelayLoopForwardsReports(st: Relay, c1: Conn, c2: Conn)
    requires !(st.closed1 && st.closed2) && HasRound(c1) && HasRound(c2)
    ensures var r := RelayLoop(st, c1, c2);
      c2.receives[0].Ok? && c2.receives[0].value.Player? && |r.trace| > 4 ==>
        r.trace[4] == Sent(One, c2.receives[0].value)
    ensures var r := RelayLoop(st, c1, c2);
      c1.receives[0].Ok? && c1.receives[0].value.Player? && |r.trace| > 5 ==>
        r.trace[5] == Sent(Two, c1.receives[0].value)
    ensures var r := RelayLoop(st, c1, c2);
      c2.receives[1].Ok? && c2.receives[1].value.Health? && |r.trace| > 6 ==>
        r.trace[6] == Sent(One, Health(c2.receives[1].value.health))
    ensures var r := RelayLoop(st, c1, c2);
      c1.receives[1].Ok? && c1.receives[1].value.Health? && |r.trace| > 7 ==>
        r.trace[7] == Sent(Two, Health(c1.receives[1].value.health))
  {
    var r := RelayLoop(st, c1, c2);
    var next := Round(st, c1, c2);
    RelayContinuesFromRound(st, c1, c2);
    PositionIsRelayed(st, c1, c2);
    HealthIsRelayed(st, c1, c2);
    forall k | 4 <= k < |r.trace| && k < 8
      ensures r.trace[k] == RoundSends(next)[k - 4]
    {
      assert r.trace[k] == r.trace[4..][k - 4];
    }
  }

  /** A send that blocks stops the loop right there: only the earlier sends went out and counted. */
  lemma BlockedOnSend(st: Relay, c1: Conn, c2: Conn)
    requires !(st.closed1 && st.closed2)
    requires |c1.sends| >= 1 && c2.sends == []
    ensures RelayLoop(st, c1, c2) ==
      RelayResult([Sent(One, PosPacket(st.p2))], Pending, st.(closed1 := st.closed1 || WriteCloses(c1.sends[0])))
  {
    assert Returned(c1, c2) == 1;
    assert Calls(st, 1, c1, c2) == Call(st, 0, c1, c2);
  }

  /**
   * A first receive that blocks comes after all four sends of the
   * iteration: they all went out, and their errors are counted, but neither
   * replica has changed.
   */
  lemma BlockedOnFirstRead(st: Relay, c1: Conn, c2: Conn)
    requires !(st.closed1 && st.closed2)
    requires |c1.sends| >= 2 && |c2.sends| >= 2 && c1.receives == []
    ensures var r := RelayLoop(st, c1, c2);
      && r.end.Pending?
      && r.trace == RoundSends(st)
      && r.last.p1 == st.p1 && r.last.p2 == st.p2
      && (r.last.closed1 <==> st.closed1 || WriteCloses(c1.sends[0]) || WriteCloses(c1.sends[1]))
      && (r.last.closed2 <==> st.closed2 || WriteCloses(c2.sends[0]) || WriteCloses(c2.sends[1]))
  {
    assert Returned(c1, c2) == 4;
    var s1 := Call(st, 0, c1, c2);
    assert Calls(st, 1, c1, c2) == s1;
    var s2 := Call(s1, 1, c1, c2);
    assert Calls(st, 2, c1, c2) == s2;
    var s3 := Call(s2, 2, c1, c2);
    assert Calls(st, 3, c1, c2) == s3;
    assert Calls(st, 4, c1, c2) == Call(s3, 3, c1, c2);
  }

  /** A position read that returned before a later receive blocked has landed in its replica. */
  lemma ReadBeforeBlockIsKept(st: Relay, c1: Conn, c2: Conn)
    requires !(st.closed1 && st.closed2)
    requires |c1.sends| >= 2 && |c2.sends| >= 2 && |c1.receives| >= 1 && c2.receives == []
    ensures var r := RelayLoop(st, c1, c2);
      && r.end.Pending?
      && r.trace == RoundSends(st)
      && r.last.p1 == ReadPos(st.p1, c1.receives[0]).0
      && r.last.p2 == st.p2
      && (r.last.closed1 <==>
            st.closed1 || WriteCloses(c1.sends[0]) || WriteCloses(c1.sends[1]) || IoFailure(c1.receives[0]))
  {
    assert Returned(c1, c2) == 5;
    var s1 := Call(st, 0, c1, c2);
    assert Calls(st, 1, c1, c2) == s1;
    var s2 := Call(s1, 1, c1, c2);
    assert Calls(st, 2, c1, c2) == s2;
    var s3 := Call(s2, 2, c1, c2);
    assert Calls(st, 3, c1, c2) == s3;
    var s4 := Call(s3, 3, c1, c2);
    assert Calls(st, 4, c1, c2) == s4;
    assert Calls(st, 5, c1, c2) == Call(s4, 4, c1, c2);
  }

  // ---------------------------------------------------------------------------
  // One session
  // ---------------------------------------------------------------------------

  /** Prefixes survive putting the same events in front. */
  lemma PrefixAfter(head: seq<Event>, a: seq<Event>, b: seq<Event>)
    ensures a <= b ==> head + a <= head + b
  {
    if a <= b {
      assert (head + b)[..|head + a|] == head + a;
    }
  }

  /** Counting sends distributes over concatenation. */
  lemma {:induction false} SendsToAppend(a: seq<Event>, b: seq<Event>, to: Slot)
    ensures SendsTo(a + b, to) == SendsTo(a, to) + SendsTo(b, to)
    decreases |a|
  {
    if a == [] {
      assert a + b == b;
    } else {
      assert (a + b)[0] == a[0] && (a + b)[1..] == a[1..] + b;
      SendsToAppend(a[1..], b, to);
    }
  }

  /** The setup after the second accept sends five packets to client one and six to client two. */
  lemma SetupSendsPerConnection(p1: Player, p2: Player)
    ensures SendsTo(SetupSends(p1, p2), One) == 5
    ensures SendsTo(SetupSends(p1, p2), Two) == 6
  {
    var head := [Sent(Two, PosPacket(p2)), Sent(One, PosPacket(p2)), Sent(Two, PosPacket(p1))];
    SendsToAppend(head, Countdown(), One);
    SendsToAppend(head, Countdown(), Two);
    assert SendsTo(Countdown(), One) == 4 && SendsTo(Countdown(), Two) == 4;
    var tail := [Sent(Two, PosPacket(p1))];
    assert tail[1..] == [];
    assert SendsTo(tail, One) == 0 && SendsTo(tail, Two) == 1;
    var mid := [Sent(One, PosPacket(p2))] + tail;
    assert mid[1..] == tail;
    assert SendsTo(mid, One) == 1 && SendsTo(mid, Two) == 1;
    assert head[1..] == mid;
  }

  /**
   * The part of a session after the second accept: the setup sends, then,
   * if they all went through, the relay loop from both flags cleared.
   */
  function AfterAccept(p1: Player, p2: Player, c1: Conn, c2: Conn): (r: RelayResult)
    ensures r.end.Failed? ==> r.trace <= SetupSends(p1, p2) && r.last.p1 == p1 && r.last.p2 == p2
    ensures r.end.Finished? ==> SetupSends(p1, p2) <= r.trace
    ensures r.trace <= SetupSends(p1, p2) || SetupSends(p1, p2) <= r.trace
    ensures SendAll(SetupSends(p1, p2), c1, c2).end.Finished? ==>
      && |c1.sends| >= 5 && |c2.sends| >= 6
      && var relay := RelayLoop(Relay(p1, p2, false, false), c1.(sends := c1.sends[5..]), c2.(sends := c2.sends[6..]));
         r == RelayResult(SetupSends(p1, p2) + relay.trace, relay.end, relay.last)
  {
    var sends := SetupSends(p1, p2);
    SetupSendsPerConnection(p1, p2);
    var setup := SendAll(sends, c1, c2);
    if !setup.end.Finished? then RelayResult(sends[..setup.attempted], setup.end, Relay(p1, p2, false, false))
    else
      assert sends[..setup.attempted] == sends;
      var relay := RelayLoop(Relay(p1, p2, false, false), setup.c1, setup.c2);
      RelayResult(sends + relay.trace, relay.end, relay.last)
  }

  /** A session's observable record: what was sent, how it ended, the replicas it left. */
  datatype SessionResult = SessionResult(
    start: (Player, Player),
    trace: seq<Event>,
    end: SessionEnd,
    p1: Player,
    p2: Player,
    acceptsUsed: nat)

  /**
   * `handle_session`: serve the first connection its spawn, accept the
   * second, run the setup sends and then the relay loop. Any error during
   * setup ends the session at once.
   */
  function HandleSession(p1: Player, p2: Player, first: Conn, accepts: seq<Result<Conn, IoError>>): (r: SessionResult)
    ensures r.start == (p1, p2)
    ensures r.acceptsUsed <= |accepts|
    ensures r.end.Failed? ==> r.trace <= SetupTrace(p1, p2) && r.p1 == p1 && r.p2 == p2
    ensures r.end.Finished? ==> SetupTrace(p1, p2) <= r.trace
    ensures r.trace <= SetupTrace(p1, p2) || SetupTrace(p1, p2) <= r.trace
    ensures r.trace != [] ==> r.trace[0] == Sent(One, PosPacket(p1))
    ensures r.acceptsUsed == (if first.nodelay.Ok? && first.sends != [] && first.sends[0].Ok? && accepts != [] then 1 else 0)
  {
    var spawn1 := [Sent(One, PosPacket(p1))];
    if first.nodelay.Err? then SessionResult((p1, p2), [], Failed(Socket(first.nodelay.error)), p1, p2, 0)
    else if first.sends == [] then SessionResult((p1, p2), [], Pending, p1, p2, 0)
    else if first.sends[0].Err? then
      SessionResult((p1, p2), spawn1, Failed(Send(first.sends[0].error)), p1, p2, 0)
    else if accepts == [] then SessionResult((p1, p2), spawn1, Pending, p1, p2, 0)
    else if accepts[0].Err? then SessionResult((p1, p2), spawn1, Failed(Socket(accepts[0].error)), p1, p2, 1)
    else
      var second := accepts[0].value;
      var accepted := spawn1 + [AcceptedSecond];
      if second.nodelay.Err? then
        SessionResult((p1, p2), accepted, Failed(Socket(second.nodelay.error)), p1, p2, 1)
      else
        var rest := AfterAccept(p1, p2, AfterWrite(first), second);
        var setup := SetupSends(p1, p2);
        assert SetupTrace(p1, p2) == accepted + setup;
        PrefixAfter(accepted, rest.trace, setup);
        PrefixAfter(accepted, setup, rest.trace);
        SessionResult((p1, p2), accepted + rest.trace, rest.end, rest.last.p1, rest.last.p2, 1)
  }

  /** Every setup step that can fail ends the session with its own error, before the relay loop has sent anything. */
  lemma SetupFailuresEndSession(p1: Player, p2: Player, first: Conn, accepts: seq<Result<Conn, IoError>>)
    ensures var r := HandleSession(p1, p2, first, accepts);
      first.nodelay.Err? ==> r.end == Failed(Socket(first.nodelay.error)) && r.trace == []
    ensures var r := HandleSession(p1, p2, first, accepts);
      first.nodelay.Ok? && first.sends != [] && first.sends[0].Err? ==>
        r.end == Failed(Send(first.sends[0].error)) && r.trace == [Sent(One, PosPacket(p1))]
    ensures var r := HandleSession(p1, p2, first, accepts);
      first.nodelay.Ok? && first.sends != [] && first.sends[0].Ok? && accepts != [] && accepts[0].Err? ==>
        && r.end == Failed(Socket(accepts[0].error))
        && r.trace == [Sent(One, PosPacket(p1))]
        && r.acceptsUsed == 1
    ensures var r := HandleSession(p1, p2, first, accepts);
      first.nodelay.Ok? && first.sends != [] && first.sends[0].Ok? && accepts != [] && accepts[0].Ok?
        && accepts[0].value.nodelay.Err? ==>
        && r.end == Failed(Socket(accepts[0].value.nodelay.error))
        && r.trace == [Sent(One, PosPacket(p1)), AcceptedSecond]
    ensures var r := HandleSession(p1, p2, first, accepts);
      first.nodelay.Ok? && first.sends != [] && first.sends[0].Ok? && accepts != [] && accepts[0].Ok?
        && accepts[0].value.nodelay.Ok? ==>
        var setup := SendAll(SetupSends(p1, p2), AfterWrite(first), accepts[0].value);
        setup.end.Failed? ==>
          && r.end == setup.end
          && r.trace == [Sent(One, PosPacket(p1)), AcceptedSecond] + SetupSends(p1, p2)[..setup.attempted]
          && r.p1 == p1 && r.p2 == p2
  {
  }

  /**
   * A session fails only on an error its scripts hold: the first
   * connection's `set_nodelay` or spawn send, the second accept, the second
   * connection's `set_nodelay`, or the answer to one of the setup sends.
   * The relay loop never fails a session.
   */
  lemma SessionFailureComesFromScripts(p1: Player, p2: Player, first: Conn, accepts: seq<Result<Conn, IoError>>)
    ensures var r := HandleSession(p1, p2, first, accepts);
      r.end.Failed? ==>
        || (first.nodelay.Err? && r.end.failure == Socket(first.nodelay.error))
        || (first.nodelay.Ok? && first.sends != [] && first.sends[0].Err? && r.end.failure == Send(first.sends[0].error))
        || (first.nodelay.Ok? && first.sends != [] && first.sends[0].Ok? && accepts != [] && accepts[0].Err?
              && r.end.failure == Socket(accepts[0].error))
        || (first.nodelay.Ok? && first.sends != [] && first.sends[0].Ok? && accepts != [] && accepts[0].Ok?
              && accepts[0].value.nodelay.Err?
              && r.end.failure == Socket(accepts[0].value.nodelay.error))
        || (first.nodelay.Ok? && first.sends != [] && first.sends[0].Ok? && accepts != [] && accepts[0].Ok?
              && r.end.failure.Send?
              && exists k :: 0 <= k < |SetupSends(p1, p2)|
                   && Answered(SetupSends(p1, p2), k, AfterWrite(first), accepts[0].value)
                   && Outcome(SetupSends(p1, p2), k, AfterWrite(first), accepts[0].value) == Err(r.end.failure.error))
  {
    var r := HandleSession(p1, p2, first, accepts);
    if r.end.Failed? && first.nodelay.Ok? && first.sends != [] && first.sends[0].Ok? && accepts != [] && accepts[0].Ok?
      && accepts[0].value.nodelay.Ok?
    {
      var sends := SetupSends(p1, p2);
      var setup := SendAll(sends, AfterWrite(first), accepts[0].value);
      assert !setup.end.Finished?;
      SendAllFollowsScripts(sends, AfterWrite(first), accepts[0].value);
      assert Answered(sends, setup.attempted - 1, AfterWrite(first), accepts[0].value);
    }
  }

  // ---------------------------------------------------------------------------
  // The accept loop
  // ---------------------------------------------------------------------------

  /** How the server stands when the scripts run out. */
  datatype ServerEnd = ListenerFailed(error: IoError) | AwaitingSession | InSession

  datatype Served = Served(sessions: seq<SessionResult>, end: ServerEnd)

  /** A session that sent anything sent its first replica's state to the first client first. */
  predicate OpensWithSpawn(s: SessionResult) {
    s.trace != [] ==> s.trace[0] == Sent(One, PosPacket(s.start.0))
  }

  /**
   * `main`'s loop: accept a first connection, run the session whatever its
   * outcome, reset both replicas, repeat; stop when an accept fails.
   */
  function Serve(p1: Player, p2: Player, accepts: seq<Result<Conn, IoError>>): (r: Served)
    ensures |r.sessions| > 0 ==> r.sessions[0].start == (p1, p2)
    ensures forall k :: 1 <= k < |r.sessions| ==> r.sessions[k].start == (NewPlayer1(), NewPlayer2())
    ensures forall k :: 0 <= k < |r.sessions| ==> OpensWithSpawn(r.sessions[k])
    ensures r.end.InSession? <==> |r.sessions| > 0 && r.sessions[|r.sessions| - 1].end.Pending?
    ensures accepts == [] ==> r == Served([], AwaitingSession)
    ensures accepts != [] && accepts[0].Err? ==> r == Served([], ListenerFailed(accepts[0].error))
    ensures accepts != [] && accepts[0].Ok? ==>
      |r.sessions| > 0 && r.sessions[0] == HandleSession(p1, p2, accepts[0].value, accepts[1..])
    decreases |accepts|, 1
  {
    if accepts == [] then Served([], AwaitingSession)
    else if accepts[0].Err? then Served([], ListenerFailed(accepts[0].error))
    else
      var first := HandleSession(p1, p2, accepts[0].value, accepts[1..]);
      assert OpensWithSpawn(first);
      AfterSession(first, accepts[1..])
  }

  /** Putting a returned session in front of the sessions that follow it keeps the accept loop's facts. */
  lemma PrependSession(session: SessionResult, rest: Served)
    requires !session.end.Pending?
    requires forall k :: 0 <= k < |rest.sessions| ==> rest.sessions[k].start == (NewPlayer1(), NewPlayer2())
    requires forall k :: 0 <= k < |rest.sessions| ==> OpensWithSpawn(rest.sessions[k])
    requires rest.end.InSession? <==> |rest.sessions| > 0 && rest.sessions[|rest.sessions| - 1].end.Pending?
    ensures var all := [session] + rest.sessions;
      && all[0] == session
      && (forall k :: 1 <= k < |all| ==> all[k].start == (NewPlayer1(), NewPlayer2()))
      && (OpensWithSpawn(session) ==> forall k :: 0 <= k < |all| ==> OpensWithSpawn(all[k]))
      && (rest.end.InSession? <==> all[|all| - 1].end.Pending?)
  {
    var all := [session] + rest.sessions;
    assert forall k :: 1 <= k < |all| ==> all[k] == rest.sessions[k - 1];
  }

  function AfterSession(session: SessionResult, accepts: seq<Result<Conn, IoError>>): (r: Served)
    requires session.acceptsUsed <= |accepts|
    ensures |r.sessions| > 0 && r.sessions[0] == session
    ensures forall k :: 1 <= k < |r.sessions| ==> r.sessions[k].start == (NewPlayer1(), NewPlayer2())
    ensures OpensWithSpawn(session) ==> forall k :: 0 <= k < |r.sessions| ==> OpensWithSpawn(r.sessions[k])
    ensures r.end.InSession? <==> r.sessions[|r.sessions| - 1].end.Pending?
    decreases |accepts| + 1, 0
  {
    if session.end.Pending? then Served([session], InSession)
    else
      var rest := Serve(ResetPlayer1(session.p1), ResetPlayer2(session.p2), accepts[session.acceptsUsed..]);
      PrependSession(session, rest);
      Served([session] + rest.sessions, rest.end)
  }

  /** One turn of the accept loop whose session has not returned. */
  lemma ServeWhilePending(p1: Player, p2: Player, accepts: seq<Result<Conn, IoError>>)
    requires accepts != [] && accepts[0].Ok?
    requires HandleSession(p1, p2, accepts[0].value, accepts[1..]).end.Pending?
    ensures Serve(p1, p2, accepts) == Served([HandleSession(p1, p2, accepts[0].value, accepts[1..])], InSession)
  {
  }

  /** One turn of the accept loop after a session that returned. */
  lemma ServeAfterReturn(p1: Player, p2: Player, accepts: seq<Result<Conn, IoError>>)
    requires accepts != [] && accepts[0].Ok?
    requires !HandleSession(p1, p2, accepts[0].value, accepts[1..]).end.Pending?
    ensures var first := HandleSession(p1, p2, accepts[0].value, accepts[1..]);
      var rest := Serve(NewPlayer1(), NewPlayer2(), accepts[1 + first.acceptsUsed..]);
      Serve(p1, p2, accepts) == Served([first] + rest.sessions, rest.end)
  {
    var first := HandleSession(p1, p2, accepts[0].value, accepts[1..]);
    assert accepts[1..][first.acceptsUsed..] == accepts[1 + first.acceptsUsed..];
  }

  // ---------------------------------------------------------------------------
  // The accept loop, session by session
  // ---------------------------------------------------------------------------

  /** How many accepted connections the first `k` sessions consumed: each takes its first connection
      and then the `acceptsUsed` connections it accepted itself. */
  function AcceptsTaken(sessions: seq<SessionResult>, k: nat): (n: nat)
    requires k <= |sessions|
    ensures n >= k
  {
    if k == 0 then 0 else 1 + sessions[0].acceptsUsed + AcceptsTaken(sessions[1..], k - 1)
  }

  lemma AcceptsTakenAfterFirst(first: SessionResult, rest: seq<SessionResult>, k: nat)
    requires k <= |rest|
    ensures AcceptsTaken([first] + rest, k + 1) == 1 + first.acceptsUsed + AcceptsTaken(rest, k)
  {
    assert ([first] + rest)[1..] == rest;
  }

  /** Dropping `a` elements and then `b` more drops `a + b`. */
  lemma DropDrop<T>(xs: seq<T>, a: nat, b: nat)
    requires a <= |xs| && b <= |xs[a..]|
    ensures xs[a..][b..] == xs[a + b..]
  {
  }

  /** Prefixing one more session moves a later session one place on and the connections still to be
      accepted at it past the ones the new first session consumed. */
  lemma LaterSessionShifted(first: SessionResult, rest: seq<SessionResult>, accepts: seq<Result<Conn, IoError>>, k: nat)
    requires 1 <= k <= |rest| && 1 + first.acceptsUsed <= |accepts|
    requires AcceptsTaken(rest, k - 1) <= |accepts[1 + first.acceptsUsed..]|
    ensures ([first] + rest)[k] == rest[k - 1]
    ensures AcceptsTaken([first] + rest, k) <= |accepts|
    ensures accepts[AcceptsTaken([first] + rest, k)..] == accepts[1 + first.acceptsUsed..][AcceptsTaken(rest, k - 1)..]
  {
    AcceptsTakenAfterFirst(first, rest, k - 1);
    DropDrop(accepts, 1 + first.acceptsUsed, AcceptsTaken(rest, k - 1));
  }

  /** Session `s` is `handle_session` run from `(p1, p2)` on the first of the connections `rest`
      still to be accepted, with the ones after it left for the session itself. */
  predicate OpensOn(s: SessionResult, p1: Player, p2: Player, rest: seq<Result<Conn, IoError>>)
  {
    rest != [] && rest[0].Ok? && s == HandleSession(p1, p2, rest[0].value, rest[1..])
  }

  /** Each session runs on the connection accepted right after everything the sessions before it
      consumed, the first from `(p1, p2)` and every later one from the spawns. */
  predicate InOrder(sessions: seq<SessionResult>, p1: Player, p2: Player, accepts: seq<Result<Conn, IoError>>)
  {
    forall k :: 0 <= k < |sessions| ==>
      && AcceptsTaken(sessions, k) <= |accepts|
      && OpensOn(sessions[k], if k == 0 then p1 else NewPlayer1(), if k == 0 then p2 else NewPlayer2(),
                 accepts[AcceptsTaken(sessions, k)..])
  }

  lemma InOrderPrepend(first: SessionResult, rest: seq<SessionResult>, p1: Player, p2: Player, accepts: seq<Result<Conn, IoError>>)
    requires 1 + first.acceptsUsed <= |accepts| && OpensOn(first, p1, p2, accepts)
    requires InOrder(rest, NewPlayer1(), NewPlayer2(), accepts[1 + first.acceptsUsed..])
    ensures InOrder([first] + rest, p1, p2, accepts)
  {
    assert accepts[AcceptsTaken([first] + rest, 0)..] == accepts;
    forall k | 1 <= k < |[first] + rest|
      ensures AcceptsTaken([first] + rest, k) <= |accepts|
      ensures OpensOn(([first] + rest)[k], NewPlayer1(), NewPlayer2(), accepts[AcceptsTaken([first] + rest, k)..])
    {
      LaterSessionShifted(first, rest, accepts, k);
    }
  }

  /** The server's accept loop, session by session: the sessions it runs are `InOrder`. */
  lemma {:induction false} ServeRunsSessionsInOrder(p1: Player, p2: Player, accepts: seq<Result<Conn, IoError>>)
    ensures InOrder(Serve(p1, p2, accepts).sessions, p1, p2, accepts)
    decreases |accepts|
  {
    if accepts == [] || accepts[0].Err? {
      return;
    }
    var first := HandleSession(p1, p2, accepts[0].value, accepts[1..]);
    if first.end.Pending? {
      ServeWhilePending(p1, p2, accepts);
      assert accepts[AcceptsTaken([first], 0)..] == accepts;
      return;
    }
    var more := accepts[1 + first.acceptsUsed..];
    ServeAfterReturn(p1, p2, accepts);
    ServeRunsSessionsInOrder(NewPlayer1(), NewPlayer2(), more);
    InOrderPrepend(first, Serve(NewPlayer1(), NewPlayer2(), more).sessions, p1, p2, accepts);
  }

  /**
   * Once every session has returned, the server waits in `accept` when no connection is left after
   * those the sessions consumed, and stops when the next accept failed.
   */
  predicate StopsAfter(r: Served, accepts: seq<Result<Conn, IoError>>)
  {
    var n := AcceptsTaken(r.sessions, |r.sessions|);
    && n <= |accepts|
    && (!r.end.InSession? && n == |accepts| ==> r.end == AwaitingSession)
    && (!r.end.InSession? && n < |accepts| ==> accepts[n].Err? && r.end == ListenerFailed(accepts[n].error))
  }

  lemma StopsAfterPrepend(first: SessionResult, rest: Served, accepts: seq<Result<Conn, IoError>>)
    requires 1 + first.acceptsUsed <= |accepts|
    requires StopsAfter(rest, accepts[1 + first.acceptsUsed..])
    ensures StopsAfter(Served([first] + rest.sessions, rest.end), accepts)
  {
    var d := 1 + first.acceptsUsed;
    AcceptsTakenAfterFirst(first, rest.sessions, |rest.sessions|);
    var m := AcceptsTaken(rest.sessions, |rest.sessions|);
    if m < |accepts[d..]| {
      assert accepts[d..][m] == accepts[d + m];
    }
  }

  /** The server's accept loop ends as `StopsAfter` says. */
  lemma {:induction false} ServeStopsAfterSessions(p1: Player, p2: Player, accepts: seq<Result<Conn, IoError>>)
    ensures StopsAfter(Serve(p1, p2, accepts), accepts)
    decreases |accepts|
  {
    if accepts == [] || accepts[0].Err? {
      return;
    }
    var first := HandleSession(p1, p2, accepts[0].value, accepts[1..]);
    if first.end.Pending? {
      ServeWhilePending(p1, p2, accepts);
      return;
    }
    var more := accepts[1 + first.acceptsUsed..];
    ServeAfterReturn(p1, p2, accepts);
    ServeStopsAfterSessions(NewPlayer1(), NewPlayer2(), more);
    StopsAfterPrepend(first, Serve(NewPlayer1(), NewPlayer2(), more), accepts);
  }

  /** The server as started: both replicas at their spawns. */
  function RunServer(accepts: seq<Result<Conn, IoError>>): Served {
    Serve(NewPlayer1(), NewPlayer2(), accepts)
  }

  /** Every session of a freshly started server opens by sending the first spawn to the first client. */
  lemma EverySessionStartsFromSpawn(accepts: seq<Result<Conn, IoError>>)
    ensures var r := RunServer(accepts);
      forall k :: 0 <= k < |r.sessions| ==>
        && r.sessions[k].start == (NewPlayer1(), NewPlayer2())
        && (r.sessions[k].trace != [] ==>
              r.sessions[k].trace[0] == Sent(One, Packet.Player(ChannelVector2(0.0, 18.0), ChannelVector2(0.0, -1.0))))
  {
  }
}
