/**
 * The client's lifecycle: Lobby → Wait → Countdown → Play → Lobby(winner).
 *
 * Each state's render loop becomes a step function over one frame's inputs:
 * whether the window was closed, the mouse and keyboard as the widgets see
 * them, the outcome of the connect attempt, the outcomes of the frame's
 * receives and sends, the motion the look and velocity code produced, and
 * whether the fired ray hit the enemy. A step returns the next state and what
 * the client did that the outside world sees (connect attempts and packets sent).
 * `Ended` is the loop returning `None`; `Panicked` is a failed `.expect`.
 */
module Game {
  import opened Results
  import opened Protocol
  import opened ChannelErrors
  import opened Objects
  import opened Geometry
  import Players
  import Buttons
  import InputBoxes

  // ---------------------------------------------------------------------------
  // Decimal text of the countdown
  // ---------------------------------------------------------------------------

  function DigitChar(d: nat): (c: char)
    requires d < 10
    ensures '0' <= c <= '9' && c as int - '0' as int == d
  {
    ('0' as int + d) as char
  }

  /** `to_string` on an unsigned integer: its decimal digits, most significant first. */
  function DecimalText(n: nat): (s: string)
    ensures 1 <= |s|
    ensures forall i :: 0 <= i < |s| ==> '0' <= s[i] <= '9'
    ensures n < 10 <==> |s| == 1
    decreases n
  {
    if n < 10 then [DigitChar(n)] else DecimalText(n / 10) + [DigitChar(n % 10)]
  }

  /** The number a string of decimal digits denotes. */
  function DecimalValue(s: string): int
    decreases |s|
  {
    if s == [] then 0 else DecimalValue(s[..|s| - 1]) * 10 + (s[|s| - 1] as int - '0' as int)
  }

  /** The text shown is the number received: reading it back gives the number. */
  lemma {:induction false} DecimalRoundTrip(n: nat)
    ensures DecimalValue(DecimalText(n)) == n
    decreases n
  {
    if n >= 10 {
      DecimalRoundTrip(n / 10);
      var s := DecimalText(n);
      assert s[..|s| - 1] == DecimalText(n / 10);
    }
  }

  /** The countdown ends on the text "0", which is the text of zero and of nothing else. */
  lemma DecimalZero(n: nat)
    ensures DecimalText(n) == "0" <==> n == 0
  {
    if n >= 10 {
      assert |DecimalText(n)| != 1;
    } else if DecimalText(n) == "0" {
      assert DecimalText(n)[0] == '0';
    }
  }

  // ---------------------------------------------------------------------------
  // States and frames
  // ---------------------------------------------------------------------------

  /** The lobby's banner for the last match's outcome. */
  function WinnerText(w: Winner): (s: string)
    ensures s == [] <==> w == Winner.None
    ensures w == Winner.Player ==> s == "YOU WON"
    ensures w == Winner.Enemy ==> s == "YOU LOSE"
  {
    match w
    case Player => "YOU WON"
    case Enemy => "YOU LOSE"
    case None => ""
  }

  /** Distinct outcomes get distinct banners. */
  lemma WinnerTextDistinguishes(a: Winner, b: Winner)
    ensures WinnerText(a) == WinnerText(b) <==> a == b
  {
    if a != b && a != Winner.None && b != Winner.None {
      assert WinnerText(a)[4] != WinnerText(b)[4];
    }
  }

  datatype State =
    | Lobby(input: InputBoxes.InputBox, play: Buttons.Button, quit: Buttons.Button, winner: Winner)
    | Waiting(player: Players.Player)
    | CountingDown(player: Players.Player, enemy: Players.Player, text: string)
    | Playing(player: Players.Player, enemy: Players.Player)
    | Ended
    | Panicked

  /** `LobbyState::new`: an empty address box, fresh PLAY and QUIT buttons, the given banner. */
  function NewLobby(winner: Winner): (s: State)
    ensures s.Lobby? && s.winner == winner
    ensures s.input.text == [] && s.play == Buttons.New("PLAY") && s.quit == Buttons.New("QUIT")
    ensures !s.play.clicked && !s.quit.clicked
  {
    Lobby(InputBoxes.Default(), Buttons.New("PLAY"), Buttons.New("QUIT"), winner)
  }

  /** `Game::new`: the lobby with no banner. */
  function Start(): (s: State)
    ensures s == NewLobby(Winner.None) && WinnerText(s.winner) == []
  {
    NewLobby(Winner.None)
  }

  /** The outcome of `TcpStream::connect`, and if it succeeded, of the first receive. */
  datatype Connect = Refused | Connected(first: Result<Packet<real>, ChannelError>)

  /** One frame's inputs. */
  datatype Frame = Frame(
    close: bool,
    boxInside: bool,
    typed: string,
    backspace: bool,
    playMouse: Buttons.Mouse,
    quitMouse: Buttons.Mouse,
    connect: Connect,
    first: Result<Packet<real>, ChannelError>,
    second: Result<Packet<real>, ChannelError>,
    motion: Players.Motion,
    hit: bool,
    statsSent: Result<(), ChannelError>,
    healthSent: Result<(), ChannelError>)

  /** What a frame does that the server can observe. */
  datatype Effect = ConnectTo(address: string) | Sent(packet: Packet<real>)

  /** The connection was made and the server's first packet was a player state. */
  predicate Joined(c: Connect) {
    c.Connected? && c.first.Ok? && c.first.value.Player?
  }

  /**
   * What holds between frames: the lobby's buttons are never left clicked,
   * the countdown never shows "0" and its enemy is at full health, and in
   * play the enemy's health is one of 10, 20, ..., 100, so the next hit
   * cannot take it below zero.
   */
  predicate Inv(s: State) {
    match s
    case Lobby(_, play, quit, _) => !play.clicked && !quit.clicked
    case Waiting(_) => true
    case CountingDown(_, enemy, text) => enemy.health == Players.MaxHealth && text != "0"
    case Playing(_, enemy) =>
      0 < enemy.health <= Players.MaxHealth && enemy.health % Players.HitDamage == 0
    case Ended => true
    case Panicked => true
  }

  // ---------------------------------------------------------------------------
  // One frame of each state
  // ---------------------------------------------------------------------------

  /**
   * A lobby frame: update the address box and both buttons; a PLAY click
   * tries to connect to the typed address and read the spawn state, and
   * otherwise un-clicks PLAY; then a QUIT click ends the game.
   */
  function LobbyStep(s: State, f: Frame): (r: (State, seq<Effect>))
    requires s.Lobby?
    ensures Inv(r.0)
    ensures f.close ==> r == (Ended, [])
    ensures !f.close ==>
      var input := InputBoxes.Update(s.input, f.boxInside, f.typed, f.backspace);
      var play := Buttons.Update(s.play, f.playMouse);
      var quit := Buttons.Update(s.quit, f.quitMouse);
      && r.1 == (if play.clicked then [ConnectTo(input.text)] else [])
      && (r.0.Waiting? <==> play.clicked && Joined(f.connect))
      && (r.0.Ended? <==> !(play.clicked && Joined(f.connect)) && quit.clicked)
      && (r.0.Lobby? ==> r.0 == Lobby(input, play.(clicked := false), quit, s.winner))
    ensures r.0.Lobby? || r.0.Waiting? || r.0.Ended?
    ensures r.0.Waiting? ==>
      && r.0.player == Players.ReadStats(Players.Default(), f.connect.first).0
      && r.0.player.health == Players.MaxHealth
      && r.0.player.camera.position.x == f.connect.first.value.pos.x
      && r.0.player.camera.position.z == f.connect.first.value.pos.z
      && r.0.player.camera.target == Vector3(f.connect.first.value.target.x, Forward.y, f.connect.first.value.target.z)
  {
    if f.close then (Ended, [])
    else
      var input := InputBoxes.Update(s.input, f.boxInside, f.typed, f.backspace);
      var play := Buttons.Update(s.play, f.playMouse);
      var quit := Buttons.Update(s.quit, f.quitMouse);
      if Buttons.IsClicked(play) then
        var effects := [ConnectTo(InputBoxes.GetText(input))];
        var joined :=
          if f.connect.Connected? then Players.ReadStats(Players.Default(), f.connect.first)
          else (Players.Default(), Err(()));
        if joined.1.Ok? then (Waiting(joined.0), effects)
        else if Buttons.IsClicked(quit) then (Ended, effects)
        else (Lobby(input, Buttons.ToggleClicked(play), quit, s.winner), effects)
      else if Buttons.IsClicked(quit) then (Ended, [])
      else (Lobby(input, play, quit, s.winner), [])
  }

  /** A waiting frame: the enemy's state arriving starts the countdown at "3". */
  function WaitStep(s: State, f: Frame): (r: (State, seq<Effect>))
    requires s.Waiting?
    ensures Inv(r.0)
    ensures f.close ==> r == (Ended, [])
    ensures !f.close && f.first.Ok? && f.first.value.Player? ==>
      && r.0.CountingDown? && r.1 == []
      && r.0.player == s.player && r.0.text == "3" && r.0.enemy.health == Players.MaxHealth
      && r.0.enemy == Players.ReadStats(Players.Default(), f.first).0
      && r.0.enemy.camera.position.x == f.first.value.pos.x
      && r.0.enemy.camera.position.z == f.first.value.pos.z
      && r.0.enemy.camera.target == Vector3(f.first.value.target.x, Forward.y, f.first.value.target.z)
    ensures !f.close && !(f.first.Ok? && f.first.value.Player?) ==> r == (s, [])
  {
    if f.close then (Ended, [])
    else
      var enemy := Players.ReadStats(Players.Default(), f.first);
      if enemy.1.Ok? then (CountingDown(s.player, enemy.0, "3"), []) else (s, [])
  }

  /** The countdown text after a frame's receive: a `Time` packet replaces it, anything else keeps it. */
  function CountdownText(text: string, received: Result<Packet<real>, ChannelError>): string {
    if received.Ok? && received.value.Time? then DecimalText(received.value.time) else text
  }

  /** A countdown frame: show the received time; play starts when the text reads "0". */
  function CountdownStep(s: State, f: Frame): (r: (State, seq<Effect>))
    requires s.CountingDown? && Inv(s)
    ensures Inv(r.0)
    ensures r.1 == []
    ensures f.close ==> r.0 == Ended
    ensures !f.close ==>
      var text := CountdownText(s.text, f.first);
      && (text == "0" ==> r.0 == Playing(s.player, s.enemy))
      && (text != "0" ==> r.0 == s.(text := text))
  {
    if f.close then (Ended, [])
    else
      var text := CountdownText(s.text, f.first);
      if text == "0" then (Playing(s.player, s.enemy), []) else (s.(text := text), [])
  }

  /**
   * A play frame: take the enemy's state and one's own health from the
   * server, move, shoot, send one's own state and the enemy's health, and
   * end the match if either health is zero, one's own checked first.
   */
  function PlayStep(s: State, objects: seq<Cuboid>, f: Frame): (r: (State, seq<Effect>))
    requires s.Playing? && Inv(s)
    ensures Inv(r.0)
    ensures f.close ==> r == (Ended, [])
    ensures !f.close ==>
      var own := if f.second.Ok? && f.second.value.Health? then f.second.value.health else s.player.health;
      var foe := if f.motion.fire && f.hit then s.enemy.health - Players.HitDamage else s.enemy.health;
      && (f.statsSent.Err? ==> r == (Panicked, []))
      && (f.statsSent.Ok? && f.healthSent.Err? ==> r.0 == Panicked && |r.1| == 1 && r.1[0].Sent? && r.1[0].packet.Player?)
      && (f.statsSent.Ok? && f.healthSent.Ok? ==>
            && |r.1| == 2 && r.1[0].Sent? && r.1[0].packet.Player? && r.1[1] == Sent(Health(foe))
            && (own == 0 ==> r.0 == NewLobby(Winner.Enemy))
            && (own != 0 && foe == 0 ==> r.0 == NewLobby(Winner.Player))
            && (own != 0 && foe != 0 ==>
                  && r.0.Playing? && r.0.player.health == own && r.0.enemy.health == foe
                  && r.1[0] == Sent(Players.WriteStats(r.0.player))))
    ensures !f.close && r.0.Playing? ==>
      var start := s.player.camera.position;
      && r.0.player.camera.position
        == Add(start, Players.DisplacementAfterCollision(start, Scale(f.motion.velocity, f.motion.dt), objects))
      && Sub(r.0.player.camera.target, r.0.player.camera.position) == f.motion.forward
      && r.0.player.velocity == f.motion.velocity
      && (s.player.body.size == Players.BodySize ==> Players.BodyMatchesCamera(r.0.player))
    ensures !f.close && r.0.Playing? && f.first.Ok? && f.first.value.Player? ==>
      var packet := f.first.value;
      && r.0.enemy.camera.position == Vector3(packet.pos.x, s.enemy.camera.position.y, packet.pos.z)
      && r.0.enemy.camera.target == Vector3(packet.target.x, s.enemy.camera.target.y, packet.target.z)
    ensures !f.close && r.0.Playing? && !(f.first.Ok? && f.first.value.Player?) ==>
      r.0.enemy.camera == s.enemy.camera
  {
    if f.close then (Ended, [])
    else
      var enemy := Players.ReadStats(s.enemy, f.first).0;
      var player := Players.ReadHealth(s.player, f.second).0;
      var (moved, fired) := Players.Update(player, objects, f.motion);
      var hurt := if fired && f.hit then Players.DecreaseHealth(enemy) else enemy;
      if f.statsSent.Err? then (Panicked, [])
      else if f.healthSent.Err? then (Panicked, [Sent(Players.WriteStats(moved))])
      else
        var sent := [Sent(Players.WriteStats(moved)), Sent(Players.WriteHealth(hurt))];
        if moved.health == 0 then (NewLobby(Winner.Enemy), sent)
        else if hurt.health == 0 then (NewLobby(Winner.Player), sent)
        else (Playing(moved, hurt), sent)
  }

  // ---------------------------------------------------------------------------
  // The state machine
  // ---------------------------------------------------------------------------

  /** `Game::run` for one frame: the current state's step; `Ended` and `Panicked` stay put. */
  function Step(s: State, objects: seq<Cuboid>, f: Frame): (r: (State, seq<Effect>))
    requires Inv(s)
    ensures Inv(r.0)
  {
    match s
    case Lobby(_, _, _, _) => LobbyStep(s, f)
    case Waiting(_) => WaitStep(s, f)
    case CountingDown(_, _, _) =>
      var r := CountdownStep(s, f);
      r
    case Playing(_, _) => PlayStep(s, objects, f)
    case Ended => (Ended, [])
    case Panicked => (Panicked, [])
  }

  /** The countdown hands over to play exactly on `Time(0)`. */
  lemma CountdownStartsOnTimeZero(s: State, objects: seq<Cuboid>, f: Frame)
    requires s.CountingDown? && Inv(s) && !f.close
    ensures Step(s, objects, f).0.Playing? <==> f.first == Ok(Time(0))
  {
    if f.first.Ok? && f.first.value.Time? {
      DecimalZero(f.first.value.time);
    }
  }

  /**
   * Every play frame that sends its state, including the frame that ends the
   * match, sends where the player stands after this frame's move and where
   * it aims from there.
   */
  lemma PlayFrameSendsMovedState(s: State, objects: seq<Cuboid>, f: Frame)
    requires s.Playing? && Inv(s) && !f.close && f.statsSent.Ok?
    ensures var r := PlayStep(s, objects, f);
      var start := s.player.camera.position;
      var at := Add(start, Players.DisplacementAfterCollision(start, Scale(f.motion.velocity, f.motion.dt), objects));
      && |r.1| >= 1 && r.1[0].Sent? && r.1[0].packet.Player?
      && r.1[0].packet.pos == ChannelVector2(at.x, at.z)
      && r.1[0].packet.target == ChannelVector2(at.x + f.motion.forward.x, at.z + f.motion.forward.z)
  {
    var player := Players.ReadHealth(s.player, f.second).0;
    var moved := Players.Update(player, objects, f.motion).0;
    assert PlayStep(s, objects, f).1[0] == Sent(Players.WriteStats(moved));
    assert player.camera == s.player.camera;
    var d := Sub(moved.camera.target, moved.camera.position);
    assert d == f.motion.forward;
    assert moved.camera.target.x == moved.camera.position.x + d.x;
    assert moved.camera.target.z == moved.camera.position.z + d.z;
  }

  /** Every frame of a match in which both sends go through sends exactly one state and then one health. */
  lemma PlayFrameSendsStateThenHealth(s: State, objects: seq<Cuboid>, f: Frame)
    requires s.Playing? && Inv(s) && !f.close && f.statsSent.Ok? && f.healthSent.Ok?
    ensures var sent := Step(s, objects, f).1;
      && |sent| == 2 && sent[0].Sent? && sent[0].packet.Player?
      && sent[1].Sent? && sent[1].packet.Health?
  {
  }

  /** The game over a sequence of frames: the final state and everything it did, in order. */
  function Run(s: State, objects: seq<Cuboid>, frames: seq<Frame>): (r: (State, seq<Effect>))
    requires Inv(s)
    ensures Inv(r.0)
    ensures frames == [] ==> r == (s, [])
    decreases |frames|
  {
    if frames == [] then (s, [])
    else
      var step := Step(s, objects, frames[0]);
      var rest := Run(step.0, objects, frames[1..]);
      (rest.0, step.1 + rest.1)
  }

  /**
   * Once the game has ended or panicked, no further frame does anything. For
   * `Ended` this is the loop returning `None`. For `Panicked` it is how the
   * model represents a failed `.expect`: the Rust process aborts and runs no
   * frames at all, so staying put stands for "nothing further happens".
   */
  lemma {:induction false} TerminalStatesStay(s: State, objects: seq<Cuboid>, frames: seq<Frame>)
    requires s.Ended? || s.Panicked?
    ensures Run(s, objects, frames) == (s, [])
    decreases |frames|
  {
    if frames != [] {
      assert Step(s, objects, frames[0]) == (s, []);
      TerminalStatesStay(s, objects, frames[1..]);
      assert [] + Run(s, objects, frames[1..]).1 == [];
    }
  }
}
