# shooter-rs in Dafny

A model of shooter-rs, a two-player networked first-person shooter. A relay
server pairs two clients. It sends each client its spawn, runs a countdown,
then forwards every position and health report from one client to the other.
Each client is a state machine: Lobby, Wait, Countdown, Play, and back to
the Lobby with a winner banner.

The model covers four parts:

- **The packet protocol** (`protocol.dfy`, `codec.dfy`, `errors.dfy`):
  - The `Packet` enum has the variants `Player`, `Time` and `Health`.
  - The wire layout is bincode 1.x: a little-endian u32 variant index, then the fields.
  - Channel errors are classified into I/O errors and codec errors.
  - `Channel::send` and `Channel::receive` are modelled over a byte stream.
- **The server** (`server.dfy`):
  - the spawn positions and their reset between sessions;
  - the setup sequence: first spawn, second accept, cross-send, countdown 3..0;
  - the relay loop with its two "closed" flags;
  - the accept loop of `main`.

  Sockets are scripts of outcomes. Each connection is a sequence of send
  results and a sequence of receive results. Accepts are a sequence of
  connections or errors. A script that runs out means that call has not
  returned yet, so the session or server ends as "pending". The calls
  before it have taken effect, including those earlier in the same relay
  iteration.
- **The client** (`game.dfy`):
  - Each render loop becomes a step function over one frame's inputs.
  - The inputs are the window-close flag, the mouse and keyboard as the widgets see them, the connect outcome, the receive and send outcomes, the motion the look/velocity code produced, and whether the fired ray hit the enemy.
  - A step returns the next state and the effects the server can observe: connect attempts and packets sent.
  - `Ended` is a loop returning `None`; `Panicked` is a failed `.expect`.
- **The client's widgets and world** (`button.dfy`, `input_box.dfy`,
  `map.dfy`, `objects.dfy`, `player.dfy`, `geometry.dfy`):
  - the button's Idle/Hover/MidClick machine;
  - the address box, with its 20-byte limit measured in UTF-8 bytes;
  - building the map from its text grid;
  - cuboids and their bounding boxes;
  - the player's axis-separated collision response, stats and health exchange, and damage.

Floating-point values are modelled as `real` in the state machines. In the
codec each one is its opaque 32-bit pattern, held as the unsigned number it spells,
so a round trip is bit-exact.

## Model

| member | source | states |
|---|---|---|
| ChannelErrors.FromBincode | game-channel/src/error.rs:10-17 | a codec error becomes an I/O channel error exactly when it is the stream's I/O error (the error is kept); every other kind becomes `Bincode` |
| ChannelErrors.ClassificationIsOnto | game-channel/src/error.rs:10-17 | every channel error, including every I/O error, is the classification of some codec error |
| ChannelErrors.Display | game-channel/src/error.rs:19-25 | an I/O error displays as its own message; a codec error prints the fixed line ending in a newline |
| ChannelErrors.DisplayAfterClassification | game-channel/src/error.rs:10-25 | a classified codec error displays as the stream's own I/O message when it came from the stream, and as the fixed codec line otherwise |
| ChannelErrors.DisplayTellsCodecFromIo | game-channel/src/error.rs:19-25 | the fixed codec line is displayed exactly for codec errors and for I/O errors whose message happens to be that same line |
| Protocol.FromVector3 | game-channel/src/lib.rs:12-19 | the planar vector keeps x and z of the 3D vector |
| Protocol.FromVector3IgnoresHeight | game-channel/src/lib.rs:12-19 | two vectors convert to the same planar vector iff they agree on x and z |
| Codec.WordBytesOfWordOf | game-channel/src/lib.rs:45-51 | four bytes read as a little-endian word and written back are the same four bytes |
| Codec.WordOfWordBytes | game-channel/src/lib.rs:45-51 | a word written as four little-endian bytes reads back as the same word |
| Codec.WordAtWordBytes | game-channel/src/lib.rs:45-51 | the word read back from its little-endian bytes is the word written |
| Codec.Payload | game-channel/src/lib.rs:21-28 | a `Player` payload is 16 bytes (four f32 fields), a `Time`/`Health` payload is one byte |
| Codec.Encode | game-channel/src/lib.rs:45-47 | an encoded packet is 20 bytes for `Player` and 5 bytes for the u8 variants |
| Codec.Decode | game-channel/src/lib.rs:49-51 | a decode consumes a prefix and returns the exact suffix; fewer than four bytes is the end-of-input I/O error |
| Codec.DecodePayload | game-channel/src/lib.rs:49-51 | a successful payload decode consumes at least one byte and returns a packet whose variant index is the tag read |
| Codec.DecodeEncode | game-channel/src/lib.rs:45-51 | decoding the encoding of any packet followed by any bytes returns that packet and exactly those bytes |
| Codec.DecodeReadsEncoding | game-channel/src/lib.rs:49-51 | every successful decode read exactly the encoding of the packet it returned, so encoding is the inverse of decoding on its domain |
| Codec.VariantIndexDecidesShape | game-channel/src/lib.rs:21-28 | the variant of a decoded packet is the one named by its first four bytes |
| Codec.DistinctVariantsDistinctTags | game-channel/src/lib.rs:21-28 | a packet's encoding never decodes as a packet of another variant |
| Codec.DecodeStreamEncodeAll | game-channel/src/lib.rs:45-51 | packets sent back to back are received in order, none lost, none merged |
| Codec.Send | game-channel/src/lib.rs:45-47 | a send fails iff the stream write fails, with that I/O error; otherwise the stream grows by the packet and keeps what it held |
| Codec.Receive | game-channel/src/lib.rs:49-51 | a receive succeeds iff the codec decodes; its error is the classified codec error; a short stream is an unexpected-end I/O error |
| Codec.SendThenReceive | game-channel/src/lib.rs:45-51 | a packet sent on a fault-free stream is the next packet the peer receives, with the rest of the stream intact |
| Codec.UnknownVariantIsCodecError | game-channel/src/lib.rs:49-51 | a variant index beyond the enum is a `Bincode` channel error, not an I/O error |
| Server.NewPlayer1 | server/src/main.rs:132-138 | player one spawns at (0, 18) facing (0, -1) with health 100 |
| Server.NewPlayer2 | server/src/main.rs:146-152 | player two spawns at (0, -18) facing (0, 1) with health 100 |
| Server.ResetPlayer1 | server/src/main.rs:140-144 | a reset player one equals a newly spawned one, whatever state it had |
| Server.ResetPlayer2 | server/src/main.rs:154-158 | a reset player two equals a newly spawned one, whatever state it had |
| Server.PosPacket | server/src/main.rs:160-165 | the position packet carries exactly the replica's position and target |
| Server.HealthPacket | server/src/main.rs:177-179 | the health packet carries exactly the replica's health |
| Server.ReadPos | server/src/main.rs:167-175 | the read always reports an error: the receive error unchanged, or `Bincode` after any packet; only a `Player` packet updates position and target, and nothing else changes |
| Server.ReadHealth | server/src/main.rs:181-188 | the read always reports an error: the receive error unchanged, or `Bincode` after any packet; only a `Health` packet updates the health |
| Server.SendAll | server/src/main.rs:56-72 | the `?` chain: the sends run in order and stop at the first failing one; the run finishes only when every send returned; a failure is a send failure after at least one send; a finished run leaves each connection's send script advanced past exactly the sends made to that connection |
| Server.SentWasAnswered | server/src/main.rs:56-72 | each send the chain made found its answer in its own connection's script, the entry after those of the earlier sends to that connection; the answer succeeded unless it is the failing run's last, whose error is the one reported |
| Server.PendingSendIsUnanswered | server/src/main.rs:56-72 | a chain still waiting is waiting on a send whose connection's script has no answer left for it |
| Server.SendAllFollowsScripts | server/src/main.rs:56-72 | the chain follows the scripts: every counted send is answered, all before the last succeeded, the last succeeded unless the run failed with exactly that answer's error, and a waiting run's next send is unanswered |
| Server.SendAllFinishesIffAllOk | server/src/main.rs:56-72 | the chain finishes exactly when every send is answered with success |
| Server.FirstErrorStopsSendAll | server/src/main.rs:56-72 | the first send answered with an error ends the chain with that error, after exactly that many sends |
| Server.SetupSends | server/src/main.rs:50-72 | the setup after the second accept consists of sends only |
| Server.SetupOrder | server/src/main.rs:40-72 | a session's setup is: spawn one to client one, accept client two, spawn two to client two, each enemy's state to each client, then 3, 2, 1, 0 to client one and then client two |
| Server.Round | server/src/main.rs:83-117 | an iteration never clears a closed flag |
| Server.RoundClosesOn | server/src/main.rs:83-117 | a connection is closed after an iteration iff it was before, or a send or the position read failed with I/O, or the health read failed with an aborted connection |
| Server.FlagsAreIndependent | server/src/main.rs:83-117 | one connection's closed flag does not depend on the other connection's outcomes |
| Server.CodecErrorsNeverClose | server/src/main.rs:84-117 | send and receive failures that are codec errors never close a connection |
| Server.HealthIsRelayed | server/src/main.rs:92-117 | a health report read from one client is the health the other client is sent in the next iteration |
| Server.PositionIsRelayed | server/src/main.rs:83-105 | a position read from one client is the enemy state the other client is sent in the next iteration |
| Server.Returned | server/src/main.rs:83-117 | the calls of an iteration that return are exactly the ones before the first whose script has run out; all eight return iff both connections hold a whole iteration |
| Server.Call | server/src/main.rs:83-117 | no single call of an iteration clears a closed flag |
| Server.CallsMakeRound | server/src/main.rs:83-117 | running the eight calls one at a time, in the source's order, is exactly one whole iteration |
| Server.RelayLoop | server/src/main.rs:74-121 | the loop never fails; it finishes only with both flags set, never clears a flag, sends four packets per whole iteration when it finishes, and with both flags set sends nothing |
| Server.RelayContinuesFromRound | server/src/main.rs:78-121 | after a whole iteration the loop carries on from the replicas and flags that iteration left, on the rest of the scripts, and stops right there once both flags are set |
| Server.RelayLoopForwardsReports | server/src/main.rs:83-117 | over the loop, a position or health report read from one client in an iteration is what the other client is sent in the next iteration, as far as the loop got |
| Server.RelayRunsWhileOpen | server/src/main.rs:78-81 | an iteration runs only while at least one flag is clear, and what it sends begins with the four sends of the current replicas, as far as they got |
| Server.BlockedOnSend | server/src/main.rs:84-89 | when the second connection's first send blocks, only client one's enemy state went out and only its error counted |
| Server.BlockedOnFirstRead | server/src/main.rs:83-102 | when the first position read blocks, all four sends of the iteration went out and their errors set the flags, and neither replica changed |
| Server.ReadBeforeBlockIsKept | server/src/main.rs:83-105 | when the second position read blocks, the first one has already updated replica one and its I/O error has closed connection one |
| Server.SetupSendsPerConnection | server/src/main.rs:50-72 | the setup after the second accept sends five packets to client one and six to client two |
| Server.AfterAccept | server/src/main.rs:50-121 | a failed setup sent a prefix of the setup sends and left the replicas unchanged; a finished session sent all of them; the trace is always comparable with the setup sends; a finished setup runs the relay loop from both flags cleared, on the send scripts past the five setup sends to client one and the six to client two |
| Server.HandleSession | server/src/main.rs:29-123 | a session's trace is comparable with the setup trace: a prefix of it on failure, extending it on a finished session; a failed session leaves the replicas as they were; anything sent opens with spawn one to client one; a session takes the second connection from the accepts exactly when the first connection's `set_nodelay` and spawn send succeeded and an accept result is there |
| Server.SetupFailuresEndSession | server/src/main.rs:35-72 | a failing `set_nodelay` on either connection, a failing spawn send, a failing second accept, or a failing setup send each ends the session with that error, having sent only what came before it and never reaching the relay loop |
| Server.SessionFailureComesFromScripts | server/src/main.rs:29-123 | a session fails only with an error its scripts hold: a `set_nodelay` or accept error, or the answer to one of the setup sends; the relay loop never fails a session |
| Server.Serve | server/src/main.rs:16-25 | the server stops at the first failed accept of a first connection, with no session; an accepted connection starts a session on the remaining accepts; sessions after the first start from the spawns (the replicas are reset whatever the outcome); every session opens with its spawn; the server is left in a session iff the last session has not returned |
| Server.AfterSession | server/src/main.rs:18-24 | after a session returns, the replicas are reset and the next session starts from the spawns |
| Server.ServeWhilePending | server/src/main.rs:16-18 | an accepted connection whose session has not returned leaves the server in that one session |
| Server.ServeAfterReturn | server/src/main.rs:16-25 | after an accepted connection's session returns, the server goes on, from the spawns, with the connections accepted after the ones that session took for itself: the sessions it runs are that session followed by the ones this later loop runs, and it ends as that later loop ends |
| Server.ServeRunsSessionsInOrder | server/src/main.rs:16-45 | the whole accept loop: session `k` is `handle_session` run on the connection accepted right after every connection the earlier sessions consumed (each takes its first connection and the one it accepted itself), the first session from the given replicas and every later one from the spawns |
| Server.ServeStopsAfterSessions | server/src/main.rs:16-26 | the connections the sessions consumed never run past those accepted; once every session has returned, the server waits in `accept` if no connection is left after them, and otherwise the next accept failed and the server stops with that error |
| Server.EverySessionStartsFromSpawn | server/src/main.rs:8-27 | on a fresh server every session starts from the spawns, and sends client one the position (0, 18) facing (0, -1) first |
| Objects.NewCuboid | client/src/object.rs:55-57 | the cuboid keeps exactly its centre, size and colour |
| Objects.GetBoundingBox | client/src/object.rs:59-75 | the box's extent on each axis is the cuboid's size and its midpoint is the cuboid's centre |
| Objects.BoundingBoxOrdered | client/src/object.rs:59-75 | a cuboid with non-negative sizes has min ≤ max on every axis |
| Objects.MoveTo | client/src/object.rs:113-115 | moving sets the centre and keeps size and colour |
| Objects.MoveToTranslatesBox | client/src/object.rs:113-115 | moving a cuboid translates its bounding box by the change of centre |
| Geometry.CollisionIsSymmetric | client/src/player.rs:166 | the box-overlap test does not depend on the order of its arguments |
| Players.BoundingBoxAt | client/src/player.rs:189-194 | the player's box stands on the floor, is 3.5 high and 1 wide, and is centred on the position in x and z |
| Players.BoundingBoxIgnoresHeight | client/src/player.rs:189-194 | the player's box does not depend on the camera height |
| Players.MoveBody | client/src/player.rs:238-244 | the body moves under the camera at half height; camera, health and velocity are unchanged |
| Players.Default | client/src/player.rs:23-44 | a new player has full health, no velocity, the camera at height 3.2 looking forward, and the body at the origin |
| Players.DefaultBodyMatchesCamera | client/src/player.rs:23-44 | a new player's body box is the collision column under its camera |
| Players.AnyCollisionExists | client/src/player.rs:165-170 | the early-exit scan reports a collision iff some object's box overlaps |
| Players.DisplacementAfterCollision | client/src/player.rs:153-187 | the y component passes through; x and z each pass through or become zero |
| Players.DisplacementAxes | client/src/player.rs:153-187 | x is zeroed iff the x-only move overlaps some object, and likewise for z |
| Players.SurvivingMotionIsClear | client/src/player.rs:153-187 | a component that survives leaves its single-axis move clear of every object |
| Players.AxesAreIndependent | client/src/player.rs:153-187 | each axis is decided by its own component alone |
| Players.NoObstaclesNoChange | client/src/player.rs:153-187 | with no objects the displacement is unchanged |
| Players.DiagonalMoveCanEnterCorner | client/src/player.rs:153-187 | the per-axis checks let a diagonal move end inside a block that neither axis alone touches |
| Players.WriteStats | client/src/player.rs:196-203 | the packet carries the camera's position and target in x and z |
| Players.ReadStats | client/src/player.rs:205-216 | succeeds iff a `Player` packet arrived; then x and z of position and target are taken, y is kept, and the body follows; otherwise nothing changes |
| Players.StatsRoundTrip | client/src/player.rs:196-216 | a replica reading a player's stats ends with the same planar position and target |
| Players.WriteHealth | client/src/player.rs:218-220 | the packet carries the player's health |
| Players.ReadHealth | client/src/player.rs:222-236 | succeeds iff a `Health` packet arrived, which then replaces the health; otherwise nothing changes |
| Players.HealthRoundTrip | client/src/player.rs:218-236 | a replica reading a player's health ends with that health and nothing else changed |
| Players.DecreaseHealth | client/src/player.rs:286-288 | a hit removes exactly 10 health and changes nothing else |
| Players.HitsFromFullHealth | client/src/player.rs:286-288 | n hits remove 10·n health; ten hits take a full-health player to zero |
| Players.Update | client/src/player.rs:60-151 | the camera and target move by the collision-corrected displacement, the body follows, health is kept, and a shot is fired iff the fire button was pressed |
| Buttons.New | client/src/button.rs:25-32 | a new button is idle and not clicked |
| Buttons.ToggleClicked | client/src/button.rs:48-50 | the clicked flag flips and nothing else changes |
| Buttons.ToggleTwice | client/src/button.rs:48-50 | toggling twice restores the button |
| Buttons.Update | client/src/button.rs:34-38 | the machine per phase: Idle hovers when inside; Hover goes to MidClick on a press inside or back to Idle outside; MidClick on release goes to Hover and sets the flag inside, or to Idle outside, and waits otherwise |
| Buttons.UpdateOnlyLatches | client/src/button.rs:136-149 | an update never clears the flag, and sets it iff the button was mid-click and the release came inside |
| Buttons.IdleNeverReachesMidClick | client/src/button.rs:64-72 | an idle button cannot go straight to mid-click |
| Buttons.HoverPressReleaseClicks | client/src/button.rs:64-149 | hover, press and release inside click a fresh button |
| Buttons.ClickTakesThreeUpdates | client/src/button.rs:64-149 | no run of fewer than three updates clicks a fresh button |
| InputBoxes.Utf8Width | client/src/input_box.rs:29 | a character takes one to four bytes, and one exactly when it is ASCII |
| InputBoxes.ByteLen | client/src/input_box.rs:29 | a text's byte length is at least its character count, and zero only for the empty text |
| InputBoxes.AsciiByteLen | client/src/input_box.rs:29 | an ASCII text's byte length is its character count |
| InputBoxes.Default | client/src/input_box.rs:86-99 | a new box is empty |
| InputBoxes.Type | client/src/input_box.rs:28-32 | typed characters are appended in order, some suffix dropped; nothing is added once the text has 20 bytes; the text never exceeds 23 bytes |
| InputBoxes.TypeDropsOnlyWhenFull | client/src/input_box.rs:28-32 | a character is dropped only when the text has reached 20 bytes |
| InputBoxes.AsciiStaysWithinLimit | client/src/input_box.rs:28-32 | with ASCII input the text never exceeds 20 characters |
| InputBoxes.Backspace | client/src/input_box.rs:34-38 | backspace removes the last character, and does nothing on an empty text |
| InputBoxes.Update | client/src/input_box.rs:24-42 | outside the box nothing changes; inside, the typed characters go in first and then the backspace applies |
| InputBoxes.AsciiUpdateWithinLimit | client/src/input_box.rs:24-42 | with ASCII input an update keeps the text within 20 characters |
| InputBoxes.UpdateBounded | client/src/input_box.rs:24-42 | every update keeps the text within 23 bytes |
| Maps.Walls | client/src/map.rs:33-53 | the four walls sit at ±21 on x and z, 4 high, 2 thick and 40 long |
| Maps.Lines | client/src/map.rs:57 | no line holds a newline, and only the empty text has no lines |
| Maps.LinesJoinLines | client/src/map.rs:57 | rows without line breaks, each followed by a newline, split back into the same rows |
| Maps.DigitValue | client/src/map.rs:63 | a character has a decimal value iff it is a digit, and the value is its distance from '0' |
| Maps.CellCuboid | client/src/map.rs:64-71 | a cell's block is centred on the cell, 2 wide, 2·digit high, and stands on the floor |
| Maps.BuildMap | client/src/map.rs:21-78 | the map loads iff every character of every line is a digit; then its objects are the four walls followed by one block per non-zero cell in row-major order |
| Maps.GridCuboidsCount | client/src/map.rs:61-74 | the grid yields exactly one block per non-zero cell |
| Maps.GridCuboidsOnFloor | client/src/map.rs:64-71 | every block of the grid stands on the floor |
| Maps.CellBlockAtRank | client/src/map.rs:61-74 | the block for cell (i, j) is at the position counting the non-zero cells before it in row-major order |
| Maps.RankRowMajor | client/src/map.rs:61-62 | blocks are ordered row by row, left to right |
| Game.DecimalText | client/src/game.rs:304 | the countdown text is a non-empty string of digits, one digit exactly for values below ten |
| Game.DecimalRoundTrip | client/src/game.rs:304 | reading the countdown text back gives the number received |
| Game.DecimalZero | client/src/game.rs:307 | the text is "0" iff the number is zero |
| Game.WinnerText | client/src/game.rs:114-118 | the banner reads "YOU WON" for the player, "YOU LOSE" for the enemy, and is empty iff there is no winner |
| Game.WinnerTextDistinguishes | client/src/game.rs:114-118 | distinct outcomes show distinct banners |
| Game.NewLobby | client/src/game.rs:71-109 | a new lobby has an empty address box, fresh PLAY and QUIT buttons, and the given winner |
| Game.Start | client/src/game.rs:26-42 | the game starts in a lobby with no winner banner |
| Game.LobbyStep | client/src/game.rs:122-176 | closing ends the game; a PLAY click tries the typed address; the client waits iff the connection succeeded and the first packet was a player state, and then its player is the default player placed and aimed by that packet, at full health; otherwise PLAY is un-clicked and QUIT ends the game |
| Game.WaitStep | client/src/game.rs:227-256 | the countdown starts at "3" iff the enemy's state arrives, and the enemy is the default player placed and aimed by that packet, at full health |
| Game.CountdownStep | client/src/game.rs:297-316 | a received time replaces the text, anything else keeps it; play starts exactly when the text reads "0"; nothing is sent |
| Game.PlayStep | client/src/game.rs:387-484 | a failed send panics; otherwise the frame sends its own state and then the enemy's health after this frame's hit; own health zero loses, checked before the enemy's health zero wins; while play goes on, the player moves by its collision-limited displacement and aims along the frame's `forward`, its velocity is the frame's input velocity and its collision body stays centred on its camera, and an enemy `Player` packet moves the enemy replica's horizontal position and target, keeping their heights, while any other outcome leaves the enemy in place |
| Game.Step | client/src/game.rs:44-48 | every frame keeps the invariant that the enemy's health in play is one of 10, 20, ..., 100, so a hit never underflows it |
| Game.CountdownStartsOnTimeZero | client/src/game.rs:302-316 | the countdown hands over to play iff the frame received `Time(0)` |
| Game.PlayFrameSendsMovedState | client/src/game.rs:409-426 | every play frame that sends its state, the match-ending frame included, sends the position after this frame's collision-limited move and the aim point one `forward` ahead of it |
| Game.PlayFrameSendsStateThenHealth | client/src/game.rs:422-430 | a play frame whose sends succeed sends exactly one state and then one health |
| Game.Run | client/src/game.rs:44-48 | any run of frames keeps the invariant |
| Game.TerminalStatesStay | client/src/game.rs:44-48 | once ended or panicked, no frame changes the state or sends anything |

## Left out

- Rendering, audio, textures, the cursor lock and the orbital lobby camera: they have no effect on state the model keeps.
- Camera look math: the mouse-driven yaw/pitch rotation, the pitch clamp and `find_angle`. The frame supplies the resulting motion as a velocity and a frame time.
- Velocity integration from the WASD keys and the 0.85 damping: float motion that the frame supplies as `Motion`.
- The ray-versus-body hit test (`Player::collision`): the frame supplies its outcome as a boolean `hit`.
- TCP itself, `set_nonblocking`, `set_nodelay` on the client, and `shutdown`, together with their `.expect`s: connections are scripts of outcomes, and a blocking read that returns nothing is a receive error.
- The server's one-second sleeps and all `eprintln!` logging: timing and console output.
- The `Winner` type and the `Health` variant: the client and server use them, but `game-channel/src/lib.rs` as shown declares neither. `Health(u8)` is modelled as variant index 2, after `Time`, and `Winner` as `Player | Enemy | None`.
- `ChannelError` in `game-channel/src/lib.rs`: its `SendErr`/`ReceiveErr` pair maps every failure to one value. The server matches on the `Io`/`Bincode` classification of `game-channel/src/error.rs`, so that classification is the one modelled.
- `src/game.rs` and `client/src/gun.rs`: an older game loop and the pistol's drawing are not part of this model.
- f32 arithmetic: positions and sizes are `real`, so rounding of float operations is not modelled. The codec keeps each f32 as its opaque 32-bit pattern.
- Reading `./resources/map.txt`: `BuildMap` takes the file's text as input. A missing file (the `unwrap` panic) is not modelled. A non-digit cell is the `None` result, standing for the `to_digit(...).unwrap()` panic.
- `LobbyState::new` rebuilding the map on every return to the lobby: the map is a separate, immutable input of each step.
- Players.DecreaseHealth: requires health of at least 10 instead of modelling u8 underflow. `Game.Inv` proves that every call in play meets this.
- Players.Update: takes the frame's velocity and frame time as given. The forward/right vectors projected onto the ground come from the look math left out above.
- Game.Step: the `Lobby` step takes the text typed this frame as one string. raylib's character queue is left out.
