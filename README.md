# Battleship server core in Dafny

A model of the game core of a two-player Battleship server, with proofs about it.

- **Ships** (`ships.dfy`): a ship has a fixed name and size. It can be placed on a set of cells and it records where it was hit.
- **Boards** (`board.dfy`): a board holds a fleet, the occupied cells and the shots taken. It places ships atomically, resolves incoming fire and renders its grid.
- **Game** (`game.dfy`): a game pairs two boards with a phase, the player whose turn it is and a winner. Every mutator is guarded by the phase. A shot passes the turn, and a shot that sinks the defender's last ship ends the game.
- **Command handler** (`commands.dfy`): dispatches the closed command union (place, fire, start) to the game.
- **Command parser** (`parser.dfy`): turns a text line into a command or a parse error.
- **Game session** (`session.dfy`): wraps one game. It keeps the roster of at most two players, the ready set, the connected players, the time of the last activity, the queue of events, and the phase saved at a disconnection. It routes commands by phase and turns every failure into an error reply.
- **Registry** (`registry.dfy`): maps join codes to sessions, with at most three sessions. It generates codes and sweeps out expired sessions.

## How the code is modelled

- **Classes and pure parts.** Every entity whose fields the code updates in place is a Dafny `class`: `Ship`, `Board`, `Game`, `CommandHandler`, `GameSession` and `GameRegistry`. Methods carry field-granular `modifies` clauses. The pure parts are functions:
  - case folding and word splitting;
  - integer parsing;
  - command parsing;
  - the prompt;
  - code generation.
- **Exceptions** become `Result`/`Outcome` values carrying an `Error`. The exception classes of the engine, the command handler and the registry map one to one onto constructors. `CommandParseError` becomes four constructors, one per message the parser raises. The `ValueError` of `int()` becomes `NotAnInteger`. A Python `KeyError` on a missing player becomes `UnknownPlayer`. The refusals that the session returns as error replies have constructors of their own.
- **Clock and randomness.** `time.time()` is a parameter `now`. `random.choice(players)` is a parameter `choice`, and the first player is `players[choice % |players|]`. `secrets.choice` is a function `draw: nat -> nat` that picks each character of a join code.
- **Events** are structured values (`Event`) appended to the session's `events` sequence. The message text is not modelled.
- **Board invariant.** Each board keeps `Valid()` on every operation:
  - the fleet is a set of distinct objects;
  - each ship is unplaced or covers exactly its size;
  - hits lie on the ship and among the shots taken;
  - `occupied` is the union of the ship positions;
  - positions are pairwise disjoint;
  - everything lies inside the grid.
- **Game invariant.** The game keeps at most two boards, each valid and owning disjoint objects.
- **Session invariant.** The session keeps its handler on its own game, its roster holds at most two players, and every board belongs to a rostered player.

## Model

| member | source | states |
|---|---|---|
| Ships.Ship.constructor | src/engine/ships.py:14-19 | a new ship has the given name and size, no positions and no hits |
| Ships.Ship.Place | src/engine/ships.py:21-25 | fails with InvalidPositions exactly when the number of cells differs from the size; otherwise the positions become exactly the given cells |
| Ships.Ship.RegisterHit | src/engine/ships.py:30-35 | returns whether the cell is one of the ship's; only then is the cell added to the hits, otherwise they stay as they were |
| Ships.Ship.HitTwice | src/engine/ships.py:30-35 | registering the same cell twice gives the same answer both times and leaves the hits as one registration does (idempotence) |
| Ships.Ship.Occupies | src/engine/ships.py:27-28 | an unplaced ship occupies no cell |
| Ships.Ship.IsSunk | src/engine/ships.py:37-38 | for hits on the ship's own cells, the ship is sunk exactly when no position is left unhit; an unplaced, unhit ship counts as sunk |
| Ships.Ship.IsPlaced | src/engine/ships.py:40-41 | placed means covering exactly its size in cells; a ship of negative size is never placed and one of size zero is placed exactly when it covers nothing |
| Ships.SinkingHit | src/engine/ships.py:30-38 | for hits within the positions, a hit on an occupied cell makes the ship sunk exactly when that cell was its last unhit one |
| Ships.StandardFleetFacts | src/engine/ships.py:44-51 | the standard fleet has five pairwise distinct names with positive sizes 5, 4, 3, 3, 2, totalling 17 |
| Ships.StandardShips | src/engine/ships.py:44-51 | builds five new, distinct ship objects with the standard names and sizes, unplaced and unhit |
| Boards.ComputePositions | src/engine/board.py:122-134 | the loop yields exactly the run of cells from the start along the chosen axis, of length max(size, 1), holding each cell (r, c+i) or (r+i, c) |
| Boards.Board.constructor | src/engine/board.py:24-28 | a new board of the given size is valid, with the standard fleet in order (names and sizes), every ship unplaced and unhit, no occupied cells and no shots |
| Boards.Board.WithFleet | src/engine/board.py:24-28 | a board built on a given fleet of distinct, unplaced, unhit ships is valid, keeps exactly that fleet, and has no occupied cells and no shots |
| Boards.Board.StandardFleetTotal | src/engine/ships.py:44-51 | a board with the standard fleet has ships of positive size totalling 17 cells |
| Boards.Board.CheckPlacement | src/engine/board.py:30-41 | refuses an already placed ship, then a run leaving the grid, then a run crossing an occupied cell, in that order, and otherwise passes with the run the ship would cover |
| Boards.Board.PlaceShip | src/engine/board.py:30-44 | the outcome is the board's checks followed by the ship's size check; on success the ship covers the run and the occupied cells grow by exactly that run; on failure neither changes; the shots, every ship's hits and every other ship's cells stay as they were; the board invariant (occupied equals the union of positions, disjoint ships, inside the grid) is preserved |
| Boards.Board.Occupy | src/engine/board.py:43-44 | once the board's checks have passed, the ship's own size check decides; on success the ship covers the run and the occupied cells grow by it, and nothing else on the board changes |
| Boards.PlacementKeepsValid | src/engine/board.py:40-44 | placing an unplaced ship on free in-grid cells keeps the board invariant |
| Boards.Board.ReceiveFire | src/engine/board.py:46-70 | refuses a cell off the grid with OutsideShot, then a repeated cell with AlreadyShot, leaving the shots and every ship's hits as they were; otherwise adds the cell to the shots, reports a miss on a free cell, and on an occupied cell adds the hit to exactly the covering ship and reports Sunk or Hit by that ship's state; positions and occupied cells never change and the invariant holds |
| Boards.Board.TakeShot | src/engine/board.py:55-67 | a shot at a fresh cell inside the grid is recorded and has the effect ReceiveFire promises for an accepted shot, keeping the invariant |
| Boards.Board.FindOwner | src/engine/board.py:60-70 | returns the first ship covering an occupied cell; such a ship always exists, so the fallback miss is unreachable |
| Boards.HitFiredAt | src/engine/board.py:57-67 | a hit on the only ship that covers the cell has the effect ReceiveFire promises |
| Boards.MissFiredAt | src/engine/board.py:57-58 | a shot at a free cell has the effect ReceiveFire promises and keeps the invariant |
| Boards.Board.AllShipsSunk | src/engine/board.py:72-73 | an empty fleet counts as sunk, and a sunk fleet has every ship's cells hit |
| Boards.Board.SunkFleetWasShot | src/engine/board.py:72-73 | on a valid board whose fleet is all sunk, every occupied cell has been fired at |
| Boards.Board.UnplacedFleetSunk | src/engine/board.py:72-73 | on a valid board with nothing placed, the fleet already counts as all sunk |
| Boards.Board.AllShipsPlaced | src/engine/board.py:118-119 | with no ships, the fleet is placed exactly when no cell is occupied (the general case is AllShipsPlacedIff) |
| Boards.Board.AllShipsPlacedIff | src/engine/board.py:118-119 | for a valid board with no negative ship size, the occupied count never exceeds the fleet's total size and reaches it exactly when every ship is placed |
| Boards.DisjointUnionSize | src/engine/board.py:118-119 | pairwise disjoint sets, each empty or of its size, have a union of at most the total size, reached exactly when every set is full |
| Boards.Board.GetShipByName | src/engine/board.py:115-116 | returns the first ship of the fleet whose name equals the given one ignoring case, or nothing when no name matches |
| Boards.FirstNamed | src/engine/board.py:115-116 | in a sequence of ships, finds the first one whose name matches ignoring case, or none |
| Boards.Board.Render | src/engine/board.py:75-96 | the grid is a new array, size by size, and shows a hit on every hit cell, else a miss on every shot cell no ship covers, else (only when ships are revealed) a ship on every covered cell, else empty |
| Boards.Board.MarkMisses | src/engine/board.py:78-82 | on an empty grid, marks exactly the shot cells that no ship covers as misses |
| Boards.Board.MarkHits | src/engine/board.py:84-87 | overlays every ship's hits on the misses |
| Boards.Board.MarkShips | src/engine/board.py:89-94 | shows every covered cell as a ship where the grid is still empty, leaving hits and misses in place |
| Boards.HiddenShowsNoShip | src/engine/board.py:89-94 | a grid drawn without the ship layer shows no ship in any cell |
| Games.Game.constructor | src/engine/game.py:26-31 | a new game is in SETUP with no boards, no turn and no winner |
| Games.Game.AddPlayer | src/engine/game.py:33-43 | fails with WrongPhase outside SETUP, then PlayerAlreadyExists for a known id, then PlayerCountError with two players, changing nothing; otherwise adds one new board under the id, holding the standard fleet with every ship unplaced and unhit and no shots; at most two boards ever |
| Games.Game.CheckAdd | src/engine/game.py:33-41 | the three guards of add_player, in order |
| Games.Game.PlaceShip | src/engine/game.py:45-49 | fails with WrongPhase outside SETUP and changes nothing; otherwise the placement happens on the player's own board only, with the board's outcome; that board's shots, the ship's hits and the other ships' cells never change |
| Games.Game.Start | src/engine/game.py:51-62 | fails with WrongPhase unless SETUP, then PlayerCountError unless two boards, then MissingPlayer unless the first player has a board, changing nothing; otherwise the phase is IN_PROGRESS and the first player moves |
| Games.Game.Fire | src/engine/game.py:64-82 | fails with WrongPhase unless IN_PROGRESS and TurnError when it is not the player's turn or there is no opponent, changing nothing; otherwise the unique opponent's board takes the shot, the shooter's board is untouched, a refused shot keeps phase, turn and winner and leaves the defender's shots and hits as they were, a shot that sinks the last ship finishes the game with the shooter as winner and the turn unchanged, and any other shot passes the turn to the opponent |
| Games.Game.CheckFire | src/engine/game.py:64-71 | the phase and turn guards of fire, then an opponent who differs from the player |
| Games.Game.Volley | src/engine/game.py:74-82 | the opponent is the only player other than the shooter; the opponent's board takes the shot and, unless the game ended, the turn passes to the opponent |
| Games.Game.Strike | src/engine/game.py:74 | only the opponent's board changes, as its ReceiveFire promises |
| Games.Game.Settle | src/engine/game.py:76-80 | a sinking shot that clears the defender's fleet finishes the game with the shooter as winner; otherwise the turn passes |
| Games.Game.CheckWin | src/engine/game.py:95-100 | when the defender's fleet is all sunk, the phase is FINISHED and the winner is the defender's opponent; otherwise nothing changes |
| Games.Game.GetOpponent | src/engine/game.py:102-106 | returns some player other than the given one, or TurnError exactly when there is none |
| Games.Game.GetView | src/engine/game.py:84-93 | changes nothing; reports the phase, whether it is the player's turn and the winner, the player's own board with ships shown and the opponent's with ships hidden; fails when there is no opponent or the player has no board |
| Games.FleetComplete | src/engine/game_session.py:159 | on a board of a valid game, the fleet counts as placed exactly when 17 cells are occupied, and exactly when every ship is placed |
| Games.NoThird | src/engine/game.py:102-106 | among at most two players, anyone other than the shooter is the opponent |
| Commands.CommandHandler.constructor | src/commands/command_handler.py:12-13 | the handler drives the given game |
| Commands.CommandHandler.Execute | src/commands/command_handler.py:15-35 | dispatches over the closed union with no unknown-command case; each branch's effect below holds, and the game's boards and objects stay the same |
| Commands.CommandHandler.PlaceShip | src/commands/command_handler.py:17-24 | looks the ship up by name on the acting player's own board; an unknown name is InvalidShipName with no change; otherwise the game's placement runs on the first ship of that name, its errors pass through, and success is ship_placed; the player's shots, every ship's hits, the other ships' cells and the other players' boards stay as they were |
| Commands.CommandHandler.Fire | src/commands/command_handler.py:26-28 | the game fires for the same player at the same cell, and the reply carries the shot's outcome or its error |
| Commands.CommandHandler.Start | src/commands/command_handler.py:30-32 | starts the game with the acting player first and replies game_started, or passes the game's error on |
| Text.LowerChar | src/commands/command_parser.py:11 | lower-cases A-Z and leaves every other character alone |
| Text.Lower | src/commands/command_parser.py:11 | lower-cases a string character by character, keeping its length |
| CommandParser.WordLength | src/commands/command_parser.py:6 | the first word ends at the first whitespace character or at the end |
| CommandParser.Split | src/commands/command_parser.py:6 | yields non-empty words with no whitespace, and no words exactly when the line is all whitespace |
| CommandParser.SplitInterleave | src/commands/command_parser.py:6 | words written with any whitespace gaps (leading, trailing, repeated, tabs), with at least one whitespace character between neighbouring words, split back to exactly those words |
| CommandParser.SplitGaps | src/commands/command_parser.py:6 | every line is its own words written with such gaps, so with SplitInterleave the words of any line are exactly its maximal runs of non-whitespace, in order |
| CommandParser.SplitUnwords | src/commands/command_parser.py:6 | splitting words joined by single spaces gives the words back |
| CommandParser.ParseInt | src/commands/command_parser.py:22 | succeeds exactly on a non-empty run of decimal digits or on '+' or '-' followed by one, and otherwise fails naming the token; the value is the digits read in base ten, negated after '-' |
| CommandParser.ParseIntToString | src/commands/command_parser.py:22 | every integer's decimal spelling parses back to that integer |
| CommandParser.DigitsOfNat | src/commands/command_parser.py:22 | the digits of a natural number read back as that number |
| CommandParser.ParseWords | src/commands/command_parser.py:8-40 | no words is an empty-command error; the keyword is matched ignoring case; place needs exactly five words and fire exactly three, otherwise a usage error; with the right count, a row that is not an integer is a NotAnInteger error naming it, then likewise the column, and when both parse the result is the place or fire command; start ignores extra words; an unknown keyword is named in its error; a parsed place or fire carries exactly the parsed integers and the name, and is horizontal exactly for "h" or "H" |
| CommandParser.ParseCommand | src/commands/command_parser.py:5-40 | an empty or all-whitespace line, and only such a line, is an empty-command error |
| CommandParser.ParseSpaced | src/commands/command_parser.py:5-40 | a line made of words and whitespace gaps parses exactly as ParseWords parses those words; with SplitGaps this covers every line |
| CommandParser.ParsePlaceExample | src/commands/command_parser.py:5-24 | the line "  PLACE Cruiser\t+3  04 H " parses to placing Cruiser at (3, 4) horizontally |
| CommandParser.PlaceExampleWords | src/commands/command_parser.py:11-24 | the words PLACE, Cruiser, +3, 04, H parse to that placement: the keyword and orientation in any case, a signed row and a zero-padded column |
| CommandParser.HorizontalIff | src/commands/command_parser.py:23 | an orientation lower-cases to "h" exactly when it is "h" or "H" |
| CommandParser.ParseFormat | src/commands/command_parser.py:17-37 | parsing the canonical spelling of any command with a one-word ship name gives the command back |
| CommandParser.ParseFormatPlace | src/commands/command_parser.py:17-24 | "place NAME r c h/v" parses to that placement |
| CommandParser.PlaceWords | src/commands/command_parser.py:12-24 | the five words of a placement parse to that placement |
| CommandParser.ParseFormatFire | src/commands/command_parser.py:26-34 | "fire r c" parses to a shot at (r, c) |
| CommandParser.FireWords | src/commands/command_parser.py:26-34 | the three words of a shot parse to that shot |
| Sessions.GameSession.constructor | src/engine/game_session.py:29-38 | a new session has a new game in SETUP with no boards, an empty roster, nobody ready or connected, no events, the activity time given, and WAITING_PLAYERS as the saved phase |
| Sessions.GameSession.Join | src/engine/game_session.py:40-68 | a rostered id rejoins; a new id with two players rostered is PlayerCountError with nothing changed; otherwise the new id enters |
| Sessions.GameSession.Rejoin | src/engine/game_session.py:41-48 | an id that is not connected becomes connected, the game's phase becomes the saved phase and activity is stamped; a connected id gets the already-joined error with nothing changed; roster, boards and events stay as they were |
| Sessions.GameSession.Enter | src/engine/game_session.py:53-68 | stamps activity and appends the id to the roster; the game's refusal is passed on with the id still rostered; otherwise the id gets a new board, and when it is the second player the phase is SETUP with one PHASE_CHANGED event; the id is not added to the connected set |
| Sessions.GameSession.Admit | src/engine/game_session.py:53-55 | stamps, rosters the id and passes on the game's outcome, a new board only on success |
| Sessions.GameSession.OpenIfReady | src/engine/game_session.py:57-63 | with two players rostered, the phase becomes SETUP and one PHASE_CHANGED event is queued; otherwise nothing changes |
| Sessions.GameSession.IsReady | src/engine/game_session.py:150-151 | a session with fewer than two rostered players is not ready |
| Sessions.ReadyIsFull | src/engine/game_session.py:50-57 | in a valid session, ready means the roster is full (it never exceeds two), and a session that is not ready has fewer than two boards |
| Sessions.RosterBound | src/engine/game_session.py:50-55 | with fewer than two rostered ids and every board rostered, there are fewer than two boards |
| Sessions.GameSession.HandleCommand | src/engine/game_session.py:70-87 | always stamps activity and keeps the session invariant; routes by the phase at entry to the SETUP and IN_PROGRESS steps below; any other phase replies "game is finished" with nothing else changed; every failure comes back as a refusal |
| Sessions.GameSession.HandleSetup | src/engine/game_session.py:153-170 | a command other than place is refused with nothing changed; a refused placement is passed on with ready and events unchanged; an accepted placement that completes the fleet makes the player ready with a SHIPS_PLACED event; with two players ready the game starts with the rostered player chosen |
| Sessions.GameSession.Place | src/engine/game_session.py:157-164 | runs the placement through the handler and keeps phase, turn and winner; only an accepted placement can make the player ready |
| Sessions.GameSession.Tally | src/engine/game_session.py:159-164 | a player whose fleet is complete joins the ready set, with one SHIPS_PLACED event |
| Sessions.GameSession.StartIfReady | src/engine/game_session.py:166-170 | with two players ready, starts the game with the chosen rostered player and reports the start or its refusal; otherwise passes the placement reply on with the game unchanged |
| Sessions.GameSession.ReadyRostered | src/engine/game_session.py:166-168 | two ready players imply a non-empty roster to choose from |
| Sessions.GameSession.HandlePlay | src/engine/game_session.py:172-203 | a command other than fire is refused, and a fire out of turn is a turn error, both with nothing changed; otherwise the handler takes the shot; a refused shot queues nothing; an accepted one queues SHOT_RESULT followed by GAME_WON or TURN_CHANGED and reports the outcome, the winner and whether the game is over |
| Sessions.GameSession.Shoot | src/engine/game_session.py:179-203 | the handler's shot is reported, or its error passed on with no event |
| Sessions.GameSession.Announce | src/engine/game_session.py:181-203 | queues SHOT_RESULT and then the aftermath event, and replies with the outcome, the winner and whether the phase is FINISHED |
| Sessions.GameSession.Aftermath | src/engine/game_session.py:187-196 | the event after a shot is GAME_WON exactly when the game is finished, and TURN_CHANGED otherwise |
| Sessions.GameSession.Disconnect | src/engine/game_session.py:89-93 | removes the player from the connected set; a player with no connection entry fails there with nothing else changed; otherwise the entry is removed, the current phase is saved and the game shows WAITING_PLAYERS |
| Sessions.GameSession.DisconnectThenRejoin | src/engine/game_session.py:89-93 | a disconnection followed by the same player's return restores the phase the game was in, with the player connected again |
| Sessions.GameSession.BothAwayAsWritten | src/engine/game_session.py:89-93 | when both players leave one after the other during play and both return, the game is left in WAITING_PLAYERS |
| Sessions.GameSession.DisconnectKeepingPhase | src/engine/game_session.py:89-93 | as Disconnect, but a disconnection while the game already waits keeps the phase saved earlier |
| Sessions.GameSession.BothAwayCorrected | src/engine/game_session.py:89-93 | with the corrected disconnection, both players leaving and returning restores the phase the game was in |
| Sessions.GameSession.PromptFor | src/engine/game_session.py:99-114 | in SETUP the prompt is to place ships until the player's fleet is complete and to wait afterwards, and a player with no board fails; in IN_PROGRESS it is "your turn" exactly on the player's turn; in FINISHED it is "you won" exactly for the winner; while players gather there is no prompt; each case holds in both directions |
| Sessions.GameSession.Stamp | src/engine/game_session.py:116-117 | the last activity becomes the given time |
| Sessions.GameSession.IsExpired | src/engine/game_session.py:119-125 | a session idle for 300 seconds or less is never expired, one idle for more than 900 seconds always is, and expiry needs more than 300 idle seconds |
| Sessions.SetupReapedSooner | src/engine/game_session.py:119-125 | of two sessions idle since the same time, one still gathering players or placing ships has expired whenever one in play or finished has |
| Sessions.ExpiryLasts | src/engine/game_session.py:119-125 | a session expired at one time is still expired at any later time |
| Registry.GameRegistry.constructor | src/websockets/game_registry.py:11-13 | a new registry holds no games |
| Registry.GameRegistry.CreateGame | src/websockets/game_registry.py:15-21 | with three games already running, fails with TooManyGames and changes nothing; otherwise maps the generated code to a new valid session with an empty roster, replacing any game under a colliding code, and that code then joins the new session; the cap of three is kept |
| Registry.CapAfterInsert | src/websockets/game_registry.py:16-20 | inserting under one code into fewer than three games leaves at most three |
| Registry.GameRegistry.JoinGame | src/websockets/game_registry.py:23-32 | an unknown code is InvalidCode and a session with two connected players is PlayerCountError, each in both directions; otherwise returns the session under that code; the registry is not changed |
| Registry.GameRegistry.ExpiredCodes | src/websockets/game_registry.py:38-41 | exactly the codes whose sessions are expired at the given time |
| Registry.GameRegistry.Drop | src/websockets/game_registry.py:44-51 | removes the code if present |
| Registry.GameRegistry.Sweep | src/websockets/game_registry.py:38-51 | removes exactly the codes expired at the given time and keeps every other session under its code; the cap is kept |
| Registry.Code | src/websockets/game_registry.py:54-56 | a code of the requested length whose characters are the drawn letters or digits, each from A-Z or 0-9 |
| Registry.GenerateCode | src/websockets/game_registry.py:54-56 | six characters, each from A-Z or 0-9 |
| Registry.CharIndex | src/websockets/game_registry.py:55 | each letter or digit has a position in the alphabet that names it |
| Registry.EveryCodeReachable | src/websockets/game_registry.py:54-56 | every six-character string over A-Z and 0-9 is produced by some sequence of draws |
| Registry.CodeSpells | src/websockets/game_registry.py:54-56 | the draws that spell a code reproduce each of its prefixes |

## Left out

- The `Game` that the session calls does not match the `game.py` in this repository. The session:
  - builds the game as `Game(dev=dev)`;
  - assigns `GamePhase.WAITING_PLAYERS`;
  - queues on `game.events`;
  - awaits `fire` and `start`.

  The `game.py` here has none of these: it takes a `size`, its phases start at SETUP, and its methods are synchronous. The model follows the game the session is written against. `GamePhase` has a `WaitingPlayers` phase that only the session assigns. The event queue lives on the session. The `dev` flag is ignored and every board is 10 by 10. Every await is a plain call.
- Asynchrony and concurrency: each session entry point is one atomic, sequential step.
- Message text, the broadcasting and closing of sockets, and the `ready_event` gate are not modelled. This covers `broadcast`, `broadcast_events` and `disconnect_all`. Events are only appended to a sequence.
- The websocket transport, console front end and text rendering of grids are not part of this model. The `connections` map is only written by the websocket transport, so nothing in the model adds to it; Disconnect only reads and removes entries.
- `get_view`, `get_ship_status` and `Board.render_ships` on the session are pass-throughs or formatting and are not modelled.
- `cleanup_loop`: the 60-second sleep, the broadcast and the closing of the sockets of swept sessions are left out. Sweep models one pass of its expiry filter and deletion.
- `create_game(dev_mode)`: the mode is ignored.
- `secrets.choice` is a draw function, so the uniformity of codes is not modelled.
- Games.Game.GetOpponent: the walk over the dictionary keys follows insertion order in Python. The model only promises some other player. With at most two boards there is no other choice, as NoThird shows.
- CommandParser.ParseInt: Python's `int()` also accepts underscores between digits, surrounding whitespace and non-ASCII digits. The model accepts an optional sign followed by ASCII decimal digits only.
- Text.Lower: Python's `str.lower()` folds every Unicode letter. The model folds only A-Z, which is enough for the keywords and the "h" orientation. Boards.Board.GetShipByName compares ship names with the same folding. That is exact for the standard fleet's ASCII names. For a WithFleet fleet whose names hold non-ASCII letters, the model can miss a match that Python finds.
- Sessions.GameSession.HandleCommand: the ghost results `placement` and `shot` are not tied to the game's own placement and shot effects at this level. Commands.CommandHandler.Execute and Games.Game.Fire state those effects.
- Sessions.GameSession.HandleSetup does not restate the board-level effects of a placement. Commands.CommandHandler.PlaceShip and Boards.Board.PlaceShip state them.
- Sessions.GameSession.Place has the same gap: it keeps phase, turn and winner but does not restate what the placement did to the board.
- Sessions.GameSession.HandlePlay does not restate the board-level effects of a shot. Commands.CommandHandler.Fire and Games.Game.Fire state them.
- Sessions.GameSession.Shoot has the same gap: the reply follows its ghost result `shot`, but `shot` is not tied to the shot the handler takes or to that shot's effect on the opponent's board.
- Boards.Board.PlaceShip requires the ship to belong to the board's own fleet. Its caller is `Game.place_ship` (game.py:49), and the command handler calls that after looking the ship up on the same board (command_handler.py:18-23). A placement of a foreign ship object is not modelled.
- Games.Game.PlaceShip requires the ship to belong to the player's own fleet. `Game.place_ship` (game.py:45-49) accepts any ship object, for instance a new `Ship("One", 1)` made outside the board. Such a ship's cells would enter the board's occupied set without the ship being in its fleet, which breaks the board invariant that the occupied cells are the union of the fleet's positions. Only placements reached through the command handler, which always passes a ship of that board, are modelled.
- Sessions.GameSession.Disconnect: `del connections[player]` raises `KeyError` for a player with no entry, after the player has already been removed from the connected set. The model returns `UnknownPlayer` at that point. The same holds for Sessions.GameSession.PromptFor, which fails in SETUP for a player with no board.
- A first-time join never adds the player to the connected set, as in the code. A later join under the same id is therefore treated as a reconnection and restores the saved phase.

## Findings

| source | as written | input that shows it | evidently intended | confidence | as-written member | corrected member |
|---|---|---|---|---|---|---|
| src/engine/game_session.py:89-93 | every disconnection saves the current phase, even when an earlier disconnection already set it to WAITING_PLAYERS | in IN_PROGRESS, player A disconnects, then player B, then both rejoin: the game stays in WAITING_PLAYERS and every command is answered "Game is finished" | returning players resume the phase the game was in before the first disconnection | medium; not executed | Sessions.GameSession.BothAwayAsWritten | Sessions.GameSession.BothAwayCorrected |
