# Whack! — a Dafny model of the game logic

Whack! is a small arcade game. A 3x3 board fills up with red tiles at random. The player
moves a yellow cursor with the arrow keys and removes ("whacks") the tile under it with
Space. Each whack scores one point, and the game is lost once all nine slots are occupied.
This project models the game's logic and proves properties of it. Window, rendering and the
event loop are not modelled. The project has three modules:

- **`Gobs`** (`gobs.dfy`) holds the game objects.
  - `Vec2D` and `Sprite` are copyable value types, so they become datatypes.
  - Rectangle overlap is the separating-axis test.
  - `Board` is a class that owns a 9-slot `array<Option<Sprite>>`. `AddTile` and
    `ClearBoard` write this array in place.
  - Slot queries (`free_positions`, `is_full`, the slot coordinates) are functions on the
    slot sequence.
  - The library compiles an inline copy of these objects (`src/lib.rs:322-643`). It is
    identical except that `is_overlapping` takes the other sprite by value
    (`src/lib.rs:423-431`). One model covers both.
- **`Game`** (`game.dfy`) holds the `GameManager` state machine (Ready / Playing / Lose, plus
  a `Win` state nothing enters).
  - `GameManager` is a class whose methods update the cursor, state, score, timer and board
    in place.
  - Each method is proved against a function on `ManagerView`. `ManagerView` holds the
    fields the game's own equality compares.
  - Lemmas state the game's rules about those functions.
  - The cursor's cell on the 3x3 lattice is tracked as ghost state. This is what proves that
    `whack`'s assertion "exactly one tile under the cursor" cannot fail.
- **`Scenarios`** (`scenarios.dfy`) holds the repository's unit tests and two play-throughs,
  written as client methods. Each method's postcondition is the outcome the test expects.

Positions, lengths and times are `f64` in the game; here they are exact reals. The random
choice of a free slot is an arbitrary choice among the free slots (`:|`). Because of it, a tick
is specified by the relation `Ticked` rather than by a function.

## Model

| member | source | states |
|---|---|---|
| Gobs.AddExamples | src/gobs.rs:271-290 | adding (-100, 0) to (150, 150) gives (50, 150); adding (100, 100) to that gives (150, 250) |
| Gobs.NewSprite | src/gobs.rs:63-70 | the new sprite's rectangle is `[x, y, width, height]` and it has the given colour |
| Gobs.Add | src/gobs.rs:37-40 | subtracting `other` from the sum gives back the original vector; adding the zero vector changes nothing |
| Gobs.GetRect | src/gobs.rs:82-84 | the rectangle has four entries, and a sprite built from it and the colour is the original sprite |
| Gobs.IsOverlapping | src/gobs.rs:101-108 | for non-negative sizes, two sprites overlap exactly when their closed rectangles share a point; the same test is copied at src/lib.rs:423-431 |
| Gobs.OverlapSymmetric | src/lib.rs:423-431 | the overlap test gives the same answer whichever sprite is the receiver |
| Gobs.OverlapExamples | src/gobs.rs:94-99 | the documented example: s1/s2 overlap, s1/s3 do not, s2/s3 do; edges that touch count as overlap, a gap of one does not |
| Gobs.IndicesFrom | src/gobs.rs:137-142 | the enumerate/filter/map scan returns only indices whose slot passes the filter, returns all of them, and returns them in strictly ascending order |
| Gobs.FreePositions | src/gobs.rs:136-144 | exactly the indices of the empty slots, each a valid slot index, strictly ascending |
| Gobs.OccupiedPositions | src/lib.rs:254-259 | exactly the indices of the occupied slots, strictly ascending |
| Gobs.IsFull | src/gobs.rs:147-153 | true exactly when every slot is occupied |
| Gobs.FullIffNoFree | src/gobs.rs:147-153 | the board is full exactly when `free_positions` is empty |
| Gobs.CountAfterUpdate | src/gobs.rs:136-144 | writing one slot changes the number of selected slots by exactly the change at that slot |
| Gobs.FreePlusOccupied | src/gobs.rs:136-144 | every slot is free or occupied, never both: the two counts add up to the slot count |
| Gobs.AllSelected | src/gobs.rs:136-144 | when every slot passes the filter, the scan lists every index in order |
| Gobs.EmptyBoardFree | src/gobs.rs:128-133 | an empty board has nine free positions, listed 0..8; it is not full; it has no misplaced tile |
| Gobs.EmptyWellPlaced | src/gobs.rs:128-133 | an empty board has no tile out of place, whatever its length |
| Gobs.XFromIndex | src/gobs.rs:180-183 | for a non-negative length, the tile column starts inside the board and the tile ends within it |
| Gobs.YFromIndex | src/gobs.rs:186-189 | for a non-negative length and one of the nine slots, the tile row starts inside the board and the tile ends within it |
| Gobs.RowOfIndex | src/gobs.rs:186-189 | the floor of i / 3.0 is integer division, so `y_from_index(i)` is `(i / 3) * length / 3` |
| Gobs.IndexCoordinateExamples | src/gobs.rs:303-318 | for length 300: x(0, 1, 2, 8) = 0, 100, 200, 200 and y(0, 1, 2, 8) = 0, 0, 0, 200 |
| Gobs.SlotCornersDistinct | src/gobs.rs:180-189 | on a board of non-zero length, two slots have the same top-left corner exactly when they are the same slot |
| Gobs.TileAt | src/gobs.rs:159-163 | the tile for slot i sits at (x_from_index(i), y_from_index(i)), is a third of the board on each side, and is red |
| Gobs.TileAddedEffect | src/gobs.rs:156-166 | `add_tile` never overwrites a tile; on a board that is not full it uses up exactly one free slot; tiles stay at their slots' positions |
| Gobs.FullBoardTiles | src/gobs.rs:156-166 | a full board built by `add_tile` holds the nine slot tiles |
| Gobs.Board.FromLength | src/gobs.rs:128-133 | nine empty slots, and the given length |
| Gobs.Board.RandomPosition | src/gobs.rs:169-177 | returns nothing exactly when the board is full; otherwise returns one of the free positions, which is below 9 |
| Gobs.Board.AddTile | src/gobs.rs:156-166 | a full board is unchanged; otherwise exactly one previously free slot is filled with that slot's tile, and no other slot changes |
| Gobs.Board.ClearBoard | src/gobs.rs:192-194 | every slot is empty afterwards; the length is a constant |
| Game.MoveVector | src/lib.rs:199-226 | Up, Down, Left and Right give a vector of length `dist` along -y, +y, -x and +x; every other key gives the zero vector |
| Game.MoveStaysOnLattice | src/lib.rs:196-229 | a movement vector takes the cursor from one lattice cell to the neighbouring one |
| Game.MovementDisplacement | src/lib.rs:196-229 | Up, Down, Left and Right move the cursor by length/3 along one axis (-y, +y, -x, +x); any other key leaves it unchanged; nothing but the cursor's position changes |
| Game.AxisOverlap | src/lib.rs:74-84 | along one axis, a tile in cell j and a cursor of side length/16 placed like the new cursor but in cell k overlap exactly when j = k |
| Game.TileUnderCursor | src/lib.rs:232-241 | the tile of slot i overlaps a cursor in cell (col, row) exactly when i % 3 = col and i / 3 = row |
| Game.TilesUnderCursor | src/lib.rs:232-241 | of well-placed tiles on the nine slots, only the one in the cursor's own cell overlaps the cursor |
| Game.OverlappingSlots | src/lib.rs:234-241 | the scan returns only occupied slots whose tile overlaps the cursor, returns all of them, and returns them ascending |
| Game.OverlappingIsCursorCell | src/lib.rs:242-245 | with well-placed tiles and the cursor on the lattice, the scan finds the cursor's own cell if a tile is there and nothing otherwise, so it finds at most one slot |
| Game.ReloadTime | src/lib.rs:149-154 | the reload time lies between `min_time` and `max_time` whenever `min_time <= max_time` |
| Game.ReloadTimeNonIncreasing | src/lib.rs:149-154 | the reload time never grows as the score grows; it is `max_time` at score 0; every point below 100 shortens it by the same hundredth of `max_time - min_time`, so the switch to `min_time` at score 100 makes no jump |
| Game.FreshView | src/lib.rs:74-91 | a new manager has an empty board, a cursor centred on the window in cell (1, 1), state Ready, score and timer 0; resetting it changes nothing |
| Game.ResetView | src/lib.rs:94-103 | a reset empties all nine slots and centres the cursor on the board, keeping its size and colour; Ready, score and timer 0; length and `max_time` are kept |
| Game.WhackView | src/lib.rs:232-249 | a whack never adds or moves a tile; the score grows by one exactly when the key is Space and some tile overlaps the cursor, otherwise it is kept; nothing but tiles and score changes |
| Game.Ticked | src/lib.rs:146-162 | a tick from a state other than Lose ends in Lose exactly when the board is full; the slot count is kept |
| Game.ResetIsFresh | src/lib.rs:94-103 | a reset manager equals a new one under the game's equality, whatever was played before |
| Game.InputTransitions | src/lib.rs:165-193 | Ready: Space starts play, other keys change nothing. Playing: state, timer and length are kept. Lose: Space gives a fresh manager, other keys change nothing. Win: nothing changes |
| Game.MovementOutcome | src/lib.rs:196-229 | on the lattice, an arrow key moves the cursor to the neighbouring cell and changes nothing else |
| Game.WhackOutcome | src/lib.rs:232-249 | with the cursor on the lattice, Space empties the cursor's cell and scores one if the cell holds a tile; otherwise nothing changes |
| Game.WhackEffect | src/lib.rs:232-249 | with the cursor anywhere and at most one tile under it: no overlapping tile leaves everything unchanged; otherwise one overlapping tile is removed, other slots are kept, and the score grows by exactly one |
| Game.PlayingKeyOutcome | src/lib.rs:182-185 | a key in Playing moves the cursor by its step, then whacks the cell it lands in; state, timer and length are kept |
| Game.TickLosesIffFull | src/lib.rs:158-161 | after a Playing tick the state is Lose exactly when the board is full, and Playing otherwise |
| Game.TickFacts | src/lib.rs:146-162 | an expired timer on a board that is not full uses up one free slot; an unexpired timer leaves the board alone; tiles stay in place; the timer never exceeds `max_time` |
| Game.GameManager.constructor | src/lib.rs:74-91 | an empty board of the window's size; a yellow cursor of side 1/16 of the window, centred; Ready, score 0, timer 0 |
| Game.GameManager.Reset | src/lib.rs:94-103 | the board is emptied, the cursor re-centred, the state Ready, score and timer 0; the lattice invariant is restored |
| Game.GameManager.Update | src/lib.rs:138-143 | a Playing manager makes a `Ticked` step; in any other state nothing changes |
| Game.GameManager.PlayingUpdate | src/lib.rs:146-162 | the timer counts down by dt; if it drops below zero it is reloaded and a tile is added; then the game is lost if the board is full |
| Game.GameManager.Input | src/lib.rs:165-172 | the new state is the key's transition for the current state |
| Game.GameManager.ReadyKeyPress | src/lib.rs:175-179 | Space moves Ready to Playing; nothing else changes |
| Game.GameManager.PlayingKeyPress | src/lib.rs:182-185 | movement then whack, with the cursor's lattice cell moved by the key's step |
| Game.GameManager.LoseKeyPress | src/lib.rs:188-193 | Space resets the manager into Ready; any other key changes nothing |
| Game.GameManager.HandleMovement | src/lib.rs:196-229 | the cursor moves by the key's vector and its lattice cell by the key's step; the cursor keeps its size and colour |
| Game.GameManager.Whack | src/lib.rs:232-249 | on Space, the first overlapping tile is removed and the score incremented; the assertion that exactly one tile overlaps is proved to hold |
| Game.OccupiedFrom | src/lib.rs:254-259 | the occupied slots' tiles, in slot order, one per occupied index |
| Game.GetSprites | src/lib.rs:251-262 | the occupied tiles in ascending slot order, then the cursor last: one sprite more than there are occupied slots |
| Scenarios.AddTiles | src/gobs.rs:222-228 | n calls of `add_tile` on a board with at least n free slots use up exactly n of them and keep tiles in place |
| Scenarios.RandomIndexScenario | src/gobs.rs:292-300 | on an empty board a random position exists and is at most 8 |
| Scenarios.BoardScenario | src/gobs.rs:205-231 | one tile leaves 8 free positions; 8 tiles do not fill the board, the ninth does; clearing empties it |
| Scenarios.FullBoardFlags | src/gobs.rs:233-268 | on a full 300-board, a cursor strictly inside one cell overlaps that slot's tile and no other |
| Scenarios.OverlapTestFlags | src/gobs.rs:233-268 | the three expected overlap vectors, for cursors at (150, 150), (50, 150) and (50, 50) |
| Scenarios.OverlapScenario | src/gobs.rs:233-268 | the overlap test, with the cursor moved by field updates |
| Scenarios.GetSpritesScenario | src/lib.rs:282-290 | a new game draws one sprite; after one `add_tile` it draws two |
| Scenarios.AddOneTile | src/gobs.rs:156-166 | one `add_tile` on a board with a free slot uses up exactly one free slot |
| Scenarios.FirstTile | src/gobs.rs:156-166 | the first `add_tile` on an empty board leaves eight free slots and one occupied slot, with the tile at its place |
| Scenarios.LastTileRemoved | src/lib.rs:244 | taking the only tile of a board with eight free slots leaves no occupied slot |
| Scenarios.Scramble | src/lib.rs:297-301 | the test's hand edits on a board with two free slots: cursor x = 50, two tiles added so the free count drops by two, Lose, score 200 |
| Scenarios.ResetScenario | src/lib.rs:292-305 | two new managers are equal; the edits make them differ; `reset` makes them equal again |
| Scenarios.FillToLoseScenario | src/lib.rs:138-162 | after Space, nine ticks longer than `max_time` fill the board; the game stays Playing until the ninth tick, which loses it |
| Scenarios.Press | src/lib.rs:182-185 | one key press in Playing, moved to the neighbouring cell and whacked as `PlayingKeyOutcome` says |
| Scenarios.OneTileGame | src/lib.rs:175-179 | a game started with Space in which one tile has appeared |
| Scenarios.Steer | src/lib.rs:196-229 | arrow keys take the centred cursor to any cell, leaving board and score alone |
| Scenarios.WhackScenario | src/lib.rs:232-249 | whacking the one tile scores 1 and empties the board; whacking the empty cell again keeps the score at 1 |

## Left out

- Window and rendering are not modelled: `run`, `start`, `render`, the `gl` graphics handle and the event loop. The game reaches these only through external graphics libraries. `get_sprites` is modelled because it computes what `render` draws.
- Console output (`println!` of the timer, of the score and of "You lose!") is not modelled.
- `src/main.rs` is not part of this model. It is an older front end that uses functions the library no longer has. `src/bin/main.rs` is only an entry point that calls `run`.
- Colours are opaque tags, not RGBA arrays. The game only compares and draws them.
- `f64` rounding is not modelled. Positions, lengths, `dt` and timers are exact reals. `i as f64 % 3.0` is taken as the integer remainder, which is exact for small slot indices.
- The random generator is not modelled. `random_position` returns an arbitrary free slot, so any slot the generator could pick is covered.
- `Win` is declared but never entered, and it has no transitions here either.
- Game.GameManager.Whack: the score is a `nat`. The `u32` overflow after 2^32 - 1 whacks is not modelled.
- Gobs.Add: `Vec2D::add` updates the receiver in place. The cursor is a copyable value inside the manager, so the model assigns the sum back to the cursor's position field.
- Game.GameManager.constructor: requires a positive window size. With zero or a negative size the cursor no longer lies strictly inside one cell. The game only ever uses 300.
- Keys are modelled as Up, Down, Left, Right, Space and one `OtherKey` that stands for every other key of the keyboard. The game treats all other keys alike.
- The test helper `make_manager` opens a real window. The scenarios construct the manager directly with the same arguments (300, 3, 1).
- Game.WhackView: where two or more tiles overlap the cursor, the game fails its assertion (src/lib.rs:243), whereas WhackView removes the first of them. Game.GameManager.Whack proves this cannot happen under the lattice invariant, and Game.WhackEffect is stated only for at most one overlapping tile.
- Game.GameManager.Update: `dt` is any real. The timer bound in `TickFacts` assumes time does not run backwards.
