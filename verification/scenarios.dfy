/** The game's own unit tests and the play-through scenarios, as client methods whose
    postconditions are the expected outcomes. */
module Scenarios {
  import opened Gobs
  import opened Game

  /** Calls `add_tile` `n` times on a board with at least `n` free slots. */
  method AddTiles(board: Board, n: nat)
    requires board.Valid() && WellPlaced(board.Tiles(), board.length)
    requires n <= |FreePositions(board.Tiles())|
    modifies board.tiles
    ensures WellPlaced(board.Tiles(), board.length)
    ensures |FreePositions(board.Tiles())| == old(|FreePositions(board.Tiles())|) - n
  {
    var added := 0;
    while added < n
      invariant 0 <= added <= n
      invariant WellPlaced(board.Tiles(), board.length)
      invariant |FreePositions(board.Tiles())| == old(|FreePositions(board.Tiles())|) - added
    {
      ghost var before := board.Tiles();
      board.AddTile();
      TileAddedEffect(before, board.Tiles(), board.length);
      added := added + 1;
    }
  }

  /** One `add_tile` on a board that is not full. */
  method AddOneTile(board: Board)
    requires board.Valid() && |FreePositions(board.Tiles())| >= 1
    modifies board.tiles
    ensures |FreePositions(board.Tiles())| == old(|FreePositions(board.Tiles())|) - 1
  {
    ghost var before := board.Tiles();
    FullIffNoFree(before);
    board.AddTile();
    TileAddedEffect(before, board.Tiles(), board.length);
  }

  /** The random-index test: on an empty board a random position exists and is a slot index. */
  method RandomIndexScenario() returns (pick: Option<nat>)
    ensures pick.Some? && pick.value <= 8
  {
    var board := new Board.FromLength(300.0);
    EmptyBoardFree();
    pick := board.RandomPosition();
  }

  /** The board tests: one tile leaves eight free positions; eight tiles do not fill the board,
      the ninth does, and clearing empties it again. */
  method BoardScenario() returns (freeAfterOne: nat, fullAfterEight: bool, fullAfterNine: bool,
                                  fullAfterClear: bool)
    ensures freeAfterOne == 8 && !fullAfterEight && fullAfterNine && !fullAfterClear
  {
    var board := new Board.FromLength(300.0);
    EmptyBoardFree();
    AddTiles(board, 1);
    freeAfterOne := |FreePositions(board.Tiles())|;
    AddTiles(board, 7);
    FullIffNoFree(board.Tiles());
    fullAfterEight := IsFull(board.Tiles());
    AddTiles(board, 1);
    FullIffNoFree(board.Tiles());
    fullAfterNine := IsFull(board.Tiles());
    board.ClearBoard();
    fullAfterClear := IsFull(board.Tiles());
  }

  /** For each slot, whether the cursor overlaps its tile (the test unwraps every slot). */
  function OverlapFlags(tiles: seq<Option<Sprite>>, cursor: Sprite): (flags: seq<bool>)
    ensures |flags| == |tiles|
  {
    seq(|tiles|, i requires 0 <= i < |tiles| => tiles[i].Some? && IsOverlapping(cursor, tiles[i].value))
  }

  /** On a full 300-pixel board, a cursor of side 18.75 at (x, y) inside cell (col, row),
      away from the cell's edges, overlaps the tile of that slot only. */
  lemma FullBoardFlags(tiles: seq<Option<Sprite>>, x: real, y: real, col: nat, row: nat)
    requires |tiles| == SlotCount && forall i :: 0 <= i < SlotCount ==> tiles[i] == Some(TileAt(300.0, i))
    requires col < 3 && row < 3
    requires col as real * 100.0 < x && x + 18.75 < col as real * 100.0 + 100.0
    requires row as real * 100.0 < y && y + 18.75 < row as real * 100.0 + 100.0
    ensures forall i :: 0 <= i < SlotCount ==>
              OverlapFlags(tiles, NewSprite(x, y, 18.75, 18.75, Yellow))[i] == (i == 3 * row + col)
  {
    forall i | 0 <= i < SlotCount
      ensures OverlapFlags(tiles, NewSprite(x, y, 18.75, 18.75, Yellow))[i] == (i == 3 * row + col)
    {
      RowOfIndex(300.0, i);
      assert i == 3 * (i / 3) + i % 3;
    }
  }

  /** The three cursor positions of the overlap test on a full 300-pixel board. */
  lemma OverlapTestFlags(tiles: seq<Option<Sprite>>)
    requires |tiles| == SlotCount && forall i :: 0 <= i < SlotCount ==> tiles[i] == Some(TileAt(300.0, i))
    ensures OverlapFlags(tiles, NewSprite(150.0, 150.0, 18.75, 18.75, Yellow))
            == [false, false, false, false, true, false, false, false, false]
    ensures OverlapFlags(tiles, NewSprite(50.0, 150.0, 18.75, 18.75, Yellow))
            == [false, false, false, true, false, false, false, false, false]
    ensures OverlapFlags(tiles, NewSprite(50.0, 50.0, 18.75, 18.75, Yellow))
            == [true, false, false, false, false, false, false, false, false]
  {
    FullBoardFlags(tiles, 150.0, 150.0, 1, 1);
    FullBoardFlags(tiles, 50.0, 150.0, 0, 1);
    FullBoardFlags(tiles, 50.0, 50.0, 0, 0);
  }

  /** The overlap test: with the board full, the cursor at (150, 150) overlaps only the centre
      tile; 100 to the left only the middle-left tile; then 100 up only the top-left tile. */
  method OverlapScenario() returns (atCentre: seq<bool>, movedLeft: seq<bool>, movedUp: seq<bool>)
    ensures atCentre == [false, false, false, false, true, false, false, false, false]
    ensures movedLeft == [false, false, false, true, false, false, false, false, false]
    ensures movedUp == [true, false, false, false, false, false, false, false, false]
  {
    var board := new Board.FromLength(300.0);
    EmptyBoardFree();
    AddTiles(board, 9);
    var tiles := board.Tiles();
    FullIffNoFree(tiles);
    FullBoardTiles(tiles, 300.0);
    OverlapTestFlags(tiles);
    var cursor := NewSprite(300.0 / 2.0, 300.0 / 2.0, 300.0 / 16.0, 300.0 / 16.0, Yellow);
    atCentre := OverlapFlags(tiles, cursor);
    cursor := cursor.(pos := cursor.pos.(x := cursor.pos.x - 100.0));
    movedLeft := OverlapFlags(tiles, cursor);
    cursor := cursor.(pos := cursor.pos.(y := cursor.pos.y - 100.0));
    movedUp := OverlapFlags(tiles, cursor);
  }

  /** The render test: a new game draws only the cursor; one tile later it draws two sprites. */
  method GetSpritesScenario() returns (before: nat, after: nat)
    ensures before == 1 && after == 2
  {
    var game := new GameManager(300.0, 3.0, 1.0);
    EmptyBoardFree();
    before := |GetSprites(game.board.Tiles(), game.cursor)|;
    game.board.AddTile();
    FirstTile(game.board.Tiles(), game.board.length);
    after := |GetSprites(game.board.Tiles(), game.cursor)|;
  }

  /** The changes the reset test makes by hand: cursor moved to x = 50, two tiles added, the
      game lost and the score set to 200. */
  method Scramble(game: GameManager)
    requires game.Valid() && |FreePositions(game.board.Tiles())| >= 2
    modifies game, game.board.tiles
    ensures game.Valid() && game.cursor.pos.x == 50.0 && game.state == Lose && game.score == 200
    ensures |FreePositions(game.board.Tiles())| == old(|FreePositions(game.board.Tiles())|) - 2
  {
    game.cursor := game.cursor.(pos := game.cursor.pos.(x := 50.0));
    AddOneTile(game.board);
    AddOneTile(game.board);
    game.state := Lose;
    game.score := 200;
  }

  /** The reset test: two new managers are equal; moving the cursor, adding tiles, losing and
      scoring makes them differ; resetting the changed one makes them equal again. */
  method ResetScenario() returns (equalAtStart: bool, equalAfterChanges: bool, equalAfterReset: bool)
    ensures equalAtStart && !equalAfterChanges && equalAfterReset
  {
    var game1 := new GameManager(300.0, 3.0, 1.0);
    var game2 := new GameManager(300.0, 3.0, 1.0);
    ghost var initial := game1.View();
    equalAtStart := game1.View() == game2.View();
    EmptyBoardFree();
    Scramble(game2);
    assert game1.View() == initial && initial.cursor.pos.x != game2.cursor.pos.x;
    equalAfterChanges := game1.View() == game2.View();
    ghost var changed := game2.View();
    game2.Reset();
    ResetIsFresh(changed);
    equalAfterReset := game1.View() == game2.View();
  }

  /** Space starts a new game; nine ticks each longer than `max_time` add a tile each, and the
      ninth fills the board and loses the game. */
  method FillToLoseScenario() returns (started: GameState, beforeLast: GameState, final: GameState)
    ensures started == Playing && beforeLast == Playing && final == Lose
  {
    var game := new GameManager(300.0, 3.0, 1.0);
    EmptyBoardFree();
    game.Input(Space);
    started := game.state;
    beforeLast := started;
    var ticks := 0;
    while ticks < 9
      invariant 0 <= ticks <= 9
      invariant game.Playable() && game.maxTime == 3.0 && game.minTime == 1.0
      invariant game.tileTimer <= game.maxTime
      invariant |FreePositions(game.board.Tiles())| == 9 - ticks
      invariant game.state == if ticks == 9 then Lose else Playing
      invariant beforeLast == Playing
    {
      beforeLast := game.state;
      ghost var before := game.View();
      game.Update(4.0);
      TickFacts(before, game.minTime, 4.0, game.View());
      ticks := ticks + 1;
    }
    final := game.state;
  }

  /** A key press in a Playing game, with what `PlayingKeyOutcome` says of it. */
  method Press(game: GameManager, key: Key, ghost col: int, ghost row: int)
    requires game.Playable() && game.state == Playing
    requires game.cursor == CursorSprite(game.board.length, col, row)
    modifies game, game.board.tiles
    ensures game.Playable() && game.state == Playing
    ensures game.cursor == CursorSprite(game.board.length, col + ColumnStep(key), row + RowStep(key))
    ensures if key == Space && InBoard(col, row) && old(game.board.Tiles())[3 * row + col].Some?
            then game.board.Tiles() == old(game.board.Tiles())[3 * row + col := None] &&
                 game.score == old(game.score) + 1
            else game.board.Tiles() == old(game.board.Tiles()) && game.score == old(game.score)
  {
    ghost var before := game.View();
    game.Input(key);
    PlayingKeyOutcome(before, key, col, row);
  }

  /** The first tile on an empty board leaves eight free slots and one occupied slot. */
  lemma FirstTile(tiles: seq<Option<Sprite>>, length: real)
    requires TileAdded(EmptyTiles(), tiles, length)
    ensures |tiles| == SlotCount && WellPlaced(tiles, length)
    ensures |FreePositions(tiles)| == 8 && |OccupiedPositions(tiles)| == 1
  {
    EmptyBoardFree();
    TileAddedEffect(EmptyTiles(), tiles, length);
    FreePlusOccupied(tiles, 0);
  }

  /** Emptying the one occupied slot of a board with eight free slots leaves no tile. */
  lemma LastTileRemoved(tiles: seq<Option<Sprite>>, slot: nat)
    requires |tiles| == SlotCount && |FreePositions(tiles)| == 8
    requires slot < SlotCount && tiles[slot].Some?
    ensures |OccupiedPositions(tiles[slot := None])| == 0
  {
    CountAfterUpdate(tiles, IsFree, 0, slot, None);
    FreePlusOccupied(tiles[slot := None], 0);
  }

  /** A game started with Space, in which one tile has appeared. */
  method OneTileGame() returns (game: GameManager, slot: nat)
    ensures fresh(game) && fresh(game.board.tiles)
    ensures game.Playable() && game.state == Playing && game.score == 0
    ensures game.board.length == 300.0 && game.cursor == CursorSprite(300.0, 1, 1)
    ensures slot < SlotCount && game.board.Tiles()[slot].Some?
    ensures |FreePositions(game.board.Tiles())| == 8
  {
    game := new GameManager(300.0, 3.0, 1.0);
    game.Input(Space);
    game.board.AddTile();
    FirstTile(game.board.Tiles(), game.board.length);
    slot := OccupiedPositions(game.board.Tiles())[0];
  }

  /** Arrow keys that take the cursor from the centre cell to cell (col, row). */
  method Steer(game: GameManager, col: nat, row: nat)
    requires game.Playable() && game.state == Playing && col < 3 && row < 3
    requires game.cursor == CursorSprite(game.board.length, 1, 1)
    modifies game, game.board.tiles
    ensures game.Playable() && game.state == Playing
    ensures game.cursor == CursorSprite(game.board.length, col, row)
    ensures game.board.Tiles() == old(game.board.Tiles()) && game.score == old(game.score)
  {
    if col == 0 {
      Press(game, Left, 1, 1);
    } else if col == 2 {
      Press(game, Right, 1, 1);
    }
    if row == 0 {
      Press(game, Up, col, 1);
    } else if row == 2 {
      Press(game, Down, col, 1);
    }
  }

  /** Start a game, let one tile appear, steer the cursor onto it and whack it: one point and
      the tile is gone; whacking the now empty cell again scores nothing. */
  method WhackScenario() returns (scoreAfterHit: nat, scoreAfterMiss: nat, tilesLeft: nat)
    ensures scoreAfterHit == 1 && scoreAfterMiss == 1 && tilesLeft == 0
  {
    var game, slot := OneTileGame();
    var col, row := slot % 3, slot / 3;
    Steer(game, col, row);
    assert 3 * row + col == slot;
    LastTileRemoved(game.board.Tiles(), slot);
    Press(game, Space, col, row);
    scoreAfterHit := game.score;
    Press(game, Space, col, row);
    scoreAfterMiss := game.score;
    tilesLeft := |OccupiedPositions(game.board.Tiles())|;
  }
}
