/** The Whack! game manager: the Ready / Playing / Lose state machine, the spawn timer that
    fills the board, cursor movement and whacking. Window, rendering and the event loop are
    not part of this module. */
module Game {
  import opened Gobs

  /** `Win` is declared by the game but no transition ever enters it. */
  datatype GameState = Ready | Playing | Win | Lose

  /** The keys the game tells apart; every other key of the keyboard is `OtherKey`. */
  datatype Key = Up | Down | Left | Right | Space | OtherKey

  predicate IsMovementKey(key: Key)
  {
    key == Up || key == Down || key == Left || key == Right
  }

  /** The translation `handle_movement` applies for `key`: one cell of side `dist` up, down,
      left or right, and nothing for any other key; that is, `dist` times the key's column and
      row step. */
  function MoveVector(key: Key, dist: real): (v: Vec2D)
    ensures v == Vec2D(ColumnStep(key) as real * dist, RowStep(key) as real * dist)
  {
    match key
    case Up => Vec2D(0.0, -dist)
    case Down => Vec2D(0.0, dist)
    case Right => Vec2D(dist, 0.0)
    case Left => Vec2D(-dist, 0.0)
    case _ => Vec2D(0.0, 0.0)
  }

  /** How many cells a key moves the cursor sideways and downwards. */
  function ColumnStep(key: Key): int
  {
    match key
    case Left => -1
    case Right => 1
    case _ => 0
  }

  function RowStep(key: Key): int
  {
    match key
    case Up => -1
    case Down => 1
    case _ => 0
  }

  // ---------------------------------------------------------------------------------------------
  // Cursor geometry

  /** The cursor's top-left corner when it is in column `col` and row `row` of the cell lattice:
      the constructor's centred position moved by whole cells. Cells outside 0..2 are allowed,
      since movement is never clamped to the board. */
  function CursorPos(length: real, col: int, row: int): Vec2D
  {
    Vec2D(CursorOffset(length, col), CursorOffset(length, row))
  }

  /** One coordinate of that corner, for cell `k` along its axis. */
  function CursorOffset(length: real, k: int): real
  {
    length / 2.0 - 0.5 * (length / 16.0) + (k - 1) as real * (length / 3.0)
  }

  /** The yellow cursor, one sixteenth of the window on each side. */
  function CursorSprite(length: real, col: int, row: int): Sprite
  {
    Sprite(CursorPos(length, col, row), length / 16.0, length / 16.0, Yellow)
  }

  predicate InBoard(col: int, row: int)
  {
    0 <= col < 3 && 0 <= row < 3
  }

  /** Every movement key moves the cursor to the neighbouring cell of the lattice. */
  lemma MoveStaysOnLattice(length: real, col: int, row: int, key: Key)
    ensures Add(CursorPos(length, col, row), MoveVector(key, length / 3.0)) ==
            CursorPos(length, col + ColumnStep(key), row + RowStep(key))
  {
    var c := length / 3.0;
    assert ((col + 1) - 1) as real * c == (col - 1) as real * c + c;
    assert ((col - 1) - 1) as real * c == (col - 1) as real * c - c;
    assert ((row + 1) - 1) as real * c == (row - 1) as real * c + c;
    assert ((row - 1) - 1) as real * c == (row - 1) as real * c - c;
  }

  /** Along one axis, a tile at cell `j` and a cursor in cell `k` overlap exactly when j == k:
      the cursor keeps a margin of 13/32 of a cell on one side and 13/32 on the other. */
  lemma AxisOverlap(length: real, j: int, k: int)
    requires length > 0.0
    ensures j == k <==>
            !(j as real * (length / 3.0) + length / 3.0 < CursorOffset(length, k) ||
              CursorOffset(length, k) + length / 16.0 < j as real * (length / 3.0))
  {
    var c := length / 3.0;
    var d := j - k;
    assert j as real * c == (k - 1) as real * c + (d + 1) as real * c;
    if d >= 1 {
      assert ((d + 1) as real - 2.0) * c >= 0.0;
    } else if d <= -1 {
      assert (-(d + 1)) as real * c >= 0.0;
    }
  }

  /** The tile of slot `i` overlaps a cursor in cell (col, row) exactly when the slot is that
      cell. */
  lemma TileUnderCursor(length: real, i: nat, col: int, row: int)
    requires length > 0.0
    ensures IsOverlapping(TileAt(length, i), CursorSprite(length, col, row)) <==> (i % 3 == col && i / 3 == row)
  {
    var c := length / 3.0;
    var tx, ty := XFromIndex(length, i), YFromIndex(length, i);
    var cx, cy := CursorOffset(length, col), CursorOffset(length, row);
    assert !(tx + c < cx || cx + length / 16.0 < tx) <==> i % 3 == col by {
      assert tx == (i % 3) as real * c;
      AxisOverlap(length, i % 3, col);
    }
    assert !(ty + c < cy || cy + length / 16.0 < ty) <==> i / 3 == row by {
      RowOfIndex(length, i);
      AxisOverlap(length, i / 3, row);
    }
    OverlapOnAxes(length, i, col, row);
  }

  /** The overlap test of a slot's tile against the cursor, written out per axis. */
  lemma OverlapOnAxes(length: real, i: nat, col: int, row: int)
    ensures var tx, ty := XFromIndex(length, i), YFromIndex(length, i);
            var cx, cy := CursorOffset(length, col), CursorOffset(length, row);
            IsOverlapping(TileAt(length, i), CursorSprite(length, col, row)) <==>
              !(tx + length / 3.0 < cx || cx + length / 16.0 < tx) &&
              !(ty + length / 3.0 < cy || cy + length / 16.0 < ty)
  {
  }

  /** The slots whose tile overlaps the cursor, in ascending order, as `whack` collects them. */
  function OverlappingSlots(tiles: seq<Option<Sprite>>, cursor: Sprite): (r: seq<nat>)
    ensures forall j :: 0 <= j < |r| ==>
              r[j] < |tiles| && tiles[r[j]].Some? && IsOverlapping(tiles[r[j]].value, cursor)
    ensures forall i :: 0 <= i < |tiles| && tiles[i].Some? && IsOverlapping(tiles[i].value, cursor) ==> i in r
    ensures StrictlyAscending(r)
  {
    IndicesFrom(tiles, (t: Option<Sprite>) => t.Some? && IsOverlapping(t.value, cursor), 0)
  }

  /** Of well-placed tiles, only the one in the cursor's own cell overlaps the cursor. */
  lemma TilesUnderCursor(tiles: seq<Option<Sprite>>, length: real, col: int, row: int)
    requires |tiles| == SlotCount && length > 0.0 && WellPlaced(tiles, length)
    ensures forall i :: 0 <= i < |tiles| && tiles[i].Some? ==>
              (IsOverlapping(tiles[i].value, CursorSprite(length, col, row)) <==> InBoard(col, row) && i == 3 * row + col)
  {
    forall i | 0 <= i < |tiles| && tiles[i].Some?
      ensures IsOverlapping(tiles[i].value, CursorSprite(length, col, row)) <==> InBoard(col, row) && i == 3 * row + col
    {
      TileUnderCursor(length, i, col, row);
    }
  }

  /** With well-placed tiles and the cursor on the lattice, the overlap scan finds the cursor's
      own cell if a tile is there and nothing otherwise; so it never finds two tiles, which is
      the assertion `whack` makes. */
  lemma OverlappingIsCursorCell(tiles: seq<Option<Sprite>>, length: real, col: int, row: int)
    requires |tiles| == SlotCount && length > 0.0 && WellPlaced(tiles, length)
    ensures OverlappingSlots(tiles, CursorSprite(length, col, row)) ==
            if InBoard(col, row) && tiles[3 * row + col].Some? then [3 * row + col] else []
  {
    var cursor := CursorSprite(length, col, row);
    var r := OverlappingSlots(tiles, cursor);
    TilesUnderCursor(tiles, length, col, row);
    if InBoard(col, row) && tiles[3 * row + col].Some? {
      var s := 3 * row + col;
      assert s in r;
      assert r[0] == s && r[|r| - 1] == s;
      AscendingSpread(r);
    } else {
      HeadMember(r);
    }
  }

  // ---------------------------------------------------------------------------------------------
  // The spawn timer

  /** The delay before the next tile: `max_time` at score 0, falling linearly by one hundredth
      of `max_time - min_time` per point, and `min_time` from score 100 on. */
  function ReloadTime(score: nat, maxTime: real, minTime: real): (t: real)
    ensures minTime <= maxTime ==> minTime <= t <= maxTime
  {
    if score < 100 then
      var fraction := score as real / 100.0;
      assert fraction <= 1.0;
      assert minTime <= maxTime ==> 0.0 <= (maxTime - minTime) * fraction <= maxTime - minTime by {
        if minTime <= maxTime {
          ScaleWithin(maxTime - minTime, fraction);
        }
      }
      maxTime - (maxTime - minTime) * fraction
    else minTime
  }

  lemma ScaleWithin(a: real, f: real)
    requires a >= 0.0 && 0.0 <= f <= 1.0
    ensures 0.0 <= a * f <= a
  {
    assert a * (1.0 - f) >= 0.0;
  }

  /** The delay never grows as the score grows and starts at `max_time`; every point below 100
      shortens it by the same hundredth of `max_time - min_time`, the step to score 100 (where
      the game switches to the constant `min_time`) included, so the switch makes no jump. */
  lemma ReloadTimeNonIncreasing(s1: nat, s2: nat, maxTime: real, minTime: real)
    requires s1 <= s2 && minTime <= maxTime
    ensures ReloadTime(s2, maxTime, minTime) <= ReloadTime(s1, maxTime, minTime)
    ensures ReloadTime(0, maxTime, minTime) == maxTime
    ensures s1 < 100 ==>
              ReloadTime(s1, maxTime, minTime) - ReloadTime(s1 + 1, maxTime, minTime) == (maxTime - minTime) / 100.0
  {
    if s2 < 100 {
      var a, f1, f2 := maxTime - minTime, s1 as real / 100.0, s2 as real / 100.0;
      ScaleWithin(a, f2 - f1);
      assert a * f2 == a * f1 + a * (f2 - f1);
    }
    if s1 < 100 {
      var a := maxTime - minTime;
      assert a * ((s1 + 1) as real / 100.0) == a * (s1 as real / 100.0) + a / 100.0;
    }
  }

  // ---------------------------------------------------------------------------------------------
  // What the game's equality compares, and the operations as functions of it

  /** The fields `GameManager`'s equality compares: the board, the cursor, the state, the
      score, `max_time` and the timer (not the graphics handle and not `min_time`). */
  datatype ManagerView = ManagerView(tiles: seq<Option<Sprite>>, length: real, cursor: Sprite,
                                     state: GameState, score: nat, maxTime: real, tileTimer: real)

  /** A new game manager for a window of side `length`: no tile, the cursor centred on the
      board (the middle cell of the lattice), Ready, nothing scored, no time on the timer. A
      reset leaves it as it is. */
  function FreshView(length: real, maxTime: real): (r: ManagerView)
    ensures r.tiles == EmptyTiles()
    ensures r.cursor.pos.x + r.cursor.width / 2.0 == length / 2.0
    ensures r.cursor.pos.y + r.cursor.height / 2.0 == length / 2.0
    ensures r.cursor == CursorSprite(length, 1, 1)
    ensures r.state == Ready && r.score == 0 && r.tileTimer == 0.0 && r.maxTime == maxTime
    ensures ResetView(r) == r
  {
    var side := length / 16.0;
    ManagerView(EmptyTiles(), length,
                NewSprite(length / 2.0 - 0.5 * side, length / 2.0 - 0.5 * side, side, side, Yellow),
                Ready, 0, maxTime, 0.0)
  }

  /** `reset`: empty board, cursor re-centred using its own size, Ready, score and timer 0;
      the board length, `max_time` and the cursor's size and colour are kept. */
  function ResetView(s: ManagerView): (r: ManagerView)
    ensures |r.tiles| == SlotCount && forall i :: 0 <= i < SlotCount ==> r.tiles[i].None?
    ensures r.cursor.pos.x + r.cursor.width / 2.0 == s.length / 2.0
    ensures r.cursor.pos.y + r.cursor.height / 2.0 == s.length / 2.0
    ensures r.cursor.width == s.cursor.width && r.cursor.height == s.cursor.height
    ensures r.cursor.colour == s.cursor.colour
    ensures r.state == Ready && r.score == 0 && r.tileTimer == 0.0
    ensures r.length == s.length && r.maxTime == s.maxTime
  {
    s.(tiles := EmptyTiles(),
       cursor := s.cursor.(pos := Vec2D(s.length / 2.0 - 0.5 * s.cursor.width,
                                        s.length / 2.0 - 0.5 * s.cursor.height)),
       state := Ready, score := 0, tileTimer := 0.0)
  }

  /** A reset manager equals a fresh one, whatever was played before, as long as the cursor
      kept the size and colour the constructor gave it. */
  lemma ResetIsFresh(s: ManagerView)
    requires s.cursor.width == s.length / 16.0 && s.cursor.height == s.length / 16.0
    requires s.cursor.colour == Yellow
    ensures ResetView(s) == FreshView(s.length, s.maxTime)
  {
  }

  /** `handle_movement`. */
  function MovedView(s: ManagerView, key: Key): ManagerView
  {
    if IsMovementKey(key) then
      s.(cursor := s.cursor.(pos := Add(s.cursor.pos, MoveVector(key, s.length / 3.0))))
    else s
  }

  /** `whack`: on Space, clear the first slot whose tile overlaps the cursor and score a point.
      It never adds a tile, and the score grows by one exactly when Space finds a tile under
      the cursor. */
  function WhackView(s: ManagerView, key: Key): (r: ManagerView)
    ensures |r.tiles| == |s.tiles|
    ensures forall i :: 0 <= i < |s.tiles| && r.tiles[i].Some? ==> r.tiles[i] == s.tiles[i]
    ensures r.score == s.score + 1 <==> key == Space && |OverlappingSlots(s.tiles, s.cursor)| > 0
    ensures r.score == s.score || r.score == s.score + 1
    ensures r == s.(tiles := r.tiles, score := r.score)
  {
    if key == Space then
      var overlapping := OverlappingSlots(s.tiles, s.cursor);
      if |overlapping| > 0 then s.(tiles := s.tiles[overlapping[0] := None], score := s.score + 1)
      else s
    else s
  }

  function ReadyKeyView(s: ManagerView, key: Key): ManagerView
  {
    if key == Space then s.(state := Playing) else s
  }

  function PlayingKeyView(s: ManagerView, key: Key): ManagerView
  {
    WhackView(MovedView(s, key), key)
  }

  function LoseKeyView(s: ManagerView, key: Key): ManagerView
  {
    if key == Space then ResetView(s).(state := Ready) else s
  }

  /** `input`: dispatch on the state; in `Win` every key is ignored. */
  function InputView(s: ManagerView, key: Key): ManagerView
  {
    match s.state
    case Ready => ReadyKeyView(s, key)
    case Playing => PlayingKeyView(s, key)
    case Lose => LoseKeyView(s, key)
    case Win => s
  }

  /** What one `playing_update` may do (the tile it adds is chosen at random): count the timer
      down by `dt`; if it went below zero, reload it and add a tile; then lose if the board is
      full. */
  ghost predicate Ticked(s: ManagerView, minTime: real, dt: real, s': ManagerView)
    ensures Ticked(s, minTime, dt, s') && s.state != Lose ==> (s'.state == Lose <==> IsFull(s'.tiles))
    ensures Ticked(s, minTime, dt, s') ==> |s'.tiles| == |s.tiles|
  {
    var timer := s.tileTimer - dt;
    s'.length == s.length && s'.cursor == s.cursor && s'.score == s.score && s'.maxTime == s.maxTime &&
    (if timer < 0.0
     then s'.tileTimer == ReloadTime(s.score, s.maxTime, minTime) && TileAdded(s.tiles, s'.tiles, s.length)
     else s'.tileTimer == timer && s'.tiles == s.tiles) &&
    s'.state == (if IsFull(s'.tiles) then Lose else s.state)
  }

  // ---------------------------------------------------------------------------------------------
  // Properties of the state machine

  /** The transitions of `input`: Space starts a game from Ready and starts over from Lose;
      in Ready and Lose every other key is ignored; Playing is only left by a tick; Win is inert. */
  lemma InputTransitions(s: ManagerView, key: Key)
    requires s.cursor.width == s.length / 16.0 && s.cursor.height == s.length / 16.0
    requires s.cursor.colour == Yellow
    ensures var s' := InputView(s, key);
            (s.state == Ready ==> s' == if key == Space then s.(state := Playing) else s) &&
            (s.state == Playing ==> s'.state == Playing && s'.length == s.length &&
                                    s'.maxTime == s.maxTime && s'.tileTimer == s.tileTimer) &&
            (s.state == Lose ==> s' == if key == Space then FreshView(s.length, s.maxTime) else s) &&
            (s.state == Win ==> s' == s)
  {
    if s.state == Lose && key == Space {
      ResetIsFresh(s);
    }
  }

  /** Wherever the cursor is, Up, Down, Left and Right move it by a third of the board along one
      axis (y grows downwards), any other key leaves it where it is, and nothing but its position
      changes. */
  lemma MovementDisplacement(s: ManagerView, key: Key)
    ensures var p, s' := s.cursor.pos, MovedView(s, key);
            var d := s.length / 3.0;
            (key == Up ==> s'.cursor.pos == Vec2D(p.x, p.y - d)) &&
            (key == Down ==> s'.cursor.pos == Vec2D(p.x, p.y + d)) &&
            (key == Left ==> s'.cursor.pos == Vec2D(p.x - d, p.y)) &&
            (key == Right ==> s'.cursor.pos == Vec2D(p.x + d, p.y)) &&
            (!IsMovementKey(key) ==> s' == s) &&
            s' == s.(cursor := s.cursor.(pos := s'.cursor.pos))
  {
  }

  /** Whacking, wherever the cursor is, provided at most one tile lies under it (the game
      asserts this, and `OverlappingIsCursorCell` shows it for a cursor on the lattice): with no
      occupied tile overlapping it nothing changes; otherwise that tile is removed, every other
      slot is kept and the score grows by exactly one. */
  lemma WhackEffect(s: ManagerView)
    requires |OverlappingSlots(s.tiles, s.cursor)| <= 1
    ensures (forall i :: 0 <= i < |s.tiles| && s.tiles[i].Some? ==> !IsOverlapping(s.tiles[i].value, s.cursor))
            ==> WhackView(s, Space) == s
    ensures (exists i :: 0 <= i < |s.tiles| && s.tiles[i].Some? && IsOverlapping(s.tiles[i].value, s.cursor))
            ==> exists i :: 0 <= i < |s.tiles| && s.tiles[i].Some? && IsOverlapping(s.tiles[i].value, s.cursor) &&
                           WhackView(s, Space) == s.(tiles := s.tiles[i := None], score := s.score + 1)
  {
    var r := OverlappingSlots(s.tiles, s.cursor);
    if |r| > 0 {
      var i := r[0];
      assert WhackView(s, Space) == s.(tiles := s.tiles[i := None], score := s.score + 1);
    } else {
      HeadMember(r);
    }
  }

  /** In Playing, a movement key moves the cursor one cell along one axis and nothing else. */
  lemma MovementOutcome(s: ManagerView, key: Key, col: int, row: int)
    requires s.cursor == CursorSprite(s.length, col, row)
    ensures MovedView(s, key) == s.(cursor := CursorSprite(s.length, col + ColumnStep(key), row + RowStep(key)))
  {
    MoveStaysOnLattice(s.length, col, row, key);
  }

  /** Whacking clears the tile in the cursor's cell and scores exactly one point; with no tile
      there, nothing changes. */
  lemma WhackOutcome(s: ManagerView, col: int, row: int)
    requires |s.tiles| == SlotCount && s.length > 0.0 && WellPlaced(s.tiles, s.length)
    requires s.cursor == CursorSprite(s.length, col, row)
    ensures WhackView(s, Space) ==
            if InBoard(col, row) && s.tiles[3 * row + col].Some?
            then s.(tiles := s.tiles[3 * row + col := None], score := s.score + 1)
            else s
  {
    OverlappingIsCursorCell(s.tiles, s.length, col, row);
  }

  /** One key press in Playing: the cursor moves to the neighbouring cell for an arrow key, and
      Space whacks the tile in the cursor's cell; the timer, the state and the board length stay. */
  lemma PlayingKeyOutcome(s: ManagerView, key: Key, col: int, row: int)
    requires |s.tiles| == SlotCount && s.length > 0.0 && WellPlaced(s.tiles, s.length)
    requires s.cursor == CursorSprite(s.length, col, row)
    ensures var s' := PlayingKeyView(s, key);
            s'.cursor == CursorSprite(s.length, col + ColumnStep(key), row + RowStep(key)) &&
            s'.state == s.state && s'.length == s.length && s'.maxTime == s.maxTime &&
            s'.tileTimer == s.tileTimer &&
            if key == Space && InBoard(col, row) && s.tiles[3 * row + col].Some?
            then s'.tiles == s.tiles[3 * row + col := None] && s'.score == s.score + 1
            else s'.tiles == s.tiles && s'.score == s.score
  {
    MovementOutcome(s, key, col, row);
    var moved := MovedView(s, key);
    if key == Space {
      WhackOutcome(moved, col, row);
    }
  }

  /** A tick in Playing ends in Lose exactly when the board is full, and otherwise stays in
      Playing. */
  lemma TickLosesIffFull(s: ManagerView, minTime: real, dt: real, s': ManagerView)
    requires s.state == Playing && Ticked(s, minTime, dt, s')
    ensures s'.state == Lose <==> IsFull(s'.tiles)
    ensures s'.state != Lose ==> s'.state == Playing
  {
  }

  /** A tick keeps the tiles well placed; when the timer runs out on a board that is not full
      it uses up exactly one free slot; and the timer never exceeds `max_time` if it did not
      before and time does not run backwards. */
  lemma TickFacts(s: ManagerView, minTime: real, dt: real, s': ManagerView)
    requires Ticked(s, minTime, dt, s') && WellPlaced(s.tiles, s.length)
    ensures |s'.tiles| == |s.tiles| && WellPlaced(s'.tiles, s'.length)
    ensures s.tileTimer - dt < 0.0 && !IsFull(s.tiles) ==>
              |FreePositions(s'.tiles)| + 1 == |FreePositions(s.tiles)|
    ensures s.tileTimer - dt >= 0.0 ==> s'.tiles == s.tiles
    ensures minTime <= s.maxTime && s.tileTimer <= s.maxTime && dt >= 0.0 ==> s'.tileTimer <= s'.maxTime
  {
    if s.tileTimer - dt < 0.0 {
      TileAddedEffect(s.tiles, s'.tiles, s.length);
    }
  }

  // ---------------------------------------------------------------------------------------------
  // The game manager object

  class GameManager {
    const board: Board
    var cursor: Sprite
    var state: GameState
    var score: nat
    const maxTime: real
    const minTime: real
    var tileTimer: real
    /** The lattice cell the cursor is in; the game itself only stores the position. */
    ghost var col: int
    ghost var row: int

    function View(): ManagerView
      reads this, board.tiles
    {
      ManagerView(board.Tiles(), board.length, cursor, state, score, maxTime, tileTimer)
    }

    /** The shape every manager keeps: nine slots, a positive board length, and the cursor's
        size and colour as the constructor set them. */
    ghost predicate Valid()
      reads this
    {
      board.Valid() && board.length > 0.0 &&
      cursor.width == board.length / 16.0 && cursor.height == board.length / 16.0 &&
      cursor.colour == Yellow
    }

    /** In addition, every tile sits at its slot and the cursor is on the cell lattice. */
    ghost predicate Playable()
      reads this, board.tiles
    {
      Valid() && WellPlaced(board.Tiles(), board.length) && cursor == CursorSprite(board.length, col, row)
    }

    /** `GameManager::new`. */
    constructor (windowSize: real, maxTime: real, minTime: real)
      requires windowSize > 0.0
      ensures Playable() && fresh(board) && fresh(board.tiles) && col == 1 && row == 1
      ensures View() == FreshView(windowSize, maxTime) && this.minTime == minTime
    {
      var cursorWidth := windowSize / 16.0;
      var cursorHeight := windowSize / 16.0;
      board := new Board.FromLength(windowSize);
      cursor := NewSprite(windowSize / 2.0 - 0.5 * cursorWidth, windowSize / 2.0 - 0.5 * cursorHeight,
                          cursorWidth, cursorHeight, Yellow);
      state := Ready;
      score := 0;
      this.maxTime := maxTime;
      this.minTime := minTime;
      tileTimer := 0.0;
      col, row := 1, 1;
    }

    /** `GameManager::reset`. */
    method Reset()
      requires Valid()
      modifies this, board.tiles
      ensures Playable() && col == 1 && row == 1
      ensures View() == ResetView(old(View()))
    {
      board.ClearBoard();
      cursor := cursor.(pos := Vec2D(board.length / 2.0 - 0.5 * cursor.width,
                                     board.length / 2.0 - 0.5 * cursor.height));
      state := Ready;
      score := 0;
      tileTimer := 0.0;
      col, row := 1, 1;
    }

    /** `update`: only a Playing game reacts to time. */
    method Update(dt: real)
      requires Playable()
      modifies this, board.tiles
      ensures Playable()
      ensures if old(state) == Playing then Ticked(old(View()), minTime, dt, View())
              else View() == old(View())
    {
      match state {
        case Playing => PlayingUpdate(dt);
        case _ =>
      }
    }

    /** `playing_update`. */
    method PlayingUpdate(dt: real)
      requires Playable()
      modifies this, board.tiles
      ensures Playable() && col == old(col) && row == old(row)
      ensures Ticked(old(View()), minTime, dt, View())
    {
      tileTimer := tileTimer - dt;
      if tileTimer < 0.0 {
        if score < 100 {
          var scoreDelta := (maxTime - minTime) * (score as real / 100.0);
          tileTimer := maxTime - scoreDelta;
        } else {
          tileTimer := minTime;
        }
        board.AddTile();
        TileAddedEffect(old(board.Tiles()), board.Tiles(), board.length);
      }
      if IsFull(board.tiles[..]) {
        state := Lose;
      }
    }

    /** `input`. */
    method Input(key: Key)
      requires Playable()
      modifies this, board.tiles
      ensures Playable()
      ensures View() == InputView(old(View()), key)
    {
      match state {
        case Ready => ReadyKeyPress(key);
        case Playing => PlayingKeyPress(key);
        case Lose => LoseKeyPress(key);
        case Win =>
      }
    }

    /** `ready_key_press`. */
    method ReadyKeyPress(key: Key)
      requires Playable()
      modifies this
      ensures Playable() && col == old(col) && row == old(row)
      ensures View() == ReadyKeyView(old(View()), key)
    {
      if key == Space {
        state := Playing;
      }
    }

    /** `playing_key_press`. */
    method PlayingKeyPress(key: Key)
      requires Playable()
      modifies this, board.tiles
      ensures Playable()
      ensures col == old(col) + ColumnStep(key) && row == old(row) + RowStep(key)
      ensures View() == PlayingKeyView(old(View()), key)
    {
      HandleMovement(key);
      Whack(key);
    }

    /** `lose_key_press`. */
    method LoseKeyPress(key: Key)
      requires Playable()
      modifies this, board.tiles
      ensures Playable()
      ensures View() == LoseKeyView(old(View()), key)
    {
      if key == Space {
        Reset();
        state := Ready;
      }
    }

    /** `handle_movement`. */
    method HandleMovement(key: Key)
      requires Playable()
      modifies this
      ensures Playable()
      ensures col == old(col) + ColumnStep(key) && row == old(row) + RowStep(key)
      ensures View() == MovedView(old(View()), key)
    {
      if IsMovementKey(key) {
        var moveDist := board.length / 3.0;
        var moveVec := MoveVector(key, moveDist);
        cursor := cursor.(pos := Add(cursor.pos, moveVec));
        MoveStaysOnLattice(board.length, col, row, key);
        col, row := col + ColumnStep(key), row + RowStep(key);
      }
    }

    /** `whack`, including its assertion that at most one tile is under the cursor. */
    method Whack(key: Key)
      requires Playable()
      modifies this, board.tiles
      ensures Playable() && col == old(col) && row == old(row)
      ensures View() == WhackView(old(View()), key)
    {
      if key == Space {
        var overlapping := OverlappingSlots(board.tiles[..], cursor);
        if |overlapping| > 0 {
          OverlappingIsCursorCell(board.Tiles(), board.length, col, row);
          assert |overlapping| == 1;
          board.tiles[overlapping[0]] := None;
          score := score + 1;
        }
      }
    }
  }

  // ---------------------------------------------------------------------------------------------
  // Render data

  /** The tiles of the occupied slots from `k` on, in slot order. */
  function OccupiedFrom(tiles: seq<Option<Sprite>>, k: nat): (r: seq<Sprite>)
    requires k <= |tiles|
    ensures |r| == |IndicesFrom(tiles, IsOccupied, k)|
    ensures forall j :: 0 <= j < |r| ==> Some(r[j]) == tiles[IndicesFrom(tiles, IsOccupied, k)[j]]
    decreases |tiles| - k
  {
    if k == |tiles| then []
    else if tiles[k].Some? then [tiles[k].value] + OccupiedFrom(tiles, k + 1)
    else OccupiedFrom(tiles, k + 1)
  }

  /** `get_sprites`: the occupied tiles in ascending slot order, then the cursor last, so one
      more sprite than there are occupied slots. */
  function GetSprites(tiles: seq<Option<Sprite>>, cursor: Sprite): (r: seq<Sprite>)
    ensures |OccupiedPositions(tiles)| == |r| - 1
    ensures |r| == |tiles| - |FreePositions(tiles)| + 1
    ensures r[|r| - 1] == cursor
    ensures forall j :: 0 <= j < |r| - 1 ==> Some(r[j]) == tiles[OccupiedPositions(tiles)[j]]
  {
    FreePlusOccupied(tiles, 0);
    OccupiedFrom(tiles, 0) + [cursor]
  }
}
