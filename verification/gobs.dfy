/** Game objects of Whack!: two-dimensional vectors, rectangular sprites and the 3x3 board.
    Coordinates, lengths and sizes are f64 in the game; here they are exact reals. */
module Gobs {

  /** Colours are only ever compared and drawn, so an opaque tag stands for each RGBA constant. */
  datatype Colour = Blue | Red | Green | Yellow | Magenta | Cyan | White | Black

  datatype Option<T> = None | Some(value: T)

  /** A two-dimensional vector. */
  datatype Vec2D = Vec2D(x: real, y: real)

  /** Pairwise addition: the value `Vec2D::add` leaves in its receiver. Taking `other` away
      again gives back `v`, and adding the empty vector changes nothing. */
  function Add(v: Vec2D, other: Vec2D): (r: Vec2D)
    ensures Vec2D(r.x - other.x, r.y - other.y) == v
    ensures other == Vec2D(0.0, 0.0) ==> r == v
  {
    Vec2D(v.x + other.x, v.y + other.y)
  }

  /** An axis-aligned rectangle with its top-left corner at `pos`. */
  datatype Sprite = Sprite(pos: Vec2D, width: real, height: real, colour: Colour)

  /** `Sprite::new`: a sprite with top-left corner (x, y). */
  function NewSprite(x: real, y: real, width: real, height: real, colour: Colour): (s: Sprite)
    ensures GetRect(s) == [x, y, width, height] && s.colour == colour
  {
    Sprite(Vec2D(x, y), width, height, colour)
  }

  /** The `[x, y, width, height]` rectangle handed to the renderer, from which the sprite is
      rebuilt given its colour. */
  function GetRect(s: Sprite): (r: seq<real>)
    ensures |r| == 4 && Sprite(Vec2D(r[0], r[1]), r[2], r[3], s.colour) == s
  {
    [s.pos.x, s.pos.y, s.width, s.height]
  }

  /** Closed-rectangle membership: the independent meaning of overlap. */
  ghost predicate Contains(s: Sprite, p: Vec2D)
  {
    s.pos.x <= p.x <= s.pos.x + s.width && s.pos.y <= p.y <= s.pos.y + s.height
  }

  function Max(a: real, b: real): real
  {
    if a < b then b else a
  }

  /** The separating-axis test of `Sprite::is_overlapping`: false exactly when one rectangle
      lies strictly beyond the other along some axis, so touching edges count as overlap. For
      rectangles of non-negative size this holds exactly when the two closed rectangles share
      a point. */
  function IsOverlapping(a: Sprite, b: Sprite): (r: bool)
    ensures a.width >= 0.0 && a.height >= 0.0 && b.width >= 0.0 && b.height >= 0.0 ==>
              (r <==> exists p :: Contains(a, p) && Contains(b, p))
  {
    var separated := a.pos.x + a.width < b.pos.x || b.pos.x + b.width < a.pos.x ||
                     a.pos.y + a.height < b.pos.y || b.pos.y + b.height < a.pos.y;
    var corner := Vec2D(Max(a.pos.x, b.pos.x), Max(a.pos.y, b.pos.y));
    assert !separated && a.width >= 0.0 && a.height >= 0.0 && b.width >= 0.0 && b.height >= 0.0 ==>
             Contains(a, corner) && Contains(b, corner);
    !separated
  }

  /** The overlap test does not depend on which sprite asks. */
  lemma OverlapSymmetric(a: Sprite, b: Sprite)
    ensures IsOverlapping(a, b) == IsOverlapping(b, a)
  {
  }

  /** The documented examples (s1/s2 overlap, s1/s3 do not, s2/s3 do), and sprites whose
      edges merely touch overlap while a one-unit gap separates them. */
  lemma OverlapExamples()
    ensures var s1 := NewSprite(100.0, 100.0, 50.0, 50.0, Yellow);
            var s2 := NewSprite(125.0, 100.0, 50.0, 50.0, Yellow);
            var s3 := NewSprite(155.0, 100.0, 50.0, 50.0, Yellow);
            IsOverlapping(s1, s2) && !IsOverlapping(s1, s3) && IsOverlapping(s2, s3)
    ensures IsOverlapping(NewSprite(0.0, 0.0, 10.0, 10.0, Red), NewSprite(10.0, 0.0, 10.0, 10.0, Red))
    ensures !IsOverlapping(NewSprite(0.0, 0.0, 10.0, 10.0, Red), NewSprite(11.0, 0.0, 10.0, 10.0, Red))
  {
  }

  /** `cursor.pos.add(..)` twice, as in the cursor-moving example. */
  lemma AddExamples()
    ensures Add(Vec2D(150.0, 150.0), Vec2D(-100.0, 0.0)) == Vec2D(50.0, 150.0)
    ensures Add(Add(Vec2D(150.0, 150.0), Vec2D(-100.0, 0.0)), Vec2D(100.0, 100.0)) == Vec2D(150.0, 250.0)
  {
  }

  // ---------------------------------------------------------------------------------------------
  // Board slots

  /** Slot `i` of the board lies in column `i % 3` and row `i / 3`. */
  const SlotCount: nat := 9

  predicate StrictlyAscending(s: seq<nat>)
  {
    forall j1, j2 :: 0 <= j1 < j2 < |s| ==> s[j1] < s[j2]
  }

  /** In a strictly ascending list of naturals the last element exceeds the first by at least
      the length minus one. */
  lemma {:induction false} AscendingSpread(s: seq<nat>)
    requires StrictlyAscending(s) && |s| > 0
    ensures s[|s| - 1] >= s[0] + |s| - 1
  {
    if |s| > 1 {
      var front := s[..|s| - 1];
      AscendingSpread(front);
      assert s[|s| - 2] < s[|s| - 1];
    }
  }

  /** A non-empty sequence holds its first element. */
  lemma HeadMember(s: seq<nat>)
    ensures s == [] || s[0] in s
  {
  }

  /** The indices from `k` on whose slot satisfies `keep`, in order: the
      `iter().enumerate().filter(..).map(|t| t.0)` pattern the board and the game use. */
  function IndicesFrom(tiles: seq<Option<Sprite>>, keep: Option<Sprite> -> bool, k: nat): (r: seq<nat>)
    requires k <= |tiles|
    ensures forall j :: 0 <= j < |r| ==> k <= r[j] < |tiles| && keep(tiles[r[j]])
    ensures forall i :: k <= i < |tiles| && keep(tiles[i]) ==> i in r
    ensures StrictlyAscending(r)
    decreases |tiles| - k
  {
    if k == |tiles| then []
    else if keep(tiles[k]) then [k] + IndicesFrom(tiles, keep, k + 1)
    else IndicesFrom(tiles, keep, k + 1)
  }

  function IsFree(t: Option<Sprite>): bool
  {
    t.None?
  }

  function IsOccupied(t: Option<Sprite>): bool
  {
    t.Some?
  }

  /** `Board::free_positions`: exactly the empty slots, in ascending order. */
  function FreePositions(tiles: seq<Option<Sprite>>): (r: seq<nat>)
    ensures forall j :: 0 <= j < |r| ==> r[j] < |tiles| && tiles[r[j]].None?
    ensures forall i :: 0 <= i < |tiles| && tiles[i].None? ==> i in r
    ensures StrictlyAscending(r)
  {
    IndicesFrom(tiles, IsFree, 0)
  }

  /** The occupied slots, in ascending order. */
  function OccupiedPositions(tiles: seq<Option<Sprite>>): (r: seq<nat>)
    ensures forall j :: 0 <= j < |r| ==> r[j] < |tiles| && tiles[r[j]].Some?
    ensures forall i :: 0 <= i < |tiles| && tiles[i].Some? ==> i in r
    ensures StrictlyAscending(r)
  {
    IndicesFrom(tiles, IsOccupied, 0)
  }

  /** `Board::is_full`: no free position, that is, every slot occupied. */
  function IsFull(tiles: seq<Option<Sprite>>): (b: bool)
    ensures b <==> forall i :: 0 <= i < |tiles| ==> tiles[i].Some?
  {
    var free := FreePositions(tiles);
    assert free != [] ==> tiles[free[0]].None?;
    free == []
  }

  /** A board is full exactly when its list of free positions is empty. */
  lemma FullIffNoFree(tiles: seq<Option<Sprite>>)
    ensures IsFull(tiles) <==> |FreePositions(tiles)| == 0
  {
  }

  function Bit(b: bool): int
  {
    if b then 1 else 0
  }

  /** Changing one slot changes the number of selected indices by the change at that slot. */
  lemma {:induction false} CountAfterUpdate(tiles: seq<Option<Sprite>>, keep: Option<Sprite> -> bool,
                                            k: nat, i: nat, v: Option<Sprite>)
    requires k <= |tiles| && i < |tiles|
    ensures |IndicesFrom(tiles[i := v], keep, k)| ==
            |IndicesFrom(tiles, keep, k)| + (if k <= i then Bit(keep(v)) - Bit(keep(tiles[i])) else 0)
    decreases |tiles| - k
  {
    if k < |tiles| {
      CountAfterUpdate(tiles, keep, k + 1, i, v);
    }
  }

  /** Every slot from `k` on is either free or occupied, never both. */
  lemma {:induction false} FreePlusOccupied(tiles: seq<Option<Sprite>>, k: nat)
    requires k <= |tiles|
    ensures |IndicesFrom(tiles, IsFree, k)| + |IndicesFrom(tiles, IsOccupied, k)| == |tiles| - k
    decreases |tiles| - k
  {
    if k < |tiles| {
      FreePlusOccupied(tiles, k + 1);
    }
  }

  /** When every slot from `k` on is selected, the result is k, k+1, ..., |tiles|-1. */
  lemma {:induction false} AllSelected(tiles: seq<Option<Sprite>>, keep: Option<Sprite> -> bool, k: nat)
    requires k <= |tiles|
    requires forall i :: k <= i < |tiles| ==> keep(tiles[i])
    ensures |IndicesFrom(tiles, keep, k)| == |tiles| - k
    ensures forall j :: 0 <= j < |tiles| - k ==> IndicesFrom(tiles, keep, k)[j] == k + j
    decreases |tiles| - k
  {
    if k < |tiles| {
      AllSelected(tiles, keep, k + 1);
      var rest := IndicesFrom(tiles, keep, k + 1);
      assert IndicesFrom(tiles, keep, k) == [k] + rest;
    }
  }

  /** The nine empty slots of a new or cleared board. */
  function EmptyTiles(): (t: seq<Option<Sprite>>)
    ensures |t| == SlotCount
  {
    seq(SlotCount, _ => None)
  }

  /** An empty board has all nine slots free, listed 0..8, so it is not full; having no tile,
      it has none out of place. */
  lemma EmptyBoardFree()
    ensures |FreePositions(EmptyTiles())| == 9
    ensures forall j :: 0 <= j < 9 ==> FreePositions(EmptyTiles())[j] == j
    ensures !IsFull(EmptyTiles())
    ensures forall length :: WellPlaced(EmptyTiles(), length)
  {
    var empty := EmptyTiles();
    assert |IndicesFrom(empty, IsFree, 0)| == 9 && forall j :: 0 <= j < 9 ==> IndicesFrom(empty, IsFree, 0)[j] == j by {
      assert forall i :: 0 <= i < |empty| ==> IsFree(empty[i]);
      AllSelected(empty, IsFree, 0);
    }
    assert empty[0].None?;
    EmptyWellPlaced();
  }

  lemma EmptyWellPlaced()
    ensures forall length :: WellPlaced(EmptyTiles(), length)
  {
    var empty := EmptyTiles();
    assert forall i :: 0 <= i < |empty| ==> empty[i].None?;
  }

  // ---------------------------------------------------------------------------------------------
  // Slot geometry

  /** `Board::x_from_index`: column `i mod 3` times the tile length. The float remainder of a
      non-negative whole number by 3.0 is the integer remainder. */
  function XFromIndex(length: real, i: nat): (x: real)
    ensures length >= 0.0 ==> 0.0 <= x && x + length / 3.0 <= length
  {
    var column := i % 3;
    assert length >= 0.0 ==> 0.0 <= column as real * (length / 3.0) <= 2.0 * (length / 3.0) by {
      if length >= 0.0 {
        assert column == 0 || column == 1 || column == 2;
      }
    }
    column as real * (length / 3.0)
  }

  /** `Board::y_from_index`: the floor of i / 3.0 times the tile length. For the nine slots the
      tile row lies within the board. */
  function YFromIndex(length: real, i: nat): (y: real)
    ensures length >= 0.0 && i < SlotCount ==> 0.0 <= y && y + length / 3.0 <= length
  {
    var row := (i as real / 3.0).Floor;
    assert i < SlotCount ==> row == 0 || row == 1 || row == 2 by {
      assert i as real / 3.0 == (i / 3) as real + (i % 3) as real / 3.0;
    }
    row as real * (length / 3.0)
  }

  /** The floor of i / 3.0 is integer division, so slot `i` lies in row `i / 3`. */
  lemma RowOfIndex(length: real, i: nat)
    ensures YFromIndex(length, i) == (i / 3) as real * (length / 3.0)
  {
    var q, m := i / 3, i % 3;
    assert i as real / 3.0 == q as real + m as real / 3.0;
    assert (i as real / 3.0).Floor == q;
  }

  /** The coordinates the board assigns for a 300-pixel board. */
  lemma IndexCoordinateExamples()
    ensures XFromIndex(300.0, 0) == 0.0 && XFromIndex(300.0, 1) == 100.0
    ensures XFromIndex(300.0, 2) == 200.0 && XFromIndex(300.0, 8) == 200.0
    ensures YFromIndex(300.0, 0) == 0.0 && YFromIndex(300.0, 1) == 0.0
    ensures YFromIndex(300.0, 2) == 0.0 && YFromIndex(300.0, 8) == 200.0
  {
    RowOfIndex(300.0, 0);
    RowOfIndex(300.0, 1);
    RowOfIndex(300.0, 2);
    RowOfIndex(300.0, 8);
  }

  /** On a board of non-zero length, distinct slots get distinct top-left corners, and the
      slot is recovered from its corner as 3 * row + column. */
  lemma SlotCornersDistinct(length: real, i: nat, j: nat)
    requires length != 0.0 && i < 9 && j < 9
    ensures (XFromIndex(length, i) == XFromIndex(length, j) && YFromIndex(length, i) == YFromIndex(length, j))
            <==> i == j
  {
    var c := length / 3.0;
    if XFromIndex(length, i) == XFromIndex(length, j) && YFromIndex(length, i) == YFromIndex(length, j) {
      assert i % 3 == j % 3 by {
        assert XFromIndex(length, i) == (i % 3) as real * c && XFromIndex(length, j) == (j % 3) as real * c;
        CancelFactor((i % 3) as real, (j % 3) as real, c);
      }
      assert i / 3 == j / 3 by {
        RowOfIndex(length, i);
        RowOfIndex(length, j);
        CancelFactor((i / 3) as real, (j / 3) as real, c);
      }
    }
  }

  lemma CancelFactor(a: real, b: real, c: real)
    requires c != 0.0 && a * c == b * c
    ensures a == b
  {
    assert (a - b) * c == 0.0;
  }

  /** The tile `add_tile` places in slot `i`: at the slot's corner, one third of the board
      on each side, red. */
  function TileAt(length: real, i: nat): (s: Sprite)
    ensures s.pos == Vec2D(XFromIndex(length, i), YFromIndex(length, i))
    ensures s.width == s.height == length / 3.0 && s.colour == Red
  {
    NewSprite(XFromIndex(length, i), YFromIndex(length, i), length / 3.0, length / 3.0, Red)
  }

  /** Every occupied slot holds the tile `add_tile` would have put there. */
  predicate WellPlaced(tiles: seq<Option<Sprite>>, length: real)
  {
    forall i :: 0 <= i < |tiles| && tiles[i].Some? ==> tiles[i].value == TileAt(length, i)
  }

  /** What one `add_tile` may do: nothing on a full board, otherwise fill exactly one
      previously free slot with that slot's tile. */
  ghost predicate TileAdded(before: seq<Option<Sprite>>, after: seq<Option<Sprite>>, length: real)
  {
    if IsFull(before) then after == before
    else exists i: nat :: i in FreePositions(before) && after == before[i := Some(TileAt(length, i))]
  }

  /** `add_tile` never overwrites a tile, uses up exactly one free slot on a board that is not
      full, and keeps every tile at its slot's position. */
  lemma TileAddedEffect(before: seq<Option<Sprite>>, after: seq<Option<Sprite>>, length: real)
    requires TileAdded(before, after, length)
    ensures |after| == |before|
    ensures forall j :: 0 <= j < |before| && before[j].Some? ==> after[j] == before[j]
    ensures !IsFull(before) ==> |FreePositions(after)| + 1 == |FreePositions(before)|
    ensures WellPlaced(before, length) ==> WellPlaced(after, length)
  {
    if !IsFull(before) {
      var i: nat :| i in FreePositions(before) && after == before[i := Some(TileAt(length, i))];
      CountAfterUpdate(before, IsFree, 0, i, Some(TileAt(length, i)));
    }
  }

  /** A full board whose tiles are well placed holds exactly the nine slot tiles. */
  lemma FullBoardTiles(tiles: seq<Option<Sprite>>, length: real)
    requires |tiles| == SlotCount && IsFull(tiles) && WellPlaced(tiles, length)
    ensures forall i: nat :: i < SlotCount ==> tiles[i] == Some(TileAt(length, i))
  {
  }

  // ---------------------------------------------------------------------------------------------
  // The board object

  class Board {
    const tiles: array<Option<Sprite>>
    const length: real

    ghost predicate Valid()
    {
      tiles.Length == SlotCount
    }

    function Tiles(): (t: seq<Option<Sprite>>)
      reads tiles
      ensures |t| == tiles.Length
    {
      tiles[..]
    }

    /** `Board::from_length`: nine empty slots and the given length. */
    constructor FromLength(length: real)
      ensures Valid() && fresh(tiles)
      ensures this.length == length && Tiles() == EmptyTiles()
    {
      this.length := length;
      tiles := new Option<Sprite>[SlotCount](_ => None);
    }

    /** `Board::random_position`: nothing on a full board, otherwise some free slot. The
        random generator is replaced by an arbitrary choice among the free slots. */
    method RandomPosition() returns (r: Option<nat>)
      requires Valid()
      ensures r.None? <==> IsFull(Tiles())
      ensures r.Some? ==> r.value in FreePositions(Tiles()) && r.value < SlotCount
    {
      var free := FreePositions(tiles[..]);
      if free == [] {
        return None;
      }
      assert free[0] in free;
      var i :| i in free;
      return Some(i);
    }

    /** `Board::add_tile`. */
    method AddTile()
      requires Valid()
      modifies tiles
      ensures TileAdded(old(Tiles()), Tiles(), length)
    {
      var newPos := RandomPosition();
      if newPos.Some? {
        var i := newPos.value;
        tiles[i] := Some(NewSprite(XFromIndex(length, i), YFromIndex(length, i),
                                   length / 3.0, length / 3.0, Red));
        assert Tiles() == old(Tiles())[i := Some(TileAt(length, i))];
      }
    }

    /** `Board::clear_board`: every slot empty again; the length is a constant. */
    method ClearBoard()
      requires Valid()
      modifies tiles
      ensures Tiles() == EmptyTiles()
    {
      forall i | 0 <= i < tiles.Length {
        tiles[i] := None;
      }
    }
  }
}
