/**
 * The integer skeleton of the extent tiler: the zones of one level that
 * cover a rectangle, given the zones of its four corners.
 *
 * The zones are collected in a set whose equality is that of their codes,
 * so adding a zone whose code is already present keeps the zone already
 * there. The tiler fills a parallelogram of diagonal runs from the
 * lower-left corner, adds up to four edge lines, and finally drops the four
 * zones just outside the corners.
 *
 * The set operations below are written for any `key` that identifies a
 * zone; the tiler itself uses the zone code (`ZoneCode`). The facts proved
 * about the tiler hold for every key, so they do not depend on how codes
 * are computed.
 */
module Extent {
  import opened Results
  import opened Zones

  /** A set of zones under an equality: each zone filed under its key. */
  type ZoneSet = map<string, Zone>

  /** The key the tiler's sets use: the zone code, as in `Zone.__eq__`. */
  function ZoneCode(z: Zone): (code: string)
    ensures |code| == z.level + 2
  {
    z.Code()
  }

  /** Every zone of `m` is filed under its own key and has `level`. */
  ghost predicate Filed(m: ZoneSet, key: Zone -> string, level: nat)
  {
    forall k :: k in m ==> key(m[k]) == k && m[k].level == level
  }

  /** Adding a zone: no change when a zone with its key is already in. */
  function Add(m: ZoneSet, z: Zone, key: Zone -> string): ZoneSet
  {
    if key(z) in m then m else m[key(z) := z]
  }

  /** The zone `j` steps along the line from `(x, y)` that moves `+1` in x
      and `sy` in y per step. */
  function LineZone(level: nat, x: int, y: int, sy: int, j: int): Zone
  {
    Zone(level, x + j, y + sy * j)
  }

  /** Adding the first `n` zones of a line, in order. */
  function AddLine(m: ZoneSet, level: nat, x: int, y: int, sy: int, n: nat, key: Zone -> string): ZoneSet
  {
    if n == 0 then m else Add(AddLine(m, level, x, y, sy, n - 1, key), LineZone(level, x, y, sy, n - 1), key)
  }

  /** The first zone of column `i` of the parallelogram. */
  function ColumnBase(level: nat, ll: Zone, i: int): Zone
  {
    Zone(level, ll.hexX + i, ll.hexY - i)
  }

  /** Column `i`: a run of `height + 1` zones up the diagonal from its base,
      then, unless the base is the lower-right corner `lr`, a run of
      `height` zones from the base's right-hand neighbour. */
  function AddColumn(m: ZoneSet, level: nat, ll: Zone, lr: Zone, height: nat, i: int, key: Zone -> string): ZoneSet
  {
    var base := ColumnBase(level, ll, i);
    var m1 := AddLine(m, level, base.hexX, base.hexY, 1, height + 1, key);
    if key(base) != key(lr) then AddLine(m1, level, base.hexX + 1, base.hexY, 1, height, key) else m1
  }

  /** The first `cols` columns of the parallelogram. */
  function AddFill(m: ZoneSet, level: nat, ll: Zone, lr: Zone, height: nat, cols: nat, key: Zone -> string): ZoneSet
  {
    if cols == 0 then m
    else AddColumn(AddFill(m, level, ll, lr, height, cols - 1, key), level, ll, lr, height, cols - 1, key)
  }

  /** Which of the four edge lines the float geometry asks for: the lower
      edge when the lower-left zone's left vertex lies north of the
      rectangle's south side, the upper edge when the upper-left zone's left
      vertex lies south of its north side, the left edge when the lower-left
      zone's upper-left vertex lies east of its west side, and the right edge
      when the lower-right zone's upper-right vertex lies west of its east
      side. */
  datatype EdgeFlags = EdgeFlags(bottom: bool, top: bool, left: bool, right: bool)

  /** The four corner zones, at the tiler's level. */
  datatype Corners = Corners(ll: Zone, lr: Zone, ul: Zone, ur: Zone)
  {
    predicate AtLevel(level: nat)
    {
      ll.level == level && lr.level == level && ul.level == level && ur.level == level
    }
  }

  /** The four zones just outside the corners: left of the lower-left, below
      the lower-right, above the upper-left and right of the upper-right. */
  function Outside(level: nat, c: Corners): seq<Zone>
  {
    [Zone(level, c.ll.hexX - 1, c.ll.hexY), Zone(level, c.lr.hexX, c.lr.hexY - 1),
     Zone(level, c.ul.hexX, c.ul.hexY + 1), Zone(level, c.ur.hexX + 1, c.ur.hexY)]
  }

  /** The set of zones to remove. */
  function ToRemove(level: nat, c: Corners, key: Zone -> string): ZoneSet
  {
    var o := Outside(level, c);
    Add(Add(Add(Add(map[], o[0], key), o[1], key), o[2], key), o[3], key)
  }

  function Width(c: Corners): nat
  {
    Steps(c.lr.hexX - c.ll.hexX, c.lr.hexY - c.ll.hexY)
  }

  function Height(c: Corners): nat
  {
    Steps(c.ul.hexX - c.ll.hexX, c.ul.hexY - c.ll.hexY)
  }

  /** A line of `n` zones from `(x, y)`, stepping `+1` in x and `sy` in y. */
  datatype Line = Line(x: int, y: int, sy: int, n: nat)

  /** An edge line, added when `on` holds. */
  function AddEdge(m: ZoneSet, on: bool, level: nat, l: Line, key: Zone -> string): ZoneSet
  {
    if on then AddLine(m, level, l.x, l.y, l.sy, l.n, key) else m
  }

  /** The four edge lines, in the order the tiler walks them: below the
      lower-left corner, right of the upper-left corner, above the
      lower-left corner and right of the lower-right corner. */
  function EdgeLine(c: Corners, cols: nat, height: nat, k: nat): Line
  {
    if k == 0 then Line(c.ll.hexX, c.ll.hexY - 1, -1, cols)
    else if k == 1 then Line(c.ul.hexX + 1, c.ul.hexY, -1, cols)
    else if k == 2 then Line(c.ll.hexX, c.ll.hexY + 1, 1, height)
    else Line(c.lr.hexX + 1, c.lr.hexY, 1, height)
  }

  /** Whether the flags ask for edge `k`. */
  function EdgeOn(e: EdgeFlags, k: nat): bool
  {
    if k == 0 then e.bottom else if k == 1 then e.top else if k == 2 then e.left else e.right
  }

  /** The zones in `m` after the first `k` edges are added. */
  function Collect(m: ZoneSet, level: nat, c: Corners, e: EdgeFlags, cols: nat, height: nat, k: nat, key: Zone -> string): ZoneSet
  {
    if k == 0 then m
    else AddEdge(Collect(m, level, c, e, cols, height, k - 1, key), EdgeOn(e, k - 1), level, EdgeLine(c, cols, height, k - 1), key)
  }

  /** The zones collected before the final removal: `Width(c) / 2 + 1`
      columns of height `Height(c)`, then the four edges the flags ask for. */
  function Collected(level: nat, c: Corners, e: EdgeFlags, key: Zone -> string): ZoneSet
  {
    var cols, height := Width(c) / 2 + 1, Height(c);
    Collect(AddFill(map[], level, c.ll, c.lr, height, cols, key), level, c, e, cols, height, 4, key)
  }

  /** The tiler's result: what was collected, less the zones outside the
      corners. */
  function Tiled(level: nat, c: Corners, e: EdgeFlags, key: Zone -> string): ZoneSet
  {
    Collected(level, c, e, key) - ToRemove(level, c, key).Keys
  }

  // ---------------------------------------------------------------------
  // Which keys the tiler walks
  // ---------------------------------------------------------------------

  /** `k` is the key of one of the first `n` zones of a line. */
  ghost predicate OnLine(k: string, level: nat, x: int, y: int, sy: int, n: nat, key: Zone -> string)
  {
    n > 0 && (OnLine(k, level, x, y, sy, n - 1, key) || key(LineZone(level, x, y, sy, n - 1)) == k)
  }

  /** `k` is the key of a zone of column `i`. */
  ghost predicate InColumn(k: string, level: nat, ll: Zone, lr: Zone, height: nat, i: int, key: Zone -> string)
  {
    var base := ColumnBase(level, ll, i);
    OnLine(k, level, base.hexX, base.hexY, 1, height + 1, key)
    || (key(base) != key(lr) && OnLine(k, level, base.hexX + 1, base.hexY, 1, height, key))
  }

  /** `k` is the key of a zone of the first `cols` columns. */
  ghost predicate InFill(k: string, level: nat, ll: Zone, lr: Zone, height: nat, cols: nat, key: Zone -> string)
  {
    cols > 0 && (InFill(k, level, ll, lr, height, cols - 1, key) || InColumn(k, level, ll, lr, height, cols - 1, key))
  }

  /** `k` is the key of a zone of one of the first `n` edges the flags ask
      for. */
  ghost predicate OnEdges(k: string, level: nat, c: Corners, e: EdgeFlags, cols: nat, height: nat, n: nat, key: Zone -> string)
  {
    n > 0 &&
      (OnEdges(k, level, c, e, cols, height, n - 1, key)
       || (EdgeOn(e, n - 1) && OnLine(k, level, EdgeLine(c, cols, height, n - 1).x, EdgeLine(c, cols, height, n - 1).y,
                                       EdgeLine(c, cols, height, n - 1).sy, EdgeLine(c, cols, height, n - 1).n, key)))
  }

  /** `k` is the key of a zone the tiler walks. */
  ghost predicate Walked(k: string, level: nat, c: Corners, e: EdgeFlags, key: Zone -> string)
  {
    var cols, height := Width(c) / 2 + 1, Height(c);
    InFill(k, level, c.ll, c.lr, height, cols, key) || OnEdges(k, level, c, e, cols, height, 4, key)
  }

  /** `k` is the key of one of the four zones outside the corners. */
  ghost predicate IsOutside(k: string, level: nat, c: Corners, key: Zone -> string)
  {
    var o := Outside(level, c);
    k == key(o[0]) || k == key(o[1]) || k == key(o[2]) || k == key(o[3])
  }

  // ---------------------------------------------------------------------
  // The tiler
  // ---------------------------------------------------------------------

  /** The zones of `level` covering the rectangle whose corners lie in the
      zones `c`, with the edge lines `e` asks for, as a set of zones with
      equality by code. */
  method ZonesByExtent(level: nat, c: Corners, e: EdgeFlags) returns (result: ZoneSet)
    requires c.AtLevel(level)
    ensures result == Tiled(level, c, e, ZoneCode)
  {
    result := TileBy(level, c, e, ZoneCode);
  }

  /** The tiler's steps, for sets under the equality `key`. */
  method TileBy(level: nat, c: Corners, e: EdgeFlags, key: Zone -> string) returns (result: ZoneSet)
    requires c.AtLevel(level)
    ensures result == Tiled(level, c, e, key)
  {
    var toRemove: ZoneSet := map[];
    toRemove := Add(toRemove, Zone(level, c.ll.hexX - 1, c.ll.hexY), key);
    toRemove := Add(toRemove, Zone(level, c.lr.hexX, c.lr.hexY - 1), key);
    toRemove := Add(toRemove, Zone(level, c.ul.hexX, c.ul.hexY + 1), key);
    toRemove := Add(toRemove, Zone(level, c.ur.hexX + 1, c.ur.hexY), key);
    assert toRemove == ToRemove(level, c, key);

    var width := c.lr.DistanceTo(c.ll).value;
    var height := c.ul.DistanceTo(c.ll).value;
    DistanceCorners(c, level);
    var cols := width / 2 + 1;
    assert cols == Width(c) / 2 + 1 && height == Height(c);

    result := FillLoop(level, c.ll, c.lr, height, cols, key);
    result := EdgeLoops(result, level, c, e, cols, height, key);
    assert result == Collected(level, c, e, key);
    result := result - toRemove.Keys;
  }

  /** The column loop: `cols` columns of the parallelogram. */
  method FillLoop(level: nat, ll: Zone, lr: Zone, height: nat, cols: nat, key: Zone -> string) returns (result: ZoneSet)
    ensures result == AddFill(map[], level, ll, lr, height, cols, key)
  {
    result := map[];
    var i := 0;
    while i < cols
      invariant 0 <= i <= cols
      invariant result == AddFill(map[], level, ll, lr, height, i, key)
    {
      result := AddColumnLoops(result, level, ll, lr, height, i, key);
      i := i + 1;
    }
  }

  /** The four edge passes, each run when its flag is set. */
  method EdgeLoops(m: ZoneSet, level: nat, c: Corners, e: EdgeFlags, cols: nat, height: nat, key: Zone -> string)
    returns (result: ZoneSet)
    ensures result == Collect(m, level, c, e, cols, height, 4, key)
  {
    result := m;
    if e.bottom {
      result := AddLineLoop(result, level, c.ll.hexX, c.ll.hexY - 1, -1, cols, key);
    }
    assert result == Collect(m, level, c, e, cols, height, 1, key);
    if e.top {
      result := AddLineLoop(result, level, c.ul.hexX + 1, c.ul.hexY, -1, cols, key);
    }
    assert result == Collect(m, level, c, e, cols, height, 2, key);
    if e.left {
      result := AddLineLoop(result, level, c.ll.hexX, c.ll.hexY + 1, 1, height, key);
    }
    assert result == Collect(m, level, c, e, cols, height, 3, key);
    if e.right {
      result := AddLineLoop(result, level, c.lr.hexX + 1, c.lr.hexY, 1, height, key);
    }
  }

  /** One pass of the column loop: its two inner `for` loops. */
  method AddColumnLoops(m: ZoneSet, level: nat, ll: Zone, lr: Zone, height: nat, i: int, key: Zone -> string)
    returns (r: ZoneSet)
    ensures r == AddColumn(m, level, ll, lr, height, i, key)
  {
    var base1 := ColumnBase(level, ll, i);
    r := AddLineLoop(m, level, base1.hexX, base1.hexY, 1, height + 1, key);
    if key(base1) != key(lr) {
      var base2 := Zone(level, base1.hexX + 1, base1.hexY);
      r := AddLineLoop(r, level, base2.hexX, base2.hexY, 1, height, key);
    }
  }

  /** One `for` loop of the tiler: add `n` zones along a line, in order. */
  method AddLineLoop(m: ZoneSet, level: nat, x: int, y: int, sy: int, n: nat, key: Zone -> string)
    returns (r: ZoneSet)
    ensures r == AddLine(m, level, x, y, sy, n, key)
  {
    r := m;
    var j := 0;
    while j < n
      invariant 0 <= j <= n
      invariant r == AddLine(m, level, x, y, sy, j, key)
    {
      r := Add(r, LineZone(level, x, y, sy, j), key);
      j := j + 1;
    }
  }

  /** The width and height the tiler measures are those of `Tiled`. */
  lemma DistanceCorners(c: Corners, level: nat)
    requires c.AtLevel(level)
    ensures c.lr.DistanceTo(c.ll) == Ok(Width(c)) && c.ul.DistanceTo(c.ll) == Ok(Height(c))
  {
  }

  // ---------------------------------------------------------------------
  // What the tiler's set holds
  // ---------------------------------------------------------------------

  /** A line adds exactly the keys of its zones. */
  lemma {:induction false} AddLineHas(m: ZoneSet, level: nat, x: int, y: int, sy: int, n: nat, key: Zone -> string, k: string)
    ensures k in AddLine(m, level, x, y, sy, n, key) <==> k in m || OnLine(k, level, x, y, sy, n, key)
  {
    if n > 0 {
      AddLineHas(m, level, x, y, sy, n - 1, key, k);
    }
  }

  /** A column adds exactly the keys of its zones. */
  lemma AddColumnHas(m: ZoneSet, level: nat, ll: Zone, lr: Zone, height: nat, i: int, key: Zone -> string, k: string)
    ensures k in AddColumn(m, level, ll, lr, height, i, key) <==> k in m || InColumn(k, level, ll, lr, height, i, key)
  {
    var base := ColumnBase(level, ll, i);
    AddLineHas(m, level, base.hexX, base.hexY, 1, height + 1, key, k);
    var m1 := AddLine(m, level, base.hexX, base.hexY, 1, height + 1, key);
    AddLineHas(m1, level, base.hexX + 1, base.hexY, 1, height, key, k);
  }

  /** The parallelogram adds exactly the keys of its columns. */
  lemma {:induction false} AddFillHas(m: ZoneSet, level: nat, ll: Zone, lr: Zone, height: nat, cols: nat, key: Zone -> string, k: string)
    ensures k in AddFill(m, level, ll, lr, height, cols, key) <==> k in m || InFill(k, level, ll, lr, height, cols, key)
  {
    if cols > 0 {
      AddFillHas(m, level, ll, lr, height, cols - 1, key, k);
      AddColumnHas(AddFill(m, level, ll, lr, height, cols - 1, key), level, ll, lr, height, cols - 1, key, k);
    }
  }

  /** The edges add exactly the keys of the edges the flags ask for. */
  lemma {:induction false} CollectHas(m: ZoneSet, level: nat, c: Corners, e: EdgeFlags, cols: nat, height: nat, n: nat, key: Zone -> string, k: string)
    ensures k in Collect(m, level, c, e, cols, height, n, key) <==> k in m || OnEdges(k, level, c, e, cols, height, n, key)
  {
    if n > 0 {
      CollectHas(m, level, c, e, cols, height, n - 1, key, k);
      var l := EdgeLine(c, cols, height, n - 1);
      AddLineHas(Collect(m, level, c, e, cols, height, n - 1, key), level, l.x, l.y, l.sy, l.n, key, k);
    }
  }

  /** The keys removed are those of the four zones outside the corners. */
  lemma ToRemoveHas(level: nat, c: Corners, key: Zone -> string, k: string)
    ensures k in ToRemove(level, c, key) <==> IsOutside(k, level, c, key)
  {
  }

  /** A key is in the tiler's result exactly when the tiler walks a zone
      with that key and none of the four zones outside the corners has it. */
  lemma TiledHas(level: nat, c: Corners, e: EdgeFlags, key: Zone -> string, k: string)
    ensures k in Tiled(level, c, e, key) <==> Walked(k, level, c, e, key) && !IsOutside(k, level, c, key)
  {
    var cols, height := Width(c) / 2 + 1, Height(c);
    AddFillHas(map[], level, c.ll, c.lr, height, cols, key, k);
    CollectHas(AddFill(map[], level, c.ll, c.lr, height, cols, key), level, c, e, cols, height, 4, key, k);
    ToRemoveHas(level, c, key, k);
  }

  /** None of the four zones just outside the corners is in the result. */
  lemma TiledExcludesOutside(level: nat, c: Corners, e: EdgeFlags, key: Zone -> string)
    ensures forall i :: 0 <= i < 4 ==> key(Outside(level, c)[i]) !in Tiled(level, c, e, key)
  {
    forall i | 0 <= i < 4
      ensures key(Outside(level, c)[i]) !in Tiled(level, c, e, key)
    {
      ToRemoveHas(level, c, key, key(Outside(level, c)[i]));
    }
  }

  /** Zone `j < n` of a line is on it. */
  lemma {:induction false} OnLineHas(level: nat, x: int, y: int, sy: int, n: nat, j: int, key: Zone -> string)
    requires 0 <= j < n
    ensures OnLine(key(LineZone(level, x, y, sy, j)), level, x, y, sy, n, key)
  {
    if j < n - 1 {
      OnLineHas(level, x, y, sy, n - 1, j, key);
    }
  }

  /** Column `i < cols` is among the first `cols` columns. */
  lemma {:induction false} InFillHasColumn(k: string, level: nat, ll: Zone, lr: Zone, height: nat, cols: nat, i: nat, key: Zone -> string)
    requires i < cols && InColumn(k, level, ll, lr, height, i, key)
    ensures InFill(k, level, ll, lr, height, cols, key)
  {
    if i < cols - 1 {
      InFillHasColumn(k, level, ll, lr, height, cols - 1, i, key);
    }
  }

  /** Every zone of the parallelogram, `(ll.x + i + j, ll.y - i + j)` for
      `0 <= i <= Width(c) / 2` and `0 <= j <= Height(c)`, is in the result
      unless it is one of the four zones outside the corners. */
  lemma TiledCoversFill(level: nat, c: Corners, e: EdgeFlags, key: Zone -> string, i: nat, j: nat)
    requires i <= Width(c) / 2 && j <= Height(c)
    ensures var k := key(Zone(level, c.ll.hexX + i + j, c.ll.hexY - i + j));
            k in Tiled(level, c, e, key) <==> !IsOutside(k, level, c, key)
  {
    var cols, height := Width(c) / 2 + 1, Height(c);
    var base := ColumnBase(level, c.ll, i);
    var k := key(LineZone(level, base.hexX, base.hexY, 1, j));
    assert LineZone(level, base.hexX, base.hexY, 1, j) == Zone(level, c.ll.hexX + i + j, c.ll.hexY - i + j);
    OnLineHas(level, base.hexX, base.hexY, 1, height + 1, j, key);
    InFillHasColumn(k, level, c.ll, c.lr, height, cols, i, key);
    TiledHas(level, c, e, key, k);
  }

  /** Edge `i` is among the first `n > i` edges. */
  lemma {:induction false} OnEdgesHasEdge(k: string, level: nat, c: Corners, e: EdgeFlags, cols: nat, height: nat, n: nat, i: nat, key: Zone -> string)
    requires i < n && EdgeOn(e, i)
    requires OnLine(k, level, EdgeLine(c, cols, height, i).x, EdgeLine(c, cols, height, i).y,
                    EdgeLine(c, cols, height, i).sy, EdgeLine(c, cols, height, i).n, key)
    ensures OnEdges(k, level, c, e, cols, height, n, key)
  {
    if i < n - 1 {
      OnEdgesHasEdge(k, level, c, e, cols, height, n - 1, i, key);
    }
  }

  /** Every zone of an edge line the flags ask for is in the result unless
      it is one of the four zones outside the corners. */
  lemma TiledCoversEdge(level: nat, c: Corners, e: EdgeFlags, key: Zone -> string, i: nat, j: nat)
    requires i < 4 && EdgeOn(e, i)
    requires j < EdgeLine(c, Width(c) / 2 + 1, Height(c), i).n
    ensures var l := EdgeLine(c, Width(c) / 2 + 1, Height(c), i);
            var k := key(LineZone(level, l.x, l.y, l.sy, j));
            k in Tiled(level, c, e, key) <==> !IsOutside(k, level, c, key)
  {
    var cols, height := Width(c) / 2 + 1, Height(c);
    var l := EdgeLine(c, cols, height, i);
    var k := key(LineZone(level, l.x, l.y, l.sy, j));
    OnLineHas(level, l.x, l.y, l.sy, l.n, j, key);
    OnEdgesHasEdge(k, level, c, e, cols, height, 4, i, key);
    TiledHas(level, c, e, key, k);
  }

  /** Adding a zone of `level` keeps every zone filed under its key, and
      leaves every zone already in the set where it was. */
  lemma AddFacts(m: ZoneSet, z: Zone, key: Zone -> string, level: nat)
    requires Filed(m, key, level) && z.level == level
    ensures Filed(Add(m, z, key), key, level)
    ensures forall k :: k in m ==> k in Add(m, z, key) && Add(m, z, key)[k] == m[k]
  {
  }

  /** A line keeps the zones already in the set, and keeps every zone filed
      under its key. */
  lemma {:induction false} AddLineFiled(m: ZoneSet, level: nat, x: int, y: int, sy: int, n: nat, key: Zone -> string)
    requires Filed(m, key, level)
    ensures Filed(AddLine(m, level, x, y, sy, n, key), key, level)
    ensures forall k :: k in m ==> k in AddLine(m, level, x, y, sy, n, key) && AddLine(m, level, x, y, sy, n, key)[k] == m[k]
  {
    if n > 0 {
      var prev := AddLine(m, level, x, y, sy, n - 1, key);
      AddLineFiled(m, level, x, y, sy, n - 1, key);
      AddFacts(prev, LineZone(level, x, y, sy, n - 1), key, level);
      assert AddLine(m, level, x, y, sy, n, key) == Add(prev, LineZone(level, x, y, sy, n - 1), key);
    }
  }

  /** A column keeps every zone filed under its key. */
  lemma AddColumnFiled(m: ZoneSet, level: nat, ll: Zone, lr: Zone, height: nat, i: int, key: Zone -> string)
    requires Filed(m, key, level)
    ensures Filed(AddColumn(m, level, ll, lr, height, i, key), key, level)
  {
    var base := ColumnBase(level, ll, i);
    AddLineFiled(m, level, base.hexX, base.hexY, 1, height + 1, key);
    var m1 := AddLine(m, level, base.hexX, base.hexY, 1, height + 1, key);
    AddLineFiled(m1, level, base.hexX + 1, base.hexY, 1, height, key);
  }

  /** The parallelogram keeps every zone filed under its key. */
  lemma {:induction false} AddFillFiled(m: ZoneSet, level: nat, ll: Zone, lr: Zone, height: nat, cols: nat, key: Zone -> string)
    requires Filed(m, key, level)
    ensures Filed(AddFill(m, level, ll, lr, height, cols, key), key, level)
  {
    if cols > 0 {
      var prev := AddFill(m, level, ll, lr, height, cols - 1, key);
      AddFillFiled(m, level, ll, lr, height, cols - 1, key);
      AddColumnFiled(prev, level, ll, lr, height, cols - 1, key);
    }
  }

  /** The edges keep every zone filed under its key. */
  lemma {:induction false} CollectFiled(m: ZoneSet, level: nat, c: Corners, e: EdgeFlags, cols: nat, height: nat, n: nat, key: Zone -> string)
    requires Filed(m, key, level)
    ensures Filed(Collect(m, level, c, e, cols, height, n, key), key, level)
  {
    if n > 0 {
      var prev := Collect(m, level, c, e, cols, height, n - 1, key);
      CollectFiled(m, level, c, e, cols, height, n - 1, key);
      var l := EdgeLine(c, cols, height, n - 1);
      AddLineFiled(prev, level, l.x, l.y, l.sy, l.n, key);
    }
  }

  /** Every zone of the tiler's result has `level` and is filed under its
      own key. */
  lemma TiledFiled(level: nat, c: Corners, e: EdgeFlags, key: Zone -> string)
    ensures Filed(Tiled(level, c, e, key), key, level)
  {
    var cols, height := Width(c) / 2 + 1, Height(c);
    var fill := AddFill(map[], level, c.ll, c.lr, height, cols, key);
    AddFillFiled(map[], level, c.ll, c.lr, height, cols, key);
    CollectFiled(fill, level, c, e, cols, height, 4, key);
  }
}
