/**
 * A GeoHex zone: one hexagonal cell, named by its level and its two axial
 * coordinates, and known to the outside by its code.
 *
 * A zone never changes once built, so it is a value. Two zones are the same
 * zone when their codes are equal. Parents and children are found by
 * shortening or extending the code by one digit and decoding the result.
 * Distances are counted in hexagon steps on the skew axial lattice.
 */
module Zones {
  import opened Results
  import opened Codec

  /** The level and the axial coordinates a zone is built from. */
  datatype Zone = Zone(level: nat, hexX: int, hexY: int)
  {
    /** The zone's code, fixed at construction. */
    function Code(): (code: string)
      ensures |code| == level + 2
    {
      Encoded(level, hexX, hexY)
    }

    /** Equality of zones, which compares codes only. */
    predicate SameAs(other: Zone)
    {
      Code() == other.Code()
    }

    /** The zone whose code is this code without its last digit. */
    function Parent(): Result<Zone, DecodeError>
    {
      ZoneByCode(Code()[..|Code()| - 1])
    }

    /** The zone whose code is this code followed by `digit`. */
    function Child(digit: char): (child: Zone)
      requires IsStepChar(digit)
      ensures child.level == level + 1
    {
      ChildDecodes(this, digit);
      ZoneByCode(Code() + [digit]).value
    }

    /** The nine children, in digit order `0` to `8`. */
    function Children(): (children: seq<Zone>)
      ensures |children| == 9
    {
      seq(9, i requires 0 <= i < 9 => Child(DigitChar(i)))
    }

    /** The number of hexagon steps to `other`, which must be at the same
        level. */
    function DistanceTo(other: Zone): (r: Result<nat, ZoneError>)
      ensures r.Err? <==> level != other.level
    {
      if level != other.level then Err(LevelMismatch)
      else Ok(Steps(hexX - other.hexX, hexY - other.hexY))
    }
  }

  datatype ZoneError = LevelMismatch

  /** The zone a code decodes to, or why it does not decode. */
  function ZoneByCode(code: string): (r: Result<Zone, DecodeError>)
    ensures r.Ok? <==> Decoded(code).Ok?
    ensures r.Ok? ==> r.value == Zone(Decoded(code).value.0, Decoded(code).value.1, Decoded(code).value.2)
    ensures r.Err? ==> Decoded(code) == Err(r.error)
  {
    match Decoded(code)
    case Ok((level, hexX, hexY)) => Ok(Zone(level, hexX, hexY))
    case Err(e) => Err(e)
  }

  /** The step count for an axial offset `(dx, dy)`: along a diagonal the
      larger of the two moves, otherwise their sum. */
  function Steps(dx: int, dy: int): nat
  {
    var ax := if dx < 0 then -dx else dx;
    var ay := if dy < 0 then -dy else dy;
    if dx * dy > 0 then (if ax > ay then ax else ay) else ax + ay
  }

  function Abs(v: int): nat
  {
    if v < 0 then -v else v
  }

  /** The hexagonal norm: the largest of `|dx|`, `|dy|` and `|dx - dy|`. */
  function HexNorm(dx: int, dy: int): (n: nat)
    ensures -(n as int) <= dx <= n && -(n as int) <= dy <= n && -(n as int) <= dx - dy <= n
    ensures n == dx || n == -dx || n == dy || n == -dy || n == dx - dy || n == dy - dx
  {
    var m := if Abs(dx) > Abs(dy) then Abs(dx) else Abs(dy);
    if Abs(dx - dy) > m then Abs(dx - dy) else m
  }

  // ---------------------------------------------------------------------
  // Codes of parents and children
  // ---------------------------------------------------------------------

  /** Every zone's code is spelled by its step digits. */
  lemma CodeIsCodeOf(z: Zone)
    ensures var s := StepCodes(z.hexX, z.hexY, z.level + 3);
            |s| >= 3 && IsStepString(s) && z.Code() == CodeOf(s)
  {
  }

  /** One more step digit adds that digit to the code. */
  lemma CodeOfSnoc(s: string, c: char)
    requires |s| >= 3 && IsStepString(s) && IsStepChar(c)
    ensures IsStepString(s + [c]) && CodeOf(s + [c]) == CodeOf(s) + [c]
  {
    var t := s + [c];
    assert t[..3] == s[..3];
    assert t[3..] == s[3..] + [c];
  }

  /** Decoding a zone's code and building the zone again gives the same
      code, and the same coordinates when they fit the level. */
  lemma {:induction false} ZoneByCodeOfCode(z: Zone)
    ensures ZoneByCode(z.Code()).Ok?
    ensures ZoneByCode(z.Code()).value.SameAs(z)
    ensures InRange(z.hexX, z.level + 3) && InRange(z.hexY, z.level + 3) ==> ZoneByCode(z.Code()) == Ok(z)
  {
    var s := StepCodes(z.hexX, z.hexY, z.level + 3);
    CodeIsCodeOf(z);
    EncodeDecoded(s);
    if InRange(z.hexX, z.level + 3) && InRange(z.hexY, z.level + 3) {
      DecodeEncoded(z.level, z.hexX, z.hexY);
    }
  }

  /** A code extended by a step digit decodes, and re-encodes to itself. */
  lemma ChildDecodes(z: Zone, digit: char)
    requires IsStepChar(digit)
    ensures ZoneByCode(z.Code() + [digit]).Ok?
    ensures ZoneByCode(z.Code() + [digit]).value.level == z.level + 1
    ensures ZoneByCode(z.Code() + [digit]).value.Code() == z.Code() + [digit]
  {
    var s := StepCodes(z.hexX, z.hexY, z.level + 3);
    CodeIsCodeOf(z);
    CodeOfSnoc(s, digit);
    EncodeDecoded(s + [digit]);
    DecodeCodeOf(s + [digit]);
  }

  /** A child's code is the parent's code plus the child's digit. */
  lemma ChildCode(z: Zone, digit: char)
    requires IsStepChar(digit)
    ensures z.Child(digit).level == z.level + 1
    ensures z.Child(digit).Code() == z.Code() + [digit]
  {
    ChildDecodes(z, digit);
  }

  /** The children are the nine zones one level down whose codes extend
      this code by `0` to `8`, in that order. */
  lemma ChildrenCodes(z: Zone)
    ensures forall i :: 0 <= i < 9 ==> z.Children()[i].level == z.level + 1
    ensures forall i :: 0 <= i < 9 ==> z.Children()[i].Code() == z.Code() + [DigitChar(i)]
  {
    forall i | 0 <= i < 9
      ensures z.Children()[i].level == z.level + 1
      ensures z.Children()[i].Code() == z.Code() + [DigitChar(i)]
    {
      ChildCode(z, DigitChar(i));
    }
  }

  /** A zone at level 0 has no parent: its one-character prefix is too
      short to decode. Above level 0 the parent is one level up and its code
      is this code without the last digit. */
  lemma ParentCode(z: Zone)
    ensures z.level == 0 ==> z.Parent() == Err(CodeTooShort)
    ensures z.level > 0 ==> z.Parent().Ok? && z.Parent().value.level == z.level - 1
    ensures z.level > 0 ==> z.Parent().value.Code() == z.Code()[..|z.Code()| - 1]
  {
    var s := StepCodes(z.hexX, z.hexY, z.level + 3);
    CodeIsCodeOf(z);
    var code := z.Code();
    if z.level == 0 {
      assert KeyIndex(code[0]).Some?;
    } else {
      var p := s[..|s| - 1];
      assert s == p + [s[|s| - 1]];
      CodeOfSnoc(p, s[|s| - 1]);
      assert code[..|code| - 1] == CodeOf(p);
      EncodeDecoded(p);
      DecodeCodeOf(p);
    }
  }

  /** The parent of a child is the zone itself: the same zone by code
      always, and the very same coordinates when they fit the level. */
  lemma ParentOfChild(z: Zone, digit: char)
    requires IsStepChar(digit)
    ensures z.Child(digit).Parent().Ok?
    ensures z.Child(digit).Parent().value.SameAs(z)
    ensures InRange(z.hexX, z.level + 3) && InRange(z.hexY, z.level + 3) ==> z.Child(digit).Parent() == Ok(z)
  {
    var child := z.Child(digit);
    ChildCode(z, digit);
    var code := z.Code() + [digit];
    assert child.Code()[..|child.Code()| - 1] == z.Code();
    ZoneByCodeOfCode(z);
  }

  /** For zones whose coordinates fit their level, equality by code is
      equality of level and coordinates. */
  lemma SameAsIsEquality(a: Zone, b: Zone)
    requires InRange(a.hexX, a.level + 3) && InRange(a.hexY, a.level + 3)
    requires InRange(b.hexX, b.level + 3) && InRange(b.hexY, b.level + 3)
    ensures a.SameAs(b) <==> a == b
  {
    ZoneByCodeOfCode(a);
    ZoneByCodeOfCode(b);
  }

  // ---------------------------------------------------------------------
  // Distance
  // ---------------------------------------------------------------------

  /** The step count is the hexagonal norm. */
  lemma StepsIsNorm(dx: int, dy: int)
    ensures Steps(dx, dy) == HexNorm(dx, dy)
  {
    if dx > 0 && dy > 0 {
      ProductPositive(dx, dy);
    } else if dx < 0 && dy < 0 {
      ProductPositive(-dx, -dy);
    } else {
      ProductNotPositive(dx, dy);
    }
  }

  lemma ProductPositive(a: int, b: int)
    requires a > 0 && b > 0
    ensures a * b > 0 && (-a) * (-b) > 0
  {
  }

  lemma ProductNotPositive(a: int, b: int)
    requires !(a > 0 && b > 0) && !(a < 0 && b < 0)
    ensures a * b <= 0
  {
    if a > 0 {
      assert a * b == -(a * -b);
    } else if a < 0 {
      assert a * b == (-a) * (-b);
    }
  }

  /** Distances exist exactly at equal levels and are hexagonal norms of the
      coordinate difference. */
  lemma DistanceIsNorm(a: Zone, b: Zone)
    ensures a.DistanceTo(b).Ok? <==> a.level == b.level
    ensures a.level == b.level ==> a.DistanceTo(b) == Ok(HexNorm(a.hexX - b.hexX, a.hexY - b.hexY))
  {
    StepsIsNorm(a.hexX - b.hexX, a.hexY - b.hexY);
  }

  /** A zone is at distance 0 exactly from itself. */
  lemma DistanceZero(a: Zone, b: Zone)
    ensures a.DistanceTo(b) == Ok(0) <==> a == b
  {
    DistanceIsNorm(a, b);
  }

  /** Distance does not depend on the direction it is measured in. */
  lemma DistanceSymmetric(a: Zone, b: Zone)
    ensures a.DistanceTo(b) == b.DistanceTo(a)
  {
    DistanceIsNorm(a, b);
    DistanceIsNorm(b, a);
  }

  /** Going through a third zone is never shorter. */
  lemma DistanceTriangle(a: Zone, b: Zone, c: Zone)
    requires a.level == b.level == c.level
    ensures a.DistanceTo(c).value <= a.DistanceTo(b).value + b.DistanceTo(c).value
  {
    DistanceIsNorm(a, b);
    DistanceIsNorm(b, c);
    DistanceIsNorm(a, c);
    NormTriangle(a.hexX, a.hexY, b.hexX, b.hexY, c.hexX, c.hexY);
  }

  lemma NormTriangle(x1: int, y1: int, x2: int, y2: int, x3: int, y3: int)
    ensures HexNorm(x1 - x3, y1 - y3) <= HexNorm(x1 - x2, y1 - y2) + HexNorm(x2 - x3, y2 - y3)
  {
    var n12, n23 := HexNorm(x1 - x2, y1 - y2), HexNorm(x2 - x3, y2 - y3);
    var n13 := HexNorm(x1 - x3, y1 - y3);
  }

  /** An example of the metric: the six offsets that share an edge with a
      hexagon on the skew lattice are each one step away. */
  lemma NeighboursAtOne(z: Zone)
    ensures forall d :: d in NeighbourOffsets() ==>
      z.DistanceTo(Zone(z.level, z.hexX + d.0, z.hexY + d.1)) == Ok(1)
  {
    forall d | d in NeighbourOffsets()
      ensures z.DistanceTo(Zone(z.level, z.hexX + d.0, z.hexY + d.1)) == Ok(1)
    {
      DistanceIsNorm(z, Zone(z.level, z.hexX + d.0, z.hexY + d.1));
    }
  }

  function NeighbourOffsets(): seq<(int, int)>
  {
    [(1, 0), (-1, 0), (0, 1), (0, -1), (1, 1), (-1, -1)]
  }

  // ---------------------------------------------------------------------
  // Movable zones
  // ---------------------------------------------------------------------

  /** The first column offset the row `dy` of the diamond visits. */
  function RowStart(dy: int, distance: int): int
  {
    if dy > 0 then -distance + dy else -distance
  }

  /** The last column offset the row `dy` of the diamond visits. */
  function RowEnd(dy: int, distance: int): int
  {
    if dy < 0 then distance + dy else distance
  }

  /** Within the rows `-distance..distance`, a row's column range is exactly
      the offsets whose norm is at most `distance`. */
  lemma RowIsDisk(dx: int, dy: int, distance: int)
    requires -distance <= dy <= distance
    ensures RowStart(dy, distance) <= dx <= RowEnd(dy, distance) <==> HexNorm(dx, dy) <= distance
  {
  }

  /** A zone is movable from `z` within `distance` when it is at the same
      level and between 1 and `distance` steps away. */
  predicate Movable(z: Zone, w: Zone, distance: int)
  {
    w.level == z.level && 1 <= HexNorm(w.hexX - z.hexX, w.hexY - z.hexY) <= distance
  }

  /** The zones of row `dy` at column offsets `minx` up to `dx - 1`, left to
      right, leaving out `z` itself. */
  function RowPrefix(z: Zone, dy: int, minx: int, dx: int): seq<Zone>
    decreases dx - minx
  {
    if dx <= minx then []
    else RowPrefix(z, dy, minx, dx - 1) + (if dx - 1 == 0 && dy == 0 then [] else [Zone(z.level, z.hexX + dx - 1, z.hexY + dy)])
  }

  /** The rows `-distance` up to `dy - 1`, in order, each over its own
      column range. */
  function Rows(z: Zone, distance: int, dy: int): seq<Zone>
    decreases dy + distance
  {
    if dy <= -distance then []
    else Rows(z, distance, dy - 1) + RowPrefix(z, dy - 1, RowStart(dy - 1, distance), RowEnd(dy - 1, distance) + 1)
  }

  /** The list of movable zones in the order the original builds it: rows
      of rising `dy`, each left to right. */
  function MovableSeq(z: Zone, distance: int): seq<Zone>
  {
    Rows(z, distance, distance + 1)
  }

  predicate Distinct(zs: seq<Zone>)
  {
    forall i, j :: 0 <= i < j < |zs| ==> zs[i] != zs[j]
  }

  /** Every zone between 1 and `distance` steps from `z`, row by row
      (`dy` rising) and left to right in each row. */
  method MovableZones(z: Zone, distance: int) returns (result: seq<Zone>)
    ensures result == MovableSeq(z, distance)
    ensures forall w :: w in result <==> Movable(z, w, distance)
    ensures Distinct(result)
  {
    result := [];
    var dy := -distance;
    while dy < distance + 1
      invariant -distance <= dy && (dy <= distance + 1 || dy == -distance)
      invariant result == Rows(z, distance, dy)
    {
      var minx := RowStart(dy, distance);
      var maxx := RowEnd(dy, distance);
      var dx := minx;
      while dx < maxx + 1
        invariant minx <= dx <= maxx + 1
        invariant result == Rows(z, distance, dy) + RowPrefix(z, dy, minx, dx)
      {
        if !(dx == 0 && dy == 0) {
          result := result + [Zone(z.level, z.hexX + dx, z.hexY + dy)];
        }
        dx := dx + 1;
      }
      dy := dy + 1;
    }
    if distance < 0 {
      assert result == [] == MovableSeq(z, distance);
    }
    forall w
      ensures w in result <==> Movable(z, w, distance)
    {
      MovableSeqHas(z, distance, w);
    }
    MovableSeqDistinct(z, distance);
  }

  /** Row `dy` up to column `dx - 1` holds exactly the zones of that row
      from column `minx` on, except `z`. */
  lemma {:induction false} RowPrefixHas(z: Zone, dy: int, minx: int, dx: int, w: Zone)
    ensures w in RowPrefix(z, dy, minx, dx) <==>
      w.level == z.level && w.hexY - z.hexY == dy && minx <= w.hexX - z.hexX < dx && !(w.hexX == z.hexX && dy == 0)
    decreases dx - minx
  {
    if dx > minx {
      RowPrefixHas(z, dy, minx, dx - 1, w);
    }
  }

  /** The rows below `dy` hold exactly the zones of those rows within each
      row's column range, except `z`. */
  lemma {:induction false} RowsHas(z: Zone, distance: int, dy: int, w: Zone)
    ensures w in Rows(z, distance, dy) <==>
      w.level == z.level && -distance <= w.hexY - z.hexY < dy
      && RowStart(w.hexY - z.hexY, distance) <= w.hexX - z.hexX <= RowEnd(w.hexY - z.hexY, distance)
      && w != z
    decreases dy + distance
  {
    if dy > -distance {
      RowsHas(z, distance, dy - 1, w);
      RowPrefixHas(z, dy - 1, RowStart(dy - 1, distance), RowEnd(dy - 1, distance) + 1, w);
    }
  }

  /** The list holds exactly the zones movable from `z` within `distance`. */
  lemma MovableSeqHas(z: Zone, distance: int, w: Zone)
    ensures w in MovableSeq(z, distance) <==> Movable(z, w, distance)
  {
    RowsHas(z, distance, distance + 1, w);
    var dx, dy := w.hexX - z.hexX, w.hexY - z.hexY;
    if -distance <= dy <= distance {
      RowIsDisk(dx, dy, distance);
    }
  }

  lemma DistinctConcat(a: seq<Zone>, b: seq<Zone>)
    requires Distinct(a) && Distinct(b)
    requires forall w :: w in a ==> w !in b
    ensures Distinct(a + b)
  {
    forall i, j | 0 <= i < j < |a + b|
      ensures (a + b)[i] != (a + b)[j]
    {
      if i < |a| && j >= |a| {
        assert (a + b)[i] in a && (a + b)[j] == b[j - |a|];
      }
    }
  }

  /** A row lists each zone once. */
  lemma {:induction false} RowPrefixDistinct(z: Zone, dy: int, minx: int, dx: int)
    ensures Distinct(RowPrefix(z, dy, minx, dx))
    decreases dx - minx
  {
    if dx > minx {
      var prev := RowPrefix(z, dy, minx, dx - 1);
      var last := if dx - 1 == 0 && dy == 0 then [] else [Zone(z.level, z.hexX + dx - 1, z.hexY + dy)];
      RowPrefixDistinct(z, dy, minx, dx - 1);
      forall w | w in prev
        ensures w !in last
      {
        RowPrefixHas(z, dy, minx, dx - 1, w);
      }
      DistinctConcat(prev, last);
    }
  }

  /** The rows list each zone once. */
  lemma {:induction false} RowsDistinct(z: Zone, distance: int, dy: int)
    ensures Distinct(Rows(z, distance, dy))
    decreases dy + distance
  {
    if dy > -distance {
      var prev := Rows(z, distance, dy - 1);
      var row := RowPrefix(z, dy - 1, RowStart(dy - 1, distance), RowEnd(dy - 1, distance) + 1);
      RowsDistinct(z, distance, dy - 1);
      RowPrefixDistinct(z, dy - 1, RowStart(dy - 1, distance), RowEnd(dy - 1, distance) + 1);
      forall w | w in prev
        ensures w !in row
      {
        RowsHas(z, distance, dy - 1, w);
        RowPrefixHas(z, dy - 1, RowStart(dy - 1, distance), RowEnd(dy - 1, distance) + 1, w);
      }
      DistinctConcat(prev, row);
    }
  }

  /** The list names each movable zone once. */
  lemma MovableSeqDistinct(z: Zone, distance: int)
    ensures Distinct(MovableSeq(z, distance))
  {
    RowsDistinct(z, distance, distance + 1);
  }
}
