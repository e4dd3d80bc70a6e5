# GeoHex v3 integer core in Dafny

GeoHex divides the map into hexagonal zones. A zone is named by its level and
its two axial coordinates `(hexX, hexY)`. It is known to the outside by a code:
two letters from a 52-symbol alphabet, then one decimal digit per level.

This project models the integer part of `geohex/core.py` in four modules.

- `Results` (`results.dfy`) holds `Option` and `Result`.
- `Codec` (`codec.dfy`) holds `encode` and `decode`.
  - Encoding writes each axis in balanced ternary over `level + 3` steps.
  - It packs the two axis digits of a step into one decimal digit `3x + y`.
  - It turns the first three digits into two alphabet characters.
  - Decoding reads them back, including the non-canonical codes the original accepts.
- `Zones` (`zone.dfy`) holds the `Zone` value.
  - A zone's code is fixed at construction.
  - Two zones are equal when their codes are.
  - It has parent and children by code, the step distance, the movable-zone enumeration, and `create_zone_by_code`.
- `Extent` (`extent.dfy`) holds the integer skeleton of `create_zones_by_extent`.
  - Starting from the four corner zones, it fills a parallelogram of diagonal runs.
  - It adds up to four edge lines.
  - It drops the four zones just outside the corners.
  - Its set of zones is a map from key to zone, so adding a zone whose key is present keeps the zone already there, as a Python `set` of zones does.
  - The set operations are written for any key function. The tiler itself uses the zone code.

Loops in the original are methods with loop invariants, each proved equal to a
specification function: `Encode`, `Decode`, `SumDigits`, `MovableZones` and the
tiler's `AddLineLoop`, `AddColumnLoops`, `FillLoop`, `EdgeLoops`, `TileBy`.
The properties of the original are proved as lemmas about those functions.

## Model

| member | source | states |
|---|---|---|
| Codec.KeyIndexSound | geohex/core.py:226-227 | a character the alphabet lookup finds sits at that index of the 52-symbol alphabet |
| Codec.KeyIndexComplete | geohex/core.py:226-227 | every character of the alphabet is found, at its first (only) position |
| Codec.AxisStep | geohex/core.py:190-208 | one encoding step splits a coordinate into a balanced-ternary digit times the base plus a remainder, and a coordinate in range leaves a remainder in range for one fewer step |
| Codec.AxisStepUnique | geohex/core.py:190-208 | the digit and remainder of a step are unique: a remainder in range determines both |
| Codec.StepCodes | geohex/core.py:189-210 | encoding `n` steps yields `n` decimal digits, each in `0..8` |
| Codec.StepCodesValue | geohex/core.py:189-210 | for coordinates in range, the step digits read back as balanced-ternary numbers give the coordinates |
| Codec.StepCodesOfValue | geohex/core.py:189-210 | any string of step digits is the encoding of its own values, so the digit string of a cell is unique |
| Codec.CodeOf | geohex/core.py:212-218 | the head value (the first three step digits read as a decimal number) is at most 888, the head characters index the alphabet below 30, their value `30q + r` is the decimal value of the first three digits, and the rest of the code is the remaining digits |
| Codec.ZeroPad3Value | geohex/core.py:228 | zero-padding a head value and reading it back as decimal gives the value |
| Codec.ZeroPadDecimal | geohex/core.py:212-228 | three decimal digits are the zero-padding of their own value |
| Codec.Encoded | geohex/core.py:185-218 | a code at `level` has `level + 2` characters |
| Codec.Encode | geohex/core.py:185-218 | the encoding loop produces the code of `Encoded` |
| Codec.DecodedOutcome | geohex/core.py:221-251 | decoding fails exactly on a code of fewer than two characters, a head character outside the alphabet, or a non-digit body character, each with its own error in reading order; an accepted code names level `len - 2` |
| Codec.Decoded | geohex/core.py:221-251 | the decoder as a function; its contract is stated by `Codec.DecodedOutcome` (when and how it fails) and by the round trips `Codec.DecodeEncoded` and `Codec.EncodeDecoded` |
| Codec.Decode | geohex/core.py:221-251 | the decoding loop produces the result of `Decoded`, errors included |
| Codec.SumDigits | geohex/core.py:235-249 | the digit loop succeeds exactly when every character is a digit, and then returns the two axis sums |
| Codec.ValueBound | geohex/core.py:235-251 | the value decoded from `n` digits fits `n` balanced-ternary steps |
| Codec.DecodeCodeOf | geohex/core.py:212-251 | the code spelled from a string of step digits decodes to its level and to the values of its digits |
| Codec.DecodeEncoded | geohex/core.py:185-251 | round trip: decoding the code of a cell whose coordinates fit `level + 3` steps gives back the cell |
| Codec.EncodeDecoded | geohex/core.py:185-251 | round trip: every code spelled by step digits decodes, and re-encoding gives the same code |
| Codec.EncodeExample | geohex/core.py:185-251 | the cell `(7, -1632, 9851)` has code `RU6063103`, which decodes back to it |
| Codec.DecodedByHead | geohex/core.py:226-230 | decoding sees the head characters only through `30q + r`: codes with equal head value and body decode alike |
| Codec.AliasExample | geohex/core.py:226-230 | `Ae` and `BA` are both accepted and decode to the same cell |
| Codec.LongHeadExample | geohex/core.py:228-251 | a head value over 999 (`zz`) pads to four digits, and the truncated sum gives `(0, -8, 4)` |
| Zones.Zone.Code | geohex/core.py:16-17 | a zone's code has `level + 2` characters |
| Zones.ZoneByCode | geohex/core.py:114-115 | a code gives a zone exactly when it decodes, the zone has the decoded level and coordinates, and a failure carries the decoder's error |
| Zones.ZoneByCodeOfCode | geohex/core.py:114-115 | the zone built from a zone's code is equal to it, and is the same value when its coordinates fit its level |
| Zones.SameAsIsEquality | geohex/core.py:58-59 | for zones with coordinates in range, equality by code is equality of level and coordinates |
| Zones.Zone.SameAs | geohex/core.py:58-59 | equality of zones compares codes; `Zones.SameAsIsEquality` states that for zones whose coordinates fit their level it is equality of level and coordinates |
| Zones.Zone.Parent | geohex/core.py:40-41 | the zone of the code without its last digit; `Zones.ParentCode` and `Zones.ParentOfChild` state its contract |
| Zones.Zone.Child | geohex/core.py:43-44 | a child is one level below its parent |
| Zones.ChildDecodes | geohex/core.py:43-44 | a code followed by any of `0`..`8` decodes to a zone one level down whose code is that string |
| Zones.ChildCode | geohex/core.py:43-44 | a child's code is its parent's code followed by the digit |
| Zones.Zone.Children | geohex/core.py:43-44 | there are nine children |
| Zones.ChildrenCodes | geohex/core.py:43-44 | child `i` is one level down and its code is the parent's code followed by digit `i` |
| Zones.ParentCode | geohex/core.py:40-41 | a level-0 zone has no parent (the code is too short); otherwise the parent is one level up and its code is the code without its last digit |
| Zones.ParentOfChild | geohex/core.py:40-44 | the parent of a child is the zone itself |
| Zones.Zone.DistanceTo | geohex/core.py:65-67 | distance fails exactly when the levels differ |
| Zones.Steps | geohex/core.py:69-77 | the step count of an offset; `Zones.StepsIsNorm` states that it is the hexagonal norm |
| Zones.HexNorm | geohex/core.py:65-77 | the reference norm bounds `dx`, `dy` and `dx - dy` and equals one of them up to sign |
| Zones.StepsIsNorm | geohex/core.py:69-77 | the source's step count (larger move along a diagonal, sum otherwise) is the hexagonal norm |
| Zones.DistanceIsNorm | geohex/core.py:65-77 | the distance of same-level zones is the norm of their offset |
| Zones.DistanceZero | geohex/core.py:65-77 | for any two zones, the distance is zero exactly when they are the same zone (a level mismatch is an error, never zero) |
| Zones.DistanceSymmetric | geohex/core.py:65-77 | distance is symmetric, errors included |
| Zones.DistanceTriangle | geohex/core.py:65-77 | distance satisfies the triangle inequality |
| Zones.NeighboursAtOne | geohex/core.py:65-77 | an example of the metric: the six offsets that share an edge with a hexagon are at distance one |
| Zones.RowIsDisk | geohex/core.py:49-52 | in each row the column range the loop visits is exactly the offsets within `distance` |
| Zones.MovableZones | geohex/core.py:46-56 | the loops build the list `MovableSeq` (rows of rising `dy`, each left to right, skipping the zone itself), which holds exactly the same-level zones 1 to `distance` steps away, each once |
| Zones.RowsHas | geohex/core.py:49-54 | the rows visited so far hold exactly the zones of those rows within each row's column range, except the zone itself |
| Zones.MovableSeqHas | geohex/core.py:46-56 | a zone is in the list exactly when it is at the same level and 1 to `distance` steps away |
| Zones.MovableSeqDistinct | geohex/core.py:46-56 | the list names no zone twice |
| Extent.ZonesByExtent | geohex/core.py:254-306 | the tiler keyed by zone code returns the set `Tiled` |
| Extent.TileBy | geohex/core.py:270-306 | for any key, the tiler's loops build `Tiled` |
| Extent.DistanceCorners | geohex/core.py:277-278 | width and height are the step distances from the lower-left corner |
| Extent.FillLoop | geohex/core.py:280-292 | the column loop builds the parallelogram fill |
| Extent.AddColumnLoops | geohex/core.py:281-292 | one column adds a run of `height + 1` zones, then a run of `height` zones unless its base is the lower-right corner |
| Extent.AddLineLoop | geohex/core.py:283-284 | a run adds its zones one by one to the set |
| Extent.EdgeLoops | geohex/core.py:294-305 | the edge loops add the edges the flags ask for, in order |
| Extent.AddFacts | geohex/core.py:284 | adding a zone keeps every zone already present and keeps every zone filed under its key at the level |
| Extent.AddLineHas | geohex/core.py:283-284 | a key is in the set after a run exactly when it was before or a zone of the run has it |
| Extent.AddColumnHas | geohex/core.py:280-292 | a key is in the set after a column exactly when it was before or a zone of the column has it |
| Extent.AddFillHas | geohex/core.py:280-292 | a key is in the set after the fill exactly when it was before or a zone of some column has it |
| Extent.CollectHas | geohex/core.py:294-305 | a key is in the set after the edges exactly when it was before or a zone of a requested edge has it |
| Extent.ToRemoveHas | geohex/core.py:270-274 | the removal set holds exactly the keys of the four zones outside the corners |
| Extent.TiledHas | geohex/core.py:254-306 | a key is in the result exactly when the tiler walks a zone with that key and it is not the key of a zone outside the corners |
| Extent.TiledExcludesOutside | geohex/core.py:270-306 | none of the four outside zones is in the result |
| Extent.TiledCoversFill | geohex/core.py:280-306 | every zone of the parallelogram is in the result unless it is an outside zone |
| Extent.TiledCoversEdge | geohex/core.py:294-306 | every zone of a requested edge line is in the result unless it is an outside zone |
| Extent.AddLineFiled | geohex/core.py:283-284 | a run keeps the zones already present and keeps every zone filed under its own key |
| Extent.AddColumnFiled | geohex/core.py:280-292 | a column keeps every zone filed under its own key |
| Extent.AddFillFiled | geohex/core.py:280-292 | the fill keeps every zone filed under its own key |
| Extent.CollectFiled | geohex/core.py:294-305 | the edges keep every zone filed under its own key |
| Extent.TiledFiled | geohex/core.py:254-306 | every zone of the result is at the requested level and filed under its own key |

## Left out

- The float projection is not modelled, because it is floating-point geometry. This covers `create_zone`, `deg2hex`, `meter2hex`, `hex2deg` and `hex2meter`, the projection module and the zone's metre and degree fields.
- `get_vertices`, `get_vertices_deg`, `get_wkt` and `get_wkt_deg` are not modelled, because they are float geometry and string formatting.
- `ZonesByExtent`: the four corner zones come from the float projection, so they are parameters (`Corners`).
  - The four vertex comparisons that switch the edge lines on are parameters too (`EdgeFlags`).
  - The model covers everything the tiler does with the integer zones once those are known.
- `ZonesByExtent`: the Python set of zones is a map from zone code to zone. This keeps Python's behaviour that adding an equal zone keeps the first one, but not the set's iteration order.
- `Zones.Zone.DistanceTo`: the exception on mismatched levels is the `LevelMismatch` error value.
- `__hash__` is not modelled separately: it hashes the code, so it agrees with equality by code, which `SameAs` states.
- Negative levels are left out: `level` is a `nat`. In the original a negative level makes `encode` write fewer steps, and it gives no meaningful zone.
- Decoding uses exact integer sums in thirds, not float powers of three, so it does not model float rounding for very long codes.
- `Codec.DecodedOutcome`: a digit is an ASCII `0`-`9`. Python's `int()` of one body character also accepts the other Unicode decimal digits, and those are not modelled.
- `Zones.SameAsIsEquality` and `Codec.DecodeEncoded`: stated for coordinates that fit the level's `level + 3` steps. Outside that range two different coordinate pairs can share a code, and the model states only that the decoded zone has the same code (`Zones.ZoneByCodeOfCode`).
- `geohex/tools.py` and the package's other files are not part of this model.
