/**
 * The ghost-leg (Amidakuji) ladder shared by the local and the online ladder
 * pages: a fixed number of rows, vertical lines 0..n-1 and horizontal rungs
 * (`LadderLine`) between neighbouring verticals.
 */
module Ladder {
  import opened Text

  /** Number of rung rows (`const rows = 10`). */
  const Rows: int := 10
  /** Bounds of the participant count. */
  const MinPlayers: int := 2
  const MaxPlayers: int := 10

  function Max(a: int, b: int): int { if a >= b then a else b }
  function Min(a: int, b: int): int { if a <= b then a else b }

  /** `Math.max(2, Math.min(10, n))`: the participant count after a +/- click. */
  function ClampCount(n: int): (r: int)
    ensures MinPlayers <= r <= MaxPlayers
    ensures MinPlayers <= n <= MaxPlayers ==> r == n
    ensures n < MinPlayers ==> r == MinPlayers
    ensures n > MaxPlayers ==> r == MaxPlayers
  {
    Max(MinPlayers, Min(MaxPlayers, n))
  }

  /** `LadderLine`: a rung in row `y` joining vertical `fromX` to vertical `toX`. */
  datatype Rung = Rung(id: string, fromX: int, toX: int, y: int)

  /** `line-${x}-${y}` for a random rung, `line-forced-${x}-${y}` for a forced one. */
  function RungId(x: nat, y: nat, forced: bool): string {
    IdPrefix(forced) + Coordinates(x, y)
  }

  function IdPrefix(forced: bool): string {
    if forced then "line-forced-" else "line-"
  }

  /** The `${x}-${y}` part of a rung id. */
  function Coordinates(x: nat, y: nat): string {
    NatToString(x) + "-" + NatToString(y)
  }

  /** The id of a rung that was forced into an otherwise empty row. */
  predicate IsForcedId(id: string) {
    "line-forced-" <= id
  }

  /** The rung has `x` as one of its two ends. */
  predicate Touches(r: Rung, x: int) {
    r.fromX == x || r.toX == x
  }

  /** Every rung joins a vertical to its right-hand neighbour. */
  predicate UnitRungs(lines: seq<Rung>) {
    forall i :: 0 <= i < |lines| ==> lines[i].toX == lines[i].fromX + 1
  }

  /** Every rung lies on the grid of `n` verticals and `Rows` rows. */
  predicate InBounds(lines: seq<Rung>, n: int) {
    forall i :: 0 <= i < |lines| ==>
      0 <= lines[i].fromX && lines[i].toX < n && 0 <= lines[i].y < Rows
  }

  /** Two different rungs of one row never meet at a vertical. */
  predicate NoSharedVertical(lines: seq<Rung>) {
    forall i, j :: 0 <= i < j < |lines| && lines[i].y == lines[j].y ==>
      !Touches(lines[j], lines[i].fromX) && !Touches(lines[j], lines[i].toX)
  }

  /** Some rung lies in row `y` (`lines.filter(l => l.y === y).length > 0`). */
  predicate HasRow(lines: seq<Rung>, y: int) {
    exists i :: 0 <= i < |lines| && lines[i].y == y
  }

  /** Some rung of row `y` starts at vertical `x` (`lines.some(l => l.y === y && l.fromX === x)`). */
  predicate StartsAt(lines: seq<Rung>, y: int, x: int) {
    exists i :: 0 <= i < |lines| && lines[i].y == y && lines[i].fromX == x
  }

  /** Every row holds at least one rung. */
  predicate RowsNonEmpty(lines: seq<Rung>) {
    forall y :: 0 <= y < Rows ==> HasRow(lines, y)
  }

  /** A forced rung is the only rung of its row. */
  predicate ForcedAlone(lines: seq<Rung>) {
    forall i, j :: 0 <= i < |lines| && 0 <= j < |lines| && i != j && IsForcedId(lines[i].id) ==>
      lines[j].y != lines[i].y
  }

  /** Rung ids are pairwise distinct (they are the SVG elements' React keys). */
  predicate DistinctIds(lines: seq<Rung>) {
    forall i, j :: 0 <= i < j < |lines| ==> lines[i].id != lines[j].id
  }

  /** A ladder over `n` verticals on which tracing is well defined and a permutation. */
  predicate WellFormed(lines: seq<Rung>, n: int) {
    UnitRungs(lines) && InBounds(lines, n) && NoSharedVertical(lines)
  }
}
