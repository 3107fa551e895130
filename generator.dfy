/**
 * `generateLadder` (local page) and `generateLadderLines` (create page): the
 * same two nested loops over the 10 rows and the gaps between neighbouring
 * verticals. `Math.random()` is replaced by explicit draws (`Choices`).
 */
module Generator {
  import opened Text
  import opened Ladder

  /**
   * The random draws of one generation: `coin[y][x]` is the outcome of
   * `Math.random() < probability` at gap `x` of row `y` (read only when there is
   * no rung on the left), `forced[y]` is `Math.floor(Math.random() * (count - 1))`
   * for row `y` (read only when the row came out empty).
   */
  datatype Choices = Choices(coin: seq<seq<bool>>, forced: seq<int>)

  /** Number of gaps between `count` verticals, i.e. iterations of the inner loop. */
  function Gaps(count: int): nat {
    if count > 1 then count - 1 else 0
  }

  /** The draws cover every cell, and every forced index is one `Math.floor` can produce. */
  predicate Fits(ch: Choices, count: int) {
    && |ch.coin| == Rows && |ch.forced| == Rows
    && (forall y :: 0 <= y < Rows ==> |ch.coin[y]| >= Gaps(count))
    && (count > 1 ==> forall y :: 0 <= y < Rows ==> 0 <= ch.forced[y] < count - 1)
  }

  /**
   * The rungs the inner loop has placed in row `y` after visiting the gaps
   * `0 .. x-1`: at gap `x-1` a rung is placed when the coin says so and no rung
   * of the row starts at `x-2`.
   */
  function Scan(coins: seq<bool>, y: nat, x: nat): seq<Rung>
    requires x <= |coins|
  {
    if x == 0 then []
    else
      var s := Scan(coins, y, x - 1);
      if !StartsAt(s, y, x - 2) && coins[x - 1] then s + [Rung(RungId(x - 1, y, false), x - 1, x, y)] else s
  }

  /** All rungs lie in row `y`. */
  predicate InRow(r: seq<Rung>, y: int) {
    forall i :: 0 <= i < |r| ==> r[i].y == y
  }

  /** All rungs lie in rows `0 .. k-1`. */
  predicate RowsBelow(r: seq<Rung>, k: int) {
    forall i :: 0 <= i < |r| ==> 0 <= r[i].y < k
  }

  /**
   * Random rungs of row `y` at gaps below `x`, each joining a vertical to its
   * right-hand neighbour and named by its position.
   */
  predicate ScanCells(r: seq<Rung>, y: nat, x: nat) {
    forall i :: 0 <= i < |r| ==>
      && r[i].y == y && 0 <= r[i].fromX < x && r[i].toX == r[i].fromX + 1
      && r[i].id == RungId(r[i].fromX, y, false)
  }

  /** Rungs left to right, any two at least two verticals apart. */
  predicate Spaced(r: seq<Rung>) {
    forall i, j :: 0 <= i < j < |r| ==> r[i].fromX + 2 <= r[j].fromX
  }

  /** Every rung the inner loop places lies in row `y`, left of gap `x`. */
  lemma {:induction false} ScanCellsHold(coins: seq<bool>, y: nat, x: nat)
    requires x <= |coins|
    ensures ScanCells(Scan(coins, y, x), y, x)
  {
    if x > 0 {
      ScanCellsHold(coins, y, x - 1);
      var s := Scan(coins, y, x - 1);
      if !StartsAt(s, y, x - 2) && coins[x - 1] {
        var r := s + [Rung(RungId(x - 1, y, false), x - 1, x, y)];
        assert forall i :: 0 <= i < |s| ==> r[i] == s[i];
      }
    }
  }

  /** The left-neighbour check keeps the rungs of one scan two verticals apart. */
  lemma {:induction false} ScanSpacedHolds(coins: seq<bool>, y: nat, x: nat)
    requires x <= |coins|
    ensures Spaced(Scan(coins, y, x))
  {
    if x > 0 {
      ScanSpacedHolds(coins, y, x - 1);
      ScanCellsHold(coins, y, x - 1);
      var s := Scan(coins, y, x - 1);
      if !StartsAt(s, y, x - 2) && coins[x - 1] {
        var r := s + [Rung(RungId(x - 1, y, false), x - 1, x, y)];
        forall i | 0 <= i < |s| ensures s[i].fromX + 2 <= x - 1 {
          assert !(s[i].y == y && s[i].fromX == x - 2);
        }
        assert forall i :: 0 <= i < |s| ==> r[i] == s[i];
      }
    }
  }

  /** Row `y` once its forced rung, if any, has been added. */
  function Row(count: int, ch: Choices, y: nat): seq<Rung>
    requires Fits(ch, count) && y < Rows
  {
    var s := Scan(ch.coin[y], y, Gaps(count));
    if |s| == 0 && count > 1 then
      [Rung(RungId(ch.forced[y], y, true), ch.forced[y], ch.forced[y] + 1, y)]
    else s
  }

  /** A random rung's id never carries the forced prefix; a forced rung's always does. */
  lemma ForcedPrefix(x: nat, y: nat)
    ensures !IsForcedId(RungId(x, y, false))
    ensures IsForcedId(RungId(x, y, true))
  {
    var c := Coordinates(x, y);
    assert c[0] == NatToString(x)[0];
    assert RungId(x, y, false)[5] == c[0];
  }

  /** Position of the first `-` in `s` (or `|s|` when there is none). */
  function DashPos(s: string): nat {
    if s == [] || s[0] == '-' then 0 else 1 + DashPos(s[1..])
  }

  lemma {:induction false} DashPosAfterDigits(d: string, e: string)
    requires IsDigits(d)
    ensures DashPos(d + "-" + e) == |d|
  {
    if d != [] {
      assert (d + "-" + e)[1..] == d[1..] + "-" + e;
      DashPosAfterDigits(d[1..], e);
    }
  }

  /** A numeral followed by a dash can be split off uniquely. */
  lemma SplitAtDash(d1: string, e1: string, d2: string, e2: string)
    requires IsDigits(d1) && IsDigits(d2)
    requires d1 + "-" + e1 == d2 + "-" + e2
    ensures d1 == d2 && e1 == e2
  {
    var t := d1 + "-" + e1;
    DashPosAfterDigits(d1, e1);
    DashPosAfterDigits(d2, e2);
    assert d1 == t[..|d1|] && d2 == t[..|d2|];
    assert e1 == t[|d1| + 1..] && e2 == t[|d2| + 1..];
  }

  /** Two rungs with the same id have the same position and kind. */
  lemma RungIdInjective(x1: nat, y1: nat, f1: bool, x2: nat, y2: nat, f2: bool)
    requires RungId(x1, y1, f1) == RungId(x2, y2, f2)
    ensures x1 == x2 && y1 == y2 && f1 == f2
  {
    ForcedPrefix(x1, y1);
    ForcedPrefix(x2, y2);
    assert f1 == f2;
    var p := IdPrefix(f1);
    var c1, c2 := Coordinates(x1, y1), Coordinates(x2, y2);
    assert c1 == (p + c1)[|p|..] && c2 == (p + c2)[|p|..];
    SplitAtDash(NatToString(x1), NatToString(y1), NatToString(x2), NatToString(y2));
    NatToStringInjective(x1, x2);
    NatToStringInjective(y1, y2);
  }

  /** One generated row lies in row `y`. */
  lemma RowInRow(count: int, ch: Choices, y: nat)
    requires Fits(ch, count) && y < Rows
    ensures InRow(Row(count, ch, y), y)
  {
    ScanCellsHold(ch.coin[y], y, Gaps(count));
  }

  /** One generated row is well formed, and non-empty when there is a gap. */
  lemma RowWellFormed(count: int, ch: Choices, y: nat)
    requires Fits(ch, count) && y < Rows
    ensures WellFormed(Row(count, ch, y), count)
    ensures count > 1 ==> |Row(count, ch, y)| > 0
  {
    var s := Scan(ch.coin[y], y, Gaps(count));
    if !(|s| == 0 && count > 1) {
      ScanCellsHold(ch.coin[y], y, Gaps(count));
      ScanSpacedHolds(ch.coin[y], y, Gaps(count));
    }
  }

  /** Every id of one generated row names its rung's position and kind. */
  lemma RowIdsByPosition(count: int, ch: Choices, y: nat)
    requires Fits(ch, count) && y < Rows
    ensures IdsByPosition(Row(count, ch, y))
  {
    var s := Scan(ch.coin[y], y, Gaps(count));
    if |s| == 0 && count > 1 {
      ForcedPrefix(ch.forced[y], y);
    } else {
      ScanCellsHold(ch.coin[y], y, Gaps(count));
      forall i | 0 <= i < |s| ensures !IsForcedId(s[i].id) {
        ForcedPrefix(s[i].fromX, y);
      }
    }
  }

  /** A forced rung is the only rung of its generated row. */
  lemma RowForcedAlone(count: int, ch: Choices, y: nat)
    requires Fits(ch, count) && y < Rows
    ensures ForcedAlone(Row(count, ch, y))
  {
    var s := Scan(ch.coin[y], y, Gaps(count));
    if !(|s| == 0 && count > 1) {
      ScanCellsHold(ch.coin[y], y, Gaps(count));
      forall i | 0 <= i < |s| ensures !IsForcedId(s[i].id) {
        ForcedPrefix(s[i].fromX, y);
      }
    }
  }

  /** Ids that name their rungs' positions stay so when two ladders are joined. */
  lemma AppendIdsByPosition(a: seq<Rung>, b: seq<Rung>)
    requires IdsByPosition(a) && IdsByPosition(b)
    ensures IdsByPosition(a + b)
  {
    var c := a + b;
    forall i | 0 <= i < |c| ensures Named(c[i]) {
      if i < |a| {
        assert c[i] == a[i];
      } else {
        assert c[i] == b[i - |a|];
      }
    }
  }

  /**
   * On a well-formed ladder whose ids name positions, ids are distinct: two
   * rungs of one row never start at the same vertical.
   */
  lemma DistinctIdsFromPositions(lines: seq<Rung>, n: int)
    requires WellFormed(lines, n) && IdsByPosition(lines)
    ensures DistinctIds(lines)
  {
    forall i, j | 0 <= i < j < |lines| ensures lines[i].id != lines[j].id {
      if lines[i].id == lines[j].id {
        assert Named(lines[i]) && Named(lines[j]);
        RungIdInjective(lines[i].fromX, lines[i].y, IsForcedId(lines[i].id),
                        lines[j].fromX, lines[j].y, IsForcedId(lines[j].id));
        assert Touches(lines[j], lines[i].fromX);
      }
    }
  }

  /** Joining rows generated so far with the next row keeps the ladder well formed. */
  lemma AppendWellFormed(a: seq<Rung>, b: seq<Rung>, y: int, count: int)
    requires RowsBelow(a, y) && InRow(b, y)
    requires WellFormed(a, count) && WellFormed(b, count)
    ensures WellFormed(a + b, count)
  {
    var c := a + b;
    forall i, j | 0 <= i < j < |c| && c[i].y == c[j].y
      ensures !Touches(c[j], c[i].fromX) && !Touches(c[j], c[i].toX)
    {
      if j < |a| {
        assert c[i] == a[i] && c[j] == a[j];
      } else if |a| <= i {
        assert c[i] == b[i - |a|] && c[j] == b[j - |a|];
      }
    }
  }

  /** Joining rows generated so far with the next row keeps forced rungs alone in their rows. */
  lemma AppendForced(a: seq<Rung>, b: seq<Rung>, y: int)
    requires RowsBelow(a, y) && InRow(b, y)
    requires ForcedAlone(a) && ForcedAlone(b)
    ensures ForcedAlone(a + b)
  {
    var c := a + b;
    forall i, j | 0 <= i < |c| && 0 <= j < |c| && i != j && IsForcedId(c[i].id)
      ensures c[j].y != c[i].y
    {
      if i < |a| && j < |a| {
        assert c[i] == a[i] && c[j] == a[j];
      }
    }
  }

  /** The rung's id is the one its position and kind give. */
  predicate Named(r: Rung) {
    0 <= r.fromX && 0 <= r.y && r.id == RungId(r.fromX, r.y, IsForcedId(r.id))
  }

  /** Every rung's id is determined by its position and kind. */
  predicate IdsByPosition(lines: seq<Rung>) {
    forall i :: 0 <= i < |lines| ==> Named(lines[i])
  }

  /** While row `y` is being scanned, `lines.some(l => l.y === y && l.fromX === x)` only sees that row. */
  lemma LeftLineInScan(done: seq<Rung>, s: seq<Rung>, y: int, x: int)
    requires RowsBelow(done, y)
    ensures StartsAt(done + s, y, x) <==> StartsAt(s, y, x)
  {
    var lines := done + s;
    if StartsAt(lines, y, x) {
      var i :| 0 <= i < |lines| && lines[i].y == y && lines[i].fromX == x;
      assert s[i - |done|] == lines[i];
    }
    if StartsAt(s, y, x) {
      var i :| 0 <= i < |s| && s[i].y == y && s[i].fromX == x;
      assert lines[|done| + i] == s[i];
    }
  }

  /** One iteration of the inner loop extends the row's scan by gap `x`. */
  lemma ScanStep(lines: seq<Rung>, done: seq<Rung>, coins: seq<bool>, y: nat, x: nat)
    requires x < |coins| && RowsBelow(done, y)
    requires lines == done + Scan(coins, y, x)
    ensures (if !StartsAt(lines, y, x - 1) && coins[x]
             then lines + [Rung(RungId(x, y, false), x, x + 1, y)] else lines)
            == done + Scan(coins, y, x + 1)
  {
    var s := Scan(coins, y, x);
    LeftLineInScan(done, s, y, x - 1);
    if !StartsAt(s, y, x - 1) && coins[x] {
      assert lines + [Rung(RungId(x, y, false), x, x + 1, y)] == done + (s + [Rung(RungId(x, y, false), x, x + 1, y)]);
    }
  }

  /** The inner loop of `generateLadderLines`: one pass over the gaps of row `y`. */
  method ScanRow(done: seq<Rung>, count: int, coins: seq<bool>, y: nat) returns (lines: seq<Rung>)
    requires |coins| >= Gaps(count) && RowsBelow(done, y)
    ensures lines == done + Scan(coins, y, Gaps(count))
  {
    lines := done;
    var x := 0;
    while x < count - 1
      invariant 0 <= x <= Gaps(count)
      invariant lines == done + Scan(coins, y, x)
    {
      ScanStep(lines, done, coins, y, x);
      var hasLeftLine := StartsAt(lines, y, x - 1);
      if !hasLeftLine && coins[x] {
        lines := lines + [Rung(RungId(x, y, false), x, x + 1, y)];
      }
      x := x + 1;
    }
  }

  /** All rows, in order. */
  function AllRows(count: int, ch: Choices): seq<seq<Rung>>
    requires Fits(ch, count)
  {
    seq(Rows, y requires 0 <= y < Rows => Row(count, ch, y))
  }

  /** The rows laid end to end, in order. */
  function Flatten(rs: seq<seq<Rung>>): seq<Rung> {
    if rs == [] then [] else Flatten(rs[..|rs| - 1]) + rs[|rs| - 1]
  }

  /** The `lines` array after the outer loop has generated rows `0 .. k-1`. */
  function Generated(count: int, ch: Choices, k: nat): seq<Rung>
    requires Fits(ch, count) && k <= Rows
  {
    Flatten(AllRows(count, ch)[..k])
  }

  /** Row `y` of a sequence of rows lies in row `y`. */
  predicate RowsInPlace(rs: seq<seq<Rung>>) {
    forall y :: 0 <= y < |rs| ==> InRow(rs[y], y)
  }

  /** Dropping the last row keeps the others in place. */
  lemma DropLastInPlace(rs: seq<seq<Rung>>)
    requires RowsInPlace(rs) && rs != []
    ensures RowsInPlace(rs[..|rs| - 1])
  {
    var p := rs[..|rs| - 1];
    assert forall y :: 0 <= y < |p| ==> p[y] == rs[y];
  }

  /** Rows in place, laid end to end, occupy rows `0 .. |rs|-1`. */
  lemma {:induction false} FlattenRowsBelow(rs: seq<seq<Rung>>)
    requires RowsInPlace(rs)
    ensures RowsBelow(Flatten(rs), |rs|)
  {
    if rs != [] {
      var p, b := rs[..|rs| - 1], rs[|rs| - 1];
      DropLastInPlace(rs);
      FlattenRowsBelow(p);
      var c := Flatten(p) + b;
      forall i | 0 <= i < |c| ensures 0 <= c[i].y < |rs| {
        if i < |Flatten(p)| {
          assert c[i] == Flatten(p)[i];
        } else {
          assert c[i] == b[i - |Flatten(p)|];
        }
      }
    }
  }

  /** Laying well-formed rows in place end to end gives a well-formed ladder. */
  lemma {:induction false} FlattenWellFormed(rs: seq<seq<Rung>>, n: int)
    requires RowsInPlace(rs)
    requires forall y :: 0 <= y < |rs| ==> WellFormed(rs[y], n)
    ensures WellFormed(Flatten(rs), n)
  {
    if rs != [] {
      var p := rs[..|rs| - 1];
      DropLastInPlace(rs);
      assert forall y :: 0 <= y < |p| ==> p[y] == rs[y];
      FlattenWellFormed(p, n);
      FlattenRowsBelow(p);
      AppendWellFormed(Flatten(p), rs[|rs| - 1], |rs| - 1, n);
    }
  }

  /** Laying rows in place end to end keeps each forced rung alone in its row. */
  lemma {:induction false} FlattenForcedAlone(rs: seq<seq<Rung>>)
    requires RowsInPlace(rs)
    requires forall y :: 0 <= y < |rs| ==> ForcedAlone(rs[y])
    ensures ForcedAlone(Flatten(rs))
  {
    if rs != [] {
      var p := rs[..|rs| - 1];
      DropLastInPlace(rs);
      assert forall y :: 0 <= y < |p| ==> p[y] == rs[y];
      FlattenForcedAlone(p);
      FlattenRowsBelow(p);
      AppendForced(Flatten(p), rs[|rs| - 1], |rs| - 1);
    }
  }

  /** Laying rows end to end keeps every id naming its rung's position. */
  lemma {:induction false} FlattenIdsByPosition(rs: seq<seq<Rung>>)
    requires forall y :: 0 <= y < |rs| ==> IdsByPosition(rs[y])
    ensures IdsByPosition(Flatten(rs))
  {
    if rs != [] {
      var p := rs[..|rs| - 1];
      assert forall y :: 0 <= y < |p| ==> p[y] == rs[y];
      FlattenIdsByPosition(p);
      AppendIdsByPosition(Flatten(p), rs[|rs| - 1]);
    }
  }

  /** Laying non-empty rows in place end to end leaves no row `0 .. |rs|-1` empty. */
  lemma {:induction false} FlattenRowsNonEmpty(rs: seq<seq<Rung>>)
    requires RowsInPlace(rs)
    requires forall y :: 0 <= y < |rs| ==> |rs[y]| > 0
    ensures forall y :: 0 <= y < |rs| ==> HasRow(Flatten(rs), y)
  {
    if rs != [] {
      var p, b := rs[..|rs| - 1], rs[|rs| - 1];
      DropLastInPlace(rs);
      assert forall y :: 0 <= y < |p| ==> p[y] == rs[y];
      FlattenRowsNonEmpty(p);
      var a := Flatten(p);
      var c := a + b;
      forall y | 0 <= y < |rs| ensures HasRow(c, y) {
        if y < |p| {
          assert HasRow(a, y);
          var i :| 0 <= i < |a| && a[i].y == y;
          assert c[i].y == y;
        } else {
          assert c[|a|] == b[0];
        }
      }
    }
  }

  /** The generated rows are in place, and the first `k` of them occupy rows `0 .. k-1`. */
  lemma GeneratedRows(count: int, ch: Choices, k: nat)
    requires Fits(ch, count) && k <= Rows
    ensures RowsInPlace(AllRows(count, ch))
    ensures RowsBelow(Generated(count, ch, k), k)
  {
    var rs := AllRows(count, ch);
    forall y | 0 <= y < Rows ensures InRow(rs[y], y) {
      RowInRow(count, ch, y);
    }
    var p := rs[..k];
    assert forall y :: 0 <= y < k ==> p[y] == rs[y];
    FlattenRowsBelow(p);
  }

  /**
   * The complete generated ladder: well formed, a forced rung alone in its
   * row, distinct ids, and for two or more verticals no empty row.
   */
  lemma GeneratedLadder(count: int, ch: Choices)
    requires Fits(ch, count)
    ensures WellFormed(Generated(count, ch, Rows), count)
    ensures ForcedAlone(Generated(count, ch, Rows)) && DistinctIds(Generated(count, ch, Rows))
    ensures count > 1 ==> RowsNonEmpty(Generated(count, ch, Rows))
  {
    var rs := AllRows(count, ch);
    assert rs[..Rows] == rs;
    GeneratedRows(count, ch, Rows);
    forall y | 0 <= y < Rows
      ensures WellFormed(rs[y], count) && ForcedAlone(rs[y]) && IdsByPosition(rs[y])
      ensures count > 1 ==> |rs[y]| > 0
    {
      RowWellFormed(count, ch, y);
      RowForcedAlone(count, ch, y);
      RowIdsByPosition(count, ch, y);
    }
    FlattenWellFormed(rs, count);
    FlattenForcedAlone(rs);
    FlattenIdsByPosition(rs);
    DistinctIdsFromPositions(Flatten(rs), count);
    if count > 1 {
      FlattenRowsNonEmpty(rs);
    }
  }

  /** The check after the inner loop turns the finished scan into row `y`. */
  lemma RowStep(lines: seq<Rung>, count: int, ch: Choices, y: nat)
    requires Fits(ch, count) && y < Rows
    requires lines == Generated(count, ch, y) + Scan(ch.coin[y], y, Gaps(count))
    ensures (if !HasRow(lines, y) && count > 1
             then lines + [Rung(RungId(ch.forced[y], y, true), ch.forced[y], ch.forced[y] + 1, y)] else lines)
            == Generated(count, ch, y + 1)
  {
    var done, s := Generated(count, ch, y), Scan(ch.coin[y], y, Gaps(count));
    var rs := AllRows(count, ch);
    assert rs[..y + 1][..y] == rs[..y];
    assert Generated(count, ch, y + 1) == done + Row(count, ch, y);
    ScanCellsHold(ch.coin[y], y, Gaps(count));
    GeneratedRows(count, ch, y);
    if |s| > 0 {
      assert lines[|done|] == s[0];
    } else {
      assert lines == done;
    }
  }

  /**
   * The nested loops of `generateLadder` / `generateLadderLines(count)`. The
   * result is the row-by-row specification `Generated`, and so has rungs in
   * bounds, no two rungs of a row meeting at a vertical, a forced rung only in
   * an otherwise empty row, distinct ids, and (for `count > 1`) no empty row.
   */
  method GenerateLadderLines(count: int, ch: Choices) returns (lines: seq<Rung>)
    requires Fits(ch, count)
    ensures lines == Generated(count, ch, Rows)
    ensures WellFormed(lines, count) && ForcedAlone(lines) && DistinctIds(lines)
    ensures count > 1 ==> RowsNonEmpty(lines)
  {
    lines := [];
    var y := 0;
    while y < Rows
      invariant 0 <= y <= Rows
      invariant lines == Generated(count, ch, y)
    {
      GeneratedRows(count, ch, y);
      lines := ScanRow(lines, count, ch.coin[y], y);
      RowStep(lines, count, ch, y);
      var rowEmpty := !HasRow(lines, y);
      if rowEmpty && count > 1 {
        var randomX := ch.forced[y];
        lines := lines + [Rung(RungId(randomX, y, true), randomX, randomX + 1, y)];
      }
      y := y + 1;
    }
    GeneratedLadder(count, ch);
  }
}
