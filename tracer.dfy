/**
 * `getPathForPlayer`: walking down the ladder from a start column, crossing
 * every rung met on the way. Its results feed the bottom winner lookup and the
 * result table. The central fact is the ghost-leg property: when the rungs of
 * a row never share a vertical, tracing is a permutation of the columns.
 */
module Tracer {
  import opened Common
  import opened Ladder

  /** A path point `[x, y]`; `y == -1` is the top label, `y == Rows` the bottom one. */
  type Point = (int, int)

  /** The rung lies in row `y` and touches vertical `x`. */
  predicate Hits(l: Rung, y: int, x: int) {
    l.y == y && Touches(l, x)
  }

  /** `lines.find(l => l.y === y && (l.fromX === x || l.toX === x))`. */
  function FindTouching(lines: seq<Rung>, y: int, x: int): (r: Option<Rung>)
    ensures r.Some? ==> r.value in lines && Hits(r.value, y, x)
    ensures r.None? <==> forall i :: 0 <= i < |lines| ==> !Hits(lines[i], y, x)
  {
    if |lines| == 0 then None
    else if Hits(lines[0], y, x) then Some(lines[0])
    else FindTouching(lines[1..], y, x)
  }

  // ----- The stable sort by row -----

  /** Stable insertion: `r` goes in front of the first rung whose row is not above its own. */
  function InsertByRow(r: Rung, s: seq<Rung>): seq<Rung> {
    if |s| == 0 || r.y <= s[0].y then [r] + s else [s[0]] + InsertByRow(r, s[1..])
  }

  /** `[...lines].sort((a, b) => a.y - b.y)`; `Array.prototype.sort` is stable. */
  function SortByRow(lines: seq<Rung>): seq<Rung> {
    if |lines| == 0 then [] else InsertByRow(lines[0], SortByRow(lines[1..]))
  }

  /** Rows never decrease along the sequence. */
  predicate SortedByRow(s: seq<Rung>) {
    forall i, j :: 0 <= i < j < |s| ==> s[i].y <= s[j].y
  }

  /** The rungs of row `y`, in their order in `s` (`s.filter(l => l.y === y)`). */
  function RowOf(s: seq<Rung>, y: int): seq<Rung> {
    if |s| == 0 then [] else (if s[0].y == y then [s[0]] else []) + RowOf(s[1..], y)
  }

  /** Insertion adds exactly the one rung. */
  lemma {:induction false} InsertPerm(r: Rung, s: seq<Rung>)
    ensures multiset(InsertByRow(r, s)) == multiset(s) + multiset{r}
  {
    if |s| > 0 && r.y > s[0].y {
      InsertPerm(r, s[1..]);
      assert s == [s[0]] + s[1..];
    }
  }

  /** Insertion into a sequence sorted by row keeps it sorted. */
  lemma {:induction false} InsertSorted(r: Rung, s: seq<Rung>)
    requires SortedByRow(s)
    ensures SortedByRow(InsertByRow(r, s))
  {
    if |s| == 0 || r.y <= s[0].y {
      var c := [r] + s;
      forall i, j | 0 <= i < j < |c| ensures c[i].y <= c[j].y {
        if i == 0 {
          assert c[j] == s[j - 1];
          assert s[0].y <= s[j - 1].y || j == 1;
        } else {
          assert c[i] == s[i - 1] && c[j] == s[j - 1];
        }
      }
    } else {
      var rest := s[1..];
      assert SortedByRow(rest) by {
        forall i, j | 0 <= i < j < |rest| ensures rest[i].y <= rest[j].y {
          assert rest[i] == s[i + 1] && rest[j] == s[j + 1];
        }
      }
      InsertSorted(r, rest);
      InsertPerm(r, rest);
      var t := InsertByRow(r, rest);
      var c := [s[0]] + t;
      forall k | 0 <= k < |t| ensures s[0].y <= t[k].y {
        assert t[k] in multiset(rest) + multiset{r};
        if t[k] != r {
          var m :| 0 <= m < |rest| && rest[m] == t[k];
          assert rest[m] == s[m + 1];
        }
      }
      forall i, j | 0 <= i < j < |c| ensures c[i].y <= c[j].y {
        if i == 0 {
          assert c[j] == t[j - 1];
        } else {
          assert c[i] == t[i - 1] && c[j] == t[j - 1];
        }
      }
    }
  }

  /** Inserting a rung adds it to its own row only, in front of that row's rungs. */
  lemma {:induction false} InsertRowOf(r: Rung, s: seq<Rung>, y: int)
    ensures RowOf(InsertByRow(r, s), y) == (if r.y == y then [r] else []) + RowOf(s, y)
  {
    var mine := if r.y == y then [r] else [];
    if |s| == 0 || r.y <= s[0].y {
      assert ([r] + s)[0] == r && ([r] + s)[1..] == s;
    } else {
      var t := InsertByRow(r, s[1..]);
      InsertRowOf(r, s[1..], y);
      var head := if s[0].y == y then [s[0]] else [];
      assert ([s[0]] + t)[0] == s[0] && ([s[0]] + t)[1..] == t;
      assert RowOf(InsertByRow(r, s), y) == head + RowOf(t, y);
      assert RowOf(s, y) == head + RowOf(s[1..], y);
      if r.y == y {
        assert head == [];
        assert RowOf(InsertByRow(r, s), y) == [r] + RowOf(s[1..], y);
      } else {
        assert mine == [];
        assert RowOf(InsertByRow(r, s), y) == head + RowOf(s[1..], y);
      }
    }
  }

  /** The sort orders the rungs by row, keeps them all, and keeps each row's order (stability). */
  lemma {:induction false} SortByRowCorrect(lines: seq<Rung>, y: int)
    ensures SortedByRow(SortByRow(lines))
    ensures multiset(SortByRow(lines)) == multiset(lines)
    ensures RowOf(SortByRow(lines), y) == RowOf(lines, y)
  {
    if |lines| > 0 {
      SortByRowCorrect(lines[1..], y);
      InsertSorted(lines[0], SortByRow(lines[1..]));
      InsertPerm(lines[0], SortByRow(lines[1..]));
      InsertRowOf(lines[0], SortByRow(lines[1..]), y);
      assert lines == [lines[0]] + lines[1..];
    }
  }

  /** Looking for a rung of row `y` only ever looks at the rungs of row `y`. */
  lemma {:induction false} FindInRow(s: seq<Rung>, y: int, x: int)
    ensures FindTouching(s, y, x) == FindTouching(RowOf(s, y), y, x)
  {
    if |s| > 0 {
      FindInRow(s[1..], y, x);
      var rest := RowOf(s[1..], y);
      if s[0].y == y {
        assert ([s[0]] + rest)[0] == s[0] && ([s[0]] + rest)[1..] == rest;
      } else {
        assert RowOf(s, y) == rest;
      }
    }
  }

  /** Sorting the rungs by row does not change which rung `find` returns. */
  lemma SortedFind(lines: seq<Rung>, y: int, x: int)
    ensures FindTouching(SortByRow(lines), y, x) == FindTouching(lines, y, x)
  {
    FindInRow(SortByRow(lines), y, x);
    FindInRow(lines, y, x);
    SortByRowCorrect(lines, y);
  }

  // ----- Tracing -----

  /** The column after row `y`, entered at column `x`: across the rung found, if any. */
  function Step(lines: seq<Rung>, y: int, x: int): int {
    match FindTouching(lines, y, x)
    case None => x
    case Some(l) => if l.fromX == x then l.toX else l.fromX
  }

  /** The column reached after rows `0 .. k-1`, starting at column `x`. */
  function Trace(lines: seq<Rung>, x: int, k: nat): int {
    if k == 0 then x else Step(lines, k - 1, Trace(lines, x, k - 1))
  }

  /** The column reached from the bottom of row `k-1` by climbing back to the top. */
  function TraceUp(lines: seq<Rung>, x: int, k: nat): int
    decreases k
  {
    if k == 0 then x else TraceUp(lines, Step(lines, k - 1, x), k - 1)
  }

  /** `getPathForPlayer(s).endIndex`. */
  function EndIndex(lines: seq<Rung>, s: int): int {
    Trace(lines, s, Rows)
  }

  /** Two rungs of one row that touch the same vertical are one and the same rung. */
  lemma OneRungPerVertical(lines: seq<Rung>, y: int, x: int, i: int, j: int)
    requires NoSharedVertical(lines)
    requires 0 <= i < |lines| && 0 <= j < |lines|
    requires Hits(lines[i], y, x) && Hits(lines[j], y, x)
    ensures i == j
  {
  }

  /** Any rung of row `y` at vertical `x` is the one `find` returns. */
  lemma FindUnique(lines: seq<Rung>, y: int, x: int, i: int)
    requires NoSharedVertical(lines)
    requires 0 <= i < |lines| && Hits(lines[i], y, x)
    ensures FindTouching(lines, y, x) == Some(lines[i])
  {
    var r := FindTouching(lines, y, x);
    var j :| 0 <= j < |lines| && lines[j] == r.value;
    OneRungPerVertical(lines, y, x, i, j);
  }

  /** Crossing a row twice comes back to the same column. */
  lemma StepInvolutive(lines: seq<Rung>, y: int, x: int)
    requires NoSharedVertical(lines)
    ensures Step(lines, y, Step(lines, y, x)) == x
  {
    match FindTouching(lines, y, x)
    case None =>
    case Some(l) =>
      var j :| 0 <= j < |lines| && lines[j] == l;
      FindUnique(lines, y, Step(lines, y, x), j);
  }

  /** Climbing back up undoes walking down. */
  lemma {:induction false} TraceUpTrace(lines: seq<Rung>, x: int, k: nat)
    requires NoSharedVertical(lines)
    ensures TraceUp(lines, Trace(lines, x, k), k) == x
  {
    if k > 0 {
      StepInvolutive(lines, k - 1, Trace(lines, x, k - 1));
      TraceUpTrace(lines, x, k - 1);
    }
  }

  /** Walking down undoes climbing back up. */
  lemma {:induction false} TraceTraceUp(lines: seq<Rung>, x: int, k: nat)
    requires NoSharedVertical(lines)
    decreases k
    ensures Trace(lines, TraceUp(lines, x, k), k) == x
  {
    if k > 0 {
      TraceTraceUp(lines, Step(lines, k - 1, x), k - 1);
      StepInvolutive(lines, k - 1, x);
    }
  }

  /** Different start columns end in different columns. */
  lemma TraceInjective(lines: seq<Rung>, a: int, b: int, k: nat)
    requires NoSharedVertical(lines)
    requires Trace(lines, a, k) == Trace(lines, b, k)
    ensures a == b
  {
    TraceUpTrace(lines, a, k);
    TraceUpTrace(lines, b, k);
  }

  /** On a ladder of `n` verticals a crossing never leaves the ladder. */
  lemma StepInRange(lines: seq<Rung>, n: int, y: int, x: int)
    requires UnitRungs(lines) && InBounds(lines, n) && 0 <= x < n
    ensures 0 <= Step(lines, y, x) < n
  {
    match FindTouching(lines, y, x)
    case None =>
    case Some(l) =>
      var j :| 0 <= j < |lines| && lines[j] == l;
  }

  lemma {:induction false} TraceInRange(lines: seq<Rung>, n: int, x: int, k: nat)
    requires UnitRungs(lines) && InBounds(lines, n) && 0 <= x < n
    ensures 0 <= Trace(lines, x, k) < n
  {
    if k > 0 {
      TraceInRange(lines, n, x, k - 1);
      StepInRange(lines, n, k - 1, Trace(lines, x, k - 1));
    }
  }

  lemma {:induction false} TraceUpInRange(lines: seq<Rung>, n: int, x: int, k: nat)
    requires UnitRungs(lines) && InBounds(lines, n) && 0 <= x < n
    decreases k
    ensures 0 <= TraceUp(lines, x, k) < n
  {
    if k > 0 {
      StepInRange(lines, n, k - 1, x);
      TraceUpInRange(lines, n, Step(lines, k - 1, x), k - 1);
    }
  }

  /** Some start column in `0 .. n-1` ends in column `e`. */
  predicate Reached(lines: seq<Rung>, n: int, e: int) {
    exists s :: 0 <= s < n && EndIndex(lines, s) == e
  }

  /**
   * The ghost-leg property: on a well-formed ladder of `n` verticals the end
   * column of every start column lies in `0 .. n-1`, no two start columns
   * share an end column, and every end column is reached.
   */
  lemma GhostLegPermutation(lines: seq<Rung>, n: int)
    requires WellFormed(lines, n)
    ensures forall s :: 0 <= s < n ==> 0 <= EndIndex(lines, s) < n
    ensures forall a, b :: 0 <= a < n && 0 <= b < n && EndIndex(lines, a) == EndIndex(lines, b) ==> a == b
    ensures forall e :: 0 <= e < n ==> Reached(lines, n, e)
  {
    forall s | 0 <= s < n ensures 0 <= EndIndex(lines, s) < n {
      TraceInRange(lines, n, s, Rows);
    }
    forall a, b | 0 <= a < n && 0 <= b < n && EndIndex(lines, a) == EndIndex(lines, b) ensures a == b {
      TraceInjective(lines, a, b, Rows);
    }
    forall e | 0 <= e < n ensures Reached(lines, n, e) {
      var s := TraceUp(lines, e, Rows);
      TraceUpInRange(lines, n, e, Rows);
      TraceTraceUp(lines, e, Rows);
      assert EndIndex(lines, s) == e;
    }
  }

  // ----- The path -----

  /** One row down in the same column. */
  predicate Down(a: Point, b: Point) {
    b.0 == a.0 && b.1 == a.1 + 1
  }

  /** Across a rung: same row, neighbouring column. */
  predicate Across(a: Point, b: Point) {
    b.1 == a.1 && (b.0 == a.0 + 1 || b.0 == a.0 - 1)
  }

  /** Every step of the polyline goes one row down or one column across. */
  predicate Moves(path: seq<Point>) {
    forall i :: 0 <= i < |path| - 1 ==> Down(path[i], path[i + 1]) || Across(path[i], path[i + 1])
  }

  lemma MovesAppend(path: seq<Point>, p: Point)
    requires |path| > 0 && Moves(path)
    requires Down(path[|path| - 1], p) || Across(path[|path| - 1], p)
    ensures Moves(path + [p])
  {
    var q := path + [p];
    forall i | 0 <= i < |q| - 1 ensures Down(q[i], q[i + 1]) || Across(q[i], q[i + 1]) {
      if i < |path| - 1 {
        assert q[i] == path[i] && q[i + 1] == path[i + 1];
      }
    }
  }

  /** With unit rungs, a crossing moves the column by exactly one. */
  lemma StepMoves(lines: seq<Rung>, y: int, x: int)
    requires UnitRungs(lines)
    ensures FindTouching(lines, y, x).Some? ==> Across((x, y), (Step(lines, y, x), y))
  {
    match FindTouching(lines, y, x)
    case None =>
    case Some(l) =>
      var j :| 0 <= j < |lines| && lines[j] == l;
  }

  /**
   * `getPathForPlayer(startIndex)`: the polyline from the top label to the
   * bottom label, and the end column. The end column is the trace of the
   * unsorted rungs (sorting does not matter), and with unit rungs the path
   * moves only down or across to a neighbouring column.
   */
  method PathForPlayer(ladderLines: seq<Rung>, startIndex: int) returns (path: seq<Point>, endIndex: int)
    ensures endIndex == EndIndex(ladderLines, startIndex)
    ensures |path| >= 2 && path[0] == (startIndex, -1) && path[|path| - 1] == (endIndex, Rows)
    ensures UnitRungs(ladderLines) ==> Moves(path)
  {
    var currentX := startIndex;
    path := [(currentX, -1)];
    var sortedLines := SortByRow(ladderLines);
    var y := 0;
    while y < Rows
      invariant 0 <= y <= Rows
      invariant currentX == Trace(ladderLines, startIndex, y)
      invariant |path| >= 1 && path[0] == (startIndex, -1) && path[|path| - 1] == (currentX, y - 1)
      invariant UnitRungs(ladderLines) ==> Moves(path)
    {
      SortedFind(ladderLines, y, currentX);
      var horizontalLine := FindTouching(sortedLines, y, currentX);
      if UnitRungs(ladderLines) {
        StepMoves(ladderLines, y, currentX);
        MovesAppend(path, (currentX, y));
      }
      if horizontalLine.Some? {
        var l := horizontalLine.value;
        var nextX := if l.fromX == currentX then l.toX else l.fromX;
        if UnitRungs(ladderLines) {
          MovesAppend(path + [(currentX, y)], (nextX, y));
        }
        path := path + [(currentX, y), (nextX, y)];
        currentX := nextX;
      } else {
        path := path + [(currentX, y)];
      }
      y := y + 1;
    }
    if UnitRungs(ladderLines) {
      MovesAppend(path, (currentX, Rows));
    }
    path := path + [(currentX, Rows)];
    endIndex := currentX;
  }

  // ----- Consumers of the end column -----

  /**
   * `Array.from(revealed).find(s => getPathForPlayer(s).endIndex === i)`: the
   * first revealed player, in the set's iteration order, whose path ends at `i`.
   */
  function WinnerAt(lines: seq<Rung>, order: seq<int>, i: int): (r: Option<int>)
    ensures r.Some? ==> r.value in order && EndIndex(lines, r.value) == i
    ensures r.None? <==> forall k :: 0 <= k < |order| ==> EndIndex(lines, order[k]) != i
  {
    if order == [] then None
    else if EndIndex(lines, order[0]) == i then Some(order[0])
    else WinnerAt(lines, order[1..], i)
  }

  /**
   * When no two rungs of a row share a vertical, the lookup names exactly the
   * revealed player whose path ends at `i`, whatever the iteration order.
   */
  lemma WinnerIsUnique(lines: seq<Rung>, order: seq<int>, i: int, s: int)
    requires NoSharedVertical(lines)
    ensures WinnerAt(lines, order, i) == Some(s) <==> s in order && EndIndex(lines, s) == i
  {
    if s in order && EndIndex(lines, s) == i {
      var k :| 0 <= k < |order| && order[k] == s;
      var w := WinnerAt(lines, order, i);
      TraceInjective(lines, w.value, s, Rows);
    }
  }

  /** `bottomInputs[endIndex]`, which is `undefined` when the index is out of range. */
  function ResultLabel(bottom: seq<string>, e: int): (r: Option<string>)
    ensures r.Some? <==> 0 <= e < |bottom|
    ensures r.Some? ==> r.value == bottom[e]
  {
    if 0 <= e < |bottom| then Some(bottom[e]) else None
  }

  /** The result table: for each top label `i`, the bottom label at the end of its path. */
  function ResultTable(lines: seq<Rung>, top: seq<string>, bottom: seq<string>): (t: seq<Option<string>>)
    ensures |t| == |top|
  {
    seq(|top|, i requires 0 <= i < |top| => ResultLabel(bottom, EndIndex(lines, i)))
  }

  /**
   * On a well-formed ladder with one top and one bottom label per vertical,
   * every player gets a defined result, two players never get the same result
   * slot, and every result slot goes to some player.
   */
  lemma ResultTableIsAssignment(lines: seq<Rung>, top: seq<string>, bottom: seq<string>)
    requires WellFormed(lines, |top|) && |bottom| == |top|
    ensures forall i :: 0 <= i < |top| ==> 0 <= EndIndex(lines, i) < |bottom|
    ensures forall i :: 0 <= i < |top| ==>
      ResultTable(lines, top, bottom)[i] == Some(bottom[EndIndex(lines, i)])
    ensures forall a, b :: 0 <= a < |top| && 0 <= b < |top| && a != b ==>
      EndIndex(lines, a) != EndIndex(lines, b)
    ensures forall e :: 0 <= e < |bottom| ==> Reached(lines, |top|, e)
  {
    GhostLegPermutation(lines, |top|);
  }
}
