/**
 * The local ladder game page (`LocalLadderPage`): its state fields and the
 * handlers that change them. The 1500 ms reveal timer is the separate step
 * `FinishReveal`, taken at some later point chosen by the caller; the random
 * draws of `generateLadder` are the `Choices` argument.
 */
module LocalGame {
  import opened Common
  import opened Text
  import opened Ladder
  import opened Generator
  import opened Tracer

  /** `GamePhase`: `"config" | "input" | "play"`. */
  datatype Phase = Config | Input | Play

  /** `Array.from({ length: n }, (_, i) => i)` as a set. */
  function Indices(n: int): (r: set<int>)
    ensures forall i :: i in r <==> 0 <= i < n
  {
    if n <= 0 then {} else Indices(n - 1) + {n - 1}
  }

  /**
   * On a generated ladder the end columns form a permutation of the players:
   * every winner lookup and every result-table row is well defined and names
   * exactly one player.
   */
  lemma GeneratedIsPermutation(count: int, ch: Choices)
    requires Fits(ch, count)
    ensures forall s :: 0 <= s < count ==> 0 <= EndIndex(Generated(count, ch, Rows), s) < count
    ensures forall a, b :: 0 <= a < count && 0 <= b < count && a != b ==>
      EndIndex(Generated(count, ch, Rows), a) != EndIndex(Generated(count, ch, Rows), b)
    ensures forall e :: 0 <= e < count ==> Reached(Generated(count, ch, Rows), count, e)
  {
    GeneratedLadder(count, ch);
    GhostLegPermutation(Generated(count, ch, Rows), count);
  }

  class Game {
    var phase: Phase
    var playerCount: int
    var topInputs: seq<string>
    var bottomInputs: seq<string>
    var ladderLines: seq<Rung>
    var activePaths: set<int>
    var revealedResults: set<int>
    var isAnimating: bool
    /** `animatingPathRef.current`; the pending 1500 ms timer belongs to this index. */
    var animatingPath: Option<int>

    /**
     * What the handlers keep whatever the order of events: the count in range,
     * one label per player, a pending timer exactly while animating, and in the
     * play phase a ladder generated for the current count.
     */
    predicate Valid()
      reads this
    {
      && MinPlayers <= playerCount <= MaxPlayers
      && |topInputs| == playerCount && |bottomInputs| == playerCount
      && (isAnimating <==> animatingPath.Some?)
      && (phase == Play ==> WellFormed(ladderLines, playerCount) && RowsNonEmpty(ladderLines))
    }

    /**
     * The reveal state the page means to keep: only drawn paths are revealed,
     * only existing players are drawn, an animation runs only in the play
     * phase on a drawn path, and outside the play phase nothing is drawn.
     */
    predicate Consistent()
      reads this
    {
      && revealedResults <= activePaths <= Indices(playerCount)
      && (animatingPath.Some? ==> phase == Play && animatingPath.value in activePaths)
      && (phase != Play ==> activePaths == {} && revealedResults == {})
    }

    /** The state after mounting: two players and the label lists the init effect writes. */
    constructor ()
      ensures Valid() && Consistent()
      ensures phase == Config && playerCount == 2
      ensures topInputs == DefaultLabels("Player ", 2) && bottomInputs == DefaultLabels("Result ", 2)
      ensures ladderLines == [] && activePaths == {} && revealedResults == {}
      ensures !isAnimating && animatingPath == None
    {
      phase := Config;
      playerCount := 2;
      topInputs := DefaultLabels("Player ", 2);
      bottomInputs := DefaultLabels("Result ", 2);
      ladderLines := [];
      activePaths := {};
      revealedResults := {};
      isAnimating := false;
      animatingPath := None;
    }

    /**
     * `handlePlayerCountChange(delta)` (reachable from the config screen),
     * followed by the init effect, which runs only when the count changed.
     */
    method ChangePlayerCount(delta: int)
      requires Valid() && phase == Config
      modifies this
      ensures Valid()
      ensures old(Consistent()) ==> Consistent()
      ensures playerCount == ClampCount(old(playerCount) + delta)
      ensures MinPlayers <= old(playerCount) + delta <= MaxPlayers ==> playerCount == old(playerCount) + delta
      ensures playerCount != old(playerCount) ==>
        topInputs == DefaultLabels("Player ", playerCount) && bottomInputs == DefaultLabels("Result ", playerCount)
      ensures playerCount == old(playerCount) ==>
        topInputs == old(topInputs) && bottomInputs == old(bottomInputs)
      ensures phase == old(phase) && ladderLines == old(ladderLines)
      ensures activePaths == old(activePaths) && revealedResults == old(revealedResults)
      ensures isAnimating == old(isAnimating) && animatingPath == old(animatingPath)
    {
      var next := ClampCount(playerCount + delta);
      if next != playerCount {
        playerCount := next;
        topInputs := DefaultLabels("Player ", next);
        bottomInputs := DefaultLabels("Result ", next);
      }
    }

    /** `startInputPhase` (the Next button of the config screen). */
    method StartInputPhase()
      requires Valid() && phase == Config
      modifies this
      ensures Valid() && (old(Consistent()) ==> Consistent())
      ensures phase == Input
      ensures playerCount == old(playerCount) && topInputs == old(topInputs) && bottomInputs == old(bottomInputs)
      ensures ladderLines == old(ladderLines)
      ensures activePaths == old(activePaths) && revealedResults == old(revealedResults)
      ensures isAnimating == old(isAnimating) && animatingPath == old(animatingPath)
    {
      phase := Input;
    }

    /** The "Change count" button of the input screen. */
    method BackToConfig()
      requires Valid() && phase == Input
      modifies this
      ensures Valid() && (old(Consistent()) ==> Consistent())
      ensures phase == Config
      ensures playerCount == old(playerCount) && topInputs == old(topInputs) && bottomInputs == old(bottomInputs)
      ensures ladderLines == old(ladderLines)
      ensures activePaths == old(activePaths) && revealedResults == old(revealedResults)
      ensures isAnimating == old(isAnimating) && animatingPath == old(animatingPath)
    {
      phase := Config;
    }

    /** Typing into name field `i`: only that entry changes. */
    method EditTopInput(i: int, value: string)
      requires Valid() && phase == Input && 0 <= i < |topInputs|
      modifies this
      ensures Valid() && (old(Consistent()) ==> Consistent())
      ensures |topInputs| == |old(topInputs)| && topInputs[i] == value
      ensures forall k :: 0 <= k < |topInputs| && k != i ==> topInputs[k] == old(topInputs)[k]
      ensures phase == old(phase) && playerCount == old(playerCount) && bottomInputs == old(bottomInputs)
      ensures ladderLines == old(ladderLines)
      ensures activePaths == old(activePaths) && revealedResults == old(revealedResults)
      ensures isAnimating == old(isAnimating) && animatingPath == old(animatingPath)
    {
      topInputs := topInputs[i := value];
    }

    /** Typing into result field `i`: only that entry changes. */
    method EditBottomInput(i: int, value: string)
      requires Valid() && phase == Input && 0 <= i < |bottomInputs|
      modifies this
      ensures Valid() && (old(Consistent()) ==> Consistent())
      ensures |bottomInputs| == |old(bottomInputs)| && bottomInputs[i] == value
      ensures forall k :: 0 <= k < |bottomInputs| && k != i ==> bottomInputs[k] == old(bottomInputs)[k]
      ensures phase == old(phase) && playerCount == old(playerCount) && topInputs == old(topInputs)
      ensures ladderLines == old(ladderLines)
      ensures activePaths == old(activePaths) && revealedResults == old(revealedResults)
      ensures isAnimating == old(isAnimating) && animatingPath == old(animatingPath)
    {
      bottomInputs := bottomInputs[i := value];
    }

    /** `generateLadder` (the Start Game button): a fresh ladder, the play phase, nothing drawn. */
    method GenerateLadder(ch: Choices)
      requires Valid() && phase == Input && Fits(ch, playerCount)
      modifies this
      ensures playerCount == old(playerCount) && topInputs == old(topInputs) && bottomInputs == old(bottomInputs)
      ensures Valid() && (old(Consistent()) ==> Consistent())
      ensures phase == Play && ladderLines == Generated(playerCount, ch, Rows)
      ensures activePaths == {} && revealedResults == {}
      ensures isAnimating == old(isAnimating) && animatingPath == old(animatingPath)
    {
      var lines := GenerateLadderLines(playerCount, ch);
      ladderLines := lines;
      phase := Play;
      activePaths := {};
      revealedResults := {};
    }

    /**
     * `handlePlayerClick(index)`: ignored while animating; on a drawn path it
     * hides the path and its result; otherwise it draws the path and starts
     * the reveal animation.
     */
    method PlayerClick(index: int)
      requires Valid() && phase == Play && 0 <= index < playerCount
      modifies this
      ensures Valid() && (old(Consistent()) ==> Consistent())
      ensures old(isAnimating) ==>
        activePaths == old(activePaths) && revealedResults == old(revealedResults)
        && isAnimating && animatingPath == old(animatingPath)
      ensures !old(isAnimating) && index in old(activePaths) ==>
        activePaths == old(activePaths) - {index} && revealedResults == old(revealedResults) - {index}
        && !isAnimating && animatingPath == None
      ensures !old(isAnimating) && index !in old(activePaths) ==>
        activePaths == old(activePaths) + {index} && revealedResults == old(revealedResults)
        && isAnimating && animatingPath == Some(index)
      ensures phase == old(phase) && playerCount == old(playerCount) && ladderLines == old(ladderLines)
      ensures topInputs == old(topInputs) && bottomInputs == old(bottomInputs)
    {
      if isAnimating {
        return;
      }
      if index in activePaths {
        activePaths := activePaths - {index};
        revealedResults := revealedResults - {index};
        return;
      }
      isAnimating := true;
      animatingPath := Some(index);
      activePaths := activePaths + {index};
    }

    /** The reveal timer firing: the animated index is revealed and the animation ends. */
    method FinishReveal()
      requires Valid() && isAnimating
      modifies this
      ensures Valid() && (old(Consistent()) ==> Consistent())
      ensures revealedResults == old(revealedResults) + {old(animatingPath).value}
      ensures !isAnimating && animatingPath == None
      ensures activePaths == old(activePaths)
      ensures phase == old(phase) && playerCount == old(playerCount) && ladderLines == old(ladderLines)
      ensures topInputs == old(topInputs) && bottomInputs == old(bottomInputs)
    {
      revealedResults := revealedResults + {animatingPath.value};
      isAnimating := false;
      animatingPath := None;
    }

    /** `revealAll` (the Show All button): every player drawn and revealed. */
    method RevealAll()
      requires Valid() && phase == Play
      modifies this
      ensures Valid() && (old(Consistent()) ==> Consistent())
      ensures activePaths == Indices(playerCount) && revealedResults == Indices(playerCount)
      ensures isAnimating == old(isAnimating) && animatingPath == old(animatingPath)
      ensures phase == old(phase) && playerCount == old(playerCount) && ladderLines == old(ladderLines)
      ensures topInputs == old(topInputs) && bottomInputs == old(bottomInputs)
    {
      activePaths := Indices(playerCount);
      revealedResults := Indices(playerCount);
    }

    /**
     * `resetGame` as written: back to the config phase with nothing drawn. A
     * pending reveal timer is not cancelled and `isAnimating` is left as it is.
     */
    method ResetGame()
      requires Valid() && phase == Play
      modifies this
      ensures Valid()
      ensures phase == Config && activePaths == {} && revealedResults == {}
      ensures isAnimating == old(isAnimating) && animatingPath == old(animatingPath)
      ensures playerCount == old(playerCount) && ladderLines == old(ladderLines)
      ensures topInputs == old(topInputs) && bottomInputs == old(bottomInputs)
    {
      phase := Config;
      activePaths := {};
      revealedResults := {};
    }

    /** `resetGame` that also cancels the pending reveal timer and ends the animation. */
    method ResetGameCancelling()
      requires Valid() && phase == Play
      modifies this
      ensures Valid() && Consistent()
      ensures phase == Config && activePaths == {} && revealedResults == {}
      ensures !isAnimating && animatingPath == None
      ensures playerCount == old(playerCount) && ladderLines == old(ladderLines)
      ensures topInputs == old(topInputs) && bottomInputs == old(bottomInputs)
    {
      phase := Config;
      activePaths := {};
      revealedResults := {};
      isAnimating := false;
      animatingPath := None;
    }

    /**
     * The winner lookup of bottom label `i`: `order` is the iteration order of
     * `revealedResults`. With one player per end column, the lookup names
     * exactly the revealed player whose path ends at `i`.
     */
    function WinnerOf(order: seq<int>, i: int): (r: Option<int>)
      reads this
      requires Valid() && phase == Play
      requires forall s :: s in order <==> s in revealedResults
      ensures forall s :: r == Some(s) <==> s in revealedResults && EndIndex(ladderLines, s) == i
    {
      WinnersUnique(ladderLines, order, i);
      WinnerAt(ladderLines, order, i)
    }

    /**
     * The result-table entry of player `i`: its result label once revealed,
     * `None` standing for the `???` shown before.
     */
    function ShownResult(i: int): (r: Option<string>)
      reads this
      requires Valid() && phase == Play && 0 <= i < playerCount
      ensures r.Some? <==> i in revealedResults
      ensures r.Some? ==> exists e :: 0 <= e < playerCount && EndIndex(ladderLines, i) == e && r.value == bottomInputs[e]
    {
      TraceInRange(ladderLines, playerCount, i, Rows);
      if i in revealedResults then ResultLabel(bottomInputs, EndIndex(ladderLines, i)) else None
    }
  }

  /** `WinnerIsUnique` for every candidate player at once. */
  lemma WinnersUnique(lines: seq<Rung>, order: seq<int>, i: int)
    requires NoSharedVertical(lines)
    ensures forall s :: WinnerAt(lines, order, i) == Some(s) <==> s in order && EndIndex(lines, s) == i
  {
    forall s ensures WinnerAt(lines, order, i) == Some(s) <==> s in order && EndIndex(lines, s) == i {
      WinnerIsUnique(lines, order, i, s);
    }
  }

  /**
   * After "Show All" every result label is shown, each to exactly one player.
   */
  lemma RevealAllShowsEveryResult(g: Game, e: int)
    requires g.Valid() && g.phase == Play && g.revealedResults == Indices(g.playerCount)
    requires 0 <= e < g.playerCount
    ensures exists i :: 0 <= i < g.playerCount && g.ShownResult(i) == Some(g.bottomInputs[e])
  {
    GhostLegPermutation(g.ladderLines, g.playerCount);
    assert Reached(g.ladderLines, g.playerCount, e);
    var i :| 0 <= i < g.playerCount && EndIndex(g.ladderLines, i) == e;
    assert g.ShownResult(i) == Some(g.bottomInputs[e]);
  }

  /**
   * A draw for two players: no random rung anywhere, so every row gets the
   * forced rung between verticals 0 and 1.
   */
  function TwoPlayerDraw(): (ch: Choices)
    ensures Fits(ch, 2)
  {
    Choices(seq(Rows, _ => [false]), seq(Rows, _ => 0))
  }

  /**
   * The event order click, reset, Next, Start Game, timer: when the player
   * is fast enough, the timer started before the reset fires on the new
   * ladder and reveals a player whose path is not drawn.
   */
  method StaleRevealScenario() returns (g: Game)
    ensures g.Valid() && g.phase == Play
    ensures 0 in g.revealedResults && 0 !in g.activePaths
    ensures !g.Consistent()
  {
    g := new Game();
    g.StartInputPhase();
    g.GenerateLadder(TwoPlayerDraw());
    g.PlayerClick(0);
    g.ResetGame();
    g.StartInputPhase();
    g.GenerateLadder(TwoPlayerDraw());
    g.FinishReveal();
  }

  /**
   * The same events with the cancelling reset: the timer is gone, and the
   * reveal state stays consistent.
   */
  method CancellingResetScenario() returns (g: Game)
    ensures g.Valid() && g.Consistent() && g.phase == Play
    ensures g.activePaths == {} && g.revealedResults == {} && !g.isAnimating
  {
    g := new Game();
    g.StartInputPhase();
    g.GenerateLadder(TwoPlayerDraw());
    g.PlayerClick(0);
    g.ResetGameCancelling();
    g.StartInputPhase();
    g.GenerateLadder(TwoPlayerDraw());
  }
}
