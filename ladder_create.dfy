/**
 * The shared-ladder creation page (`CreateLadderPage`): the form state, the
 * player-count stepper that resizes the result labels with it, the
 * validation guard of `handleCreate` and of the submit button, and the
 * request `handleCreate` sends. The ladder itself comes from the same
 * generator as the local game (`Generator.GenerateLadderLines`).
 */
module LadderCreate {
  import opened Common
  import opened Text
  import opened Ladder
  import opened Generator

  /** The label a freshly added result field `k` (0-based) receives: `Result ${k + 1}`. */
  function NewLabel(k: nat): string {
    "Result " + NatToString(k + 1)
  }

  /**
   * The new `bottomLabels` of `handlePlayerCountChange`: grown by default
   * labels numbered after the old ones, or cut to the new count.
   */
  function ResizeLabels(labels: seq<string>, newCount: nat): (r: seq<string>)
    ensures |r| == newCount
    ensures forall k :: 0 <= k < newCount ==> r[k] == if k < |labels| then labels[k] else NewLabel(k)
  {
    if newCount > |labels| then
      labels + seq(newCount - |labels|, i requires 0 <= i < newCount - |labels| => NewLabel(|labels| + i))
    else
      labels[..newCount]
  }

  /** Growing keeps the old labels in front and numbers the new ones `Result |labels|+1 ..`. */
  lemma ResizeGrows(labels: seq<string>, newCount: nat)
    requires newCount >= |labels|
    ensures ResizeLabels(labels, newCount)[..|labels|] == labels
    ensures forall k :: |labels| <= k < newCount ==> ResizeLabels(labels, newCount)[k] == "Result " + NatToString(k + 1)
  {
  }

  /** Shrinking keeps exactly the first `newCount` labels. */
  lemma ResizeShrinks(labels: seq<string>, newCount: nat)
    requires newCount <= |labels|
    ensures ResizeLabels(labels, newCount) == labels[..newCount]
  {
  }

  /** Growing and then shrinking back to the old count restores the old labels. */
  lemma ResizeBackRestores(labels: seq<string>, newCount: nat)
    requires newCount >= |labels|
    ensures ResizeLabels(ResizeLabels(labels, newCount), |labels|) == labels
  {
    var grown := ResizeLabels(labels, newCount);
    assert grown[..|labels|] == labels;
  }

  /** On untouched default labels, resizing gives the default labels for the new count. */
  lemma ResizeDefaults(m: nat, newCount: nat)
    ensures ResizeLabels(DefaultLabels("Result ", m), newCount) == DefaultLabels("Result ", newCount)
  {
  }

  /** A default label is never blank: it starts with `R`. */
  lemma NewLabelFilled(k: nat)
    ensures !IsBlank(NewLabel(k))
  {
    assert NewLabel(k)[0] == 'R';
  }

  /** Resizing never introduces a blank label, so it cannot by itself block creation. */
  lemma ResizeKeepsFilled(labels: seq<string>, newCount: nat)
    requires EveryTrimsFilled(labels)
    ensures EveryTrimsFilled(ResizeLabels(labels, newCount))
  {
    var r := ResizeLabels(labels, newCount);
    forall k | 0 <= k < |r|
      ensures !IsBlank(r[k])
    {
      if k >= |labels| {
        NewLabelFilled(k);
      }
    }
  }

  /** The submit button's `disabled`: a request in flight, or the same predicate as the early return. */
  function ButtonDisabled(loading: bool, title: string, hostName: string, bottomLabels: seq<string>): (b: bool)
    ensures !loading ==> (b <==> HasBlankField(title, hostName, bottomLabels))
    ensures loading ==> b
  {
    TrimEmptyIffBlank(title);
    TrimEmptyIffBlank(hostName);
    loading || Trim(title) == [] || Trim(hostName) == [] || AnyTrimsEmpty(bottomLabels)
  }

  /**
   * What `handleCreate` sends: the `ladders` row, whose `is_active` is true,
   * and the host joining as player `hostIndex`, which is 0.
   */
  datatype CreateRequest = CreateRequest(
    title: string, hostName: string, playerCount: int, expireHours: int,
    ladderLines: seq<Rung>, bottomLabels: seq<string>, isActive: bool, hostIndex: int)

  class LadderForm {
    var title: string
    var hostName: string
    var playerCount: int
    var expireHours: int
    var bottomLabels: seq<string>

    /** The count in range and one result label per player. */
    predicate Valid()
      reads this
    {
      MinPlayers <= playerCount <= MaxPlayers && |bottomLabels| == playerCount
    }

    /** The state after mounting. */
    constructor ()
      ensures Valid()
      ensures title == "" && hostName == "" && playerCount == 2 && expireHours == 24
      ensures bottomLabels == ["Result 1", "Result 2"]
      ensures HasBlankField(title, hostName, bottomLabels)
    {
      title := "";
      hostName := "";
      playerCount := 2;
      expireHours := 24;
      bottomLabels := ["Result 1", "Result 2"];
    }

    /** `handlePlayerCountChange(delta)`: the count clamped, the labels resized to it. */
    method ChangePlayerCount(delta: int)
      modifies this
      ensures Valid()
      ensures playerCount == ClampCount(old(playerCount) + delta)
      ensures bottomLabels == ResizeLabels(old(bottomLabels), playerCount)
      ensures title == old(title) && hostName == old(hostName) && expireHours == old(expireHours)
    {
      var newCount := ClampCount(playerCount + delta);
      playerCount := newCount;
      bottomLabels := ResizeLabels(bottomLabels, newCount);
    }

    /** Typing into result field `i`: only that label changes. */
    method EditBottomLabel(i: int, value: string)
      requires Valid() && 0 <= i < |bottomLabels|
      modifies this
      ensures Valid()
      ensures |bottomLabels| == |old(bottomLabels)| && bottomLabels[i] == value
      ensures forall k :: 0 <= k < |bottomLabels| && k != i ==> bottomLabels[k] == old(bottomLabels)[k]
      ensures title == old(title) && hostName == old(hostName)
      ensures playerCount == old(playerCount) && expireHours == old(expireHours)
    {
      bottomLabels := bottomLabels[i := value];
    }

    /** The title input. */
    method SetTitle(value: string)
      modifies this
      ensures title == value
      ensures hostName == old(hostName) && playerCount == old(playerCount)
      ensures expireHours == old(expireHours) && bottomLabels == old(bottomLabels)
    {
      title := value;
    }

    /** The host-name input. */
    method SetHostName(value: string)
      modifies this
      ensures hostName == value
      ensures title == old(title) && playerCount == old(playerCount)
      ensures expireHours == old(expireHours) && bottomLabels == old(bottomLabels)
    {
      hostName := value;
    }

    /** The expiry select. */
    method SetExpireHours(value: int)
      modifies this
      ensures expireHours == value
      ensures title == old(title) && hostName == old(hostName)
      ensures playerCount == old(playerCount) && bottomLabels == old(bottomLabels)
    {
      expireHours := value;
    }

    /**
     * `handleCreate`: nothing when the guard blocks; otherwise the request
     * carrying the form values and a ladder generated for the current count,
     * which has rungs in bounds, no two sharing a vertical, and a rung in
     * every row. The form state is left as it was (`loading` is back to
     * false once the request settles).
     */
    method Create(ch: Choices) returns (req: Option<CreateRequest>)
      requires Valid() && Fits(ch, playerCount)
      ensures req.None? <==> HasBlankField(title, hostName, bottomLabels)
      ensures req.Some? ==>
        && req.value.title == title && req.value.hostName == hostName
        && req.value.playerCount == playerCount && req.value.expireHours == expireHours
        && req.value.bottomLabels == bottomLabels
        && req.value.isActive && req.value.hostIndex == 0
        && req.value.ladderLines == Generated(playerCount, ch, Rows)
        && WellFormed(req.value.ladderLines, playerCount)
        && RowsNonEmpty(req.value.ladderLines)
        && |req.value.bottomLabels| == req.value.playerCount
    {
      if HasBlankField(title, hostName, bottomLabels) {
        return None;
      }
      var lines := GenerateLadderLines(playerCount, ch);
      req := Some(CreateRequest(title, hostName, playerCount, expireHours, lines, bottomLabels, true, 0));
    }
  }
}
