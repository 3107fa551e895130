/**
 * The poll creation page (`CreateVotePage`): the option list with its add,
 * remove and edit handlers, the `isValid` predicate, and the early return of
 * `handleCreate`.
 */
module VoteCreate {
  import opened Common
  import opened Text

  /** `handleAddOption`: `[...options, ""]`. */
  function WithOptionAdded(options: seq<string>): (r: seq<string>)
    ensures |r| == |options| + 1
    ensures r[..|options|] == options && r[|options|] == ""
  {
    options + [""]
  }

  /**
   * `handleRemoveOption(index)`: `options.filter((_, i) => i !== index)`,
   * a filter on positions. It drops exactly position `index`, keeping the
   * others in order; an index outside the list drops nothing.
   */
  function WithoutOption(options: seq<string>, index: int): (r: seq<string>)
    ensures 0 <= index < |options| ==> r == options[..index] + options[index + 1..]
    ensures !(0 <= index < |options|) ==> r == options
  {
    if |options| == 0 then []
    else (if index == 0 then [] else [options[0]]) + WithoutOption(options[1..], index - 1)
  }

  /** Removing the option just added gives back the list before the add. */
  lemma RemoveAddedOption(options: seq<string>)
    ensures WithoutOption(WithOptionAdded(options), |options|) == options
  {
  }

  /** Where each surviving option lands after a removal. */
  lemma RemovalShifts(options: seq<string>, index: int)
    requires 0 <= index < |options|
    ensures |WithoutOption(options, index)| == |options| - 1
    ensures forall k :: 0 <= k < index ==> WithoutOption(options, index)[k] == options[k]
    ensures forall k :: index <= k < |options| - 1 ==> WithoutOption(options, index)[k] == options[k + 1]
  {
  }

  /**
   * `isValid`: title and host name trim to something, and so does every
   * option.
   */
  function IsValid(title: string, hostName: string, options: seq<string>): (b: bool)
    ensures b <==> !IsBlank(title) && !IsBlank(hostName) && forall i :: 0 <= i < |options| ==> !IsBlank(options[i])
  {
    TrimEmptyIffBlank(title);
    TrimEmptyIffBlank(hostName);
    Trim(title) != [] && Trim(hostName) != [] && EveryTrimsFilled(options)
  }

  /** `handleCreate` returns early exactly when the button is disabled by `!isValid`. */
  lemma {:induction false} ReturnsEarlyIffInvalid(title: string, hostName: string, options: seq<string>)
    ensures HasBlankField(title, hostName, options) <==> !IsValid(title, hostName, options)
  {
    SomeBlankIsNotEveryFilled(options);
  }

  /** The initial options `["", ""]` leave the form invalid, whatever the names. */
  lemma InitialOptionsInvalid(title: string, hostName: string)
    ensures !IsValid(title, hostName, ["", ""])
  {
    assert IsBlank([""][0]);
  }

  /** A freshly added option is empty, so adding one always makes the form invalid. */
  lemma AddingInvalidates(title: string, hostName: string, options: seq<string>)
    ensures !IsValid(title, hostName, WithOptionAdded(options))
  {
    assert IsBlank(WithOptionAdded(options)[|options|]);
  }

  /** Removing an option from a valid form (no blank field) leaves it valid. */
  lemma RemovalKeepsValid(title: string, hostName: string, options: seq<string>, index: int)
    requires !IsBlank(title) && !IsBlank(hostName)
    requires forall i :: 0 <= i < |options| ==> !IsBlank(options[i])
    ensures IsValid(title, hostName, WithoutOption(options, index))
  {
    if 0 <= index < |options| {
      RemovalShifts(options, index);
    }
  }

  /**
   * Editing one option of an otherwise valid form: the form is valid afterwards
   * exactly when the new text is not blank.
   */
  lemma EditDecidesValidity(title: string, hostName: string, options: seq<string>, index: int, value: string)
    requires !IsBlank(title) && !IsBlank(hostName) && 0 <= index < |options|
    requires forall i :: 0 <= i < |options| ==> !IsBlank(options[i])
    ensures IsValid(title, hostName, options[index := value]) <==> !IsBlank(value)
  {
    if IsBlank(value) {
      assert IsBlank(options[index := value][index]);
    }
  }

  /** What `handleCreate` hands to the poll service. */
  datatype PollRequest = PollRequest(
    title: string, hostName: string, isAnonymous: bool, expireHours: int, options: seq<string>)

  class VoteForm {
    var title: string
    var hostName: string
    var isAnonymous: bool
    var expireHours: int
    var options: seq<string>

    /**
     * With removal offered only while there are more than two options, the
     * list never has fewer than two.
     */
    predicate Valid()
      reads this
    {
      |options| >= 2
    }

    /** The state after mounting, before the nickname effect. */
    constructor ()
      ensures Valid()
      ensures title == "" && hostName == "" && !isAnonymous && expireHours == 24
      ensures options == ["", ""]
    {
      title := "";
      hostName := "";
      isAnonymous := false;
      expireHours := 24;
      options := ["", ""];
    }

    /** The mount effect: a stored nickname, when non-empty, becomes the host name. */
    method SyncNickname(nickname: string)
      modifies this
      ensures nickname != "" ==> hostName == nickname
      ensures nickname == "" ==> hostName == old(hostName)
      ensures title == old(title) && isAnonymous == old(isAnonymous)
      ensures expireHours == old(expireHours) && options == old(options)
    {
      if nickname != "" {
        hostName := nickname;
      }
    }

    /** `handleAddOption`. */
    method AddOption()
      requires Valid()
      modifies this
      ensures Valid()
      ensures options == WithOptionAdded(old(options))
      ensures title == old(title) && hostName == old(hostName)
      ensures isAnonymous == old(isAnonymous) && expireHours == old(expireHours)
    {
      options := WithOptionAdded(options);
    }

    /** `handleRemoveOption(index)`, offered for each option only while there are more than two. */
    method RemoveOption(index: int)
      requires Valid() && |options| > 2 && 0 <= index < |options|
      modifies this
      ensures Valid()
      ensures options == WithoutOption(old(options), index)
      ensures title == old(title) && hostName == old(hostName)
      ensures isAnonymous == old(isAnonymous) && expireHours == old(expireHours)
    {
      options := WithoutOption(options, index);
    }

    /** `handleOptionChange(index, value)`: a copy of the list with one position assigned. */
    method ChangeOption(index: int, value: string)
      requires Valid() && 0 <= index < |options|
      modifies this
      ensures Valid()
      ensures |options| == |old(options)| && options[index] == value
      ensures forall k :: 0 <= k < |options| && k != index ==> options[k] == old(options)[k]
      ensures title == old(title) && hostName == old(hostName)
      ensures isAnonymous == old(isAnonymous) && expireHours == old(expireHours)
    {
      options := options[index := value];
    }

    /** The question input. */
    method SetTitle(value: string)
      modifies this
      ensures title == value
      ensures hostName == old(hostName) && isAnonymous == old(isAnonymous)
      ensures expireHours == old(expireHours) && options == old(options)
    {
      title := value;
    }

    /** The host-nickname input. */
    method SetHostName(value: string)
      modifies this
      ensures hostName == value
      ensures title == old(title) && isAnonymous == old(isAnonymous)
      ensures expireHours == old(expireHours) && options == old(options)
    {
      hostName := value;
    }

    /** The anonymity checkbox. */
    method SetAnonymous(value: bool)
      modifies this
      ensures isAnonymous == value
      ensures title == old(title) && hostName == old(hostName)
      ensures expireHours == old(expireHours) && options == old(options)
    {
      isAnonymous := value;
    }

    /** The expiry select. */
    method SetExpireHours(value: int)
      modifies this
      ensures expireHours == value
      ensures title == old(title) && hostName == old(hostName)
      ensures isAnonymous == old(isAnonymous) && options == old(options)
    {
      expireHours := value;
    }

    /**
     * `handleCreate`: nothing when it returns early, which is exactly when the
     * form is not valid; otherwise the poll request built from the form.
     */
    method Create() returns (req: Option<PollRequest>)
      ensures req.None? <==> !IsValid(title, hostName, options)
      ensures req.Some? ==> req.value == PollRequest(title, hostName, isAnonymous, expireHours, options)
    {
      ReturnsEarlyIffInvalid(title, hostName, options);
      if HasBlankField(title, hostName, options) {
        return None;
      }
      return Some(PollRequest(title, hostName, isAnonymous, expireHours, options));
    }
  }
}
