/**
 * The user-mention suggestions popup. It holds an ordered list of popup
 * items, one per search result, and a cursor `selectedItem` that the arrow
 * keys move with wrap-around. The item under the cursor is drawn hovered;
 * accepting the selection emits the display name of that item's user.
 *
 * Lookups into the local cache (`Cache::displayName` for the current room)
 * and the toolkit helper `utils::firstChar` are not part of this model; they
 * enter as the function-typed parameters `names` and `firstChar`.
 */
module Suggestions {
  import opened Wrappers

  /** `Cache::displayName(currentRoom, ·)`: user id to display name. */
  type NameLookup = string -> string

  /** The buttons a mouse event can report as held. */
  datatype MouseButton = LeftButton | RightButton | MiddleButton | BackButton | ForwardButton

  /** One result of a user search. */
  datatype SearchResult = SearchResult(userId: string, displayName: string)

  /** The cursor value meaning "no item selected" (`resetSelection`). */
  const NoSelection: int := -1

  /** Avatar letter of a popup item: a Matrix id (a name of two or more
      characters starting with `@`) shows its second character, any other
      name what `firstChar` picks. */
  function AvatarLetter(displayName: string, firstChar: string -> string): string
  {
    if |displayName| > 1 && displayName[0] == '@' then [displayName[1]]
    else firstChar(displayName)
  }

  /** A Matrix user id `@localpart:server` gets the first letter of its localpart. */
  lemma MatrixIdLetter(localpart: string, server: string, firstChar: string -> string)
    requires |localpart| > 0
    ensures AvatarLetter("@" + localpart + ":" + server, firstChar) == [localpart[0]]
  {
  }

  /** A name that does not start with `@`, or is `@` alone, keeps the letter
      `firstChar` chooses. */
  lemma PlainNameLetter(displayName: string, firstChar: string -> string)
    requires |displayName| <= 1 || displayName[0] != '@'
    ensures AvatarLetter(displayName, firstChar) == firstChar(displayName)
  {
  }

  /** Cursor after `selectNextSuggestion`: one further, and back to the
      first item (`selectFirstItem`) once it reaches the item count. */
  function NextIndex(cur: int, count: nat): (r: int)
    requires 0 < count && NoSelection <= cur < count
    ensures 0 <= r < count
  {
    if cur + 1 >= count then 0 else cur + 1
  }

  /** Cursor after `selectPreviousSuggestion`: one back, and on to the last
      item (`selectLastItem`) once it drops below zero. */
  function PrevIndex(cur: int, count: nat): (r: int)
    requires 0 < count && NoSelection <= cur < count
    ensures 0 <= r < count
  {
    if cur - 1 < 0 then count - 1 else cur - 1
  }

  /** From "no selection", next selects the first item and previous the last. */
  lemma FromNoSelection(count: nat)
    requires count > 0
    ensures NextIndex(NoSelection, count) == 0
    ensures PrevIndex(NoSelection, count) == count - 1
  {
  }

  /** On a selected item, next and previous undo each other. */
  lemma NextPrevInverse(cur: int, count: nat)
    requires 0 <= cur < count
    ensures PrevIndex(NextIndex(cur, count), count) == cur
    ensures NextIndex(PrevIndex(cur, count), count) == cur
  {
  }

  /** The cursor after `n` presses of "next", starting on `cur`. */
  function NextTimes(cur: int, count: nat, n: nat): (r: int)
    requires count > 0 && 0 <= cur < count
    ensures 0 <= r < count
  {
    if n == 0 then cur else NextIndex(NextTimes(cur, count, n - 1), count)
  }

  /** The cursor after `n` presses of "previous", starting on `cur`. */
  function PrevTimes(cur: int, count: nat, n: nat): (r: int)
    requires count > 0 && 0 <= cur < count
    ensures 0 <= r < count
  {
    if n == 0 then cur else PrevIndex(PrevTimes(cur, count, n - 1), count)
  }

  /** "Next" walks the items cyclically: up to a full round of `n` presses
      moves `n` places, wrapping past the last item, so `count` presses come
      back to where they started. */
  lemma {:induction false} NextTimesCycles(cur: int, count: nat, n: nat)
    requires count > 0 && 0 <= cur < count && n <= count
    ensures NextTimes(cur, count, n) == if cur + n < count then cur + n else cur + n - count
  {
    if n > 0 {
      NextTimesCycles(cur, count, n - 1);
    }
  }

  /** "Previous" walks the items cyclically the other way. */
  lemma {:induction false} PrevTimesCycles(cur: int, count: nat, n: nat)
    requires count > 0 && 0 <= cur < count && n <= count
    ensures PrevTimes(cur, count, n) == if cur - n >= 0 then cur - n else cur - n + count
  {
    if n > 0 {
      PrevTimesCycles(cur, count, n - 1);
    }
  }

  /** One entry of the popup: a user id with its label, avatar letter and
      hover flag. */
  class PopupItem {
    const userId: string
    /** Text of the user-name label. */
    const displayName: string
    /** Letter shown on the avatar until the image is resolved. */
    const letter: string
    var hovering: bool

    constructor (userId: string, names: NameLookup, firstChar: string -> string)
      ensures this.userId == userId && displayName == names(userId)
      ensures letter == AvatarLetter(names(userId), firstChar)
      ensures !hovering
    {
      this.userId := userId;
      displayName := names(userId);
      letter := AvatarLetter(names(userId), firstChar);
      hovering := false;
    }

    method SetHovering(state: bool)
      modifies this
      ensures hovering == state
    {
      hovering := state;
    }

    /** `mousePressEvent`: emits `clicked` with the user's display name unless
        the right button alone is held. */
    method MousePress(buttons: set<MouseButton>, names: NameLookup) returns (clicked: Option<string>)
      ensures clicked.Some? <==> buttons != {RightButton}
      ensures clicked.Some? ==> clicked.value == names(userId)
    {
      if buttons != {RightButton} {
        clicked := Some(names(userId));
      } else {
        clicked := None;
      }
    }
  }

  class SuggestionsPopup {
    /** The popup items in layout order. */
    var items: seq<PopupItem>
    var selectedItem: int
    var visible: bool

    /** Every item is a widget of its own, and the cursor is either "no
        selection" or on an item; with no items at all it may be left over
        from an earlier list. */
    ghost predicate Valid()
      reads this
    {
      && (forall i, j :: 0 <= i < j < |items| ==> items[i] != items[j])
      && NoSelection <= selectedItem
      && (|items| > 0 ==> selectedItem < |items|)
    }

    /** Exactly the item at `k` is hovered. */
    ghost predicate HoveredExactly(k: int)
      reads this, items
    {
      forall i :: 0 <= i < |items| ==> items[i].hovering == (i == k)
    }

    constructor ()
      ensures Valid() && items == [] && selectedItem == NoSelection && !visible
    {
      items := [];
      selectedItem := NoSelection;
      visible := false;
    }

    /** `layout_->itemAt(pos)`: null outside the list. */
    function ItemAt(pos: int): (r: Option<PopupItem>)
      reads this
      ensures r.Some? <==> 0 <= pos < |items|
      ensures r.Some? ==> r.value == items[pos]
    {
      if 0 <= pos < |items| then Some(items[pos]) else None
    }

    method SelectFirstItem()
      modifies this`selectedItem
      ensures selectedItem == 0
    {
      selectedItem := 0;
    }

    method SelectLastItem()
      modifies this`selectedItem
      ensures selectedItem == |items| - 1
    {
      selectedItem := |items| - 1;
    }

    method ResetSelection()
      modifies this`selectedItem
      ensures selectedItem == NoSelection
    {
      selectedItem := NoSelection;
    }

    /** Replaces the items by one fresh, unhovered item per search result, in
        order, and resets the selection; an empty result list leaves the
        popup empty and hidden. */
    method AddUsers(users: seq<SearchResult>, names: NameLookup, firstChar: string -> string)
      requires Valid()
      modifies this
      ensures Valid() && |items| == |users|
      ensures users == [] ==> !visible && selectedItem == old(selectedItem)
      ensures users != [] ==> visible == old(visible) && selectedItem == NoSelection
      ensures forall i :: 0 <= i < |users| ==>
        && fresh(items[i])
        && items[i].userId == users[i].userId
        && items[i].displayName == names(users[i].userId)
        && items[i].letter == AvatarLetter(names(users[i].userId), firstChar)
        && !items[i].hovering
    {
      // Empty the list first, one item at a time from the front.
      while |items| > 0
        invariant selectedItem == old(selectedItem) && visible == old(visible)
        decreases |items|
      {
        items := items[1..];
      }

      if |users| == 0 {
        visible := false;
        return;
      }

      var n := 0;
      while n < |users|
        invariant 0 <= n <= |users| && |items| == n
        invariant selectedItem == old(selectedItem) && visible == old(visible)
        invariant forall i, j :: 0 <= i < j < n ==> items[i] != items[j]
        invariant forall i :: 0 <= i < n ==>
          && fresh(items[i])
          && items[i].userId == users[i].userId
          && items[i].displayName == names(users[i].userId)
          && items[i].letter == AvatarLetter(names(users[i].userId), firstChar)
          && !items[i].hovering
      {
        var user := new PopupItem(users[n].userId, names, firstChar);
        items := items + [user];
        n := n + 1;
      }

      ResetSelection();
    }

    /** Clears the hover flag of every item. */
    method ResetHovering()
      modifies items
      ensures forall i :: 0 <= i < |items| ==> !items[i].hovering
    {
      var n := 0;
      while n < |items|
        invariant 0 <= n <= |items|
        invariant forall i :: 0 <= i < n ==> !items[i].hovering
      {
        items[n].SetHovering(false);
        n := n + 1;
      }
    }

    /** Sets the hover flag of the item at `pos`; the others keep theirs. */
    method SetHovering(pos: int)
      requires Valid() && 0 <= pos < |items|
      modifies items[pos]
      ensures items[pos].hovering
      ensures forall i :: 0 <= i < |items| && i != pos ==> items[i].hovering == old(items[i].hovering)
    {
      var item := ItemAt(pos);
      item.value.SetHovering(true);
    }

    /** Makes the item under the cursor the only hovered one. */
    method HoverSelection()
      requires Valid() && 0 <= selectedItem < |items|
      modifies items
      ensures HoveredExactly(selectedItem)
    {
      ResetHovering();
      SetHovering(selectedItem);
    }

    method SelectNextSuggestion()
      requires Valid() && |items| > 0
      modifies this, items
      ensures Valid() && items == old(items) && visible == old(visible)
      ensures selectedItem == NextIndex(old(selectedItem), |items|)
      ensures HoveredExactly(selectedItem)
    {
      selectedItem := selectedItem + 1;
      if selectedItem >= |items| {
        SelectFirstItem();
      }
      HoverSelection();
    }

    method SelectPreviousSuggestion()
      requires Valid() && |items| > 0
      modifies this, items
      ensures Valid() && items == old(items) && visible == old(visible)
      ensures selectedItem == PrevIndex(old(selectedItem), |items|)
      ensures HoveredExactly(selectedItem)
    {
      selectedItem := selectedItem - 1;
      if selectedItem < 0 {
        SelectLastItem();
      }
      HoverSelection();
    }

    /** With an item under the cursor, emits `itemSelected` with its user's
        display name and resets the selection; otherwise does nothing. */
    method SelectHoveredSuggestion(names: NameLookup) returns (selected: Option<string>)
      requires Valid()
      modifies this
      ensures Valid() && items == old(items) && visible == old(visible)
      ensures !(0 <= old(selectedItem) < |items|) ==> selected == None && selectedItem == old(selectedItem)
      ensures 0 <= old(selectedItem) < |items| ==>
        selected == Some(names(items[old(selectedItem)].userId)) && selectedItem == NoSelection
    {
      var item := ItemAt(selectedItem);
      if item == None {
        return None;
      }
      selected := Some(names(item.value.userId));
      ResetSelection();
    }
  }
}
