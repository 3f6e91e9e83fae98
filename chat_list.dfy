/**
 * The history list of the sidebar (`.history-nav ul`) as a sequence of items, and the
 * reorderings that js/sidebar.js and chat.js apply to it. An item is found the way
 * `document.querySelector('[data-chat-id="…"]').closest('li')` finds it: the first item
 * carrying that id. A list is "well pinned" when every pinned item comes before every
 * unpinned one, which is what pinning to the top is for.
 */
module ChatHistory {
  import opened Wrappers
  import opened JsText

  /** One `<li>`: its `data-chat-id` (new chats get none), its title and its `pinned` class. */
  datatype Item = Item(id: Option<string>, title: string, pinned: bool)

  /** The index of the first item with this id. */
  function Find(items: seq<Item>, id: string): (r: Option<nat>)
    ensures r.Some? ==> r.value < |items| && items[r.value].id == Some(id) &&
                        forall j :: 0 <= j < r.value ==> items[j].id != Some(id)
    ensures r.None? ==> forall j :: 0 <= j < |items| ==> items[j].id != Some(id)
  {
    if items == [] then None
    else if items[0].id == Some(id) then Some(0)
    else match Find(items[1..], id)
      case Some(k) => Some(k + 1)
      case None => None
  }

  /** `li:not(.pinned)`: the index of the first unpinned item. */
  function FirstUnpinned(items: seq<Item>): (r: Option<nat>)
    ensures r.Some? ==> r.value < |items| && !items[r.value].pinned &&
                        forall j :: 0 <= j < r.value ==> items[j].pinned
    ensures r.None? ==> forall j :: 0 <= j < |items| ==> items[j].pinned
  {
    if items == [] then None
    else if !items[0].pinned then Some(0)
    else match FirstUnpinned(items[1..])
      case Some(k) => Some(k + 1)
      case None => None
  }

  /** Every pinned item precedes every unpinned one. */
  predicate WellPinned(items: seq<Item>) {
    forall j, k :: 0 <= j < k < |items| && items[k].pinned ==> items[j].pinned
  }

  /** The list without position `i`. */
  function Without(items: seq<Item>, i: nat): (r: seq<Item>)
    requires i < |items|
    ensures |r| == |items| - 1
    ensures forall j :: 0 <= j < |r| ==> r[j] == if j < i then items[j] else items[j + 1]
  {
    items[..i] + items[i + 1..]
  }

  /**
   * `pinChat`: the item gets `pinned` and is moved before the first child, so it becomes
   * the first item; the others keep their order. An unknown id changes nothing.
   */
  function Pin(items: seq<Item>, id: string): (r: seq<Item>)
    ensures Find(items, id).None? ==> r == items
    ensures Find(items, id).Some? ==>
              var i := Find(items, id).value;
              |r| == |items| && r[0] == items[i].(pinned := true) && r[1..] == Without(items, i)
  {
    match Find(items, id)
    case None => items
    case Some(i) => [items[i].(pinned := true)] + Without(items, i)
  }

  /** `deleteChat` on the list: exactly the found item is removed. */
  function Delete(items: seq<Item>, id: string): (r: seq<Item>)
    ensures Find(items, id).None? ==> r == items
    ensures Find(items, id).Some? ==>
              var i := Find(items, id).value;
              |r| == |items| - 1 && forall j :: 0 <= j < |r| ==> r[j] == if j < i then items[j] else items[j + 1]
  {
    match Find(items, id)
    case None => items
    case Some(i) => Without(items, i)
  }

  /** `insertBefore(node, ref)` with `node` at `i` and `ref` at `f <= i` (the same node when `f == i`). */
  function MoveBack(items: seq<Item>, i: nat, f: nat): (r: seq<Item>)
    requires f <= i < |items|
    ensures |r| == |items| && r[f] == items[i]
    ensures f == i ==> r == items
  {
    items[..f] + [items[i]] + items[f..i] + items[i + 1..]
  }

  /**
   * `unpinChat` as the code reads: the class is removed first, so the first unpinned item
   * is never after the item itself, and the item moves only past unpinned items before it.
   * The append-to-the-end branch cannot be reached.
   */
  function UnpinAsWritten(items: seq<Item>, id: string): (r: seq<Item>)
    ensures Find(items, id).None? ==> r == items
    ensures Find(items, id).Some? ==>
              var i := Find(items, id).value;
              var cleared := items[i := items[i].(pinned := false)];
              FirstUnpinned(cleared).Some? && FirstUnpinned(cleared).value <= i &&
              r == MoveBack(cleared, i, FirstUnpinned(cleared).value)
  {
    match Find(items, id)
    case None => items
    case Some(i) =>
      var cleared := items[i := items[i].(pinned := false)];
      assert !cleared[i].pinned;
      match FirstUnpinned(cleared)
      case Some(f) => MoveBack(cleared, i, f)
      case None => assert false; items
  }

  /** Where an unpinned item goes: before the first unpinned item, or at the end when all are pinned. */
  function UnpinnedSlot(items: seq<Item>): (p: nat)
    ensures p <= |items|
    ensures forall j :: 0 <= j < p ==> items[j].pinned
    ensures p < |items| ==> !items[p].pinned
  {
    match FirstUnpinned(items)
    case Some(f) => f
    case None => |items|
  }

  function InsertAt(items: seq<Item>, p: nat, x: Item): (r: seq<Item>)
    requires p <= |items|
    ensures |r| == |items| + 1 && r[p] == x && Without(r, p) == items
  {
    assert (items[..p] + [x] + items[p..])[..p] == items[..p];
    assert (items[..p] + [x] + items[p..])[p + 1..] == items[p..];
    items[..p] + [x] + items[p..]
  }

  /**
   * `unpinChat` as its comment describes it: the item, unpinned, goes before the first
   * unpinned one among the others, or to the end when there is none.
   */
  function UnpinIntended(items: seq<Item>, id: string): (r: seq<Item>)
    ensures Find(items, id).None? ==> r == items
    ensures Find(items, id).Some? ==>
              var i := Find(items, id).value;
              var p := UnpinnedSlot(Without(items, i));
              |r| == |items| && r[p] == items[i].(pinned := false) && Without(r, p) == Without(items, i)
  {
    match Find(items, id)
    case None => items
    case Some(i) =>
      var rest := Without(items, i);
      InsertAt(rest, UnpinnedSlot(rest), items[i].(pinned := false))
  }

  /** Pinning keeps the list well pinned. */
  lemma PinKeepsWellPinned(items: seq<Item>, id: string)
    requires WellPinned(items)
    ensures WellPinned(Pin(items, id))
  {
    var r := Pin(items, id);
    if Find(items, id).Some? {
      var i := Find(items, id).value;
      forall j, k | 0 <= j < k < |r| && r[k].pinned ensures r[j].pinned {
        if j > 0 {
          assert r[j] == Without(items, i)[j - 1] && r[k] == Without(items, i)[k - 1];
        }
      }
    }
  }

  /** Pinning twice is pinning once: the item is already pinned and already first. */
  lemma PinIdempotent(items: seq<Item>, id: string)
    ensures Pin(Pin(items, id), id) == Pin(items, id)
  {
    var r := Pin(items, id);
    if Find(items, id).Some? {
      assert Find(r, id) == Some(0);
      assert r == [r[0]] + r[1..];
    }
  }

  lemma WithoutKeepsWellPinned(items: seq<Item>, i: nat)
    requires i < |items| && WellPinned(items)
    ensures WellPinned(Without(items, i))
  {
    var rest := Without(items, i);
    forall j, k | 0 <= j < k < |rest| && rest[k].pinned ensures rest[j].pinned {
      assert rest[k] == items[if k < i then k else k + 1];
      assert rest[j] == items[if j < i then j else j + 1];
    }
  }

  /** Deleting keeps the list well pinned. */
  lemma DeleteKeepsWellPinned(items: seq<Item>, id: string)
    requires WellPinned(items)
    ensures WellPinned(Delete(items, id))
  {
    if Find(items, id).Some? {
      WithoutKeepsWellPinned(items, Find(items, id).value);
    }
  }

  lemma InsertAtSlotKeepsWellPinned(items: seq<Item>, x: Item)
    requires WellPinned(items) && !x.pinned
    ensures WellPinned(InsertAt(items, UnpinnedSlot(items), x))
  {
    var p := UnpinnedSlot(items);
    var r := InsertAt(items, p, x);
    forall k | p <= k < |r| ensures !r[k].pinned {
      if k > p {
        assert r[k] == Without(r, p)[k - 1] == items[k - 1];
      }
    }
    forall j, k | 0 <= j < k < |r| && r[k].pinned ensures r[j].pinned {
      assert k < p;
      assert r[j] == Without(r, p)[j] == items[j];
    }
  }

  /**
   * The intended unpin keeps the list well pinned. The item, unpinned, lands right after
   * every pinned item, and the others keep their order.
   */
  lemma UnpinIntendedKeepsWellPinned(items: seq<Item>, id: string)
    requires WellPinned(items) && Find(items, id).Some?
    ensures WellPinned(UnpinIntended(items, id))
    ensures var r := UnpinIntended(items, id);
            var i := Find(items, id).value;
            var p := UnpinnedSlot(Without(items, i));
            p < |r| && r[p] == items[i].(pinned := false) &&
            (forall j :: 0 <= j < p ==> r[j].pinned) &&
            Without(r, p) == Without(items, i)
  {
    var i := Find(items, id).value;
    var rest := Without(items, i);
    WithoutKeepsWellPinned(items, i);
    InsertAtSlotKeepsWellPinned(rest, items[i].(pinned := false));
    var p := UnpinnedSlot(rest);
    var r := UnpinIntended(items, id);
    forall j | 0 <= j < p ensures r[j].pinned {
      assert r[j] == Without(r, p)[j] == rest[j];
    }
  }

  /** Pinned `A`, pinned `B`, unpinned `C`: unpinning `A` as written leaves it above pinned `B`. */
  lemma UnpinAsWrittenBreaksWellPinned()
    ensures var a := Item(Some("a"), "A", true);
            var b := Item(Some("b"), "B", true);
            var c := Item(Some("c"), "C", false);
            WellPinned([a, b, c]) &&
            UnpinAsWritten([a, b, c], "a") == [a.(pinned := false), b, c] &&
            !WellPinned(UnpinAsWritten([a, b, c], "a"))
  {
    var a := Item(Some("a"), "A", true);
    var b := Item(Some("b"), "B", true);
    var c := Item(Some("c"), "C", false);
    var items := [a, b, c];
    assert Find(items, "a") == Some(0);
    var cleared := items[0 := a.(pinned := false)];
    assert FirstUnpinned(cleared) == Some(0);
    var r := UnpinAsWritten(items, "a");
    assert r == cleared;
    assert r[1].pinned && !r[0].pinned;
  }

  /** `textContent.length > 32 ? textContent.slice(0, 32) + '...' : textContent` */
  function TruncateTitle(text: string): (r: string)
    ensures |text| <= 32 ==> r == text
    ensures |text| > 32 ==> |r| == 35 && r[..32] == text[..32] && r[32..] == "..."
  {
    if |text| > 32 then text[..32] + "..." else text
  }

  /** Truncating a title that is already truncated changes nothing. */
  lemma TruncateIdempotent(text: string)
    ensures TruncateTitle(TruncateTitle(text)) == TruncateTitle(text)
  {
    var r := TruncateTitle(text);
    if |text| > 32 {
      assert r[..32] + "..." == r;
    }
  }

  /** The item the new-chat button puts at the front: no id, not pinned, the truncated first question. */
  function NewChatItem(firstQuestion: string): (r: Item)
    ensures r.id.None? && !r.pinned && r.title == TruncateTitle(firstQuestion)
  {
    Item(None, TruncateTitle(firstQuestion), false)
  }

  /**
   * `historyNav.insertBefore(li, historyNav.firstChild)`: the new chat goes above
   * everything, the pinned items included, so it breaks the pinned-first order whenever a
   * pinned item exists.
   */
  lemma NewChatGoesAbovePinned(items: seq<Item>, firstQuestion: string)
    requires exists k :: 0 <= k < |items| && items[k].pinned
    ensures !WellPinned([NewChatItem(firstQuestion)] + items)
  {
    var k :| 0 <= k < |items| && items[k].pinned;
    var r := [NewChatItem(firstQuestion)] + items;
    assert r[k + 1] == items[k] && !r[0].pinned;
  }

  /** What ends the inline rename: Enter, Escape, any other key, or the input losing focus. */
  datatype RenameEvent = EnterKey | EscapeKey | OtherKey | Blur

  /**
   * The title after one event of `renameChat`: Enter and blur take the trimmed input when
   * it is non-blank and restore the old name otherwise; Escape restores the old name;
   * `None` means the input is still open.
   */
  function RenameResult(currentName: string, typed: string, ev: RenameEvent): (r: Option<string>)
    ensures ev == OtherKey <==> r.None?
    ensures ev == EscapeKey ==> r == Some(currentName)
    ensures ev == EnterKey || ev == Blur ==> r == Some(if IsBlank(typed) then currentName else Trim(typed))
    ensures r.Some? ==> r.value == currentName || r.value == Trim(typed)
    ensures r.Some? && r.value != currentName ==> ev != EscapeKey && !IsBlank(typed)
  {
    match ev
    case OtherKey => None
    case EscapeKey => Some(currentName)
    case _ => var newName := Trim(typed); if newName != [] then Some(newName) else Some(currentName)
  }

  /** A rename never leaves a blank title behind a non-blank one. */
  lemma RenameNeverBlank(currentName: string, typed: string, ev: RenameEvent)
    requires !IsBlank(currentName) && ev != OtherKey
    ensures !IsBlank(RenameResult(currentName, typed, ev).value)
  {
    var r := RenameResult(currentName, typed, ev).value;
    if r != currentName {
      TrimIdempotent(typed);
    }
  }

  /** Enter and blur decide alike. */
  lemma EnterAndBlurAgree(currentName: string, typed: string)
    ensures RenameResult(currentName, typed, EnterKey) == RenameResult(currentName, typed, Blur)
  {
  }
}
