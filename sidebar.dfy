/** js/sidebar.js: the sidebar's mini flag, its history list and the per-chat menu. */
module SidebarModel {
  import opened Wrappers
  import opened ChatHistory

  const LabelUnpin := "取消置顶"
  const LabelPin := "置顶对话"

  /** The menu opened from a chat's "…" button: whether the chat was pinned then, and the pin button's label. */
  datatype PinMenu = PinMenu(chatId: string, wasPinned: bool, pinLabel: string)

  /** Whether the item found for `id` carries the `pinned` class. */
  function IsPinned(items: seq<Item>, id: string): (b: bool)
    ensures b <==> Find(items, id).Some? && items[Find(items, id).value].pinned
  {
    match Find(items, id)
    case None => false
    case Some(i) => items[i].pinned
  }

  class Sidebar {
    /** The `mini-sidebar` class. */
    var mini: bool
    /** The items of `.history-nav ul`, top to bottom. */
    var history: seq<Item>

    constructor (items: seq<Item>)
      ensures !mini && history == items
    {
      mini := false;
      history := items;
    }

    method ToggleMiniMode()
      modifies this
      ensures mini == !old(mini) && history == old(history)
    {
      mini := !mini;
    }

    method SwitchToMiniMode()
      modifies this
      ensures mini && history == old(history)
    {
      mini := true;
    }

    method SwitchToFullMode()
      modifies this
      ensures !mini && history == old(history)
    {
      mini := false;
    }

    /**
     * `showChatMenu`: an id without an item makes `querySelector(…).closest` throw, so no
     * menu opens. Otherwise the label says "unpin" exactly when the item is pinned now.
     */
    method ShowChatMenu(id: string) returns (menu: Option<PinMenu>)
      ensures menu.None? <==> Find(history, id).None?
      ensures menu.Some? ==>
                menu.value.chatId == id &&
                menu.value.wasPinned == IsPinned(history, id) &&
                (menu.value.pinLabel == LabelUnpin <==> menu.value.wasPinned) &&
                (menu.value.pinLabel == LabelPin <==> !menu.value.wasPinned)
    {
      var i := Find(history, id);
      if i.None? {
        return None;
      }
      var isPinned := history[i.value].pinned;
      menu := Some(PinMenu(id, isPinned, if isPinned then LabelUnpin else LabelPin));
    }

    /** The menu's pin button: the path is chosen by the state seen when the menu opened. */
    method ClickPinButton(menu: PinMenu)
      modifies this
      ensures menu.wasPinned ==> history == UnpinIntended(old(history), menu.chatId)
      ensures !menu.wasPinned ==> history == Pin(old(history), menu.chatId)
      ensures mini == old(mini)
      ensures old(WellPinned(history)) ==> WellPinned(history)
    {
      if menu.wasPinned {
        UnpinChat(menu.chatId);
      } else {
        PinChat(menu.chatId);
      }
    }

    method PinChat(id: string)
      modifies this
      ensures history == Pin(old(history), id) && mini == old(mini)
      ensures old(WellPinned(history)) ==> WellPinned(history)
    {
      if WellPinned(history) {
        PinKeepsWellPinned(history, id);
      }
      var i := Find(history, id);
      if i.None? {
        return;
      }
      var item := history[i.value].(pinned := true);
      history := [item] + Without(history, i.value);
    }

    /** Follows the corrected reordering; `ChatHistory.UnpinAsWritten` is the code's own. */
    method UnpinChat(id: string)
      modifies this
      ensures history == UnpinIntended(old(history), id) && mini == old(mini)
      ensures old(WellPinned(history)) ==> WellPinned(history)
    {
      var i := Find(history, id);
      if i.None? {
        return;
      }
      if WellPinned(history) {
        UnpinIntendedKeepsWellPinned(history, id);
      }
      var item := history[i.value].(pinned := false);
      var rest := Without(history, i.value);
      history := InsertAt(rest, UnpinnedSlot(rest), item);
    }

    method DeleteChat(id: string)
      modifies this
      ensures history == Delete(old(history), id) && mini == old(mini)
      ensures old(WellPinned(history)) ==> WellPinned(history)
    {
      if WellPinned(history) {
        DeleteKeepsWellPinned(history, id);
      }
      var i := Find(history, id);
      if i.Some? {
        history := Without(history, i.value);
      }
    }
  }

  /** Toggling twice gives back the original flag. */
  method ToggleTwice(s: Sidebar)
    modifies s
    ensures s.mini == old(s.mini) && s.history == old(s.history)
  {
    s.ToggleMiniMode();
    s.ToggleMiniMode();
  }

  /** Switching to mini (or full) mode twice is switching once. */
  method SwitchTwice(s: Sidebar, toMini: bool)
    modifies s
    ensures s.mini == toMini && s.history == old(s.history)
  {
    if toMini {
      s.SwitchToMiniMode();
      s.SwitchToMiniMode();
    } else {
      s.SwitchToFullMode();
      s.SwitchToFullMode();
    }
  }
}
