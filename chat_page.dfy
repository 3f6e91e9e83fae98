/**
 * chat.js: the chat page script. Its closure holds the input box, the transcript, the
 * history list of the sidebar, the stored conversations and the search dialog's items.
 */
module ChatPageModel {
  import opened Wrappers
  import opened JsText
  import opened ChatHistory
  import opened Transcript

  /** The search dialog's filter: `text.includes(searchTerm)` on both lower-cased, the term untrimmed. */
  predicate SearchMatches(title: string, term: string) {
    Includes(Lower(title), Lower(term))
  }

  /** The `display` of every search item after the input event: shown exactly when its title matches. */
  function SearchFlags(titles: seq<string>, term: string): (shown: seq<bool>)
    ensures |shown| == |titles|
    ensures forall k :: 0 <= k < |titles| ==> (shown[k] <==> SearchMatches(titles[k], term))
  {
    if titles == [] then []
    else SearchFlags(titles[..|titles| - 1], term) + [SearchMatches(titles[|titles| - 1], term)]
  }

  /** An empty search term shows every item. */
  lemma {:induction false} EmptyTermShowsAll(titles: seq<string>)
    ensures forall k :: 0 <= k < |titles| ==> SearchFlags(titles, "")[k]
  {
    forall k | 0 <= k < |titles| ensures SearchFlags(titles, "")[k] {
      assert Lower("") == "";
      assert StartsWith(Lower(titles[k]), "");
    }
  }

  /** An item is shown iff its lower-cased title has a copy of the lower-cased term at some position. */
  lemma SearchMatchesMeaning(title: string, term: string)
    ensures SearchMatches(title, term) ==> exists p :: OccursAt(Lower(title), Lower(term), p)
    ensures (exists p :: OccursAt(Lower(title), Lower(term), p)) ==> SearchMatches(title, term)
  {
    IncludesIffOccurs(Lower(title), Lower(term));
  }

  class ChatPage {
    var input: string
    /** The `enabled` class (and not `disabled`) of the send button. */
    var sendEnabled: bool
    var transcript: seq<Message>
    /** `.history-nav ul`, top to bottom. */
    var history: seq<Item>
    /** The `chatHistory` object, by chat id. */
    var conversations: map<string, Conversation>
    /** `document.title` */
    var title: string
    /** The titles of the search dialog's chat items, and whether each is shown. */
    var searchTitles: seq<string>
    var searchShown: seq<bool>

    /** The page after `DOMContentLoaded`: an empty input and the welcome line. */
    constructor (items: seq<Item>, stored: map<string, Conversation>, searchItems: seq<string>, pageTitle: string)
      ensures input == [] && !sendEnabled && transcript == [Welcome]
      ensures history == items && conversations == stored && title == pageTitle
      ensures searchTitles == searchItems && searchShown == seq(|searchItems|, k => true)
    {
      input := [];
      sendEnabled := false;
      transcript := [Welcome];
      history := items;
      conversations := stored;
      title := pageTitle;
      searchTitles := searchItems;
      searchShown := seq(|searchItems|, k => true);
    }

    /** `updateBtnState` */
    method UpdateBtnState()
      modifies this`sendEnabled
      ensures sendEnabled <==> !IsBlank(input)
    {
      sendEnabled := !IsBlank(input);
    }

    /** An input event with the box's new value. */
    method Type(value: string)
      modifies this
      ensures input == value && (sendEnabled <==> !IsBlank(value))
      ensures transcript == old(transcript) && history == old(history)
      ensures conversations == old(conversations) && title == old(title)
      ensures searchTitles == old(searchTitles) && searchShown == old(searchShown)
    {
      input := value;
      UpdateBtnState();
    }

    /** The send button's click handler: nothing on blank input. */
    method Send()
      modifies this
      ensures IsBlank(old(input)) ==>
                input == old(input) && sendEnabled == old(sendEnabled) && transcript == old(transcript)
      ensures !IsBlank(old(input)) ==>
                transcript == old(transcript) + Exchange(Trim(old(input))) && input == [] && !sendEnabled
      ensures history == old(history) && conversations == old(conversations) && title == old(title)
      ensures searchTitles == old(searchTitles) && searchShown == old(searchShown)
    {
      var message := Trim(input);
      if |message| > 0 {
        transcript := transcript + Exchange(message);
        input := [];
        // `updateBtnState()` on the now empty input
        sendEnabled := false;
      }
    }

    /**
     * The new-chat button: the first question goes to the top of the history, truncated,
     * and the transcript starts over with the welcome line.
     */
    method NewChat()
      modifies this
      ensures FirstUserText(old(transcript)).None? ==> history == old(history)
      ensures FirstUserText(old(transcript)).Some? ==>
                history == [NewChatItem(FirstUserText(old(transcript)).value)] + old(history)
      ensures transcript == [Welcome]
      ensures input == old(input) && sendEnabled == old(sendEnabled)
      ensures conversations == old(conversations) && title == old(title)
      ensures searchTitles == old(searchTitles) && searchShown == old(searchShown)
    {
      var first := FirstUserText(transcript);
      if first.Some? {
        history := [NewChatItem(first.value)] + history;
      }
      transcript := [Welcome];
    }

    /** The search input event, item by item. */
    method Search(term: string)
      modifies this
      ensures searchShown == SearchFlags(searchTitles, term)
      ensures searchTitles == old(searchTitles) && input == old(input) && sendEnabled == old(sendEnabled)
      ensures transcript == old(transcript) && history == old(history)
      ensures conversations == old(conversations) && title == old(title)
    {
      var shown: seq<bool> := [];
      var k := 0;
      while k < |searchTitles|
        invariant 0 <= k <= |searchTitles|
        invariant shown == SearchFlags(searchTitles[..k], term)
      {
        assert searchTitles[..k + 1][..k] == searchTitles[..k];
        shown := shown + [SearchMatches(searchTitles[k], term)];
        k := k + 1;
      }
      assert searchTitles[..|searchTitles|] == searchTitles;
      searchShown := shown;
    }

    method PinChat(id: string)
      modifies this
      ensures history == Pin(old(history), id)
      ensures old(WellPinned(history)) ==> WellPinned(history)
      ensures input == old(input) && sendEnabled == old(sendEnabled) && transcript == old(transcript)
      ensures conversations == old(conversations) && title == old(title)
      ensures searchTitles == old(searchTitles) && searchShown == old(searchShown)
    {
      if WellPinned(history) {
        PinKeepsWellPinned(history, id);
      }
      history := Pin(history, id);
    }

    /** Follows the corrected reordering, as `SidebarModel.Sidebar.UnpinChat` does. */
    method UnpinChat(id: string)
      modifies this
      ensures history == UnpinIntended(old(history), id)
      ensures old(WellPinned(history)) ==> WellPinned(history)
      ensures input == old(input) && sendEnabled == old(sendEnabled) && transcript == old(transcript)
      ensures conversations == old(conversations) && title == old(title)
      ensures searchTitles == old(searchTitles) && searchShown == old(searchShown)
    {
      if WellPinned(history) && Find(history, id).Some? {
        UnpinIntendedKeepsWellPinned(history, id);
      }
      history := UnpinIntended(history, id);
    }

    /**
     * `deleteChat`: the stored conversation goes first; the list item goes too when there
     * is one (without it the lookup throws after the deletion).
     */
    method DeleteChat(id: string)
      modifies this
      ensures conversations == old(conversations) - {id}
      ensures history == Delete(old(history), id)
      ensures old(WellPinned(history)) ==> WellPinned(history)
      ensures input == old(input) && sendEnabled == old(sendEnabled) && transcript == old(transcript)
      ensures title == old(title) && searchTitles == old(searchTitles) && searchShown == old(searchShown)
    {
      if id in conversations {
        conversations := conversations - {id};
      }
      if WellPinned(history) {
        DeleteKeepsWellPinned(history, id);
      }
      var i := Find(history, id);
      if i.Some? {
        history := Without(history, i.value);
      }
    }

    /** `renameChat` followed by the event that ends the editing (no item: nothing happens). */
    method RenameChat(id: string, typed: string, ev: RenameEvent)
      modifies this
      ensures Find(old(history), id).None? ==> history == old(history)
      ensures Find(old(history), id).Some? ==>
                var i := Find(old(history), id).value;
                var r := RenameResult(old(history)[i].title, typed, ev);
                history == if r.None? then old(history) else old(history)[i := old(history)[i].(title := r.value)]
      ensures input == old(input) && sendEnabled == old(sendEnabled) && transcript == old(transcript)
      ensures conversations == old(conversations) && title == old(title)
      ensures searchTitles == old(searchTitles) && searchShown == old(searchShown)
    {
      var i := Find(history, id);
      if i.None? {
        return;
      }
      var r := RenameResult(history[i.value].title, typed, ev);
      if r.Some? {
        history := history[i.value := history[i.value].(title := r.value)];
      }
    }

    /** `loadChatHistory`: an unknown id changes nothing. */
    method LoadChatHistory(id: string)
      modifies this
      ensures id !in old(conversations) ==> transcript == old(transcript) && title == old(title)
      ensures id in old(conversations) ==>
                transcript == Replay(old(conversations)[id].messages) &&
                title == "Ask - " + old(conversations)[id].title
      ensures input == old(input) && sendEnabled == old(sendEnabled) && history == old(history)
      ensures conversations == old(conversations)
      ensures searchTitles == old(searchTitles) && searchShown == old(searchShown)
    {
      if id !in conversations {
        return;
      }
      var chat := conversations[id];
      transcript := ReplayMessages(chat.messages);
      title := "Ask - " + chat.title;
    }
  }

  /** Renaming keeps the order, the ids and the pin flags of the history. */
  lemma RenameKeepsShape(items: seq<Item>, i: nat, name: string)
    requires i < |items|
    ensures var r := items[i := items[i].(title := name)];
            |r| == |items| && WellPinned(r) == WellPinned(items) &&
            forall k :: 0 <= k < |r| ==> r[k].id == items[k].id && r[k].pinned == items[k].pinned
  {
    var r := items[i := items[i].(title := name)];
    SamePinsSameWellPinned(r, items);
  }

  lemma SamePinsSameWellPinned(a: seq<Item>, b: seq<Item>)
    requires |a| == |b| && forall k :: 0 <= k < |a| ==> a[k].pinned == b[k].pinned
    ensures WellPinned(a) == WellPinned(b)
  {
    if WellPinned(a) {
      forall j, k | 0 <= j < k < |b| && b[k].pinned ensures b[j].pinned {
        assert a[k].pinned;
      }
    }
    if WellPinned(b) {
      forall j, k | 0 <= j < k < |a| && a[k].pinned ensures a[j].pinned {
        assert b[k].pinned;
      }
    }
  }
}
