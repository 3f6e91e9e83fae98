/** js/search-modal.js: the search-chats dialog over its own list of chats. */
module SearchModalModel {
  import opened Wrappers
  import opened JsText

  /** A chat id as JavaScript holds it; strict equality never equates a number with a string. */
  datatype ChatId = Num(n: nat) | Text(s: string)

  datatype Chat = Chat(id: ChatId, title: string)

  /** What the dialog body lists: the given chats, or the "no match" placeholder (which carries no id). */
  datatype Shown = Results(chats: seq<Chat>) | NoMatch

  /** `displaySearchResults`: the placeholder exactly when there is nothing to list. */
  function Display(chats: seq<Chat>): (r: Shown)
    ensures r == NoMatch <==> chats == []
    ensures r.Results? ==> r.chats == chats
  {
    if |chats| > 0 then Results(chats) else NoMatch
  }

  /** The `data-chat-id` attribute text: `setAttribute` turns a number into its decimal text. */
  function Attribute(id: ChatId): (r: string)
    ensures id.Text? ==> r == id.s
    ensures id.Num? ==> r != [] && AllDigits(r) && DigitsValue(r) == id.n && (id.n > 0 ==> r[0] != '0')
  {
    match id
    case Num(n) => NatToString(n)
    case Text(s) => s
  }

  /** `chat.title.toLowerCase().includes(query.toLowerCase())` */
  predicate Matches(c: Chat, query: string) {
    Includes(Lower(c.title), Lower(query))
  }

  /** The `filter` of `handleSearch`. */
  function Matching(chats: seq<Chat>, query: string): (r: seq<Chat>)
    ensures |r| <= |chats|
  {
    if chats == [] then []
    else (if Matches(chats[0], query) then [chats[0]] else []) + Matching(chats[1..], query)
  }

  /** Filtering keeps every matching chat: a chat is kept iff it is listed and matches. */
  lemma {:induction false} MatchingKeepsAll(chats: seq<Chat>, query: string, c: Chat)
    ensures c in Matching(chats, query) <==> c in chats && Matches(c, query)
  {
    if chats != [] {
      MatchingKeepsAll(chats[1..], query, c);
      assert c in chats <==> c == chats[0] || c in chats[1..];
    }
  }

  /** Filtering keeps the order: it distributes over concatenation. */
  lemma {:induction false} MatchingAppend(a: seq<Chat>, b: seq<Chat>, query: string)
    ensures Matching(a + b, query) == Matching(a, query) + Matching(b, query)
    decreases |a|
  {
    if a == [] {
      assert a + b == b;
    } else {
      var t := a[1..] + b;
      assert a + b == [a[0]] + t;
      MatchingAppend(a[1..], b, query);
      MatchingCons(a[0], t, query);
      MatchingCons(a[0], a[1..], query);
      assert a == [a[0]] + a[1..];
    }
  }

  lemma MatchingCons(c: Chat, t: seq<Chat>, query: string)
    ensures Matching([c] + t, query) == (if Matches(c, query) then [c] else []) + Matching(t, query)
  {
    assert ([c] + t)[1..] == t;
  }

  /** `filter(chat => chat.id !== chatId)` */
  function WithoutId(chats: seq<Chat>, id: ChatId): (r: seq<Chat>)
    ensures |r| <= |chats|
  {
    if chats == [] then []
    else (if chats[0].id != id then [chats[0]] else []) + WithoutId(chats[1..], id)
  }

  /** Removing keeps every other chat. */
  lemma {:induction false} WithoutIdKeepsOthers(chats: seq<Chat>, id: ChatId, c: Chat)
    ensures c in WithoutId(chats, id) <==> c in chats && c.id != id
  {
    if chats != [] {
      WithoutIdKeepsOthers(chats[1..], id, c);
      assert c in chats <==> c == chats[0] || c in chats[1..];
    }
  }

  /** Removing keeps the order of the others. */
  lemma {:induction false} WithoutIdAppend(a: seq<Chat>, b: seq<Chat>, id: ChatId)
    ensures WithoutId(a + b, id) == WithoutId(a, id) + WithoutId(b, id)
    decreases |a|
  {
    if a == [] {
      assert a + b == b;
    } else {
      var t := a[1..] + b;
      assert a + b == [a[0]] + t;
      WithoutIdAppend(a[1..], b, id);
      WithoutIdCons(a[0], t, id);
      WithoutIdCons(a[0], a[1..], id);
      assert a == [a[0]] + a[1..];
    }
  }

  lemma WithoutIdCons(c: Chat, t: seq<Chat>, id: ChatId)
    ensures WithoutId([c] + t, id) == (if c.id != id then [c] else []) + WithoutId(t, id)
  {
    assert ([c] + t)[1..] == t;
  }

  /** `removeChatItem("1")` leaves the chat with the number id 1 in place. */
  lemma StrictIdEquality()
    ensures WithoutId([Chat(Num(1), "t")], Text("1")) == [Chat(Num(1), "t")]
  {
  }

  /** The seven chats `loadRecentChats` installs. */
  function RecentChats(): (r: seq<Chat>)
    ensures |r| == 7 && forall k :: 0 <= k < 7 ==> r[k].id == Num(k + 1)
  {
    [Chat(Num(1), "电解质溶剂稳定性预测分析"),
     Chat(Num(2), "锂枝晶形成原因及抑制方法"),
     Chat(Num(3), "SEI层组成成分研究"),
     Chat(Num(4), "高镍正极材料性能优化"),
     Chat(Num(5), "固态电解质界面稳定性"),
     Chat(Num(6), "电池热管理系统设计"),
     Chat(Num(7), "LiFePO4石墨电池电解质推荐")]
  }

  /** The id of the first listed item, if there is one that has an id. */
  function FirstId(shown: Shown): (r: Option<ChatId>)
    ensures r.Some? <==> shown.Results? && shown.chats != []
    ensures r.Some? ==> r.value == shown.chats[0].id
  {
    if shown.Results? && shown.chats != [] then Some(shown.chats[0].id) else None
  }

  class SearchModal {
    /** The `show` class of the dialog. */
    var visible: bool
    /** The search input's value. */
    var query: string
    var searchResults: seq<Chat>
    var shown: Shown
    /** The `chatHistoryRequested` events dispatched so far, by chat id. */
    var requested: seq<ChatId>

    /** The constructor's `init` loads the recent chats. */
    constructor ()
      ensures !visible && query == [] && searchResults == RecentChats() &&
              shown == Display(RecentChats()) && requested == []
    {
      visible := false;
      query := [];
      searchResults := RecentChats();
      shown := Display(RecentChats());
      requested := [];
    }

    method LoadRecentChats()
      modifies this
      ensures searchResults == RecentChats() && shown == Display(RecentChats())
      ensures visible == old(visible) && query == old(query) && requested == old(requested)
    {
      searchResults := RecentChats();
      shown := Display(searchResults);
    }

    /** `showModal`: the dialog opens on the seven fixed chats; anything added before is gone. */
    method ShowModal()
      modifies this
      ensures visible && searchResults == RecentChats() && shown == Display(RecentChats())
      ensures query == old(query) && requested == old(requested)
    {
      visible := true;
      LoadRecentChats();
    }

    method HideModal()
      modifies this
      ensures !visible && query == []
      ensures searchResults == old(searchResults) && shown == old(shown) && requested == old(requested)
    {
      visible := false;
      query := [];
    }

    /** The input event with the input's new value `q`. */
    method HandleSearch(q: string)
      modifies this
      ensures query == q
      ensures IsBlank(q) ==> shown == Display(searchResults)
      ensures !IsBlank(q) ==> shown == Display(Matching(searchResults, q))
      ensures visible == old(visible) && searchResults == old(searchResults) && requested == old(requested)
    {
      query := q;
      if IsBlank(q) {
        shown := Display(searchResults);
        return;
      }
      shown := Display(Matching(searchResults, q));
    }

    /** `selectChat`: dispatch the request, then always hide. */
    method SelectChat(id: ChatId)
      modifies this
      ensures requested == old(requested) + [id] && !visible && query == []
      ensures searchResults == old(searchResults) && shown == old(shown)
    {
      requested := requested + [id];
      HideModal();
    }

    /**
     * Enter picks the first listed item, and only when it has a non-empty `data-chat-id`
     * (read back as text); the "no match" placeholder has none.
     */
    method HandleEnterKey()
      modifies this
      ensures FirstId(shown).Some? && Attribute(FirstId(shown).value) != [] ==>
                requested == old(requested) + [Text(Attribute(FirstId(shown).value))] && !visible && query == []
      ensures !(FirstId(shown).Some? && Attribute(FirstId(shown).value) != []) ==>
                requested == old(requested) && visible == old(visible) && query == old(query)
      ensures searchResults == old(searchResults) && shown == old(shown)
    {
      var first := FirstId(shown);
      if first.None? {
        return;
      }
      var chatId := Attribute(first.value);
      if chatId != [] {
        SelectChat(Text(chatId));
      }
    }

    /** A click on the `k`-th listed item selects it with its own id. */
    method ClickResult(k: nat)
      modifies this
      ensures old(shown).Results? && k < |old(shown).chats| ==>
                requested == old(requested) + [old(shown).chats[k].id] && !visible && query == []
      ensures !(old(shown).Results? && k < |old(shown).chats|) ==>
                requested == old(requested) && visible == old(visible) && query == old(query)
      ensures searchResults == old(searchResults) && shown == old(shown)
    {
      if shown.Results? && k < |shown.chats| {
        SelectChat(shown.chats[k].id);
      }
    }

    method SetSearchResults(results: seq<Chat>)
      modifies this
      ensures searchResults == results && shown == Display(results)
      ensures visible == old(visible) && query == old(query) && requested == old(requested)
    {
      searchResults := results;
      shown := Display(searchResults);
    }

    method AddChatItem(chat: Chat)
      modifies this
      ensures searchResults == old(searchResults) + [chat] && shown == Display(searchResults)
      ensures visible == old(visible) && query == old(query) && requested == old(requested)
    {
      searchResults := searchResults + [chat];
      shown := Display(searchResults);
    }

    method RemoveChatItem(id: ChatId)
      modifies this
      ensures searchResults == WithoutId(old(searchResults), id) && shown == Display(searchResults)
      ensures visible == old(visible) && query == old(query) && requested == old(requested)
    {
      searchResults := WithoutId(searchResults, id);
      shown := Display(searchResults);
    }
  }
}
