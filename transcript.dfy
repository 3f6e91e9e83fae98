/**
 * The chat transcript both chat scripts build: user messages, bot messages (with their
 * rendered HTML and whether the regenerate button is shown) and the "分子探索" reply
 * with its button, plus the replay of a stored conversation.
 */
module Transcript {
  import opened Wrappers
  import opened JsText
  import opened MoleculeTags

  /**
   * One entry of `#chat-messages`, top to bottom. A bot message keeps its text; the HTML
   * it is shown as is `Html` of that text.
   */
  datatype Message =
    | User(text: string)
    | Bot(text: string, regenerate: bool)
    | BotButton(text: string, button: string)

  /** How a script turns bot text into HTML: chat.js only tags molecules, js/chat.js first turns newlines into `<br>`. */
  datatype Renderer = TagOnly | BrThenTag

  const WelcomeText := "Welcome to the Molecular Universe. How can I help you today?"
  const MoleculeCommand := "分子探索"
  const StockReply := "test context"

  function Html(r: Renderer, text: string): (h: string)
    ensures |h| >= |text|
    ensures r == TagOnly ==> h == Tag(text)
    ensures r == BrThenTag ==> h == Tag(NewlinesToBr(text))
    ensures '\n' !in text ==> h == Tag(text)
  {
    TagLength(text);
    match r
    case TagOnly => Tag(text)
    case BrThenTag =>
      NewlinesToBrLength(text);
      TagLength(NewlinesToBr(text));
      Tag(NewlinesToBr(text))
  }

  /** The welcome line, never with a regenerate button. */
  const Welcome := Bot(WelcomeText, false)

  /** The canned reply to a sent message. */
  function Reply(message: string): (m: Message)
    ensures m.BotButton? <==> message == MoleculeCommand
    ensures m.BotButton? ==> m.text == "test" && m.button == "分子"
    ensures m.Bot? ==> m.text == StockReply && m.regenerate
  {
    if message == MoleculeCommand then BotButton("test", "分子") else Bot(StockReply, true)
  }

  /** The stock reply is shown as it is, by either script. */
  lemma StockReplyShownAsIs(r: Renderer)
    ensures Html(r, StockReply) == StockReply
  {
    StockReplyUntouched();
  }

  /** What one send appends: the message itself, then the reply. */
  function Exchange(message: string): (t: seq<Message>)
    ensures |t| == 2 && t[0] == User(message) && t[1] == Reply(message)
  {
    [User(message), Reply(message)]
  }

  /** A stored message: `type` is compared with 'user'; any other type is a bot message. */
  datatype StoredMessage = StoredMessage(kind: string, content: string)

  datatype Conversation = Conversation(title: string, messages: seq<StoredMessage>)

  /** How the stored message at `index` of `count` is replayed. */
  function Replayed(m: StoredMessage, index: nat, count: nat): (e: Message)
    ensures m.kind == "user" <==> e.User?
    ensures e.User? ==> e.text == m.content
    ensures e.Bot? ==> e.text == m.content && (e.regenerate <==> index + 1 == count)
    ensures !e.BotButton?
  {
    if m.kind == "user" then User(m.content) else Bot(m.content, index + 1 == count)
  }

  /** The transcript `loadChatHistory` leaves: the welcome line, then every stored message in order. */
  function Replay(messages: seq<StoredMessage>): (t: seq<Message>)
    ensures |t| == |messages| + 1 && t[0] == Welcome
  {
    [Welcome] + seq(|messages|, i requires 0 <= i < |messages| => Replayed(messages[i], i, |messages|))
  }

  /**
   * A replayed transcript shows at most one regenerate button: on the last entry, and only
   * when that entry is a bot message. Every stored message keeps its place and its text.
   */
  lemma ReplayShape(messages: seq<StoredMessage>)
    ensures var t := Replay(messages);
            (forall k :: 0 <= k < |t| && t[k].Bot? && t[k].regenerate ==> k == |messages| && k > 0) &&
            (|messages| > 0 && messages[|messages| - 1].kind != "user" ==> t[|messages|].Bot? && t[|messages|].regenerate) &&
            (forall k :: 0 <= k < |messages| ==>
               (t[k + 1].User? <==> messages[k].kind == "user") && !t[k + 1].BotButton? &&
               (t[k + 1].User? ==> t[k + 1].text == messages[k].content) &&
               (t[k + 1].Bot? ==> t[k + 1].text == messages[k].content))
  {
    var t := Replay(messages);
    forall k | 0 <= k < |messages| ensures t[k + 1] == Replayed(messages[k], k, |messages|) {
    }
  }

  /** The `forEach` of `loadChatHistory`, one message at a time. */
  method ReplayMessages(messages: seq<StoredMessage>) returns (t: seq<Message>)
    ensures t == Replay(messages)
  {
    t := [Welcome];
    var i := 0;
    while i < |messages|
      invariant 0 <= i <= |messages|
      invariant |t| == i + 1 && t[0] == Welcome
      invariant forall j :: 0 <= j < i ==> t[j + 1] == Replayed(messages[j], j, |messages|)
    {
      t := t + [Replayed(messages[i], i, |messages|)];
      i := i + 1;
    }
    ReplayEntries(messages, t);
  }

  /** Two transcripts agree when they agree entry by entry. */
  lemma ReplayEntries(messages: seq<StoredMessage>, t: seq<Message>)
    requires |t| == |messages| + 1 && t[0] == Welcome
    requires forall j :: 0 <= j < |messages| ==> t[j + 1] == Replayed(messages[j], j, |messages|)
    ensures t == Replay(messages)
  {
    var u := Replay(messages);
    forall k | 0 <= k < |t| ensures t[k] == u[k] {
      if k > 0 {
        assert u[k] == Replayed(messages[k - 1], k - 1, |messages|);
      }
    }
  }

  /** The text of the first user message, as `querySelector('.message-wrapper.user .message')` finds it. */
  function FirstUserText(t: seq<Message>): (r: Option<string>)
    ensures r.Some? <==> exists k :: 0 <= k < |t| && t[k].User?
    ensures r.Some? ==> exists k :: 0 <= k < |t| && t[k] == User(r.value) &&
                                    forall j :: 0 <= j < k ==> !t[j].User?
  {
    if t == [] then None
    else if t[0].User? then Some(t[0].text)
    else
      var rest := FirstUserText(t[1..]);
      assert forall k :: 0 < k < |t| ==> t[k] == t[1..][k - 1];
      rest
  }
}
