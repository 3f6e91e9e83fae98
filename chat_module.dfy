/**
 * js/chat.js: the `Chat` class of the modular pages. Besides the bottom input and the
 * transcript it owns the new-chat screen (its own input, mode buttons and recommended
 * questions) and the index of the recommended question set.
 */
module ChatModule {
  import opened Wrappers
  import opened JsText
  import opened Transcript
  import opened ModeSwitching

  const QuestionSets: seq<seq<string>> := [
    ["锂离子电池的电解质溶剂选择有哪些关键考虑因素？",
     "固态电解质在下一代电池技术中的优势和应用前景如何？",
     "SEI层的形成机制及其对电池性能的影响是什么？",
     "高镍正极材料的稳定性问题及解决方案有哪些？",
     "锂枝晶的形成原因及抑制方法有哪些？"],
    ["磷酸铁锂电池与三元锂电池的性能对比如何？",
     "钠离子电池作为锂离子电池替代品的可行性如何？",
     "电池热管理系统对电池寿命的影响有哪些？",
     "快充技术对电池性能和安全性的影响是什么？",
     "电池回收技术的最新进展有哪些？"],
    ["石墨烯在电池材料中的应用前景如何？",
     "硅基负极材料的发展现状和挑战有哪些？",
     "固态电池的商业化进程和关键技术是什么？",
     "电池管理系统(BMS)的核心功能有哪些？",
     "电池安全测试的标准和方法有哪些？"]
  ]

  /** The `data-mode`s of the new-chat screen's buttons, in document order. */
  const NewChatModes := [Regular, DeepSpace]

  /** `(index + 1) % questionSets.length` */
  function NextSet(index: nat): (next: nat)
    ensures next < |QuestionSets|
    ensures index < |QuestionSets| - 1 ==> next == index + 1
    ensures index == |QuestionSets| - 1 ==> next == 0
  {
    (index + 1) % |QuestionSets|
  }

  /** Three refreshes come back to the set they started from. */
  lemma ThreeRefreshesCycle(index: nat)
    requires index < |QuestionSets|
    ensures NextSet(NextSet(NextSet(index))) == index
    ensures NextSet(index) != index && NextSet(NextSet(index)) != index
  {
  }

  class Chat {
    var input: string
    var sendDisabled: bool
    var transcript: seq<Message>
    var questionIndex: nat
    /** `#new-chat-input`, present only while the new-chat screen is in `#chat-messages`. */
    var newChatInput: Option<string>
    var newChatSendDisabled: bool
    var newChatPlaceholder: string
    /** The `data-mode` of each `.new-mode-btn`, and their `active` classes. */
    var modeButtons: seq<string>
    var activeButtons: seq<bool>
    /** The texts of the `.recommended-question` elements. */
    var recommended: seq<string>
    var bottomInputShown: bool
    var title: string

    predicate Valid()
      reads this`questionIndex, this`activeButtons, this`modeButtons, this`newChatInput, this`recommended
    {
      questionIndex < |QuestionSets| && |activeButtons| == |modeButtons| &&
      (newChatInput.None? ==> modeButtons == [] && recommended == [])
    }

    /** The constructor's `init`: an empty, disabled input under the welcome line. */
    constructor (pageTitle: string)
      ensures Valid()
      ensures input == [] && sendDisabled && transcript == [Welcome] && questionIndex == 0
      ensures newChatInput.None? && bottomInputShown && title == pageTitle
    {
      input := [];
      sendDisabled := true;
      transcript := [Welcome];
      questionIndex := 0;
      newChatInput := None;
      newChatSendDisabled := true;
      newChatPlaceholder := RegularPlaceholder;
      modeButtons := [];
      activeButtons := [];
      recommended := [];
      bottomInputShown := true;
      title := pageTitle;
    }

    /** `updateBtnState`: disabled exactly when the trimmed input is empty. */
    method UpdateBtnState()
      modifies this`sendDisabled
      ensures sendDisabled <==> IsBlank(input)
    {
      sendDisabled := |Trim(input)| == 0;
    }

    /** An input event on the bottom input. */
    method Type(value: string)
      modifies this`input, this`sendDisabled
      ensures input == value && (sendDisabled <==> IsBlank(value))
    {
      input := value;
      UpdateBtnState();
    }

    /** `sendMessage`: nothing on blank input. */
    method SendMessage()
      modifies this`input, this`sendDisabled, this`transcript
      ensures IsBlank(old(input)) ==> unchanged(this)
      ensures !IsBlank(old(input)) ==>
                transcript == old(transcript) + Exchange(Trim(old(input))) && input == [] && sendDisabled
    {
      var message := Trim(input);
      if |message| == 0 {
        return;
      }
      transcript := transcript + Exchange(message);
      input := [];
      // `updateBtnState()` on the now empty input
      sendDisabled := true;
    }

    /**
     * `startNewChat`: the transcript gives way to the new-chat screen, whose markup always
     * lists the first question set and starts in the regular mode.
     */
    method StartNewChat()
      requires Valid()
      modifies this`transcript, this`newChatInput, this`newChatSendDisabled, this`newChatPlaceholder
      modifies this`modeButtons, this`activeButtons, this`recommended, this`bottomInputShown
      ensures Valid()
      ensures transcript == [] && newChatInput == Some([]) && newChatSendDisabled && !bottomInputShown
      ensures modeButtons == NewChatModes && activeButtons == [true, false]
      ensures newChatPlaceholder == RegularPlaceholder && recommended == QuestionSets[0]
    {
      transcript := [];
      newChatInput := Some([]);
      newChatSendDisabled := true;
      newChatPlaceholder := RegularPlaceholder;
      modeButtons := NewChatModes;
      activeButtons := [true, false];
      recommended := QuestionSets[0];
      bottomInputShown := false;
    }

    /** `updateNewChatBtnState`: nothing without the new-chat screen. */
    method UpdateNewChatBtnState()
      modifies this`newChatSendDisabled
      ensures newChatInput.None? ==> newChatSendDisabled == old(newChatSendDisabled)
      ensures newChatInput.Some? ==> (newChatSendDisabled <==> IsBlank(newChatInput.value))
    {
      if newChatInput.None? {
        return;
      }
      newChatSendDisabled := |Trim(newChatInput.value)| == 0;
    }

    /** An input event on the new-chat input. */
    method TypeNewChat(value: string)
      modifies this`newChatInput, this`newChatSendDisabled
      ensures old(newChatInput).None? ==> unchanged(this)
      ensures old(newChatInput).Some? ==>
                newChatInput == Some(value) && (newChatSendDisabled <==> IsBlank(value))
    {
      if newChatInput.None? {
        return;
      }
      newChatInput := Some(value);
      UpdateNewChatBtnState();
    }

    /** `switchNewChatMode`: nothing without mode buttons or the new-chat input. */
    method SwitchNewChatMode(mode: string)
      requires Valid()
      modifies this`activeButtons, this`newChatPlaceholder
      ensures Valid()
      ensures modeButtons == [] || newChatInput.None? ==> unchanged(this)
      ensures modeButtons != [] && newChatInput.Some? ==>
                activeButtons == ActiveFlags(modeButtons, mode) && newChatPlaceholder == PlaceholderFor(mode)
    {
      if |modeButtons| == 0 || newChatInput.None? {
        return;
      }
      activeButtons := MarkActive(modeButtons, mode);
      newChatPlaceholder := PlaceholderFor(mode);
    }

    /**
     * `sendNewChatMessage`: on non-blank input the screen (with its input, buttons and
     * questions) is cleared away and the transcript is the question and its reply.
     */
    method SendNewChatMessage()
      requires Valid()
      modifies this`transcript, this`bottomInputShown, this`newChatInput
      modifies this`modeButtons, this`activeButtons, this`recommended
      ensures Valid()
      ensures old(newChatInput).None? || IsBlank(old(newChatInput).value) ==> unchanged(this)
      ensures old(newChatInput).Some? && !IsBlank(old(newChatInput).value) ==>
                transcript == Exchange(Trim(old(newChatInput).value)) && bottomInputShown &&
                newChatInput.None? && modeButtons == [] && activeButtons == [] && recommended == []
    {
      var typed := newChatInput;
      if typed.None? || IsBlank(typed.value) {
        return;
      }
      transcript := Exchange(Trim(typed.value));
      bottomInputShown := true;
      // `chatMessages.innerHTML = ''` took the screen away; `updateNewChatBtnState` then finds no input
      newChatInput := None;
      modeButtons := [];
      activeButtons := [];
      recommended := [];
    }

    /** A click on the `k`-th recommended question: fill the new-chat input and send it. */
    method ChooseRecommended(k: nat)
      requires Valid()
      modifies this`transcript, this`bottomInputShown, this`newChatInput, this`newChatSendDisabled
      modifies this`modeButtons, this`activeButtons, this`recommended
      ensures Valid()
      ensures k >= |old(recommended)| ==> unchanged(this)
      ensures k < |old(recommended)| ==>
                (IsBlank(old(recommended)[k]) ==> newChatInput == Some(old(recommended)[k])) &&
                (!IsBlank(old(recommended)[k]) ==>
                   transcript == Exchange(Trim(old(recommended)[k])) && newChatInput.None?)
    {
      if k >= |recommended| {
        return;
      }
      assert newChatInput.Some?;
      newChatInput := Some(recommended[k]);
      UpdateNewChatBtnState();
      SendNewChatMessage();
    }

    /** `refreshQuestions`: the next set, shown only while the screen holds the question list. */
    method RefreshQuestions()
      requires Valid()
      modifies this`questionIndex, this`recommended
      ensures Valid()
      ensures questionIndex == NextSet(old(questionIndex))
      ensures newChatInput.Some? ==> recommended == QuestionSets[questionIndex]
      ensures newChatInput.None? ==> recommended == old(recommended)
    {
      questionIndex := NextSet(questionIndex);
      if newChatInput.Some? {
        recommended := QuestionSets[questionIndex];
      }
    }

    /** `loadChatHistory` over the stored conversations: an unknown id changes nothing. */
    method LoadChatHistory(id: string, stored: map<string, Conversation>)
      requires Valid()
      modifies this`transcript, this`bottomInputShown, this`newChatInput
      modifies this`modeButtons, this`activeButtons, this`recommended, this`title
      ensures Valid()
      ensures id !in stored ==> unchanged(this)
      ensures id in stored ==>
                transcript == Replay(stored[id].messages) && title == "Ask - " + stored[id].title &&
                bottomInputShown && newChatInput.None? && modeButtons == [] && recommended == []
    {
      if id !in stored {
        return;
      }
      var chat := stored[id];
      transcript := ReplayMessages(chat.messages);
      bottomInputShown := true;
      newChatInput := None;
      modeButtons := [];
      activeButtons := [];
      recommended := [];
      title := "Ask - " + chat.title;
    }
  }

  /** Three refreshes show the set shown before them again, while the screen stays. */
  method RefreshThrice(c: Chat)
    requires c.Valid()
    modifies c
    ensures c.Valid() && c.questionIndex == old(c.questionIndex) && c.newChatInput == old(c.newChatInput)
  {
    ThreeRefreshesCycle(c.questionIndex);
    c.RefreshQuestions();
    c.RefreshQuestions();
    c.RefreshQuestions();
  }

  /**
   * A new-chat screen opened after a refresh lists the first set while the index stays
   * where it was, so the next refresh does not show the set after the one on screen.
   */
  method RefreshThenNewChat(c: Chat)
    requires c.Valid() && c.questionIndex == 0
    modifies c
    ensures c.Valid() && c.recommended == QuestionSets[0] && c.questionIndex == 1
  {
    c.RefreshQuestions();
    c.StartNewChat();
  }
}
