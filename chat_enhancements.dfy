/** js/chat-enhancements.js: auto-height, send-button state, shortcuts and the typing flag of the chat input. */
module Enhancements {
  import opened Wrappers
  import opened JsText

  const MaxHeight: nat := 200

  /** `Math.min(scrollHeight, maxHeight)` */
  function AdjustedHeight(scrollHeight: nat): (h: nat)
    ensures h <= MaxHeight && h <= scrollHeight
    ensures h == scrollHeight || h == MaxHeight
  {
    if scrollHeight < MaxHeight then scrollHeight else MaxHeight
  }

  /** Growing content never shrinks the box until the cap. */
  lemma AdjustedHeightMonotone(a: nat, b: nat)
    requires a <= b
    ensures AdjustedHeight(a) <= AdjustedHeight(b)
  {
  }

  /** What `getInputState` returns. */
  datatype InputState = InputState(hasText: bool, isTyping: bool, textLength: nat)

  /** A keydown: the key, and whether Shift and Ctrl or Cmd are held. */
  datatype Key = Key(name: string, shift: bool, ctrlOrMeta: bool)

  /** Enter without Shift in the focused input, or Ctrl/Cmd+Enter anywhere. */
  predicate SendKey(key: Key, focused: bool) {
    key.name == "Enter" && ((focused && !key.shift) || key.ctrlOrMeta)
  }

  class ChatEnhancements {
    var value: string
    /** The inline height in pixels; `None` stands for 'auto'. */
    var height: Option<nat>
    var disabled: bool
    /** The `active` class of the send button. */
    var active: bool
    var isTyping: bool
    /** Whether the one-second typing timer is pending. */
    var typingTimer: bool
    /** Whether the input is `document.activeElement`. */
    var focused: bool
    /** The messages of the `sendMessage` events dispatched so far. */
    var sent: seq<string>

    constructor ()
      ensures value == [] && height.None? && !isTyping && !typingTimer && !focused && sent == []
    {
      value := [];
      height := None;
      disabled := false;
      active := false;
      isTyping := false;
      typingTimer := false;
      focused := false;
      sent := [];
    }

    /** `updateSendButtonState`: disabled exactly when the trimmed value is empty. */
    method UpdateSendButtonState()
      modifies this`disabled, this`active
      ensures disabled <==> IsBlank(value)
      ensures active <==> !disabled
    {
      var hasText := |Trim(value)| > 0;
      disabled := !hasText;
      active := hasText;
    }

    /** An input event: the new value and its `scrollHeight`; the typing flag goes up and its timer restarts. */
    method Input(newValue: string, scrollHeight: nat)
      modifies this`value, this`height, this`disabled, this`active, this`isTyping, this`typingTimer
      ensures value == newValue && height == Some(AdjustedHeight(scrollHeight))
      ensures (disabled <==> IsBlank(newValue)) && (active <==> !disabled)
      ensures isTyping && typingTimer
    {
      value := newValue;
      height := Some(AdjustedHeight(scrollHeight));
      UpdateSendButtonState();
      isTyping := true;
      typingTimer := true;
    }

    /** The typing timer fires. */
    method TypingTimeout()
      modifies this`isTyping, this`typingTimer
      ensures old(typingTimer) ==> !isTyping && !typingTimer
      ensures !old(typingTimer) ==> unchanged(this)
    {
      if typingTimer {
        isTyping := false;
        typingTimer := false;
      }
    }

    method Focus(on: bool)
      modifies this`focused
      ensures focused == on
    {
      focused := on;
    }

    /** `sendMessage`: nothing on blank input, otherwise one event with the trimmed text. */
    method SendMessage()
      modifies this`value, this`height, this`disabled, this`active, this`sent
      ensures IsBlank(old(value)) ==> unchanged(this)
      ensures !IsBlank(old(value)) ==>
                sent == old(sent) + [Trim(old(value))] && value == [] && height.None? && disabled && !active
    {
      var message := Trim(value);
      if message == [] {
        return;
      }
      sent := sent + [message];
      ClearInput();
    }

    /** `clearInput`, also what Escape does in the focused input. */
    method ClearInput()
      modifies this`value, this`height, this`disabled, this`active
      ensures value == [] && height.None? && disabled && !active
    {
      value := [];
      height := None;
      UpdateSendButtonState();
    }

    /**
     * A keydown, first at the input when it has focus (Enter without Shift sends), then at
     * the document (Ctrl or Cmd with Enter sends; Escape clears the focused input).
     */
    method KeyDown(key: Key)
      modifies this`value, this`height, this`disabled, this`active, this`sent
      ensures SendKey(key, focused) && !IsBlank(old(value)) ==>
                sent == old(sent) + [Trim(old(value))] && value == [] && height.None? && disabled && !active
      ensures key.name == "Enter" && !(SendKey(key, focused) && !IsBlank(old(value))) ==> unchanged(this)
      ensures key.name == "Escape" && focused ==>
                sent == old(sent) && value == [] && height.None? && disabled && !active
      ensures key.name == "Escape" && !focused ==> unchanged(this)
      ensures key.name != "Enter" && key.name != "Escape" ==> unchanged(this)
    {
      if focused && key.name == "Enter" && !key.shift {
        SendMessage();
      }
      if key.ctrlOrMeta && key.name == "Enter" {
        SendMessage();
      }
      if key.name == "Escape" && focused {
        ClearInput();
      }
    }

    function GetInputState(): (s: InputState)
      reads this
      ensures s.hasText <==> !IsBlank(value)
      ensures s.textLength == |value| && s.isTyping == isTyping
    {
      InputState(|Trim(value)| > 0, isTyping, |value|)
    }
  }

  /** `hasText` looks at the trimmed value, `textLength` at the raw one: three spaces have length 3 but no text. */
  lemma SpacesHaveLengthButNoText()
    ensures IsBlank("   ") && |"   "| == 3
  {
    BlankIffAllSpace("   ");
  }

  /** Ctrl+Enter in the focused input runs both handlers, yet sends once: the first send empties the input. */
  method CtrlEnterInInputSendsOnce(c: ChatEnhancements)
    requires c.focused && !IsBlank(c.value)
    modifies c
    ensures c.sent == old(c.sent) + [Trim(old(c.value))]
  {
    c.KeyDown(Key("Enter", false, true));
  }
}
