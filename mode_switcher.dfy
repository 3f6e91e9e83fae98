/**
 * js/mode-switcher.js: the Regular Ask / Deep Space switch of the chat input, with the
 * placeholder table and the mode configurations it shares with the new-chat screen of
 * js/chat.js.
 */
module ModeSwitching {
  const Regular := "regular"
  const DeepSpace := "deep-space"

  const RegularPlaceholder := "Ask me anything, as long as it's about batteries, battery chemistry, or related topics."
  const DeepSpacePlaceholder := "Enter your research question for deep analysis. This will take 10-20 minutes to process."

  /** `placeholders[mode] || placeholders.regular`; a prototype name such as `constructor` counts as an unknown mode. */
  function PlaceholderFor(mode: string): (p: string)
    ensures mode == DeepSpace ==> p == DeepSpacePlaceholder
    ensures mode != DeepSpace ==> p == RegularPlaceholder
  {
    if mode == Regular then RegularPlaceholder
    else if mode == DeepSpace then DeepSpacePlaceholder
    else RegularPlaceholder
  }

  datatype ModeConfig = ModeConfig(name: string, description: string, responseTime: string, features: seq<string>)

  const RegularConfig :=
    ModeConfig("Regular Ask", "Standard AI response", "1-3 minutes",
               ["Quick response", "General knowledge", "Basic analysis"])
  const DeepSpaceConfig :=
    ModeConfig("Deep Space", "Advanced research analysis", "10-20 minutes",
               ["Literature review", "Database search", "Collaborative analysis", "Research-grade answers"])

  /** `configs[this.currentMode] || configs.regular`, with prototype names counted as unknown modes. */
  function ConfigFor(mode: string): (c: ModeConfig)
    ensures mode == DeepSpace ==> c == DeepSpaceConfig
    ensures mode != DeepSpace ==> c == RegularConfig
  {
    if mode == Regular then RegularConfig
    else if mode == DeepSpace then DeepSpaceConfig
    else RegularConfig
  }

  /** The placeholder and the configuration always describe the same mode. */
  lemma PlaceholderMatchesConfig(mode: string)
    ensures PlaceholderFor(mode) == DeepSpacePlaceholder <==> ConfigFor(mode) == DeepSpaceConfig
  {
  }

  /** The `active` class of each button after a switch to `mode`: set exactly on the buttons whose `data-mode` is `mode`. */
  function ActiveFlags(modes: seq<string>, mode: string): (flags: seq<bool>)
    ensures |flags| == |modes|
    ensures forall k :: 0 <= k < |modes| ==> (flags[k] <==> modes[k] == mode)
  {
    if modes == [] then []
    else ActiveFlags(modes[..|modes| - 1], mode) + [modes[|modes| - 1] == mode]
  }

  /** The `forEach` over the buttons, one button at a time. */
  method MarkActive(modes: seq<string>, mode: string) returns (flags: seq<bool>)
    ensures flags == ActiveFlags(modes, mode)
  {
    flags := [];
    var k := 0;
    while k < |modes|
      invariant 0 <= k <= |modes|
      invariant flags == ActiveFlags(modes[..k], mode)
    {
      assert modes[..k + 1][..k] == modes[..k];
      flags := flags + [modes[k] == mode];
      k := k + 1;
    }
    assert modes[..|modes|] == modes;
  }

  /** With distinct `data-mode`s at most one button is active. */
  lemma AtMostOneActive(modes: seq<string>, mode: string)
    requires forall i, j :: 0 <= i < j < |modes| ==> modes[i] != modes[j]
    ensures forall i, j :: 0 <= i < j < |modes| && ActiveFlags(modes, mode)[i] ==> !ActiveFlags(modes, mode)[j]
  {
  }

  class ModeSwitcher {
    var currentMode: string
    /** The `data-mode` of each `.mode-btn`, in document order. */
    var buttons: seq<string>
    /** Their `active` classes. */
    var active: seq<bool>
    /** The modes carried by the `modeChanged` events dispatched so far. */
    var events: seq<string>
    /** The placeholder of `#chat-input`, when that textarea exists. */
    var placeholder: string
    var hasTextarea: bool

    /** The state the constructor leaves before `init`: the regular mode. */
    constructor (buttons: seq<string>, active: seq<bool>, hasTextarea: bool, placeholder: string)
      requires |active| == |buttons|
      ensures currentMode == Regular && this.buttons == buttons && this.active == active
      ensures events == [] && this.hasTextarea == hasTextarea && this.placeholder == placeholder
      ensures Valid()
    {
      currentMode := Regular;
      this.buttons := buttons;
      this.active := active;
      events := [];
      this.hasTextarea := hasTextarea;
      this.placeholder := placeholder;
    }

    predicate Valid()
      reads this
    {
      |active| == |buttons|
    }

    /** `switchMode`: nothing at all happens for the current mode. */
    method SwitchMode(mode: string)
      requires Valid()
      modifies this
      ensures Valid()
      ensures mode == old(currentMode) ==>
                currentMode == old(currentMode) && active == old(active) && events == old(events) &&
                placeholder == old(placeholder)
      ensures mode != old(currentMode) ==>
                currentMode == mode && active == ActiveFlags(buttons, mode) && events == old(events) + [mode] &&
                placeholder == (if hasTextarea then PlaceholderFor(mode) else old(placeholder))
      ensures buttons == old(buttons) && hasTextarea == old(hasTextarea)
    {
      if mode == currentMode {
        return;
      }
      active := MarkActive(buttons, mode);
      currentMode := mode;
      events := events + [currentMode];
      UpdatePlaceholder();
    }

    method UpdatePlaceholder()
      modifies this
      ensures placeholder == (if hasTextarea then PlaceholderFor(currentMode) else old(placeholder))
      ensures currentMode == old(currentMode) && buttons == old(buttons) && active == old(active)
      ensures events == old(events) && hasTextarea == old(hasTextarea)
    {
      if !hasTextarea {
        return;
      }
      placeholder := PlaceholderFor(currentMode);
    }

    function IsDeepSpaceMode(): (b: bool)
      reads this
      ensures b <==> currentMode == DeepSpace
    {
      currentMode == DeepSpace
    }

    function GetModeConfig(): (c: ModeConfig)
      reads this
      ensures IsDeepSpaceMode() ==> c == DeepSpaceConfig
      ensures !IsDeepSpaceMode() ==> c == RegularConfig
    {
      ConfigFor(currentMode)
    }
  }

  /** Switching to a mode and then to it again dispatches a single event. */
  method SwitchTwice(s: ModeSwitcher, mode: string)
    requires s.Valid() && mode != s.currentMode
    modifies s
    ensures s.Valid() && s.currentMode == mode && s.events == old(s.events) + [mode]
  {
    s.SwitchMode(mode);
    s.SwitchMode(mode);
  }
}
