# Battery chat demo: a verified model of its logic

The repository is the front end and a small Express back end of a battery-chemistry
question-answering demo. Users register, verify their email, log in and reset their
password against an account server that keeps its users in a JSON file. The chat pages
let a user ask questions and get canned bot replies in which molecule names are tagged.
They keep a sidebar history of conversations that can be pinned, unpinned, renamed and
deleted, and offer a search dialog, a Regular Ask / Deep Space mode switch, a molecule
details panel and a feedback dialog. Two test scripts read CSV files of battery cycling
data and check the parsed rows.

This project models that logic in Dafny and proves properties of it:

- `accounts.dfy` models the account handlers of `server.js`. Each handler is a pure
  function on the user array. The class `UserStore` makes the same updates in place. The
  lemmas prove:
  - email uniqueness and increasing ids are preserved;
  - a reset code works at most once, and its deadline is inclusive;
  - GET never reveals secrets.
- `auth_forms.dfy` models the form scripts `register.js`, `reset-password.js` and
  `forgot.js`:
  - Their two regular expressions are written out as the structure each one matches.
  - Lemmas state in plain terms which strings each regular expression accepts.
  - The early-return check chains are modelled in order.
- `csv_rows.dfy` models the CSV reader that is copied into both test scripts, and the
  checks those scripts run on the parsed rows.
- `chat_list.dfy` models the sidebar history list as a sequence of items, with its pin,
  unpin and delete reorderings, title truncation and renaming.
- `sidebar.dfy`, `chat_page.dfy` (the page script `chat.js`) and `chat_module.dfy` (the
  `Chat` class of `js/chat.js`) model the objects that hold that state.
- `transcript.dfy` models the chat transcript. `molecule_tags.dfy` models the rewrite
  from bot text to HTML.
- `search_modal.dfy`, `mode_switcher.dfy`, `feedback_modal.dfy`,
  `chat_enhancements.dfy`, `molecule_panel.dfy` and `performance.dfy` model one UI module
  each.
- `js_text.dfy` models the JavaScript string primitives these scripts rely on: `trim`,
  `toLowerCase`, `includes`, `split`, and `replace` with a global pattern.
- `wrappers.dfy` holds the `Option` type, which stands for JavaScript's `undefined`.

Objects whose fields the source assigns are Dafny classes. Each of their methods states
the complete new state. Pure lookups and string operations are functions. A source loop
is a `while` loop with its invariants, proved against the function that specifies it.

## Model

| member | source | states |
|---|---|---|
| Accounts.FindUser | server.js:44 | The index of the first record with that email; `None` exactly when no record has it. |
| Accounts.FindUnique | server.js:44 | When emails are unique, looking up record `i`'s email finds `i`. |
| Accounts.Login | server.js:41-56 | The checks run in order and each failure has its own message: unknown account, then wrong password, then unverified email. Success returns only the email and the two names. The store is not an output, so login never changes it. |
| Accounts.LoginSucceedsIff | server.js:43-55 | With unique emails, login succeeds iff some record has that email and password and a verified email. On success it reports that email. |
| Accounts.NextId | server.js:69 | The new id is greater than every existing id whenever the ids increase. |
| Accounts.Register | server.js:59-80 | Any falsy field gives "incomplete" and a taken email gives "already registered"; both leave the store unchanged. Success appends exactly one unverified record with the next id and leaves the existing records as they were. |
| Accounts.RegisterKeepsInvariants | server.js:65-77 | Register preserves unique emails and strictly increasing ids. |
| Accounts.Forgot | server.js:83-105 | A missing email or an unregistered one gives 400 and no change. Otherwise only that user's record gets the new code and the deadline `now + 1,800,000` ms, replacing any earlier code. |
| Accounts.ResetPassword | server.js:108-135 | Success happens iff all three fields are present, the user exists, the stored code equals the given one, and the deadline is not set or not passed. Every failure is a 400 with its own message and no change. Success replaces the password and deletes both reset fields. |
| Accounts.ResetDeadlineInclusive | server.js:124-126 | A code issued at time `t` is accepted at `t + 30 min` and refused one millisecond later. |
| Accounts.ResetCodeSingleUse | server.js:120-131 | After a successful reset, no further reset for that email succeeds, whatever code, password and time are given. |
| Accounts.Verify | server.js:138-158 | Verification succeeds iff the fields are present, the user exists and the code is exactly "123456". Only that record's `email_verified` becomes true; every failure leaves the store unchanged. |
| Accounts.Public | server.js:171 | The projection keeps id, names, email and verification flag. |
| Accounts.GetProfile | server.js:161-173 | An unknown email gives 404. A known email gives the record without password, reset code and expiry. |
| Accounts.GetProfileHidesSecrets | server.js:171-172 | Changing a record's password, code or expiry never changes what GET returns. |
| Accounts.UpdateProfile | server.js:176-192 | An unknown email gives 404 and no change. Otherwise each name field is overwritten only when the given value is truthy, and nothing else changes. |
| Accounts.SameKeysKeepInvariants | server.js:27-33 | Arrays with the same record count, ids and emails agree on uniqueness and on increasing ids. |
| Accounts.ForgotKeepsKeys | server.js:96-98 | Forgot keeps every record's id and email. |
| Accounts.ResetKeepsKeys | server.js:129-131 | Reset keeps every record's id and email. |
| Accounts.VerifyKeepsKeys | server.js:151-157 | Verify keeps every record's id and email. |
| Accounts.UpdateProfileKeepsKeys | server.js:187-188 | PUT keeps every record's id and email. |
| Accounts.UserStore.constructor | server.js:27-29 | The store holds the array read from users.json. |
| Accounts.UserStore.PostRegister | server.js:59-80 | The in-place update and the reply are those of `Register`. |
| Accounts.UserStore.PostForgot | server.js:83-105 | The in-place update and the reply are those of `Forgot`. |
| Accounts.UserStore.PostResetPassword | server.js:108-135 | The in-place update and the reply are those of `ResetPassword`. |
| Accounts.UserStore.PostVerify | server.js:138-158 | The in-place update and the reply are those of `Verify`. |
| Accounts.UserStore.PutUser | server.js:176-192 | The in-place update and the reply are those of `UpdateProfile`. |
| FormPatterns.EmailPatternMeaning | register.js:12-16 | The email pattern accepts exactly the strings that meet all of these: no whitespace; exactly one '@', not at the start; and after it a '.' with text on both sides. |
| FormPatterns.PasswordPatternSound | register.js:18-21 | Every accepted password has at least 8 characters, an ASCII letter, an ASCII digit and no line break. |
| FormPatterns.PasswordPatternComplete | register.js:18-21 | Every such string is accepted, at any length. |
| FormPatterns.PasswordPatternMeaning | register.js:18-21 | Both directions together: the pattern means length at least 8 plus a letter and a digit on one line. |
| FormPatterns.PasswordLengthCapNotEnforced | register.js:18-21 | A 31-character password passes, although the message promises 8-30 characters. |
| RegisterForm.Submit | register.js:3-53 | Exactly one outcome per input. Checks run email, then password, then the untrimmed confirmation, then names, and only the first failure's message is shown. Otherwise the body holds the trimmed names and email and the untrimmed password. |
| RegisterForm.SentBodyIsComplete | register.js:27-38 | A body the form sends has four non-empty fields, so the server's "incomplete" check never fires for it. |
| ResetPasswordForm.Submit | reset-password.js:6-55 | Email, then a non-blank code, then the password rule, each failure stopping the rest. Otherwise the body holds the trimmed email and code and the untrimmed password. |
| ResetPasswordForm.SentBodyIsComplete | reset-password.js:22-39 | The body sent never trips the server's "incomplete" check. |
| ForgotForm.ForgotPage.constructor | forgot.js:1-7 | The page starts with no message, the plain message class and an enabled button. |
| ForgotForm.ForgotPage.Submit | forgot.js:1-42 | An invalid trimmed email shows the format error and neither disables the button nor sends anything. A valid one disables the button, shows the success message and sends the trimmed email, whatever the request's outcome. |
| CsvRows.CellAt | test_prediction_flow.js:15 | `values[i] \|\| ''`: the cell when it exists, '' past the end. |
| CsvRows.ParseCsv | test_prediction_flow.js:5-22 | The loop over lines and the `forEach` over headers return exactly `ParsedRows(text)`. |
| CsvRows.MakeRow | test_prediction_flow.js:13-17 | The key-by-key `forEach` builds the row that `BuildRow` specifies. |
| CsvRows.RowsFollowNonBlankLines | test_prediction_flow.js:10-19 | There is one row per non-blank line, and row `k` comes from the `k`-th one. |
| CsvRows.NonBlankKeeps | test_prediction_flow.js:11 | Only non-blank lines yield rows, and every non-blank line does. |
| CsvRows.RowCount | test_early_life_prediction.js:9-19 | After the header line, the number of rows equals the number of non-blank lines, and row `k` comes from the `k`-th of them. |
| CsvRows.BuildRowKeys | test_prediction_flow.js:14-16 | A row built from `n` headers has exactly those headers as keys. |
| CsvRows.BuildRowValue | test_prediction_flow.js:14-16 | A header's value comes from the last column with that name. |
| CsvRows.RowShape | test_early_life_prediction.js:13-15 | Every row has exactly the header names as keys, and cells past the last header are dropped. A header's value is the cleaned cell of its last column, or '' where the line is short. |
| CsvRows.QuotedLineSplit | test_prediction_flow.js:12 | `"x,y",z` splits at both commas: the reader does no quoting in the sense of section 2 of RFC 4180. |
| CsvRows.QuotedLineCells | test_prediction_flow.js:12 | And the cleaned cells are `x`, `y`, `z`. |
| CsvRows.QuotedCommaSplits | test_prediction_flow.js:10-17 | Headers `a,b` with the line `"x,y",z` give a = x and b = y. |
| PredictionScripts.CheckRequired | test_prediction_flow.js:43-52 | With no rows the check throws (`None`). Otherwise it reports each required field, in order, as present with its value or as missing, according to the first row's keys. |
| PredictionScripts.FirstRowKeys | test_prediction_flow.js:7-16 | The first row's keys are exactly the header names. |
| PredictionScripts.RequiredPresentIffHeader | test_prediction_flow.js:43-52 | A required field is reported present iff it is a header name. |
| PredictionScripts.PresentIffKey | test_prediction_flow.js:46-50 | On any rows whose first row has the header keys: present iff a header. |
| PredictionScripts.ConfidenceColour | test_early_life_prediction.js:58 | Green iff the percentage is at least 80, yellow iff it is from 60 to under 80, red iff it is under 60. |
| PredictionScripts.ColourMonotone | test_early_life_prediction.js:58 | A higher confidence never gets a worse colour. |
| JsText.TrimStart | register.js:3 | The result is a suffix of the input that does not start with a space, and everything cut off is space. |
| JsText.TrimEnd | register.js:3 | The result is a prefix of the input that does not end with a space, and everything cut off is space. |
| JsText.Trim | register.js:3-7 | `trim()`: the infix left after removing the spaces on both sides. It neither starts nor ends with a space. |
| JsText.TrimUnchanged | register.js:3 | A string without spaces at its ends is its own trim. |
| JsText.BlankIffAllSpace | js/chat.js:84 | `trim()` is empty iff every character is a space. |
| JsText.TrimIdempotent | register.js:3 | Trimming twice is trimming once. |
| JsText.LowerChar | js/search-modal.js:85 | `A`-`Z` map to `a`-`z`; every other character is kept. |
| JsText.Lower | js/search-modal.js:85 | Same length, character by character. |
| JsText.IncludesIffOccurs | js/search-modal.js:85 | `includes` holds iff a copy of the substring starts at some position. |
| JsText.Split | test_prediction_flow.js:6 | `split(c)` is never empty, and no piece contains the separator. |
| JsText.JoinSplit | test_prediction_flow.js:6 | Joining the pieces with the separator gives back the input. |
| JsText.SplitJoin | test_prediction_flow.js:12 | Splitting a join of separator-free pieces gives back those pieces. |
| JsText.RemoveAll | test_prediction_flow.js:7 | `replace(/"/g, '')` keeps no `"`, never lengthens, and changes nothing when there is none. |
| JsText.RemoveAllAppend | test_prediction_flow.js:7 | Removal distributes over concatenation, so the kept characters stay in order. |
| JsText.NatToString | js/search-modal.js:144 | The decimal text of a number: non-empty digits whose value is the number, `"0"` for zero and no leading zero otherwise. |
| JsText.ZeroValueAllZeros | js/search-modal.js:144 | A digit string of value zero consists of zeros only. |
| JsText.NatToStringOfDigits | js/search-modal.js:144 | Every canonical digit string is the text of its own value, the inverse direction of the round-trip. |
| JsText.NatToStringInjective | js/search-modal.js:144 | Two numbers get the same text exactly when they are equal. |
| ChatHistory.Find | js/sidebar.js:170 | The first item with that id, or `None` when no item has it. |
| ChatHistory.FirstUnpinned | js/sidebar.js:185 | The first item without `pinned`, or `None` when every item is pinned. |
| ChatHistory.Without | js/sidebar.js:199 | Removing position `i` shifts the later items down by one. |
| ChatHistory.Pin | js/sidebar.js:169-177 | The found item, now pinned, becomes the first item, and the others keep their order. An unknown id changes nothing. |
| ChatHistory.PinKeepsWellPinned | js/sidebar.js:169-177 | Pinning keeps every pinned item above every unpinned one. |
| ChatHistory.PinIdempotent | js/sidebar.js:169-177 | Pinning twice is pinning once. |
| ChatHistory.Delete | js/sidebar.js:196-202 | Exactly the found item is removed: the items before it stay in place and the ones after it move up by one. An unknown id changes nothing. |
| ChatHistory.WithoutKeepsWellPinned | js/sidebar.js:199 | Removing any item keeps the pinned-first order. |
| ChatHistory.DeleteKeepsWellPinned | js/sidebar.js:196-202 | Deleting keeps the pinned-first order. |
| ChatHistory.MoveBack | js/sidebar.js:188 | `insertBefore(node, ref)` with `ref` at or before `node`: the node lands at `ref`'s place. Inserting a node before itself changes nothing. |
| ChatHistory.UnpinAsWritten | js/sidebar.js:179-194 | The code as written: the class is removed before the search, so the item is at or after the first unpinned item. It moves only past unpinned items before it, and the append branch is never taken. |
| ChatHistory.UnpinAsWrittenBreaksWellPinned | js/sidebar.js:179-194 | Unpinning `A` in `[A*, B*, C]` as written leaves unpinned `A` above pinned `B`. |
| ChatHistory.UnpinnedSlot | chat.js:517 | The position after the leading run of pinned items. |
| ChatHistory.InsertAt | js/sidebar.js:188-190 | The item sits at `p`, and removing it gives the list back. |
| ChatHistory.InsertAtSlotKeepsWellPinned | chat.js:517 | An unpinned item inserted at that slot keeps the pinned-first order. |
| ChatHistory.UnpinIntended | chat.js:511-531 | Unpinning as its comment states: the item, unpinned, is placed before the first unpinned item among the others, which on a pinned-first list is after every other pinned item (`UnpinIntendedKeepsWellPinned`); the others keep their order. An unknown id changes nothing. |
| ChatHistory.UnpinIntendedKeepsWellPinned | chat.js:511-531 | That unpin keeps the pinned-first order. The item lands right after the pinned items, and the others keep their order. |
| ChatHistory.TruncateTitle | chat.js:206 | Titles of at most 32 characters are kept. Longer ones become their first 32 characters plus "...". |
| ChatHistory.TruncateIdempotent | chat.js:206 | Truncating a truncated title changes nothing. |
| ChatHistory.NewChatItem | chat.js:203-208 | The new history item has no id, is not pinned and carries the truncated question. |
| ChatHistory.NewChatGoesAbovePinned | chat.js:208 | The new chat goes above pinned items too, so it breaks the pinned-first order whenever a pinned item exists. |
| ChatHistory.RenameResult | chat.js:578-601 | Any other key leaves the input open, and Escape restores the old name. Enter and blur make the trimmed text the title exactly when it is not blank, and otherwise keep the old name. |
| ChatHistory.RenameNeverBlank | chat.js:578-601 | A rename never replaces a non-blank title with a blank one. |
| ChatHistory.EnterAndBlurAgree | chat.js:580-601 | Enter and blur decide alike. |
| SidebarModel.IsPinned | js/sidebar.js:111-112 | True iff the item found for the id carries `pinned`. |
| SidebarModel.Sidebar.constructor | js/sidebar.js:6-18 | A full sidebar over the given history. |
| SidebarModel.Sidebar.ToggleMiniMode | js/sidebar.js:70-73 | The mini flag flips and the history stays. |
| SidebarModel.Sidebar.SwitchToMiniMode | js/sidebar.js:205-207 | The sidebar is mini afterwards. |
| SidebarModel.Sidebar.SwitchToFullMode | js/sidebar.js:210-212 | The sidebar is full afterwards. |
| SidebarModel.Sidebar.ShowChatMenu | js/sidebar.js:110-121 | No menu opens without an item. The label is "取消置顶" iff the item is pinned now. |
| SidebarModel.Sidebar.ClickPinButton | js/sidebar.js:144-152 | The menu's pin button takes the path chosen by the state seen when the menu opened: Pin on an unpinned chat, and on a pinned one the corrected reordering `ChatHistory.UnpinIntended`, so the pinned-first order is kept. |
| SidebarModel.Sidebar.PinChat | js/sidebar.js:169-177 | The history becomes `Pin` of the old one and stays pinned-first. |
| SidebarModel.Sidebar.UnpinChat | js/sidebar.js:179-194 | The history becomes `UnpinIntended` of the old one and stays pinned-first. |
| SidebarModel.Sidebar.DeleteChat | js/sidebar.js:196-202 | The history becomes `Delete` of the old one and stays pinned-first. |
| SidebarModel.ToggleTwice | js/sidebar.js:70-73 | Toggling twice restores the flag. |
| SidebarModel.SwitchTwice | js/sidebar.js:205-212 | Switching to one mode twice is switching once. |
| ChatPageModel.SearchFlags | chat.js:271-285 | An item is shown iff its lower-cased title includes the lower-cased, untrimmed term. |
| ChatPageModel.EmptyTermShowsAll | chat.js:271-285 | An empty term shows every item. |
| ChatPageModel.SearchMatchesMeaning | chat.js:277-278 | Shown iff the lower-cased term occurs at some position of the lower-cased title. |
| ChatPageModel.RenameKeepsShape | chat.js:593-601 | Renaming keeps the order, the ids and the pin flags. |
| ChatPageModel.SamePinsSameWellPinned | chat.js:593-601 | Lists with the same pin flags are alike in being pinned-first. |
| ChatPageModel.ChatPage.constructor | chat.js:1-12 | The page starts with an empty input, a disabled send button and the welcome line that line 605 inserts. |
| ChatPageModel.ChatPage.UpdateBtnState | chat.js:160-170 | The send button is enabled iff the trimmed input is non-empty. |
| ChatPageModel.ChatPage.Type | chat.js:169 | The input event sets the value and the button state. |
| ChatPageModel.ChatPage.Send | chat.js:173-195 | Blank input does nothing. Otherwise the trimmed message and its reply are appended: the button reply iff the message is "分子探索". The input is then cleared. |
| ChatPageModel.ChatPage.NewChat | chat.js:198-215 | The first user message, truncated, goes to the top of the history. The transcript becomes the welcome line alone. |
| ChatPageModel.ChatPage.Search | chat.js:271-285 | Each search item's display becomes its `SearchFlags` entry. |
| ChatPageModel.ChatPage.PinChat | chat.js:496-508 | The same reordering as the sidebar's, keeping the pinned-first order. |
| ChatPageModel.ChatPage.UnpinChat | chat.js:511-531 | The intended unpin, keeping the pinned-first order. |
| ChatPageModel.ChatPage.DeleteChat | chat.js:534-547 | The stored conversation and the list item are both removed, and the order stays pinned-first. |
| ChatPageModel.ChatPage.RenameChat | chat.js:550-602 | The found item's title becomes `RenameResult`: on Enter or blur the trimmed text when it is not blank, else the old title; on Escape the old title. An open input or an unknown id changes nothing. |
| ChatPageModel.ChatPage.LoadChatHistory | chat.js:381-404 | An unknown id changes nothing. A known one replays the welcome line and the stored messages, and sets the title to "Ask - " + the stored title. |
| Transcript.Html | js/chat.js:169-171 | chat.js (line 20) only tags molecules, while js/chat.js first turns newlines into `<br>`. The HTML is never shorter than the text. |
| Transcript.Reply | js/chat.js:100-105 | The button reply ("test", button "分子") iff the message is "分子探索". Otherwise the stock reply with regenerate. |
| Transcript.StockReplyShownAsIs | js/chat.js:104 | Both scripts show "test context" as it is. |
| Transcript.Exchange | js/chat.js:97-105 | One send appends the user message, then its reply. |
| Transcript.Replayed | js/chat.js:612-619 | A stored message replays as a user message iff its type is "user". A bot message shows regenerate iff it is the last one stored. |
| Transcript.Replay | js/chat.js:603-620 | The welcome line, then one entry per stored message. |
| Transcript.ReplayShape | js/chat.js:612-619 | Every stored message keeps its place and text. At most one regenerate button shows, on a last entry that is a bot message. |
| Transcript.ReplayMessages | js/chat.js:612-620 | The `forEach` builds exactly `Replay`. |
| Transcript.ReplayEntries | js/chat.js:612-620 | Entry-by-entry agreement is equality with `Replay`. |
| Transcript.FirstUserText | chat.js:201 | The text of the first user message, present iff the transcript has a user message. |
| MoleculeTags.NewlinesToBr | js/chat.js:170 | No newline is left, and text without one is unchanged. |
| MoleculeTags.NewlinesToBrLength | js/chat.js:170 | Each newline adds three characters. |
| MoleculeTags.TokensShape | js/chat.js:171 | The 14 alternatives are non-empty and start with one of the token letters. |
| MoleculeTags.FirstStarting | js/chat.js:171 | The first alternative, in written order, that matches at the current position. |
| MoleculeTags.Span | js/chat.js:171 | The replacement is longer than the token. |
| MoleculeTags.TagWithLength | js/chat.js:171 | A global replace never shortens the text, and keeps its length iff no alternative occurs, in which case the text is unchanged. |
| MoleculeTags.TagWithLengthAtToken | js/chat.js:171 | A match at the start lengthens the text. |
| MoleculeTags.TagWithLengthAtPlain | js/chat.js:171 | No match at the start: the rest of the text decides. |
| MoleculeTags.TagLength | chat.js:20 | The same for the chemistry alternatives. |
| MoleculeTags.LiFSIBeatsLiF | js/chat.js:171 | "LiFSI" is tagged whole, since it is tried before "LiF". |
| MoleculeTags.LiFInsideLiFePO4 | js/chat.js:171 | Without word boundaries, the "LiF" of "LiFePO4" is tagged. |
| MoleculeTags.NoInitialNoToken | js/chat.js:171 | Text without any token letter is left alone. |
| MoleculeTags.StockReplyUntouched | js/chat.js:169-171 | "test context" passes both rewrites unchanged. |
| ModeSwitching.PlaceholderFor | js/mode-switcher.js:114-119 | The deep-space text for "deep-space"; the regular text for every other mode that is not a prototype name. |
| ModeSwitching.ConfigFor | js/mode-switcher.js:161-177 | The deep-space configuration for "deep-space"; the regular one for every other mode that is not a prototype name. |
| ModeSwitching.PlaceholderMatchesConfig | js/mode-switcher.js:114-177 | The placeholder and the configuration always describe the same mode. |
| ModeSwitching.ActiveFlags | js/mode-switcher.js:84-90 | A button is active iff its `data-mode` is the mode. |
| ModeSwitching.MarkActive | js/mode-switcher.js:84-90 | The `forEach` sets exactly `ActiveFlags`. |
| ModeSwitching.AtMostOneActive | js/mode-switcher.js:84-90 | With distinct modes on the buttons, at most one button is active. |
| ModeSwitching.ModeSwitcher.constructor | js/mode-switcher.js:7-8 | The switcher starts in the regular mode with no events. |
| ModeSwitching.ModeSwitcher.SwitchMode | js/mode-switcher.js:80-108 | Switching to the current mode changes nothing and sends no event. Otherwise the mode is set, the matching buttons become active, exactly one event with the new mode is sent, and the placeholder is updated. |
| ModeSwitching.ModeSwitcher.UpdatePlaceholder | js/mode-switcher.js:110-120 | The placeholder becomes the table's text for the mode, when the textarea exists. |
| ModeSwitching.ModeSwitcher.IsDeepSpaceMode | js/mode-switcher.js:151-153 | True iff the mode is "deep-space". |
| ModeSwitching.ModeSwitcher.GetModeConfig | js/mode-switcher.js:161-178 | The deep-space configuration in that mode, the regular one otherwise. |
| ModeSwitching.SwitchTwice | js/mode-switcher.js:81 | Switching to a mode twice sends one event. |
| ChatModule.NextSet | js/chat.js:900 | `(i + 1) % 3`: the next set, wrapping to 0 after the last. |
| ChatModule.ThreeRefreshesCycle | js/chat.js:900-901 | Three refreshes come back to the start, and one or two do not. |
| ChatModule.Chat.constructor | js/chat.js:7-55 | The page starts with an empty, disabled input, the welcome line and set 0. |
| ChatModule.Chat.UpdateBtnState | js/chat.js:81-91 | The button is disabled iff the trimmed input is empty. |
| ChatModule.Chat.Type | js/chat.js:65 | The input event sets the value and the button state. |
| ChatModule.Chat.SendMessage | js/chat.js:93-109 | Blank input does nothing. Otherwise the exchange is appended, the input cleared and the button disabled. |
| ChatModule.Chat.StartNewChat | js/chat.js:534-539 | The transcript gives way to the new-chat screen and the bottom input is hidden. The screen has an empty input, the regular mode active and the first question set. |
| ChatModule.Chat.UpdateNewChatBtnState | js/chat.js:776-789 | Without the screen nothing happens. Otherwise the button is disabled iff the trimmed input is empty. |
| ChatModule.Chat.TypeNewChat | js/chat.js:721-722 | The input event on the new-chat input. |
| ChatModule.Chat.SwitchNewChatMode | js/chat.js:791-824 | Without buttons or input nothing happens. Otherwise exactly the matching buttons become active, and the placeholder is the table's text for the mode. |
| ChatModule.Chat.SendNewChatMessage | js/chat.js:840-866 | Blank input does nothing. Otherwise the screen goes away, the transcript is the exchange alone, and the bottom input shows again. |
| ChatModule.Chat.ChooseRecommended | js/chat.js:756-767 | A click on a question fills the input and sends it (the refreshed questions of lines 918-925 do the same). |
| ChatModule.Chat.RefreshQuestions | js/chat.js:898-928 | The index advances to `NextSet`. The next set shows only while the screen is there. |
| ChatModule.Chat.LoadChatHistory | js/chat.js:541-623 | An unknown id changes nothing. A known one replays the stored conversation, sets the title and removes the new-chat screen. |
| ChatModule.RefreshThrice | js/chat.js:898-901 | Three refreshes restore the index. |
| ChatModule.RefreshThenNewChat | js/chat.js:534-539 | A new screen lists the first set while the index stays where it was. |
| SearchModalModel.Display | js/search-modal.js:121-172 | The "no match" placeholder shows iff the list is empty. Otherwise the chats show in order. |
| SearchModalModel.Attribute | js/search-modal.js:144 | The id as `setAttribute` writes it: a string as is, a number as its decimal text, digits whose value is the number with no leading zero. |
| SearchModalModel.MatchingKeepsAll | js/search-modal.js:84-86 | A chat is kept iff it is listed and its lower-cased title includes the lower-cased query. |
| SearchModalModel.MatchingAppend | js/search-modal.js:84-86 | Filtering distributes over concatenation, so it keeps the order. |
| SearchModalModel.WithoutIdKeepsOthers | js/search-modal.js:208-211 | A chat is kept iff it is listed and its id differs. |
| SearchModalModel.WithoutIdAppend | js/search-modal.js:208-211 | Removal keeps the order of the others. |
| SearchModalModel.StrictIdEquality | js/search-modal.js:209 | The text id "1" does not remove the number id 1. |
| SearchModalModel.RecentChats | js/search-modal.js:102-115 | The seven fixed chats with number ids 1 to 7. |
| SearchModalModel.FirstId | js/search-modal.js:92-95 | The first listed item's id, present iff a result is listed. |
| SearchModalModel.SearchModal.constructor | js/search-modal.js:7-19 | The dialog starts hidden over the recent chats. |
| SearchModalModel.SearchModal.LoadRecentChats | js/search-modal.js:102-119 | The list resets to the seven chats, and all of them show. |
| SearchModalModel.SearchModal.ShowModal | js/search-modal.js:51-63 | The dialog opens on the seven fixed chats, and anything added earlier is lost. |
| SearchModalModel.SearchModal.HideModal | js/search-modal.js:65-76 | The dialog hides and the query clears. |
| SearchModalModel.SearchModal.HandleSearch | js/search-modal.js:78-89 | A blank query shows every chat. Otherwise only the matching chats show. |
| SearchModalModel.SearchModal.SelectChat | js/search-modal.js:174-183 | One request is dispatched, then the dialog always hides. |
| SearchModalModel.SearchModal.HandleEnterKey | js/search-modal.js:91-100 | Enter selects the first listed chat, by its attribute text, only if one has a non-empty id. The placeholder selects nothing. |
| SearchModalModel.SearchModal.ClickResult | js/search-modal.js:152-154 | A click on a listed chat selects it by its own id. |
| SearchModalModel.SearchModal.SetSearchResults | js/search-modal.js:196-199 | The list is replaced wholesale. |
| SearchModalModel.SearchModal.AddChatItem | js/search-modal.js:202-205 | The chat is appended at the end. |
| SearchModalModel.SearchModal.RemoveChatItem | js/search-modal.js:208-211 | Every chat with that id goes, and the rest keep their order. |
| Feedback.UploadCheck | js/feedback-modal.js:150-159 | A file passes iff its type matches and its size is at most 5 MiB. The type alert is shown iff the type fails, and the size alert iff the type passes but the file is too large. |
| Feedback.SizeLimitInclusive | js/feedback-modal.js:156 | Exactly 5,242,880 bytes passes; one byte more does not. |
| Feedback.UnanchoredTypeCheck | js/feedback-modal.js:150 | "x-image/pngfoo" passes the unanchored type check. |
| Feedback.TypeCheckedFirst | js/feedback-modal.js:150-159 | A file failing both checks gets the type alert. |
| Feedback.FeedbackModal.constructor | js/feedback-modal.js:7-17 | The dialog starts hidden, with an empty form and no alerts. |
| Feedback.FeedbackModal.IsVisible | js/feedback-modal.js:127-129 | True iff `show` is set. |
| Feedback.FeedbackModal.Open | js/feedback-modal.js:108-117 | `show` is set. |
| Feedback.FeedbackModal.ResetForm | js/feedback-modal.js:131-144 | The fields and the upload area go back to their defaults. |
| Feedback.FeedbackModal.Close | js/feedback-modal.js:119-125 | `show` is cleared and the form is reset. |
| Feedback.FeedbackModal.Escape | js/feedback-modal.js:101-105 | Escape closes only a visible dialog, emptying the description, the selected file and the upload area's name and marker; a hidden dialog is left as it was. |
| Feedback.FeedbackModal.TypeDescription | js/feedback-modal.js:176 | The description is what was typed. |
| Feedback.FeedbackModal.HandleFileUpload | js/feedback-modal.js:146-170 | With no file nothing changes. A refused file raises its alert and leaves the upload area as it was. An accepted file marks the area and shows the file's name. |
| Feedback.FeedbackModal.HandleSubmit | js/feedback-modal.js:172-194 | A blank description raises its alert and leaves every other field as it was. Otherwise the thanks alert is raised and the dialog closes, resetting the description, the file and the upload area. |
| Enhancements.AdjustedHeight | js/chat-enhancements.js:33-34 | `min(scrollHeight, 200)`. |
| Enhancements.AdjustedHeightMonotone | js/chat-enhancements.js:33-34 | A taller content never gives a shorter box. |
| Enhancements.SpacesHaveLengthButNoText | js/chat-enhancements.js:153-159 | Three spaces have length 3 but no text. |
| Enhancements.CtrlEnterInInputSendsOnce | js/chat-enhancements.js:41-99 | Ctrl+Enter in the focused input runs both handlers, yet sends one event. |
| Enhancements.ChatEnhancements.constructor | js/chat-enhancements.js:7-13 | The input starts empty and not typing. |
| Enhancements.ChatEnhancements.UpdateSendButtonState | js/chat-enhancements.js:110-119 | The button is disabled iff the trimmed value is empty, and active iff enabled. |
| Enhancements.ChatEnhancements.Input | js/chat-enhancements.js:29-60 | An input event: the value and height are set, the button state updated, and the typing flag raised with its timer restarted. |
| Enhancements.ChatEnhancements.TypingTimeout | js/chat-enhancements.js:56-59 | The pending timer clears the typing flag. |
| Enhancements.ChatEnhancements.Focus | js/chat-enhancements.js:65-71 | Focus and blur set the focus flag. |
| Enhancements.ChatEnhancements.SendMessage | js/chat-enhancements.js:126-143 | Blank input does nothing. Otherwise exactly one event with the trimmed text is sent, then the input is cleared. |
| Enhancements.ChatEnhancements.ClearInput | js/chat-enhancements.js:173-177 | The input is emptied, its height reset, and the button disabled. |
| Enhancements.ChatEnhancements.KeyDown | js/chat-enhancements.js:41-107 | A send key on non-blank input sends the trimmed text once and clears the input, its height and its button. Escape in the focused input clears them without sending; every other case changes nothing. |
| Enhancements.ChatEnhancements.GetInputState | js/chat-enhancements.js:153-159 | `hasText` comes from the trimmed value and `textLength` from the raw one. |
| MoleculePanelModel.Values | js/molecule-panel.js:212-217 | One text per property id. |
| MoleculePanelModel.MoleculeDataFacts | js/molecule-panel.js:230-339 | Unknown names get all '-'. Known ones have SMILES, weight and availability. Only TMSPi has orbital energies. |
| MoleculePanelModel.UnknownShowsDashes | js/molecule-panel.js:325-339 | An unknown name shows the markup's dashes; a known one does not. |
| MoleculePanelModel.MoleculePanel.constructor | js/molecule-panel.js:22-108 | The panel starts hidden, with the placeholder name and dashes. |
| MoleculePanelModel.MoleculePanel.IsVisible | js/molecule-panel.js:353-355 | True iff the display is "block". |
| MoleculePanelModel.MoleculePanel.WriteTexts | js/molecule-panel.js:212-217 | The `forEach` writes each property text. |
| MoleculePanelModel.MoleculePanel.LoadMoleculeData | js/molecule-panel.js:206-228 | The texts become the molecule's data, and the image shows iff the name is TMSPi. |
| MoleculePanelModel.MoleculePanel.AdjustLayout | js/molecule-panel.js:196-204 | The layout class follows the flag only when the layout exists. |
| MoleculePanelModel.MoleculePanel.SyncSidebar | js/molecule-panel.js:175-191 | The sidebar switches only with a captured element and an instance. |
| MoleculePanelModel.MoleculePanel.ShowPanel | js/molecule-panel.js:151-180 | The panel shows the named molecule's data and adds the layout class. The sidebar element is captured, and a captured sidebar goes mini. |
| MoleculePanelModel.MoleculePanel.HidePanel | js/molecule-panel.js:182-194 | The panel hides and drops the layout class. The full sidebar returns only if an earlier show captured it. |
| MoleculePanelModel.MoleculePanel.Escape | js/molecule-panel.js:125-129 | Escape hides only a visible panel. |
| MoleculePanelModel.MoleculePanel.UpdateMoleculeData | js/molecule-panel.js:358-362 | A reload of the molecule on display changes nothing visible. |
| MoleculePanelModel.HideBeforeShowKeepsSidebar | js/molecule-panel.js:189-191 | Hiding before any show leaves the sidebar as it was. |
| MoleculePanelModel.ShowThenHide | js/molecule-panel.js:151-194 | With a sidebar on the page, show then hide ends in the full sidebar with the history untouched. |
| Performance.CeilDiv | js/performance-utils.js:171 | `Math.ceil(x / h)`: the least `q` with `q * h >= x`. |
| Performance.VisibleWindow | js/performance-utils.js:174-176 | The window ends at or before `n` and starts at or before the first visible index. It ends either at `n` or at the buffered ceiling. |
| Performance.ViewportIsRendered | js/performance-utils.js:175-176 | Every item meeting the viewport lies in the window, whatever the buffer. |
| Performance.UpdateVisibleItems | js/performance-utils.js:174-199 | The top spacer is `start * h` and the bottom spacer is `(n - end) * h`. Exactly the indices in `[start, end)` are rendered, in order, at `i * h` with height `h`. |
| Performance.FrameShowsViewport | js/performance-utils.js:174-199 | A rendered frame holds the element of every item that meets the viewport. |
| Performance.FramePartitions | js/performance-utils.js:183-201 | A non-inverted window partitions the container's `n * h` pixels. An inverted one renders nothing. |
| Performance.ItemsAreContiguous | js/performance-utils.js:187-193 | The rendered items follow each other edge to edge, in index order. |
| Performance.Timers.constructor | js/performance-utils.js:7-11 | Both timer maps and the observers start empty. |
| Performance.Timers.DebounceCall | js/performance-utils.js:20-28 | A call replaces its key's pending invocation and runs nothing. |
| Performance.Timers.DebounceFire | js/performance-utils.js:23-26 | The pending invocation runs and its key is removed. |
| Performance.Timers.ThrottleCall | js/performance-utils.js:37-46 | A call runs iff its key is free, and the key is occupied afterwards. Other keys are untouched. |
| Performance.Timers.ThrottleExpire | js/performance-utils.js:41-43 | The expiry frees its key. |
| Performance.Timers.Cleanup | js/performance-utils.js:231-241 | Both timer maps and the observers are emptied. |
| Performance.DebounceBurst | js/performance-utils.js:20-28 | A burst followed by the timer runs only the last call. |
| Performance.ThrottleBurst | js/performance-utils.js:37-46 | A burst on a free key runs only the first call. |
| Performance.CleanupCancels | js/performance-utils.js:231-235 | After cleanup, a timer that was pending runs nothing. |
| Performance.VirtualScroll.constructor | js/performance-utils.js:163-212 | The options default to 50 and 5. The container height is `n * itemHeight`, and the first frame is the full render of scroll position 0: both spacers and every item of the window. |
| Performance.VirtualScroll.Scroll | js/performance-utils.js:205-208 | A scroll on an occupied throttle key neither reads `scrollTop` nor re-renders. Otherwise the frame becomes the full render of the new position. Either way the frame stays the render of the position last read. |

## Left out

- The server's file I/O (`fs`), Express routing, CORS and `listen`. The store is an in-memory sequence.
- `generateVerificationCode` and `Date.now()`: the reset code and the clock are parameters.
- The early-life prediction endpoint: its handler is not in `server.js` and is not part of this model.
- The test scripts' `fetch` calls, file reading and console output.
- The floating-point `confidence * 100` of test_early_life_prediction.js: the colour takes an integer percent.
- The form scripts' `fetch` calls, redirects and messages after the response, `getTokenFromUrl`, and the `setTimeout` that re-enables the forgot button.
- DOM construction and HTML/SVG strings, clipboard, tooltips and their geometry, animations, message editing and regeneration.
- The fixed demo transcripts and the delayed demo messages of `insertWelcomeMessage`: stored conversations are parameters, and a page starts with the welcome line.
- The click on a search item in chat.js, which opens a conversation through `loadChatHistory`, modelled on its own.
- `ModeSwitcher.init`, which calls the nonexistent `updateMode`. The model starts from the regular mode.
- `ModeSwitcher.destroy`, `getCurrentMode`, `setMode` (the same as `SwitchMode`) and the tooltip handlers.
- JsText.Lower: only ASCII letters are lower-cased. Other case mappings of `toLowerCase` are not modelled; the titles involved are Chinese or ASCII.
- Lengths are counted in characters, not in UTF-16 code units.
- CsvRows: a row is a `map`, so the key order of the row object is not modelled. Header names that are prototype keys such as `__proto__` are not singled out.
- MoleculePanelModel.MoleculeData: prototype names such as `constructor` are treated as unknown.
- `getElementById` finding other elements with the same ids is not modelled.
- An id with no list item makes `querySelector(...).closest` throw. The model treats this as no change.
- The Escape-then-blur double handling of `renameChat`: the first event that ends the editing decides.
- Performance.VisibleWindow, Performance.CeilDiv, Performance.UpdateVisibleItems and Performance.VirtualScroll.constructor: require a positive item height. A zero or negative option would give JavaScript's `Infinity`/`NaN` indices, which are not modelled; neither are fractional pixels.
- `lazyLoadImages`, `preloadResources`, `optimizeScroll`, `optimizeResize`, `batchDOMOperations` and `detectMemoryLeaks`: they rest on browser observers, `requestAnimationFrame` and floating-point memory figures.
- Timers never run on their own: each expiry is an explicit step.
- Molecule panel `addToFavorites`, `findSimilarMolecules` and `showNotification`: notification UI only.
- MoleculePanelModel.MoleculePanel.UpdateMoleculeData: its `data` argument is ignored, as in the source.
- The context files: page templates, tab and dropdown toggles, the iframe interceptor, the debug and API test scripts, and the module wiring.
- SidebarModel.Sidebar.UnpinChat follows the corrected reordering `ChatHistory.UnpinIntended`, not the code as written. The code's behaviour is `ChatHistory.UnpinAsWritten`; see Findings.
- ChatPageModel.ChatPage.UnpinChat follows the corrected reordering as well, for the same reason.
- SidebarModel.Sidebar.ClickPinButton: its unpin path is `UnpinChat`, so it also follows the corrected reordering, not the code as written.
- Prototype names as lookup keys: `placeholders[mode] || placeholders.regular` (js/mode-switcher.js:119, js/chat.js:812) and `configs[this.currentMode] || configs.regular` (js/mode-switcher.js:177) yield an inherited `Object` member for a mode such as `constructor`; ModeSwitching.PlaceholderFor and ModeSwitching.ConfigFor give the regular value instead.
- ChatModule.Chat.LoadChatHistory and ChatPageModel.ChatPage.LoadChatHistory: an id such as `constructor` finds an inherited member of `chatHistory` (js/chat.js:597, chat.js:382), changes the page and then throws; the model treats every id outside the stored map as unknown and changes nothing.
- Accounts: request fields are strings, with `""` standing for a missing field. Non-string JSON values in `req.body` (numbers, objects, arrays) and their JavaScript comparisons are not modelled.

## Findings

| source | as written | input that shows it | evidently intended | confidence | as-written member | corrected member |
|---|---|---|---|---|---|---|
| js/sidebar.js:179-194 | The `pinned` class is removed (here and in chat.js:511-531) before the first unpinned item is looked up. That item is then the unpinned chat itself or an earlier one, so the chat never moves past the other pinned chats, and the append-to-end branch is unreachable. | History `[A pinned, B pinned, C]`, unpin `A`: the result is `[A, B pinned, C]`, with an unpinned chat above a pinned one. | The comment at chat.js:517 says the chat moves to the unpinned region: after every pinned chat, here `[B pinned, A, C]`. | not executed | ChatHistory.UnpinAsWritten, ChatHistory.UnpinAsWrittenBreaksWellPinned | ChatHistory.UnpinIntended, ChatHistory.UnpinIntendedKeepsWellPinned |
