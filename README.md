# nheko: membership extraction, mention popup and registration form

This project models three small pieces of logic from nheko, a desktop client for the Matrix chat protocol. Verified Dafny proves what each piece promises.

- **Membership extraction** (`ChatPage.dfy`, module `ChatPage`). The chat page turns a list of room state events into a map from user id to that user's `m.room.member` event. Only membership events are kept. They are keyed by their state key and inserted with `emplace`, so the earliest event for a user wins. `GetMemberships` is the loop. `Collect` is the map the loop has built after a prefix of the input. The lemmas prove these properties of `Collect`: the key set, first-wins, that events of other kinds are ignored, the size bound and the empty case.
- **Suggestions popup** (`Suggestions.dfy`, module `Suggestions`). The user-mention popup keeps an ordered list of `PopupItem` objects, each with a user id and a hover flag, and a cursor `selectedItem`.
  - `AddUsers` empties the list and fills it again.
  - `SelectNextSuggestion` and `SelectPreviousSuggestion` move the cursor with wrap-around. Their cursor arithmetic is stated as the functions `NextIndex` and `PrevIndex`. Lemmas prove that up to a full round of presses walks the items cyclically and returns to the start.
  - `HoverSelection` leaves exactly the item under the cursor hovered.
  - `SelectHoveredSuggestion` emits the selected user's display name, or does nothing when no item is under the cursor.
  - Each item's avatar letter follows the Matrix-id rule. Its mouse handler ignores a press of the right button alone.
- **Registration page** (`Register.dfy`, module `Register`). The register button clears the error label. It then runs four checks in a fixed order: username, password, password confirmation, server. The first failing check sets its message; if all pass, the client is asked to register. The registration-flow handler creates the CAPTCHA dialog only once. Closing the dialog registers with the values its handler was connected with. Signals and client calls go to one ordered log, `effects`.

`Wrappers.dfy` holds the `Option` type the other modules use.

Code outside this model, and how the model treats what it defines:

- Members defined in include/SuggestionsPopup.hpp, which this model does not cover. The model assumes:
  - `selectFirstItem` sets the cursor to 0.
  - `selectLastItem` sets it to the item count minus one.
  - `resetSelection` sets it to -1 (`NoSelection`). This is also the cursor's initial value.
  - `PopupItem::user()` returns the item's user id.
  - `PopupItem::setHovering(state)` sets the item's hover flag to `state`.
- `QLayout::itemAt` returns null outside `[0, count)`. `selectHoveredSuggestion` checks for that null. `SuggestionsPopup::setHovering` does not: it calls `->widget()` on the result. So `setHovering` and `hoverSelection` crash whenever the position, or the cursor, is outside the list. That includes a non-empty popup whose cursor is -1, as it is right after `addUsers`. The model therefore requires the position to be inside the list for `SetHovering`, and the cursor to be inside the list for `HoverSelection`. `selectNextSuggestion` and `selectPreviousSuggestion` always move the cursor onto an item of a non-empty popup before hovering. On an empty popup they hit the same null, so the model requires a non-empty popup for those two.
- `addUsers` with an empty result list does not reset the cursor, so a stale cursor can remain while the popup is empty. `SuggestionsPopup.Valid` allows exactly that.
- These enter as function-typed parameters:
  - `Cache::displayName` for the current room, as `names`.
  - `utils::firstChar`, as `firstChar`.
  - The `hasAcceptableInput` validators of the username, password and server fields, as `Validators`.
- `tr()` is taken as the identity on the message texts.

## Model

| member | source | states |
|---|---|---|
| ChatPage.GetMemberships | include/ChatPage.h:198-214 | The loop builds exactly `Collect(collection)`. Its keys are exactly the state keys of the `Member` events. Each key maps to the earliest `Member` event with that key. It has at most one entry per `Member` event, hence at most one per input event. |
| ChatPage.CollectKeys | include/ChatPage.h:206-210 | Soundness and completeness: a key is in the result if and only if some `Member` event of the input has it as its state key. |
| ChatPage.CollectFirstWins | include/ChatPage.h:209 | When no earlier `Member` event has the same state key, the result maps that key to this event: `emplace` never overwrites. |
| ChatPage.DuplicateIgnored | include/ChatPage.h:209 | Appending a `Member` event whose key is already present leaves the map unchanged. |
| ChatPage.CollectIgnoresOtherState | include/ChatPage.h:207-208 | Events that are not `Member` contribute nothing: the result equals the result on the `Member` events alone. |
| ChatPage.CollectSize | include/ChatPage.h:206-210 | The result has at most as many entries as there are `Member` events, and those are at most the input length. |
| ChatPage.NoMembersEmpty | include/ChatPage.h:202-213 | An input without `Member` events, in particular an empty one, yields the empty map. |
| Suggestions.MatrixIdLetter | src/SuggestionsPopup.cpp:37-41 | A Matrix id `@localpart:server` gets the first letter of its localpart as its avatar letter. |
| Suggestions.PlainNameLetter | src/SuggestionsPopup.cpp:37-41 | A name of at most one character, or one not starting with `@`, keeps the letter `utils::firstChar` gives. |
| Suggestions.PopupItem.constructor | src/SuggestionsPopup.cpp:18-43 | A new item carries its user id, shows the cached display name, has the avatar letter of that name and is not hovered. |
| Suggestions.PopupItem.SetHovering | src/SuggestionsPopup.cpp:149 | Assumed effect of `PopupItem::setHovering` (SuggestionsPopup.hpp): the item's hover flag becomes the given value. |
| Suggestions.PopupItem.MousePress | src/SuggestionsPopup.cpp:67-74 | `clicked` is emitted if and only if the held buttons are not exactly the right button. It carries the user's display name. |
| Suggestions.NextIndex | src/SuggestionsPopup.cpp:122-130 | On a non-empty popup, the cursor after "next" always lies on an item. |
| Suggestions.PrevIndex | src/SuggestionsPopup.cpp:132-140 | On a non-empty popup, the cursor after "previous" always lies on an item. |
| Suggestions.FromNoSelection | src/SuggestionsPopup.cpp:122-140 | From "no selection", "next" selects the first item and "previous" the last. |
| Suggestions.NextPrevInverse | src/SuggestionsPopup.cpp:122-140 | On a selected item, "next" and "previous" undo each other, including across the wrap. |
| Suggestions.NextTimes | src/SuggestionsPopup.cpp:122-130 | Any number of "next" presses keeps the cursor on an item. |
| Suggestions.PrevTimes | src/SuggestionsPopup.cpp:132-140 | Any number of "previous" presses keeps the cursor on an item. |
| Suggestions.NextTimesCycles | src/SuggestionsPopup.cpp:122-130 | `n` presses of "next", with `n` up to the item count, move `n` places and wrap past the last item. So a full round of presses returns to the start. |
| Suggestions.PrevTimesCycles | src/SuggestionsPopup.cpp:132-140 | `n` presses of "previous" move `n` places back and wrap before the first item. So a full round returns to the start. |
| Suggestions.SuggestionsPopup.constructor | src/SuggestionsPopup.cpp:76-85 | A new popup has no items, no selection and is hidden. |
| Suggestions.SuggestionsPopup.ItemAt | src/SuggestionsPopup.cpp:163-168 | The layout lookup gives an item exactly for a position inside the list, and then the item at that position. |
| Suggestions.SuggestionsPopup.SelectFirstItem | src/SuggestionsPopup.cpp:127 | Assumed effect of `selectFirstItem` (SuggestionsPopup.hpp): the cursor becomes 0. |
| Suggestions.SuggestionsPopup.SelectLastItem | src/SuggestionsPopup.cpp:137 | Assumed effect of `selectLastItem` (SuggestionsPopup.hpp): the cursor becomes the item count minus one. |
| Suggestions.SuggestionsPopup.ResetSelection | src/SuggestionsPopup.cpp:108 | Assumed effect of `resetSelection` (SuggestionsPopup.hpp): the cursor becomes "no selection". |
| Suggestions.SuggestionsPopup.AddUsers | src/SuggestionsPopup.cpp:87-112 | All old items are removed. With no results the popup ends empty and hidden, cursor untouched. Otherwise it holds one fresh, unhovered item per result, in order, with that result's user id, and the selection is reset. |
| Suggestions.SuggestionsPopup.ResetHovering | src/SuggestionsPopup.cpp:142-151 | Afterwards no item is hovered. |
| Suggestions.SuggestionsPopup.SetHovering | src/SuggestionsPopup.cpp:153-161 | The item at the position becomes hovered; every other item keeps its flag. |
| Suggestions.SuggestionsPopup.HoverSelection | src/SuggestionsPopup.cpp:114-120 | Afterwards exactly the item under the cursor is hovered. |
| Suggestions.SuggestionsPopup.SelectNextSuggestion | src/SuggestionsPopup.cpp:122-130 | The cursor becomes `NextIndex` of the old cursor, and exactly that item is hovered. Items and visibility are unchanged. |
| Suggestions.SuggestionsPopup.SelectPreviousSuggestion | src/SuggestionsPopup.cpp:132-140 | The cursor becomes `PrevIndex` of the old cursor, and exactly that item is hovered. Items and visibility are unchanged. |
| Suggestions.SuggestionsPopup.SelectHoveredSuggestion | src/SuggestionsPopup.cpp:163-174 | With no item at the cursor, nothing is emitted and nothing changes. Otherwise it emits the display name of that item's user and resets the selection. |
| Register.FirstFailureIsFirst | src/RegisterPage.cc:179-186 | The chain reports nothing exactly when all four checks pass. Otherwise it reports a failing check, and every check ranked before it passes. |
| Register.MismatchNeedsAcceptablePassword | src/RegisterPage.cc:181-184 | A password mismatch is reported only when the username and the password are acceptable and the two password texts differ. |
| Register.EarlierFailureWins | src/RegisterPage.cc:179-180 | An unacceptable username is reported whatever the other fields hold. |
| Register.RegisterUserGating | src/RegisterPage.cc:179-193 | A press calls `registerUser` if and only if all checks pass. The call carries the username, password and server texts and no session, and `registering` follows it. A press with any failing check records only `errorOccurred`. |
| Register.ReCaptcha.constructor | src/RegisterPage.cc:143-144 | A new dialog is bound to the flow's server and session and is not yet shown. |
| Register.RegisterPage.constructor | src/RegisterPage.cc:76-102 | A new page has empty fields, an empty label, nothing recorded and no CAPTCHA dialog. |
| Register.RegisterPage.SetForm | src/RegisterPage.cc:76-93 | The user's edits replace the texts of the four fields. |
| Register.RegisterPage.RegisterError | src/RegisterPage.cc:167-172 | Records `errorOccurred` and sets the label to the message. |
| Register.RegisterPage.OnRegisterButtonClicked | src/RegisterPage.cc:174-195 | The label ends as the message of the first failing check, or empty when all pass: it is cleared first. The log grows by exactly `ClickEffects`. |
| Register.RegisterPage.RegistrationFlow | src/RegisterPage.cc:133-156 | Records `errorOccurred`. An existing dialog and its closing handler are kept. Only when there is none is a fresh dialog created for the flow's server and session, with a handler bound to the flow's values. The dialog ends shown. |
| Register.RegisterPage.CaptchaClosing | src/RegisterPage.cc:145-152 | Closes the dialog, records `registering`, then `registerUser` with the stored user, password, server and session. |
| Register.RepeatedFlowsReuseDialog | src/RegisterPage.cc:142-152 | After two registration flows and a close, one dialog from the first flow exists. The only registration uses the first flow's values. |

## Left out

- Widget construction and layout, fonts, icons, margins, and the popup's `adjustSize`/`resize` geometry: these are toolkit wiring with no behaviour to state.
- Every `paintEvent`, including the hover fill of a popup item and the repaint that `update()` requests.
- `AvatarProvider::resolve`: asynchronous image loading.
- The `connect` of each popup item's `clicked` to the popup's `itemSelected`: signal wiring. `PopupItem.MousePress` returns what is forwarded.
- The `qobject_cast` checks in `resetHovering`, `setHovering` and `selectHoveredSuggestion`: only popup items are ever added to the layout, so the casts always succeed.
- Deleting the removed widgets in `addUsers`: memory management.
- `QTimer::singleShot(1000, …)` in the registration-flow handler: `RegistrationFlow` shows the dialog at once instead of a second later.
- The back button, `onBackButtonClicked`, and `QWidget::mousePressEvent` pass-through: no behaviour beyond emitting or forwarding.
- The `MatrixClient` calls (`registerUser`, `readEvent`, `redactEvent`): network requests. `registerUser` appears only as a recorded `RegisterUser` effect; the other two are not modelled.
- The validators behind `hasAcceptableInput`: not part of this model. The "min 8 chars" rule appears only in a message text, so no length rule is encoded.
- The rest of `ChatPage` (src/ChatPage.cc, the timers and their constants, typing users, sync): not modelled.
- `src/TopRoomBar.cc`: layout, menu placement, pixel-width text elision and a URL substitution whose constants are defined outside this model.
- Suggestions.SuggestionsPopup.SelectNextSuggestion: requires a non-empty popup. On an empty one the source dereferences a null layout item in `setHovering`. The same holds for `SelectPreviousSuggestion`.
- Suggestions.SuggestionsPopup.HoverSelection: requires the cursor to be inside the list. With any other cursor, -1 on a non-empty popup included, the source dereferences a null layout item in `setHovering`.
- Suggestions.SuggestionsPopup.SetHovering: requires the position to be inside the list. Outside it, `itemAt` gives null and the source calls `->widget()` on it.
- Suggestions.AvatarLetter: treats a display name as a sequence of Unicode scalar values. QString's `size()` and `at()` count UTF-16 code units. For a name whose second character lies outside the Basic Multilingual Plane, such as "@𝔸lice", the source shows a lone high surrogate (U+D835) and the model shows the whole character. The same difference applies to the `size() > 1` test. This reaches `PopupItem.constructor` through the letter it stores.
