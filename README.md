# ReactCodeInput state controller

This project models the state controller of `ReactCodeInput`, a segmented
one-time-code field. The field has `fields` single-character boxes that
together act as one code. The controller:

- derives the box values and the autofocus box from the `fields` and
  `values` props;
- clears every box through `clearValues`;
- reports the joined code to the host through `onChange`, and through
  `onComplete` once the joined code reaches `fields` characters;
- handles Backspace and the arrow keys;
- handles typed and pasted input. In numeric mode it first drops every
  non-digit.

The project has three modules:

- `Code` (`code.dfy`) holds the values and the pure computations, written as
  functions and lemmas:
  - the joined code (`Join`) and the callbacks it triggers (`Notify`);
  - the digit filter (`StripNonDigits`);
  - the spreading of a paste over the boxes (`Spread`);
  - the derivation of the initial boxes.
- `ReactCodeInput` (`controller.dfy`) holds the class `CodeInput`:
  - The component state is its fields: a `values` array with one entry per
    box, the autofocus index, and a log `events` of every host callback made
    so far.
  - The handlers are methods that update the array in place and append to
    the log.
  - DOM focus is modelled as a returned focus target, an `Option` box index.
- `Scenarios` (`scenarios.dfy`) is client code that uses only the
  controller's contracts. It walks through several sequences:
  - types "1", "2", "3" into an empty six-box numeric field, then pastes
    "456" at box 3. After the paste the host receives `onChange("123456")`
    and then `onComplete("123456")`;
  - types a letter into a numeric box, which changes nothing;
  - presses Backspace on a filled box that has a predecessor;
  - derives the boxes from the string `"12"`, then clears them.

A box "exists" exactly when its index lies in `[0, fields)`.

On Backspace the model follows the code. When the current box is non-empty
it is cleared and the host is notified. Independently, when `index > 0` the
previous box is also cleared, focus moves to it, and the host is notified a
second time. So Backspace on a filled box with a predecessor clears *two*
boxes and moves focus (`src/index.tsx:128-143`).
`Scenarios.BackspaceTwice` shows this behaviour.

## Model

| member | source | states |
|---|---|---|
| Code.Notify | src/index.tsx:106-113 | `onChange` is reported exactly when the host supplied it. `onComplete` is reported exactly when the host supplied it and the joined code has at least `fields` characters. Every event carries the joined code and `onChange` comes first. Each callback is made at most once: the number of events is exactly the number of those two conditions that hold. |
| Code.Join | src/index.tsx:107 | The joined code is empty exactly when no box is filled. |
| Code.JoinLengthOfSingles | src/index.tsx:107-110 | When every box holds at most one character, the joined code has one character per filled box. |
| Code.FilledCountBound | src/index.tsx:110 | At most every box is filled. All boxes are filled exactly when none is empty. |
| Code.CompleteIffAllFilled | src/index.tsx:107-111 | With `fields` single-character boxes, the joined length reaches `fields` exactly when every box is non-empty, and it never exceeds `fields`. |
| Code.CompletionReportedIffFilled | src/index.tsx:106-113 | With single-character boxes and an `onComplete` listener, completion is reported exactly when every box is filled, and a reported completed code is exactly `fields` characters long. |
| Code.EmptyBoxNeverCompletes | src/index.tsx:128-143 | With single-character boxes, a notification made while some box is empty, as after either clearing of a backspace, only ever calls `onChange`. A multi-character entry from a supplied list can still complete the code early (see "## Left out"). |
| Code.StripNonDigits | src/index.tsx:163-165 | The numeric filter keeps exactly the digits of the input: it never lengthens the input, its result is all digits, a character is in the result exactly when it is a digit of the input, and an all-digit input is unchanged. |
| Code.InputValue | src/index.tsx:163-169 | The value a change goes on with is never longer than the raw text. In text mode it is the raw text. In numeric mode it is all digits. It is empty, so the change is ignored, exactly when the raw text is empty (text mode) or holds no digit (numeric mode). |
| Code.StripNonDigitsAppend | src/index.tsx:164 | The filter distributes over concatenation, so the kept digits stay in their original relative order. |
| Code.Spread | src/index.tsx:182-188 | Spreading a paste over the boxes keeps the number of boxes. `Code.SpreadAt` states box by box what it writes. |
| Code.Min | src/index.tsx:176-179 | The clamp of the paste focus index is at most both bounds and equal to one of them. |
| Code.SpreadAt | src/index.tsx:175-188 | A paste of `v` at `index` keeps the number of boxes. Box `index + i` receives character `i` of `v` when that box exists, characters past the last box are dropped, and every other box, including those before `index`, is untouched. |
| Code.SpreadOne | src/index.tsx:189-192 | A single character changes only the current box. |
| Code.SpreadKeepsBoxes | src/index.tsx:182-188 | Spreading characters that are valid boxes (digits in numeric mode) keeps every box empty or one valid character. |
| Code.Entries | src/index.tsx:76-80 | Absent values give no entries. A supplied string gives one single-character entry per character. A supplied list is taken as it is. |
| Code.InitialBox | src/index.tsx:80 | The initial box at `i` is empty or one of the supplied entries, and it is empty past the end of the supplied values. |
| Code.JoinEntriesOfString | src/index.tsx:76-80 | The entries taken from a supplied string join back to that string. |
| Code.InitialFocus | src/index.tsx:74-89 | The initial autofocus index is 0 when the supplied values are absent, empty, or at least `fields` long. Otherwise it is their length. With `fields > 0` it always lies in `[0, fields)`. |
| Code.InitialValues | src/index.tsx:73-86 | The derived array has exactly `fields` entries. Entry `i` is the supplied entry at `i` when there is one, and `''` otherwise. With no supplied values every entry is `''`. |
| ReactCodeInput.CodeInput.constructor | src/index.tsx:67-95 | Mounting runs the derivation: `fields` boxes holding the supplied entries, the derived autofocus index, and no callback. When every supplied entry is a valid box, the state is well formed. |
| ReactCodeInput.CodeInput.Derive | src/index.tsx:72-95 | Re-derivation replaces the boxes wholesale from `fields` and `values`, sets the autofocus index, and makes no callback. |
| ReactCodeInput.CodeInput.AutoFocusTarget | src/index.tsx:212 | A box is marked autofocus exactly when `autoFocus` is on and there is at least one box. The marked box is the autofocus index, and it exists. |
| ReactCodeInput.CodeInput.ClearValues | src/index.tsx:97-100 | Every one of the `fields` boxes becomes `''` and focus targets box 0 when it exists. No `onChange` or `onComplete` is called, and nothing else changes. |
| ReactCodeInput.CodeInput.KeyDown | src/index.tsx:115-154 | Backspace leaves every box other than `index` and `index-1` unchanged and empties box `index`. With `index > 0` it also empties box `index-1` and focuses it. It appends one notification per condition that held: the first sees only the current box cleared, the second sees both cleared. At index 0 on an empty box it changes nothing and notifies no one. The arrow keys change no box and make no callback, and they target `index-1`/`index+1` only when that box exists. Well-formed boxes stay well formed. |
| ReactCodeInput.CodeInput.Change | src/index.tsx:160-202 | The value is first filtered to digits in numeric mode. An empty value leaves the state unchanged, targets nothing and makes no callback. Otherwise the boxes become the value spread from `index`. Focus targets `min(index+k-1, fields-1)` for a `k`-character paste, and `index+1` (when it exists) for one character. Exactly one notification with the new boxes is appended. Well-formed boxes stay well formed. |
| ReactCodeInput.CodeInput.Fill | src/index.tsx:181-188 | The `forEach` over a paste's characters leaves the boxes equal to the value spread from `index`. |
| Scenarios.TypeFirst | src/index.tsx:160-202 | Typing "1" into box 0 of a fresh six-box numeric field fills box 0 and reports `onChange("1")` only. |
| Scenarios.TypeSecond | src/index.tsx:160-202 | Typing "2" into box 1 gives boxes "1","2" and reports `onChange("12")`. |
| Scenarios.TypeThird | src/index.tsx:160-202 | Typing "3" into box 2 reports `onChange("123")` and still no completion. |
| Scenarios.PasteLast | src/index.tsx:175-201 | Pasting "456" at box 3 fills the last three boxes and reports `onChange("123456")`, then `onComplete("123456")`. |
| Scenarios.Pasted | src/index.tsx:175-188 | "456" spread from box 3 over "1","2","3","","","" gives the six digits, and the notification is change then completion. |
| Scenarios.ClearedBoth | src/index.tsx:128-143 | Backspace at box 1 of "a","b","" notifies "a" and then "", ending with every box empty. |

## Left out

- JSX rendering and presentation are not modelled: the `Loading` component
  and its SVG, the markup, styles, class names, placeholder, `id`,
  `disabled` and `required`. They carry no state logic.
- React machinery is not modelled: `useState`, `useEffect`,
  `useImperativeHandle`, `forwardRef` and the `idRef` timestamp. The
  timestamp comes from the clock and only serves as a render key. Re-running
  the effect is modelled by calling `CodeInput.Derive`. A state update
  counts as immediate.
- DOM focus, `select()` and `handleFocus` are not modelled as DOM
  operations. Each handler returns the box it would focus instead.
- `preventDefault` over the reserved key list is left out. The list lives in
  a constants file that is not part of this model, and the default action
  has no effect on the state.
- `validity.valid` is a browser API. The model treats it as true once the
  digits are stripped.
- The props `type`, `onChange`, `onComplete` and `autoFocus` are fixed when a
  `CodeInput` is constructed. The source reads them afresh on every render
  (`src/index.tsx:55-62`, `108-111`, `163`, `212`). The model also has no
  defaults: the constructor takes every prop explicitly, where the source
  defaults to `fields = 6`, `type = 'number'` and `autoFocus = true`
  (`src/index.tsx:55`, `61`, `62`).
- The ref array is not modelled. It grows by `fields` refs on every run of
  the initialization effect (`src/index.tsx:91-93`), so after a second run
  refs exist past `fields`. Only the refs of the rendered boxes are attached
  (`src/index.tsx:217`), so any ref past `fields` has a null `current`.
  Focusing it (`src/index.tsx:147`, `151`, `196-198`) then does nothing. The
  model's "no focus target" for a box at or past `fields` is therefore what
  the user sees.
- `fields` is a natural number in the model. In the source, `Array(fields)`
  throws for a negative or fractional `fields` (`src/index.tsx:85`, `98`).
- ReactCodeInput.CodeInput.ClearValues: when `fields` has always been 0, the source dereferences a missing
  ref. The model returns no focus target instead.
- Box values that are numbers, which the source's element type allows, are
  not modelled. Every box is a string, so the falsy `0` in `values[i] || ''`
  is not modelled either.
- Characters are Dafny `char`s. JavaScript string lengths count UTF-16 units
  and `\d` without the `u` flag means `0`-`9`. The two agree for the
  characters the filter keeps, but a surrogate pair is one character here.
- Supplied values given as a list may hold entries longer than one
  character. The source copies them as they are, and so does the model. Then
  the joined code can reach `fields` characters while a box is still empty.
  The completion lemmas therefore assume single-character boxes
  (`Singles`).
- The lint, build and test configuration files carry no behaviour and are
  not modelled.
