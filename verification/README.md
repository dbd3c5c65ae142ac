# Issue-entry screen of the hotel maintenance app, in Dafny

This project models the issue-submission workflow of the hotel maintenance
mobile app's issue-entry screen (`screens/IssueEntryScreen.js`). It covers:

- the six-field draft of an issue report and its `handleChange` update;
- the session pair (`username`, `hotelId`) read on mount, where a missing
  stored value becomes `''`;
- the label table `t`, which selects English or Spanish. For any other
  language code it has none of the label properties, so every label read
  is `undefined`. This holds whether `t` is the empty object or, for a code
  such as `constructor`, an `Object.prototype` member;
- the two picker menus and their visibility flags;
- `handleSubmit`: the session guard, the request body
  `{ ...formState, addUser, hotelId }`, one request, and what each outcome
  does to the form and to the user's feedback.

The model is purely functional and strictly sequential. The request is not
made. Its result is an input to `Submission.Submit`:
`Ok | NotOk(bodyMessage) | Thrown(message)`.

- `Ok` is a 2xx response.
- `NotOk` is a non-2xx response whose JSON body has a `message` string, or has none.
- `Thrown` covers everything that reaches the `catch` block with an error
  message: a transport failure, a body that is not JSON, or a non-2xx body
  that is JSON `null`. A non-2xx body that is a JSON number, string, boolean
  or array has no `message`, so it is `NotOk(None)`.

Toasts, alerts and `console.error` become `Effect` values in emission order.

Modules:

- `JsValues`: the JavaScript semantics the screen relies on. It has
  `undefined`, nullable strings, the `||` fallback and object spread.
- `Translations`: the two label tables and the lookup `Label`.
- `IssueDraft`: the draft record, `Empty`, `SetField` (`handleChange`), and
  sequences of changes compared with the reference "last write" definition.
- `IssuePayload`: the session pair, the request body, and a parser that
  reads a draft and a session back out of a body. The parser is used to
  state that building the body loses nothing.
- `Submission`: `Submit`, the outcome handling and the feedback effects.
- `IssueEntryScreen`: the handlers bound to the inputs, menus and button, as
  events of a state machine. It also holds invariants over whole event
  sequences.

Behaviours of the code worth noting:

- Field values are `Str(text)` or `Undefined`. Under a language code other
  than `en` or `es`, `t` has no label properties. A category pick then writes
  `undefined` into the draft. `screens/DashboardScreen.js:45` does fall
  back to the English table; this screen does not.
- The category and assigned-person inputs have no `onChangeText` handler.
  Only their menus write them, so the assigned person is never free text.
  `IssueEntryScreen.Handle` makes typing into those inputs change nothing.
- Picking a menu item does not close the menu. Only a dismissal or a
  successful submission closes it.
- Category values are the translated labels, such as `'Mantenimiento'`. The
  assigned-person value for "Other" is the literal `'Other'` in every
  language, even when its title reads `'Otro'`.

## Model

| member | source | states |
|---|---|---|
| Translations.Label | screens/IssueEntryScreen.js:28-53 | A label is a non-empty string exactly when the language is `en` or `es`. It is the English or Spanish entry respectively, and `undefined` for every other code. |
| Translations.LabelsDistinct | screens/IssueEntryScreen.js:28-53 | Within each table, different keys have different labels, so a written category value identifies the item chosen. |
| IssueDraft.EmptyIsBlank | screens/IssueEntryScreen.js:14-21 | Every field of the initial draft is `''`. |
| IssueDraft.SetField | screens/IssueEntryScreen.js:66-68 | `handleChange(k, v)` makes field `k` hold `v` and leaves every other field unchanged. |
| IssueDraft.LastWriteWins | screens/IssueEntryScreen.js:66-68 | After any sequence of `handleChange` calls, each field holds the last value written to it. A field no call touched keeps its earlier value. |
| IssueDraft.SameLastWritesSameDraft | screens/IssueEntryScreen.js:66-68 | Two change sequences with the same last write per field give the same draft, whatever their order. |
| IssueDraft.DistinctFieldsCommute | screens/IssueEntryScreen.js:66-68 | Changes to two different fields commute. |
| IssuePayload.LoadSession | screens/IssueEntryScreen.js:57-60 | A session string is `''` exactly when the stored item is null or empty. Otherwise it is the stored string. |
| IssuePayload.BuildPayload | screens/IssueEntryScreen.js:76-80 | The body has exactly the six draft properties plus `addUser` and `hotelId`. Each draft property carries its draft value unchanged, and `addUser`/`hotelId` carry the session pair. |
| IssuePayload.ParseBuildRoundTrip | screens/IssueEntryScreen.js:76-80 | Reading a draft and a session back out of a built body gives exactly the draft and session it was built from. |
| IssuePayload.BuildPayloadInjective | screens/IssueEntryScreen.js:76-80 | Different drafts or sessions give different bodies. |
| IssuePayload.ExampleBody | screens/IssueEntryScreen.js:76-80 | The room-204 draft sent by `alice` of hotel `H1` gives the expected eight-property body. |
| Submission.FailureMessage | screens/IssueEntryScreen.js:89 | The error message of a rejected request is the body's `message` if it is non-empty. Otherwise it is `'Submission failed'`. For a thrown error it is the error's own message. |
| Submission.Submit | screens/IssueEntryScreen.js:70-115 | A request is sent exactly when both session strings are non-empty, and its body is exactly the merged draft and session, which parses back to both. Every submission shows exactly one notice. A missing session emits only the session-missing toast and keeps the form. A failure emits exactly a `console.error` log followed by the alert. Exactly one success toast appears, and only on a 2xx outcome, which resets the draft to all-empty and closes both menus. Any failure keeps the form unchanged and shows one alert with the caught message. |
| Submission.SuccessfulSubmitIsIdempotent | screens/IssueEntryScreen.js:100-110 | A successful submission always yields the initial form, so repeating it changes nothing further. |
| Submission.RetryResendsSameBody | screens/IssueEntryScreen.js:111-114 | After a failed submission the draft is kept, so a retry sends the identical body. |
| Submission.NoticesAppend | screens/IssueEntryScreen.js:70-115 | The user-visible effects of two traces run back to back are those of the first followed by those of the second. |
| IssueEntryScreen.CategoryItems | screens/IssueEntryScreen.js:160-163 | The category menu has three items: the current table's maintenance, cleaning and other labels. Each item writes its own title. |
| IssueEntryScreen.AssigneeItems | screens/IssueEntryScreen.js:184-187 | The assigned-person menu has three items, each writing one of the fixed names. The last item's title is the current table's "other" label. |
| IssueEntryScreen.MenuValues | screens/IssueEntryScreen.js:161-187 | In any language, a category pick writes one of the known labels, or `undefined` exactly when the language has no table. An assigned-person pick writes `'John Doe'`, `'Jane Smith'` or `'Other'`. |
| IssueEntryScreen.SetMenuVisible | screens/IssueEntryScreen.js:148-182 | Showing or hiding one menu sets that menu's flag and leaves the other flag and the draft unchanged. |
| IssueEntryScreen.Handle | screens/IssueEntryScreen.js:125-189 | Only a submit press emits effects, and only one with a session sends a request. Typing into a text input writes exactly that field and changes nothing else. A press past the last menu item changes nothing. A submit press does exactly what `handleSubmit` does to the form, effects and request. Focusing a menu's input opens that menu and dismissing closes it. A session load stores the normalised pair, and a language change sets the language. Typing writes exactly the typed text into a field that has a text input, and does nothing for the two menu-only fields. A menu pick writes the chosen value and leaves the menu open. The category and assigned-person fields change only through their menu or a successful reset. |
| IssueEntryScreen.Run | screens/IssueEntryScreen.js:66-189 | Over a sequence of events handled by the bound handlers in order, at most one request is sent per submit press. |
| IssueEntryScreen.HandlePreservesPickerFields | screens/IssueEntryScreen.js:148-188 | No event can put into the category or assigned-person field a value other than `''` or a value one of its menu's items writes. |
| IssueEntryScreen.SubmitSendsWellFormedBody | screens/IssueEntryScreen.js:71-80 | A sent body has the eight properties, a category and an assigned person that are each `''` or a value their menu writes, and non-empty `addUser` and `hotelId`. |
| IssueEntryScreen.RunSendsWellFormedBodies | screens/IssueEntryScreen.js:66-115 | Along any event sequence, the category and assigned-person fields each stay `''` or a value their menu writes, and every body sent is well formed. |
| IssueEntryScreen.MountedSendsWellFormedBodies | screens/IssueEntryScreen.js:14-26 | From the freshly mounted screen, every body ever sent is well formed. |
| IssueEntryScreen.OneNoticePerSubmit | screens/IssueEntryScreen.js:70-115 | Along any event sequence, the number of user-visible notices equals the number of submit presses. |
| IssueEntryScreen.NoRequestWithoutSession | screens/IssueEntryScreen.js:71-74 | While the session is missing and has not been reloaded, no event sends a request. |

## Left out

- Rendering, layout and styles (`screens/IssueEntryScreen.js:117-226`). Only the handler bindings of the inputs, menus and button are modelled, as events.
- Menu visibility does not restrict events. A menu item may be pressed whether or not its menu is shown. This only adds behaviours, so the invariants proved cover every reachable behaviour.
- AsyncStorage reads are asynchronous I/O. Their results enter as the `SessionLoaded` event, which carries the stored strings or null.
- The `fetch` call, its URL, headers and JSON encoding are network I/O. The request's result is the `Outcome` input. A body property holding `undefined` would be dropped by `JSON.stringify`. The model keeps it in the body map.
- A non-string, truthy JSON `message`, such as a number, which the code would turn into its string form: `Outcome.NotOk` carries a string or nothing.
- Toast options (duration, position, animation) are presentation details.
- Overlapping submissions and the stale `formState` closure in `handleChange` matter only when handlers interleave. Every event here runs to completion before the next.
- The language switcher and the language context are not part of this model. The current language is state that the `LanguageChanged` event sets.
- `screens/DashboardScreen.js` is not part of this model. It holds a dashboard GET request guarded by an `isActive` flag, logout through storage clearing and navigation, and its own label table with an English fallback. Each is I/O or a constant lookup.
- `components/LoadingSpinner.js` is not part of this model: it is a presentational component with no logic.
