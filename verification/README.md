# Session store and landing page of a polling web app

This project models two parts of a Next.js polling front end:

- **The session store** (`src/store/authStore.js`). It is a zustand store with four fields: `token`, `user`, `isAuthenticated` and `loading`.
  - It starts from what `localStorage` holds under the keys `token` and `user` (the user is kept as JSON).
  - It offers four actions: `setAuth`, `logout`, `setLoading` and `initializeAuth`. The module calls `initializeAuth` once when it is first imported.
  - Every user record it keeps goes through the same normalisation, `u ? { id: u.id || u._id, ...u } : null`.
- **The landing page** (`src/app/page.js`). It is a five-view wizard: login, register, forgot password, verify OTP and reset password.
  - Its submit handlers call the authentication service and, for login and register, the store's `setAuth`.
  - Its footer buttons and "Forgot Password?" link move between views.

The models are built as follows:

- **JavaScript values** (`js_value.dfy`). Objects are ordered lists of own properties. Property assignment and the object spread are written out over those lists.
- **JSON** (`json_stringify.dfy`, `json_parse.dfy`). `JSON.stringify` and `JSON.parse` are a text codec over those values.
- **The JSON round trip** (`json_round_trip.dfy`). It proves that parsing the text of a value gives back that value's JSON image.
- **Normalisation** (`user_id.dfy`). This is the user-record normalisation, with its properties.
- **The stored items** (`local_storage.dfy`). `localStorage` is a class over a map.
- **The store** (`auth_store.dfy`). Each action is a pure step on a `World`, meaning the four fields plus, in a browser, the stored items. The `Store` class performs the action on its fields and its `LocalStorage`, and is proved to end in exactly the `World` the step gives. Lemmas about the steps state the invariants and the reload behaviour.
- **The page** (`landing_page.dfy`). Each handler is a step on the page's `Form` (its `useState` fields), together with the request it sends. The `Page` class performs the handler and is proved to end in the `Form` the step gives. Runs of user actions on shown controls state the properties of the wizard.

Service calls are parameters: each handler receives the `Outcome` of its call, either resolved with a value or rejected with a message. Two behaviours of the code are easy to misread:

- With `token` or `user` missing or empty, `initializeAuth` only sets `loading` to false (lines 78-82). It does not clear anything. A session already in memory stays, authenticated or not.
- `isAuthenticated` is not always "a token is present". An empty stored token hydrates to `token == ""` with `isAuthenticated == false`. `setAuth("", u)` sets it to true, and a reload turns it back to false.

## Model

| member | source | states |
|---|---|---|
| JsValue.Get | src/store/authStore.js:15 | reading a missing key gives `undefined`; reading a present key gives the value stored under it |
| JsValue.Put | src/store/authStore.js:15 | assignment keeps every key in place, changes only the assigned key's value, and appends a new key at the end |
| JsValue.PutGet | src/store/authStore.js:15 | after `o[k] = v`, reading `k` gives `v` and reading any other key gives what it gave before |
| JsValue.PutHasKey | src/store/authStore.js:15 | after assignment the keys are the old keys plus `k` |
| JsValue.PutDistinct | src/store/authStore.js:15 | assignment never creates a duplicate key |
| JsValue.Spread | src/store/authStore.js:15 | a spread keeps the target's keys in their positions and only adds after them |
| JsValue.SpreadDistinct | src/store/authStore.js:15 | a spread into an object with distinct keys keeps them distinct |
| JsValue.SpreadHasKey | src/store/authStore.js:15 | the keys after `{...t, ...s}` are exactly the keys of `t` and of `s` |
| JsValue.SpreadGet | src/store/authStore.js:15 | after a spread, a key of the source reads the source's value and any other key reads the target's |
| JsValue.SpreadFresh | src/store/authStore.js:15 | spreading keys the target lacks appends them in order |
| JsValue.OwnEntries | src/store/authStore.js:15 | definition: what `...u` copies, namely an object's own properties in order, a string's characters or an array's elements under the keys "0", "1", ..., and nothing for other values; its properties are `UserId.OwnEntriesIndexKeys` and `UserId.NormalizeEntries` |
| JsValue.Prop | src/store/authStore.js:15 | definition: the reads `u.id` and `u._id`, `undefined` on a non-object; its property is `UserId.NormalizeIdOfObject` |
| JsValue.PutJsonLike | src/store/authStore.js:64 | assigning a value with no `undefined` inside into such an object keeps it free of `undefined` |
| Decimal.NatToString | src/store/authStore.js:35 | the decimal text of a number is non-empty, all digits, and has a leading zero only for 0 |
| Decimal.DigitsValueOfNatToString | src/store/authStore.js:35 | reading the decimal text of `n` back gives `n` |
| Decimal.NatToStringInjective | src/store/authStore.js:35 | distinct numbers have distinct decimal texts |
| Decimal.DigitRunOfDigits | src/store/authStore.js:64 | a number token stops exactly where its digits end |
| JsonRoundTrip.EscapeRoundTrip | src/store/authStore.js:35 | the escaped body of a string, then its closing quote, parses back to the string |
| JsonRoundTrip.StringRoundTrip | src/store/authStore.js:35 | a quoted string parses back to itself and leaves the text after it |
| JsonRoundTrip.NumberRoundTrip | src/store/authStore.js:35 | an integer's text parses back to that integer, negative ones included |
| JsonRoundTrip.ArrayRoundTrip | src/store/authStore.js:35 | an array's text parses back to its JSON image; `undefined` elements become `null` |
| JsonRoundTrip.ObjectRoundTrip | src/store/authStore.js:35 | an object's text parses back to its JSON image; `undefined` properties are dropped and key order is kept |
| JsonRoundTrip.ValueRoundTrip | src/store/authStore.js:35 | any value other than `undefined`, followed by a delimiter, parses back to its JSON image and leaves the rest |
| JsonRoundTrip.ParseStringify | src/store/authStore.js:35 | `JSON.parse(JSON.stringify(v))` is the JSON image of `v` for every value other than `undefined` with distinct keys at every level |
| JsonStringify.Stringify | src/store/authStore.js:35 | definition of `JSON.stringify` without whitespace; `undefined` members are skipped and `undefined` elements are written `null`; its partner is `JsonRoundTrip.ParseStringify` |
| JsonParse.Parse | src/store/authStore.js:11 | definition of `JSON.parse`, integer numbers only; None where `JSON.parse` throws; a repeated object key takes the later value in the earlier key's place; its properties are `JsonRoundTrip.ParseStringify` and `JsonRoundTrip.ParseJsonLike` |
| JsonRoundTrip.JsonLikeWellKeyed | src/store/authStore.js:64 | a value with no `undefined` and no repeated key anywhere has distinct keys at every level |
| JsonRoundTrip.ValueJsonLike | src/store/authStore.js:64 | every value read from text has no `undefined` in it and no repeated key, at every level |
| JsonRoundTrip.MembersJsonLike | src/store/authStore.js:64 | the members of a parsed object keep distinct keys and hold no `undefined` |
| JsonRoundTrip.ParseJsonLike | src/store/authStore.js:64 | whatever `JSON.parse` returns has no `undefined` in it and no repeated key |
| JsonRoundTrip.ToJsonOfJsonLike | src/store/authStore.js:64 | a value with no `undefined` inside is its own JSON image |
| UserId.IdSeed | src/store/authStore.js:15 | definition of the one-key object literal the spread starts from: one `id` entry holding the record's `id` when truthy, else its `_id`; its properties are `UserId.NormalizeIdOfObject`, `UserId.NormalizeNonObject` and `UserId.FalsyOwnIdKept` |
| UserId.Normalize | src/store/authStore.js:15 | the result is `null` exactly when the record is falsy; otherwise it is an object whose first key is `id`, with no key repeated |
| UserId.NormalizeEntries | src/store/authStore.js:29 | the keys of a normalised record are `id` plus the record's own keys, and every key after `id` holds the record's value |
| UserId.NormalizeIdOfObject | src/store/authStore.js:29 | the `id` is the record's own `id` when it has that key, even a falsy one, and its `_id` otherwise |
| UserId.NormalizeCopiesObject | src/store/authStore.js:29 | every other key is copied with its value, and no key is added |
| UserId.NormalizeNonObject | src/store/authStore.js:29 | a truthy non-object gets `id: undefined` followed by its index entries |
| UserId.OwnEntriesIndexKeys | src/store/authStore.js:29 | a spread string or array contributes only digit keys, never `id` or `_id` |
| UserId.IdFirstFixed | src/store/authStore.js:67 | normalising an already normalised record changes nothing |
| UserId.NormalizeIdempotent | src/store/authStore.js:67 | normalisation is idempotent |
| UserId.NormalizeWellKeyed | src/store/authStore.js:29 | normalisation keeps keys distinct at every level |
| UserId.NormalizeSurvivesJson | src/store/authStore.js:35 | stringifying a normalised record, parsing it and normalising again gives the same record, for every user with no `undefined` and no repeated key at any depth (every user that arrived as JSON; see `AuthStore.ReloadAfterSetAuthFromJson`); a falsy record normalises to `null`, which also survives |
| UserId.BackendRecord | src/store/authStore.js:12-15 | a backend record `{_id: "42", username: "alice"}` becomes `{id: "42", _id: "42", username: "alice"}` |
| UserId.FalsyOwnIdKept | src/store/authStore.js:14-15 | an own `id: 0` wins over `_id`, because the spread comes after the `id` seed |
| Storage.RemoveBoth | src/store/authStore.js:74-75 | two `removeItem` calls remove exactly the two keys |
| Storage.LocalStorage.constructor | src/store/authStore.js:7 | the storage holds the given items |
| Storage.LocalStorage.GetItem | src/store/authStore.js:7 | reads the stored string or `null`, changing nothing |
| Storage.LocalStorage.SetItem | src/store/authStore.js:33 | the key now maps to the value; every other key is unchanged |
| Storage.LocalStorage.RemoveItem | src/store/authStore.js:44 | the key is gone; every other key is unchanged |
| AuthStore.DecodeUser | src/store/authStore.js:10-19 | decoding succeeds exactly when the modelled `JSON.parse` accepts the text (integer numbers only, see "Left out"), and then gives `null` or a normalised record |
| AuthStore.LoadConsistent | src/store/authStore.js:7-23 | the state the store is created in, and the state after the import-time `initializeAuth`, are consistent: the user is `null` or normalised, authenticated implies a token, a non-empty token implies authenticated, and the token is the stored one |
| AuthStore.InitializeConsistent | src/store/authStore.js:57-88 | `initializeAuth` preserves consistency |
| AuthStore.ActionsConsistent | src/store/authStore.js:26-53 | `setAuth`, `logout` and `setLoading` preserve consistency |
| AuthStore.LogoutIdempotent | src/store/authStore.js:42-50 | logging out twice is logging out once |
| AuthStore.InitializeIdempotent | src/store/authStore.js:57-88 | a second `initializeAuth` with no write in between changes nothing |
| AuthStore.MissingKeysOnlyStopLoading | src/store/authStore.js:78-87 | with the token or user missing or empty, or outside a browser, only `loading` changes, to false, and storage is untouched |
| AuthStore.StoredUserDecodes | src/store/authStore.js:35 | what `setAuth` writes under `user` decodes to the user it keeps in memory, for every user with no `undefined` and no repeated key at any depth (every user that arrived as JSON; see `AuthStore.ReloadAfterSetAuthFromJson`) |
| AuthStore.SetAuthThenInitialize | src/store/authStore.js:26-39 | `initializeAuth` right after `setAuth` leaves the session `setAuth` set, for every user with no `undefined` and no repeated key at any depth (every user that arrived as JSON; see `AuthStore.ReloadAfterSetAuthFromJson`) |
| AuthStore.ReloadAfterSetAuth | src/store/authStore.js:94 | in a browser, reloading after `setAuth` with a non-empty token restores the same session, for every user with no `undefined` and no repeated key at any depth (every user that arrived as JSON; see `AuthStore.ReloadAfterSetAuthFromJson`) |
| AuthStore.Stored | src/store/authStore.js:22 | definition of `!!localStorage.getItem(key)`, also tested at lines 8 and 62: the key is present and its string is not empty; its properties are `AuthStore.MissingKeysOnlyStopLoading` and `AuthStore.EmptyStoredToken` |
| AuthStore.Hydrate | src/store/authStore.js:7-23 | definition of the initial fields: the stored token, the decoded stored user or `null`, authenticated when the stored token is non-empty, loading; its properties are `AuthStore.LoadConsistent`, `AuthStore.EmptyStoredToken` and `AuthStore.NoWindow` |
| AuthStore.SetAuthNext | src/store/authStore.js:26-39 | definition of `setAuth`'s new fields and stored items; its properties are `AuthStore.ActionsConsistent`, `AuthStore.SetAuthThenInitialize` and `AuthStore.ReloadAfterSetAuth` |
| AuthStore.LogoutNext | src/store/authStore.js:42-50 | definition of `logout`'s new fields and stored items; its properties are `AuthStore.LogoutIdempotent` and `AuthStore.ReloadAfterLogout` |
| AuthStore.SetLoadingNext | src/store/authStore.js:53 | definition of `setLoading`: only `loading` changes; its property is `AuthStore.ActionsConsistent` |
| AuthStore.InitializeNext | src/store/authStore.js:57-88 | definition of `initializeAuth` on its four branches; its properties are `AuthStore.InitializeConsistent`, `AuthStore.InitializeIdempotent` and `AuthStore.MissingKeysOnlyStopLoading` |
| AuthStore.Load | src/store/authStore.js:94 | definition of the store the module exports: hydration, then `initializeAuth`; its properties are `AuthStore.LoadConsistent` and the reload lemmas |
| AuthStore.ReloadAfterSetAuthFromJson | src/store/authStore.js:26-39 | for a user that arrived as JSON text, reloading after `setAuth` with a non-empty token restores the same session, with no further condition on the user |
| AuthStore.ReloadAfterEmptyToken | src/store/authStore.js:22 | in a browser, after `setAuth("", u)` the store is authenticated, but a reload gives token `""`, the same user, and not authenticated, for every user with no `undefined` and no repeated key at any depth (every user that arrived as JSON; see `AuthStore.ReloadAfterSetAuthFromJson`) |
| AuthStore.ReloadAfterLogout | src/store/authStore.js:42-50 | reloading after logout gives the logged-out state |
| AuthStore.CorruptUserCleared | src/store/authStore.js:71-77 | a stored user that is not JSON makes loading remove both keys and sign out |
| AuthStore.StoredNullUser | src/store/authStore.js:67 | a stored user `null` loads as authenticated with no user |
| AuthStore.EmptyStoredToken | src/store/authStore.js:22 | a stored empty token is held but does not authenticate |
| AuthStore.NoWindow | src/store/authStore.js:83-87 | outside a browser the store starts signed out and loading, and initialisation only stops loading |
| AuthStore.Store.constructor | src/store/authStore.js:7-23 | the new store holds the hydrated session from the storage it was given, and only reads that storage |
| AuthStore.Store.Create | src/store/authStore.js:94 | the store the module exports is hydration followed by `initializeAuth` |
| AuthStore.Store.SetAuth | src/store/authStore.js:26-39 | fields and storage become the `setAuth` step: token and normalised user in memory and in storage, authenticated, not loading |
| AuthStore.Store.Logout | src/store/authStore.js:42-50 | fields and storage become the `logout` step, and the session is signed out |
| AuthStore.Store.SetLoading | src/store/authStore.js:53 | only `loading` changes; the other fields and storage stay |
| AuthStore.Store.InitializeAuth | src/store/authStore.js:57-88 | fields and storage become the `initializeAuth` step, on all four branches |
| LandingPage.TypeNext | src/app/page.js:272-502 | definition of the text inputs' `onChange` setters: the bound field takes the typed text and nothing else changes; its properties are `LandingPage.Page.OnType` and `LandingPage.RunKeepsIdle` |
| LandingPage.LoginNext | src/app/page.js:89-106 | definition: login changes only `isLoading`, which ends false; its properties are `LandingPage.CallsEndIdle` and `LandingPage.Page.HandleLogin` |
| LandingPage.RegisterNext | src/app/page.js:109-140 | definition: nothing on a mismatch, else loading ends and the image is cleared; its properties are `LandingPage.MismatchesChangeNothing` and `LandingPage.CallsEndIdle` |
| LandingPage.LoginSent | src/app/page.js:94 | definition: login sends the login email and password; its property is `LandingPage.Page.HandleLogin` |
| LandingPage.RegisterSent | src/app/page.js:111-123 | definition: no request on a mismatch, else username, email, password and image; its property is `LandingPage.MismatchesChangeNothing` |
| LandingPage.ForgotNext | src/app/page.js:143-155 | definition: on success the OTP view, else only loading ends; its properties are `LandingPage.RejectionsKeepForm` and `LandingPage.BackRetraces` |
| LandingPage.ForgotSent | src/app/page.js:147 | definition: the forgot-password request carries the forgot-password email; its property is `LandingPage.Page.HandleForgotPassword` |
| LandingPage.VerifyNext | src/app/page.js:158-171 | definition: on success the returned token is kept and the reset view shows; its properties are `LandingPage.EnterResetOnlyByVerify` and `LandingPage.TokenWrites` |
| LandingPage.VerifySent | src/app/page.js:162 | definition: the verification request carries the forgot-password email and the OTP; its property is `LandingPage.Page.HandleVerifyOtp` |
| LandingPage.ResetNext | src/app/page.js:174-196 | definition: nothing on a mismatch, on success back to login with the reset fields cleared; its properties are `LandingPage.MismatchesChangeNothing`, `LandingPage.RejectionsKeepForm` and `LandingPage.ResetFlow` |
| LandingPage.ResetSent | src/app/page.js:176-182 | definition: no request on a mismatch, else the new password with the stored token; its property is `LandingPage.ResetSendsVerifiedToken` |
| LandingPage.BackTarget | src/app/page.js:561-565 | definition of where Back leads from each view; its property is `LandingPage.BackRetraces` |
| LandingPage.FieldView | src/app/page.js:261-523 | definition of which view's form renders each text input; its properties are `LandingPage.RunSnoc` and `LandingPage.ResetFlow` |
| LandingPage.Allowed | src/app/page.js:261-569 | definition of which actions the page shows a control for in each view: an input or form only in its own view, a button only where it is offered; its properties are `LandingPage.RunSnoc` and `LandingPage.ResetFlow` |
| LandingPage.Offered | src/app/page.js:527-569 | definition of which navigation buttons each view shows; its property is `LandingPage.OneFooterButton` |
| LandingPage.ClickNext | src/app/page.js:309-565 | definition: each button sets only the view; its properties are `LandingPage.ToggleRoundTrip` and `LandingPage.BackRetraces` |
| LandingPage.CallsEndIdle | src/app/page.js:103-193 | every handler that reaches its service call ends with loading off whatever the call did, and register drops the picked image |
| LandingPage.MismatchesChangeNothing | src/app/page.js:111-114 | a password mismatch in register or reset sends nothing and changes nothing; with no mismatch the request is sent |
| LandingPage.RejectionsKeepForm | src/app/page.js:150-154 | a rejected forgot, verify or reset call leaves the view and fields as they were |
| LandingPage.OneFooterButton | src/app/page.js:527-569 | every view shows exactly one of Create New Account, Back to Login and Back |
| LandingPage.ToggleRoundTrip | src/app/page.js:533-541 | the login/register toggle undoes itself |
| LandingPage.BackRetraces | src/app/page.js:561-565 | Back undoes each forward move of the password-reset flow |
| LandingPage.EnterResetOnlyByVerify | src/app/page.js:162-165 | the reset view is reached only by a successful OTP verification, which stores its token |
| LandingPage.TokenWrites | src/app/page.js:163 | the password-change token is written only by a successful verification, or cleared by a successful reset |
| LandingPage.RunKeepsIdle | src/app/page.js:35 | starting idle, the page is idle after every run of completed actions |
| LandingPage.ResetViewHoldsVerifiedToken | src/app/page.js:158-171 | whenever the reset view shows, its token is the one the last successful verification returned |
| LandingPage.ResetSendsVerifiedToken | src/app/page.js:182 | the reset request carries the token of the last successful verification |
| LandingPage.RunSnoc | src/app/page.js:261-569 | a run extended by one action is that action applied after the run, and is allowed when the run is and the action is on a shown control |
| LandingPage.RunAppend | src/app/page.js:261-569 | running two action sequences one after the other is running their concatenation |
| LandingPage.ResetFlow | src/app/page.js:143-196 | link, email, send, OTP, verify, two passwords and reset, each on a shown control, send the verified token and end on the page's initial state |
| LandingPage.Page.constructor | src/app/page.js:17-35 | login view, every input empty, no image, not loading |
| LandingPage.Page.OnType | src/app/page.js:272 | each input's `onChange` sets exactly its bound field |
| LandingPage.Page.OnPickImage | src/app/page.js:385 | the file input sets only the profile image |
| LandingPage.Page.OnClick | src/app/page.js:309-565 | the link and footer buttons set only the view, Back by the view it is pressed on |
| LandingPage.Page.HandleLogin | src/app/page.js:89-106 | sends email and password, calls `setAuth` on the store exactly when the call resolves, and ends not loading |
| LandingPage.Page.HandleRegister | src/app/page.js:109-140 | returns before any call on a password mismatch; otherwise sends the four fields, calls `setAuth` when the call resolves, ends not loading and clears the image |
| LandingPage.Page.HandleForgotPassword | src/app/page.js:143-155 | sends the email and moves to the OTP view only on success |
| LandingPage.Page.HandleVerifyOtp | src/app/page.js:158-171 | sends email and OTP; on success stores the returned token and moves to the reset view |
| LandingPage.Page.ClearResetFields | src/app/page.js:186-190 | the five reset fields become empty and nothing else changes |
| LandingPage.Page.HandleResetPassword | src/app/page.js:174-196 | returns before any call on a mismatch; otherwise sends the new password with the stored token, and on success returns to login with the reset fields cleared |

## Left out

- Numbers are integers: `Num(int)` has no fractions, exponents, `-0`, `NaN` or `Infinity`, so values holding them are not modelled.
- JsonParse.Parse and AuthStore.DecodeUser read integer literals exactly. JavaScript numbers are doubles, so `JSON.parse` rounds integers above 2^53: "9007199254740993" reads as 9007199254740992. A stored user holding such a number loads with a different value in JavaScript.
- JsonStringify.Stringify writes every digit of an integer. `JSON.stringify` writes integers of magnitude 10^21 or more in exponent form ("1e+21"), so the text stored under `user` differs for such numbers.
- AuthStore.DecodeUser: valid JSON holding a fraction or exponent (`1.5`, `{"score": 4.5}`) or an escaped surrogate (`"\ud83d\ude00"`) parses to None. Loading then takes the corrupt branch: it signs out and removes both keys. `JSON.parse` accepts such text and the source loads the user.
- `JSON.stringify` writes no whitespace. The parser accepts whitespace wherever JSON allows it.
- Strings are sequences of characters. UTF-16 surrogate pairs, and the escapes `JSON.stringify` writes for lone surrogates, are not modelled.
- AuthStore.SetAuthNext and AuthStore.Store.SetAuth take the token as a string. A caller that passes `undefined` is not modelled: memory would hold `undefined` while `setItem` stores the text "undefined", and a reload would then authenticate with that text. The reload lemmas do not cover such a caller.
- LandingPage.VerifyNext and LandingPage.Page.HandleVerifyOtp take the password-change token as a string. A service answer without that field would store `undefined`, and that is not modelled.
- AuthStore.Consistent assumes this store is the only writer to `localStorage`. Another tab of the same origin can change the stored token, and then the token in memory differs from the stored one.
- JavaScript lists integer-like keys first, in numeric order. The model keeps every object in insertion order.
- Property reads on strings and arrays other than through a spread (`length`, index keys) are not modelled. Reading `id` or `_id` on a non-object is `undefined`.
- The `try/catch` around `JSON.parse` is modelled as `JSON.parse` failing (None). No other exception inside those blocks is modelled.
- Between the start of a handler and the settling of its promise, `isLoading` is true. The model takes each handler as one atomic step with the outcome already known, so it does not capture interleavings during `await`.
- Zustand subscribers, the store hook in components, and the redirect effect (page.js lines 82-86) are not modelled.
- The `authLoading` spinner (line 199) and the HTML `required`/`type="email"` checks are not modelled.
- LandingPage.Page.OnType and LandingPage.TypeNext accept text of any length. `maxLength={6}` on the OTP input (src/app/page.js:454) keeps `otp` at 6 characters or fewer, and that bound is not modelled.
- LandingPage.ResetNext and LandingPage.ResetSent send a new password of any length. `minLength={6}` on the new and confirm password inputs (src/app/page.js:489, 504) stops the browser submitting a shorter one, and that check is not modelled.
- Toasts, GSAP animations, `console` logging and the "Continue as Guest" link are not modelled. None of them change state.
- Clearing the file input's DOM value after registration is not modelled (lines 135-138). The model clears the component's image field.
- The authentication service and its HTTP calls are not modelled. They appear as the `Request` sent and the `Outcome` received. src/services/authService.js is not part of this model.
