# Shoe shop front end: store, signup validator, size rules

This project models the front end of a small shoe shop written in React. It covers three parts:

- **The global store** (`Store`, `src/front/store.js`). `InitialStore` rebuilds the state record from what `localStorage` holds when the page loads. `Reduce` is the next state `storeReducer` returns for an action, or the TypeError it throws. `Persist` is what the reducer writes to `localStorage`. `Reducer` is the reducer itself: it performs those writes, in the source's order, on a `Browser.LocalStorage` object, and it is proved to agree with `Reduce` and `Persist`. `StoreProperties` proves what each case promises:
  - every case leaves untouched the fields it does not name, because it starts from `...store`;
  - removal is by id and removes every line with that id;
  - replacement by id keeps positions;
  - the user merge;
  - the session write-through, and what a reload restores from it.
- **The signup form** (`Signup`, `src/front/pages/Signup.jsx`):
  - the field rules of `validateForm`, each stated against a reference reading of its regular expression or of `trim()`;
  - `validateForm` itself, which records the rules' messages in order;
  - `handleChange`;
  - `handleSubmit` up to the request, which drops `confirm_password` from the data it sends.
- **The shoe page** (`ShoePage`, `src/front/pages/Shoe.jsx`):
  - the sold-out size filter;
  - the rule that disables a size button;
  - the add-to-cart guard and its payload, linked to the store's `add_to_cart` case.

JavaScript values are modelled dynamically by `Js.Value`, in `js.dfy`. The same file gives the parts of the language's semantics these parts rely on:
- truthiness;
- property reads, which throw on `null` and `undefined`;
- object and array spread;
- `filter` and `map` with callbacks that may throw.

A thrown TypeError is the `TypeError` alternative of `Js.Result`.

Two points where the code and its callers disagree; the model follows the code:
- `load_shoes`: this is the action the home page dispatches (`Home.jsx:18`). No case handles it, so it falls to `default` and leaves the state unchanged. It does not replace the catalogue.
- `remove_from_cart`: this is id-based and removes every line whose id matches. The cart page dispatches a line's index (`Cart.jsx:110-113`). For an index payload, `payload.id` is `undefined`, so only the lines without an id are dropped (`StoreProperties.IndexPayloadRemovesNothing`).

## Model

| member | source | states |
|---|---|---|
| `Store.InitialStore` | src/front/store.js:1-13 | empty catalogue and cart, no signup flag, empty message; the stored token when it is non-empty, else null; the stored user, else null |
| `Store.Reduce` | src/front/store.js:15-119 | only five cases can throw; each case changes only the fields it names, so that token and user, cart, products, the signup flag and the message each stay unless their case runs |
| `Store.Persist` | src/front/store.js:29-65 | only the `token` and `user` keys are ever written; every other key stays; only login, user update and logout touch storage |
| `Store.Reducer` | src/front/store.js:15-119 | the returned state is `Reduce`'s, and the storage afterwards is `Persist` applied to the storage before |
| `Store.CaseOf` | src/front/store.js:16-117 | no contract of its own: `RecognisedNames` states that exactly the twelve label strings select a case, and `UnrecognisedActionIsIgnored` that every other value reaches `default` |
| `Store.MergedUser` | src/front/store.js:43-46 | no contract of its own: `UpdateUserMerges` states the key-wise merge in which the payload wins and a falsy user or payload contributes nothing |
| `Store.KeepLine` | src/front/store.js:88-90 | no contract of its own: `KeepLineAt` and `CartAfterRemoveFiltersById` state that on lines and a payload that have properties it keeps exactly the lines whose id differs from the payload's |
| `Store.CartAfterRemove` | src/front/store.js:88-90 | no contract of its own: `CartAfterRemoveFiltersById` equates it with the filter by the payload's id; `RemoveFromCartThrows` gives the exact throw condition |
| `Store.CatalogueAfterAdd` | src/front/store.js:96 | no contract of its own: `AdminAddAppends` states the append to an array catalogue and the throw for a catalogue that is not iterable |
| `Store.KeepProduct` | src/front/store.js:100-103 | no contract of its own: `KeepProductAt` and `KeepProductIsHasOtherId` state that on products that have properties it keeps exactly those whose id differs from `idToDelete` |
| `Store.CatalogueAfterDelete` | src/front/store.js:100-103 | no contract of its own: `CatalogueAfterDeleteFiltersById` equates it with the filter by the payload's id; `AdminDeleteWithoutPayloadThrows` gives the throw on a missing payload |
| `Store.ReplaceProduct` | src/front/store.js:108-111 | no contract of its own: `CatalogueAfterUpdateReplacesById` states that each product becomes the payload exactly where the ids match |
| `Store.CatalogueAfterUpdate` | src/front/store.js:108-111 | no contract of its own: `CatalogueAfterUpdateReplacesById` states that the length is kept and each position holds the payload where the id matches and the old product elsewhere |
| `Browser.LocalStorage.SetItem` | src/front/store.js:32-33 | the key maps to the value and every other key is unchanged |
| `Browser.LocalStorage.RemoveItem` | src/front/store.js:57-58 | the key is gone and every other key is unchanged |
| `StoreProperties.UnrecognisedActionIsIgnored` | src/front/store.js:116-117 | an action type no case names returns the state unchanged and writes nothing |
| `StoreProperties.RecognisedNames` | src/front/store.js:16-107 | an action type is recognised exactly when it is one of the twelve label strings |
| `StoreProperties.MissingAndLoadShoesAreIgnored` | src/front/store.js:15-16 | the default empty action and `load_shoes` both leave the state unchanged |
| `StoreProperties.SignupFlagAndMessage` | src/front/store.js:17-27 | `signup_success` and `signup_failed` set only the flag; `set_message` sets only the message, to the payload |
| `StoreProperties.AddToCartAppends` | src/front/store.js:79-83 | the cart gains the payload as its last line, the old lines stay as a prefix, and nothing else changes |
| `StoreProperties.AddingAllAppendsAll` | src/front/store.js:79-83 | adding items one at a time appends all of them in order, duplicates included |
| `StoreProperties.CartLengthCountsAdds` | src/front/store.js:79-83 | N additions to the initial cart leave N lines |
| `StoreProperties.FilterByIdKeepsOthers` | src/front/store.js:88-90 | filtering by id keeps exactly the entries whose id differs, each as often as before; no entry with that id remains; the length does not grow |
| `StoreProperties.CartAfterRemoveFiltersById` | src/front/store.js:88-90 | on lines and a payload that have properties the callback cannot throw, and the cart filter is the filter by the payload's id, in order |
| `StoreProperties.RemoveFromCartFiltersById` | src/front/store.js:85-91 | `remove_from_cart` replaces the cart by that filter and changes nothing else |
| `StoreProperties.RemoveFromCartThrows` | src/front/store.js:88-90 | it throws exactly when the cart is non-empty and the payload or some line is null or undefined |
| `StoreProperties.FilterByIndexIdKeepsAll` | src/front/store.js:88-90 | a number has no id, so filtering lines that all carry an id by it keeps every line |
| `StoreProperties.IndexPayloadRemovesNothing` | src/front/pages/Cart.jsx:110-113 | an index payload has no id, so a cart whose lines all carry ids is left as it is |
| `StoreProperties.LogoutClearsSession` | src/front/store.js:56-65 | token and user become null and the cart empty; catalogue, flag and message stay; both stored keys are removed and all others kept |
| `StoreProperties.LoginStoresSession` | src/front/store.js:29-40 | token and user come from the payload, into the state and into storage |
| `StoreProperties.LoginIgnoresOtherFields` | src/front/store.js:30 | two payloads with the same token and user give the same state and the same storage |
| `StoreProperties.LoginWithoutPayloadThrows` | src/front/store.js:30 | a missing payload throws before anything is stored |
| `StoreProperties.LoginExample` | src/front/store.js:29-40 | the login with token `t1` and a user with email `a@b.com` stores and keeps both |
| `StoreProperties.UpdateUserMerges` | src/front/store.js:42-54 | the merged user has the keys of both; payload keys take the payload's values; other keys keep the prior user's; a null user merges from nothing; the stored user is the merged one |
| `StoreProperties.LoadProductsReplaces` | src/front/store.js:73-77 | the catalogue becomes the payload exactly |
| `StoreProperties.AdminAddAppends` | src/front/store.js:93-97 | an array catalogue gains the payload at the end; a catalogue that is not iterable throws, and only that |
| `StoreProperties.CatalogueAfterDeleteFiltersById` | src/front/store.js:100-103 | on an array catalogue of products that have properties, the catalogue filter is the filter by the payload's id, in order |
| `StoreProperties.AdminDeleteFiltersById` | src/front/store.js:99-105 | `admin_delete_product` replaces the catalogue by that filter and changes nothing else |
| `StoreProperties.AdminDeleteWithoutPayloadThrows` | src/front/store.js:100 | reading the payload's id throws on a missing payload, even on an empty catalogue |
| `StoreProperties.CatalogueAfterUpdateReplacesById` | src/front/store.js:108-111 | the length is kept; each position holds the payload where the id matches and the old entry elsewhere |
| `StoreProperties.AdminUpdateReplacesById` | src/front/store.js:107-113 | `admin_update_product` succeeds on an array catalogue of products that have properties, replaces the catalogue by that map and changes nothing else |
| `StoreProperties.ReloadAfterLogin` | src/front/store.js:1-13 | a reload after login restores the user, and the token when it is non-empty |
| `StoreProperties.ReloadAfterLogout` | src/front/store.js:56-58 | a reload after logout restores no session |
| `StoreProperties.ReloadAfterUpdateUser` | src/front/store.js:48 | a reload after a user update restores the merged user |
| `Signup.WithField` | src/front/pages/Signup.jsx:23 | the named field takes the new value and every other field keeps its value |
| `Signup.Trim` | src/front/pages/Signup.jsx:54-59 | no contract of its own: `TrimEmptyIffBlank` states that it is empty exactly when every character is whitespace |
| `Signup.EmailPatternTest` | src/front/pages/Signup.jsx:37 | no contract of its own: `EmailPatternTestCorrect` states that it holds exactly when `\S+@\S+\.\S+` occurs somewhere in the string |
| `Signup.PhonePatternTest` | src/front/pages/Signup.jsx:64 | no contract of its own: `PhonePatternTestCorrect` states that it holds exactly when the whole string matches `^\+?[\d\s\-()]+$` |
| `Signup.TrimEmptyIffBlank` | src/front/pages/Signup.jsx:54-60 | `trim()` gives the empty string exactly when every character is whitespace |
| `Signup.EmailPatternTestCorrect` | src/front/pages/Signup.jsx:37 | the executable test agrees with the reference reading of `\S+@\S+\.\S+`, which looks for an occurrence anywhere in the string |
| `Signup.PhonePatternTestCorrect` | src/front/pages/Signup.jsx:64 | the executable test agrees with the reference reading of the anchored pattern: an optional `+`, then one or more digits, whitespace, `-`, `(` or `)` |
| `Signup.EmailError` | src/front/pages/Signup.jsx:35-39 | an empty email is required; a non-empty one is invalid exactly when the pattern does not occur in it |
| `Signup.PasswordError` | src/front/pages/Signup.jsx:42-46 | no error exactly at six characters or more; the empty password is required; a shorter one is too short |
| `Signup.ConfirmError` | src/front/pages/Signup.jsx:49-51 | an error exactly when the confirmation differs from the password |
| `Signup.NameError` | src/front/pages/Signup.jsx:54-60 | an error exactly when the name is all whitespace |
| `Signup.PhoneError` | src/front/pages/Signup.jsx:64-66 | an error exactly when the phone is non-empty and does not match the whole pattern |
| `Signup.NotedInOrderKeepsEach` | src/front/pages/Signup.jsx:32-66 | recording the six outcomes one after another leaves each under its own field and never writes the address |
| `Signup.ValidateForm` | src/front/pages/Signup.jsx:31-70 | a field has an entry exactly when its rule fails, holding that rule's message; the address never has one; the answer is true exactly when the map is empty |
| `Signup.FormValidIff` | src/front/pages/Signup.jsx:31-70 | a form passes exactly when the email pattern occurs, the password has six characters or more and equals the confirmation, neither name is blank, and the phone is empty or matches |
| `Signup.HandleChange` | src/front/pages/Signup.jsx:21-29 | only the named field takes the new value; that field's error is blanked only when it was non-empty; every other field and error is unchanged |
| `Signup.SubmittedData` | src/front/pages/Signup.jsx:84 | the sent data has no confirmation and keeps every other field's value |
| `Signup.HandleSubmit` | src/front/pages/Signup.jsx:72-84 | nothing is sent unless the error map is empty, and then the data without the confirmation is sent |
| `Signup.PhoneExamples` | src/front/pages/Signup.jsx:64-66 | a lone `+` is invalid; the empty phone and `+1 (555) 123-4567` pass |
| `Signup.UnanchoredEmailExample` | src/front/pages/Signup.jsx:37 | `see a@b.co` is a valid email because the pattern is not anchored |
| `Signup.EmailWithoutDotExample` | src/front/pages/Signup.jsx:37-38 | `a@b` is invalid |
| `Signup.EmptyFormErrors` | src/front/pages/Signup.jsx:8-16 | the blank form fails on email, password and both names, but not on the confirmation or the phone |
| `ShoePage.SoldOut` | src/front/pages/Shoe.jsx:54 | no contract of its own: `NoStockMeansAllUnavailable`, `StockedSizesUnavailableIffZero` and `MissingStockEntryIsAvailable` state that without a stock map every size is sold out and with one exactly the sizes whose entry is `0` |
| `ShoePage.UnavailableSizes` | src/front/pages/Shoe.jsx:54 | no contract of its own: `UnavailableMembership`, `UnavailableIsOrderedSubList`, `NoStockMeansAllUnavailable` and `NoSizesNoneUnavailable` state that it is the sold-out sizes in their original order and multiplicity, and empty for a shoe without `sizes` |
| `ShoePage.SizeDisabled` | src/front/pages/Shoe.jsx:106-116 | no contract of its own: `DisabledIffSoldOut` states that a listed size's button is disabled exactly when the size is sold out |
| `ShoePage.HasSizes` | src/front/pages/Shoe.jsx:58 | no contract of its own: `NoDispatchWithoutSize` states that a non-empty size list makes it hold, and `SizelessShoeAddedUnchanged` that an empty one does not |
| `ShoePage.CartPayload` | src/front/pages/Shoe.jsx:65 | no contract of its own: `PayloadCarriesSelectedSize` states that with a selected size it has the shoe's keys plus `selectedSize`; `SizelessShoeAddedUnchanged` that without one it is the shoe |
| `ShoePage.HandleAddToCart` | src/front/pages/Shoe.jsx:57-69 | it throws exactly for a null shoe; it dispatches nothing exactly when the shoe has sizes and none is selected; otherwise it dispatches `add_to_cart` with the cart payload |
| `ShoePage.UnavailableIsOrderedSubList` | src/front/pages/Shoe.jsx:54 | the unavailable sizes are the sold-out sizes in their original order: filtering splits over any cut of the list, and each size keeps its multiplicity |
| `ShoePage.UnavailableMembership` | src/front/pages/Shoe.jsx:54 | a size is unavailable exactly when it is listed and sold out |
| `ShoePage.NoStockMeansAllUnavailable` | src/front/pages/Shoe.jsx:54 | without a stock map every listed size is unavailable |
| `ShoePage.StockedSizesUnavailableIffZero` | src/front/pages/Shoe.jsx:54 | with a stock map, exactly the listed sizes whose entry is `0` are unavailable |
| `ShoePage.MissingStockEntryIsAvailable` | src/front/pages/Shoe.jsx:54 | a size the stock map has no entry for is available |
| `ShoePage.NoSizesNoneUnavailable` | src/front/pages/Shoe.jsx:54 | a shoe without `sizes` has no unavailable sizes |
| `ShoePage.DisabledIffSoldOut` | src/front/pages/Shoe.jsx:106-116 | a listed size's button is disabled exactly when that size is sold out |
| `ShoePage.NoDispatchWithoutSize` | src/front/pages/Shoe.jsx:58-61 | a shoe with a non-empty size list is not added without a selected size |
| `ShoePage.SizelessShoeAddedUnchanged` | src/front/pages/Shoe.jsx:63-66 | a shoe with an empty size list is added as it is |
| `ShoePage.PayloadCarriesSelectedSize` | src/front/pages/Shoe.jsx:65 | with a selected size the payload has the shoe's keys plus `selectedSize`, holding the size, and every other key keeps its value |
| `ShoePage.AddThenReduceAppendsPayload` | src/front/pages/Shoe.jsx:63-66 | reducing the dispatched action appends exactly the payload to the cart, grows it by one line, and changes nothing else |

## Left out

- Rendering, hooks, navigation, notifications and timers are not modelled. This includes the `msg` state, `notify` and `setTimeout`, the loading and not-found views, and the inverted `if (shoe)` at `Shoe.jsx:34`, which makes the detail view unreachable. Only the logic of lines 54-69 is modelled.
- `fetch` calls, the backend and the signup request after line 84 are not modelled. They are network I/O.
- Numbers are integers. Floating point, `NaN` and the float-based totals of the cart page are out of scope.
- `===` and `includes` compare values structurally. Object identity is not modelled: two equal object literals compare equal here.
- Objects have own properties only. Prototype properties and methods are not modelled. A value with a user-defined `filter` method counts as lacking one.
- Stored values are kept as the values they encode. This leaves out the `String` conversion that `setItem` applies and the JSON round trip of `user`. Two consequences: a stored `undefined` token would really be the string `"undefined"`, and a reload after a login whose user was `undefined` would throw in `JSON.parse`.
- Store.InitialStore: restores the stored user whenever the key is present. The source's `user ?` test on the stored string cannot fail for a JSON encoding, and that encoding is not modelled.
- ShoePage.HasSizes: `length > 0` compares numbers, booleans, `null` and `undefined` as JavaScript does. A string, array or object `length` counts as not positive, because the numeric conversion of such a value is not modelled.
- Strings are sequences of code points. `password.length` counting UTF-16 code units is not modelled.
- Whitespace for `\s`, `\S` and `trim()` is the fixed ECMAScript set: the WhiteSpace and LineTerminator code points, with the Unicode space separators as of Unicode 15.
- `handleChange` stores the typed value under `e.target.name`. Names other than the seven form fields are not modelled.
- The callers that dispatch other payloads to `remove_from_cart` (`CardItem.jsx`, `Demo.jsx`) are not modelled. Only the reducer's own rule is.
