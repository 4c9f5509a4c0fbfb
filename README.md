# EchoRoom frontend: friend-request reconciler and onboarding form

A Dafny model of the two pieces of client-side logic in EchoRoom's web front end:

- **Home page** (`frontend/src/pages/HomePage.jsx`). The page fetches the list of
  outgoing friend requests. An effect turns that list into the set of users who have
  already been asked. It walks the list, skips entries whose `recipient._id` is
  missing or falsy, and swaps the new set in. If the fetched value is not an array,
  the old set stays. Each recommended user's button is disabled when that user's id
  is in the set or a send is pending, and it reads "Request Sent" exactly when the
  id is in the set. Each section shows a spinner, a placeholder or one card per
  element. A successful send invalidates the `outgoingFriendReqs` cache key.
- **Onboarding page** (`frontend/src/pages/OnboardingPage.jsx`). The form state is a
  record of seven strings. It is seeded from the signed-in user (`value || ""`).
  Every input replaces one field by a spread update, and the three selects offer
  only `""` or a catalog entry. "Generate Avatar" overwrites only the picture, with
  the address of placeholder avatar 1..100. The submit button, which is disabled
  while a submission is pending, sends the whole record.

Files:
- `common.dfy`: `Option`, the cache keys, and the truthiness of JavaScript strings.
- `decimal.dfy`: how `${n}` renders a number in base ten, plus the parser that
  inverts it.
- `home_page.dfy`: the reconciler. It has a loop method proved against the
  set-comprehension function `SentIds`, lemmas about `SentIds`, the button, click
  and section functions, and the `HomeView` class. That class holds the page's
  state: the set, the pending flag and the keys invalidated so far.
- `onboarding_page.dfy`: the `FormState` datatype and its seed, update, catalog,
  avatar and submission functions with their lemmas.

Modelling choices:
- A value that may be missing is an `Option`. In the optional chain
  `req?.recipient?._id` None covers both `undefined` and `null`. For a section's
  list, None stands for `undefined` only, which the destructuring default turns
  into `[]`. User ids are strings, so "truthy" means "present and non-empty".
- The random draw `Math.floor(Math.random() * 100)` is an integer parameter in
  [0, 100). The avatar number is that draw plus one.
- The catalogs `BOOKS`, `SHOWS` and `HOBBIES` are the parameter `Catalogs`, because
  their contents live in `frontend/src/constants`, which is not part of this model.
- Cache invalidation is recorded as a value: a key appended to
  `HomeView.invalidated`, or the key set returned by `SettledInvalidations`.
- Any non-array value, including `undefined` while loading, keeps the previous set
  (`HomePage.jsx:42`, `:50`). The set is empty before the first fetch because it
  starts empty (`HomePage.jsx:18`).
- `handleSubmit` (`OnboardingPage.jsx:43-46`) does not check `isPending` itself.
  Only the disabled submit button (`OnboardingPage.jsx:222`) stops a second
  submission. `Submit` models submission through that button.

## Model

| member | source | states |
|---|---|---|
| `Common.OrEmpty` | frontend/src/pages/OnboardingPage.jsx:23-29 | the value-or-empty default is the string itself when present and truthy, otherwise `""`, and never some other string |
| `Decimal.ToString` | frontend/src/pages/OnboardingPage.jsx:50 | `${idx}` is a non-empty string of digits with no leading zero |
| `Decimal.ParseToString` | frontend/src/pages/OnboardingPage.jsx:50 | parsing the rendered number gives the number back |
| `Decimal.ToStringInjective` | frontend/src/pages/OnboardingPage.jsx:50 | distinct numbers render differently |
| `HomePage.RecipientIdOf` | frontend/src/pages/HomePage.jsx:44 | `req?.recipient?._id` is missing as soon as the request or its recipient is missing, and is the recipient's `_id` otherwise |
| `HomePage.WellFormed` | frontend/src/pages/HomePage.jsx:44 | an entry passes the test iff the request, its recipient and its `_id` are all present and the `_id` is non-empty |
| `HomePage.CollectOutgoingIds` | frontend/src/pages/HomePage.jsx:41-49 | the set built by the loop equals exactly the recipient ids of the well-formed entries (`SentIds`) |
| `HomePage.SentIdsSnoc` | frontend/src/pages/HomePage.jsx:43-48 | one more entry adds its recipient id when it is well formed, and nothing otherwise |
| `HomePage.SentIdsMembership` | frontend/src/pages/HomePage.jsx:44-45 | an id is in the set iff some entry's `recipient._id` is that id and the id is truthy |
| `HomePage.NoWellFormedEntryNoIds` | frontend/src/pages/HomePage.jsx:41-50 | an empty list, or a list of malformed entries only, yields the empty set |
| `HomePage.SentIdsConcat` | frontend/src/pages/HomePage.jsx:43-48 | the set of a concatenated list is the union of the two lists' sets |
| `HomePage.MalformedEntryIgnored` | frontend/src/pages/HomePage.jsx:44-48 | a malformed entry anywhere in the list neither stops the walk nor adds an id |
| `HomePage.DuplicateEntryCollapses` | frontend/src/pages/HomePage.jsx:45 | repeating an entry leaves the set unchanged |
| `HomePage.SentIdsOrderFree` | frontend/src/pages/HomePage.jsx:43-45 | any rearrangement of the list (same multiset) gives the same set |
| `HomePage.FriendButtonFor` | frontend/src/pages/HomePage.jsx:149-167 | the button is disabled iff the id is in the set or a send is pending, and reads "Request Sent" iff the id is in the set |
| `HomePage.Click` | frontend/src/pages/HomePage.jsx:153-154 | a click sends that user's id exactly when the button is enabled, and otherwise does nothing |
| `HomePage.RequestedUserBlocked` | frontend/src/pages/HomePage.jsx:99-167 | a user named by a well-formed entry of the refreshed list gets a disabled "Request Sent" button, and clicking it sends nothing |
| `HomePage.UnrequestedUserOpen` | frontend/src/pages/HomePage.jsx:99-167 | a user no entry names reads "Add Friend", and a click sends exactly that id iff no send is pending |
| `HomePage.RenderSection` | frontend/src/pages/HomePage.jsx:66-78 | spinner while loading; placeholder when the list is absent or empty; otherwise one card per element, in order |
| `HomePage.Recommendations` | frontend/src/pages/HomePage.jsx:87-173 | the recommendations section follows the same three-way choice, and each card's button follows its own user's membership and the pending flag |
| `HomePage.HomeView.constructor` | frontend/src/pages/HomePage.jsx:18 | the set starts empty, with nothing pending and nothing invalidated |
| `HomePage.HomeView.Reconcile` | frontend/src/pages/HomePage.jsx:40-52 | an array replaces the set wholesale with `SentIds` of the array; a non-array value leaves the set unchanged; nothing else changes |
| `HomePage.HomeView.ClickAddFriend` | frontend/src/pages/HomePage.jsx:149-155 | an enabled click starts the send with that user's id and makes it pending; a disabled click changes nothing |
| `HomePage.HomeView.SendSettled` | frontend/src/pages/HomePage.jsx:35-38 | settling clears the pending flag; success invalidates exactly the `outgoingFriendReqs` key; failure invalidates nothing |
| `OnboardingPage.Seed` | frontend/src/pages/OnboardingPage.jsx:22-30 | each of the seven fields is the user's value when there is a user and the value is truthy, otherwise `""` |
| `OnboardingPage.SeedWithoutUser` | frontend/src/pages/OnboardingPage.jsx:22-30 | with no signed-in user every field is `""` |
| `OnboardingPage.SeedAsProfile` | frontend/src/pages/OnboardingPage.jsx:22-30 | seeding from a profile that holds a form's values gives back exactly that form |
| `OnboardingPage.Update` | frontend/src/pages/OnboardingPage.jsx:116 | a spread update sets the edited field to the new value and leaves the other six unchanged |
| `OnboardingPage.UpdateSameValue` | frontend/src/pages/OnboardingPage.jsx:116-208 | writing back a field's current value leaves the record unchanged |
| `OnboardingPage.UpdateOverwrites` | frontend/src/pages/OnboardingPage.jsx:116-208 | the last of two edits of one field wins |
| `OnboardingPage.UpdatesCommute` | frontend/src/pages/OnboardingPage.jsx:116-208 | edits of different fields commute |
| `OnboardingPage.CatalogOf` | frontend/src/pages/OnboardingPage.jsx:162-217 | exactly the book, show and hobby fields are selects, drawing on BOOKS, SHOWS and HOBBIES respectively; the other fields are free text |
| `OnboardingPage.OptionValues` | frontend/src/pages/OnboardingPage.jsx:167-172 | a select offers exactly `""` and the catalog entries |
| `OnboardingPage.ChooseOption` | frontend/src/pages/OnboardingPage.jsx:162-173 | choosing option `choice` sets its field to that option's value: `""` for the placeholder, otherwise catalog entry `choice - 1`; the other fields are unchanged |
| `OnboardingPage.ChooseOptionKeepsCatalogs` | frontend/src/pages/OnboardingPage.jsx:162-217 | after any choice every catalog field still holds `""` or an entry of its catalog |
| `OnboardingPage.TextEditKeepsCatalogs` | frontend/src/pages/OnboardingPage.jsx:112-150 | typing into a free-text field keeps every catalog field within its catalog |
| `OnboardingPage.AvatarUrl` | frontend/src/pages/OnboardingPage.jsx:50 | the address is the avatar prefix, then the decimal spelling of the index, then `.png` |
| `OnboardingPage.AvatarIndexOf` | frontend/src/pages/OnboardingPage.jsx:50 | an address is read as an avatar number iff it is the avatar prefix, a non-empty run of digits, and `.png` |
| `OnboardingPage.AvatarUrlRoundTrip` | frontend/src/pages/OnboardingPage.jsx:50 | reading the avatar address of idx gives back idx |
| `OnboardingPage.AvatarUrlInjective` | frontend/src/pages/OnboardingPage.jsx:49-50 | distinct avatar numbers give distinct addresses |
| `OnboardingPage.RandomAvatar` | frontend/src/pages/OnboardingPage.jsx:48-51 | the picture becomes the avatar address of number `draw + 1`, which lies in 1..100, and no other field changes |
| `OnboardingPage.RandomAvatarKeepsCatalogs` | frontend/src/pages/OnboardingPage.jsx:51 | a generated avatar keeps every catalog field within its catalog |
| `OnboardingPage.SubmitButtonFor` | frontend/src/pages/OnboardingPage.jsx:222-233 | the submit button is disabled, and reads "Onboarding...", exactly while a submission is pending |
| `OnboardingPage.Submit` | frontend/src/pages/OnboardingPage.jsx:43-46 | while pending nothing is sent; otherwise the payload is exactly the current form state |
| `OnboardingPage.SettledInvalidations` | frontend/src/pages/OnboardingPage.jsx:32-41 | a settled submission invalidates only the `authUser` key, and only on success |

## Left out

- The HTTP calls (`getUserFriends`, `getRecommendedUsers`, `getOutgoingFriendReqs`, `sendFriendRequest`, `completeOnboarding`) and the backend behind them. They are foreign calls whose behaviour is not visible, so they appear only as inputs (fetched data, outcomes) and outputs (the id or payload sent).
- The query cache's timing: when an effect runs, when a refetch lands, and the ordering between fetches. That belongs to an external asynchronous library. An invalidation is recorded only as a key.
- `Math.random` and the floating-point multiply (`OnboardingPage.jsx:49`). The draw is an integer parameter in [0, 100).
- The `console.warn` for a malformed entry, the success and error toasts, animations, icons, CSS classes (including the `btn-disabled`/`btn-primary` choice at `HomePage.jsx:150-152`) and links. These are UI side effects with no stated contract.
- The display fields of a recommended user's card (picture, location, bio, book and hobby badges, `HomePage.jsx:111-144`) and the friend cards themselves. They are markup. `RecommendedUser` keeps only the id and the name.
- `frontend/src/pages/SignUpPage.jsx`, `frontend/src/components/FriendCard.jsx` and `frontend/src/components/NoFriendsFound.jsx`. The sign-up form is network glue with the same record-update pattern as onboarding. The other two are presentational.
- HomePage.RenderSection: a `null` list or a non-array object is not modelled; there the page throws at `.length` or `.map` (`HomePage.jsx:70`, `:74`, `:91`, `:98`). A recommended user without `_id` is not modelled either; its button is enabled and a click sends `undefined` (`HomePage.jsx:99`, `:153`). `RecommendedUser.id` is a required string.
- `OnboardingPage.Seed`: a profile field that holds a truthy non-string value (a number, say) is not modelled. Profile fields are optional strings.
- `HomePage.SentIds`: ids that are truthy non-strings are not modelled. Recipient ids are optional strings.
- `OnboardingPage.Submit`: covers submission through the submit button only. `handleSubmit` itself does not check the pending flag.
- The onboarding form keeps its values after a failed submission. Nothing in the error handler touches the form state, so the model simply has no transition for it.
