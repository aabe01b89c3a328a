# OrganConnect in Dafny

This project models the core of OrganConnect, a platform that connects organ donors, hospitals and recipients. It covers two halves.

**Backend.** This half covers:

- the in-memory stand-in for MongoDB: a client, its databases, and collections whose documents are kept in insertion order;
- the account records;
- the authentication routes: register, login, the bearer-token lookup behind `GET /auth/me`, and the demo one-time-password (OTP) store.

**Frontend.** This half covers the state and event handlers of these pages and components:

- the registration page;
- the community feed;
- the donor registration form;
- the chat assistant;
- the navigation bar;
- the landing page.

Each source file has its own module:

| module | file | models |
|---|---|---|
| `MockDb` | `mock_db.dfy` | `backend/mock_db.py` |
| `Models` | `models.dfy` | `backend/models.py` |
| `AuthRoutes` | `auth_routes.dfy` | `backend/auth_routes.py` |
| `RegisterPage` | `register_page.dfy` | `frontend/src/pages/Register.tsx` |
| `Community` | `community.dfy` | `frontend/src/pages/Community.tsx` |
| `DonorRegistration` | `donor_registration.dfy` | `frontend/src/pages/DonorRegistration.tsx` |
| `ChatBot` | `chatbot.dfy` | `frontend/src/components/ChatBot.tsx` |
| `Navigation` | `navigation.dfy` | `frontend/src/components/Navigation.tsx` |
| `IndexPage` | `index_page.dfy` | `frontend/src/pages/Index.tsx` |

Three small modules are shared:

- `Wrappers` holds `Option`.
- `Roles` holds the three account roles.
- `Text` holds the language behaviour the code relies on:
  - Python's `str(int)`;
  - Python's `str.replace(p, "")`;
  - JavaScript's `trim`;
  - JavaScript's `parseInt`.

How the source's forms are modelled:

- Mutable objects are classes with `modifies` clauses: the mock collection, database and client, the OTP table, and each page's React state.
- A collection's `_data` dictionary is an insertion-ordered `Table` value that the methods reassign.
- Route handlers that only read are functions.
- The lookup loops of the mock collection are methods with loop invariants, proved against specification functions (`FindOneResult`, `FirstMatch`, `MatchingDocs`).

Calls into code that is not part of this model are parameters:

- password hashing and checking;
- JWT signing and decoding;
- `uuid4`, `utcnow` and `randint`;
- the page's `fetch` and the auth context's `register`.

A React event is modelled as one method call. The state it leaves is committed before the next event.

## Model

| member | source | states |
|---|---|---|
| `MockDb.DocMatches` | backend/mock_db.py:21-24 | The filter loop answers true exactly when `doc.get(key) == value` for every pair of the filter. A missing field matches `None`. |
| `MockDb.Table.Put` | backend/mock_db.py:35 | `_data[key] = doc` keeps the table well formed and sets that key's document. An existing key keeps its position; a new key is appended. Every earlier position is unchanged. |
| `MockDb.Table.RemoveAt` | backend/mock_db.py:79 | `del _data[key]` removes exactly that key. Every other document is kept, the other keys keep their relative order, and the table shrinks by one. |
| `MockDb.FirstMatch` | backend/mock_db.py:19-27 | The position found is the first one, at or after the start, whose document matches. No earlier position matches. |
| `MockDb.FirstMatchAt` | backend/mock_db.py:19-27 | A matching position with no match before it is the first match. |
| `MockDb.FindOneResult` | backend/mock_db.py:17-27 | `find_one` returns a stored document that matches the filter. It returns `None` exactly when no stored document matches. |
| `MockDb.MatchingDocs` | backend/mock_db.py:98-109 | The documents selected from a prefix of the table all match the filter, and there are no more of them than the prefix holds. |
| `MockDb.MatchingDocsComplete` | backend/mock_db.py:98-109 | The selection is complete: its documents come from strictly increasing matching positions of the prefix, and every matching position of the prefix is among them. So `find` returns exactly the matching documents, once each, in insertion order. |
| `MockDb.SelectedFromMatch` | backend/mock_db.py:108-109 | A matching document at the next position extends a complete selection by that document. |
| `MockDb.SelectedFromSkip` | backend/mock_db.py:103-108 | A non-matching document at the next position leaves a complete selection complete. |
| `MockDb.MatchingDocsEmptyFilter` | backend/mock_db.py:100-101 | The empty filter selects every document, in insertion order. |
| `MockDb.MatchingDocsStart` | backend/mock_db.py:98-109 | An empty selection means nothing in the prefix matches. Otherwise the selection starts with the first match. |
| `MockDb.FindStartsWithFindOne` | backend/mock_db.py:93-109 | `find(f)` is empty exactly when `find_one(f)` is `None`; otherwise its head is `find_one(f)`. |
| `MockDb.Updated` | backend/mock_db.py:52-56 | The `$set` dictionary, or else the whole update, is merged into the document. Untouched fields keep their values. `updated_at` is set to now. |
| `MockDb.InsertThenFindOne` | backend/mock_db.py:29-35 | After inserting a document under its id, `find_one({"id": id})` returns exactly that document. Every stored document still carries its own key as its id. |
| `MockDb.Cursor.ToList` | backend/mock_db.py:115-116 | `to_list(length)` returns a prefix of the results: `results[:length]` for a truthy length, with Python's meaning of a negative stop, and all results for `None` or 0. |
| `MockDb.SliceStop` | backend/mock_db.py:116 | A slice stop lies within the sequence. A negative stop counts from the end. |
| `MockDb.MockCollection.constructor` | backend/mock_db.py:13-15 | A new collection has its name and no documents. |
| `MockDb.MockCollection.FindOne` | backend/mock_db.py:17-27 | The scan loop returns the first matching document in insertion order, or `None`. |
| `MockDb.MockCollection.InsertOne` | backend/mock_db.py:29-41 | A document without an id gets the fresh uuid. It is stored under its id and replaces any document already under that id. That id is returned. |
| `MockDb.MockCollection.UpdateOne` | backend/mock_db.py:43-68 | With no match the collection is unchanged and the count is 0, whatever `$set` holds. Otherwise only the first matching document changes, merged as `Updated` describes. The count is 1 if a document matched and 0 otherwise. Keys and order are kept. |
| `MockDb.MockCollection.DeleteOne` | backend/mock_db.py:70-91 | Only the first matching document is removed. The count is 1 or 0, and the collection shrinks by exactly that count. |
| `MockDb.MockCollection.Find` | backend/mock_db.py:93-118 | The cursor holds every matching document in insertion order. No filter is the same as the empty filter. |
| `MockDb.MockDatabase.constructor` | backend/mock_db.py:124-126 | A new database has its name and no collections, and is well formed. |
| `MockDb.MockDatabase.Collection` | backend/mock_db.py:128-138 | Get-or-create: an existing collection is returned as it is; an unknown name gets a fresh empty collection, which is remembered. The returned collection is well formed and carries the requested name, so it can be used at once. Every stored collection stays well formed and named by its key. |
| `MockDb.MockMongoClient.constructor` | backend/mock_db.py:144-146 | A new client has its URL and no databases, and is well formed. |
| `MockDb.MockMongoClient.Database` | backend/mock_db.py:148-152 | Get-or-create of a database, as for collections. The returned database is well formed and carries the requested name. |
| `Roles.ParseRole` | backend/models.py:10 | A role string is accepted exactly when it is `donor`, `hospital` or `admin`, and the accepted role's name is that string. |
| `Roles.ParseRoleName` | backend/models.py:10 | A role's name parses back to the same role. |
| `Models.NewUser` | backend/models.py:6-17 | A new `User` carries the given id and creation time. Its mobile and age are unset, it is not mobile-verified, and it is active. |
| `Models.ResponseHidesPassword` | backend/models.py:43-51 | The public view of an account does not depend on its password hash. |
| `Models.StrField` | backend/models.py:8-11 | A required string field validates exactly when it is present and a string. |
| `Models.UserToDoc` | backend/models.py:6-17 | `user.dict()` carries the account's id and email. |
| `Models.UserFromDoc` | backend/models.py:6-17 | `User(**d)` keeps the document's id, email and password hash. |
| `Models.UserDocRoundTrip` | backend/models.py:6-17 | A stored account reads back as the same account. |
| `Models.ParseUserRegister` | backend/models.py:19-26 | A registration body validates exactly when every field has its type and the role is `donor` or `hospital`; `admin` is refused. The result carries the body's values. |
| `Text.DecimalString` | backend/auth_routes.py:148 | `str(n)` is a non-empty run of digits with no leading zero. |
| `Text.DecimalStringValue` | backend/auth_routes.py:148 | Reading `str(n)` back gives `n`. |
| `Text.SixDigitNumerals` | backend/auth_routes.py:148 | Every number from `randint(100000, 999999)` is written with exactly six digits. |
| `Text.DeleteAll` | backend/auth_routes.py:36 | `replace("Bearer ", "")` never lengthens the header. |
| `Text.DeleteAllAbsent` | backend/auth_routes.py:36 | A string that does not contain the pattern is left unchanged. |
| `AuthRoutes.FoundIffTaken` | backend/auth_routes.py:63-70 | A duplicate check succeeds exactly when a stored document has that value in that field. |
| `AuthRoutes.RegisterRejection` | backend/auth_routes.py:58-70 | Register's checks, in order: mismatched passwords, then an email already stored, then a mobile already stored. There is no rejection exactly when all three pass. |
| `AuthRoutes.RegisteredUser` | backend/auth_routes.py:73-81 | The new account holds the request's fields and the hashed password. Its mobile is set and verified, it is active, and it has the fresh id. |
| `AuthRoutes.Register` | backend/auth_routes.py:53-93 | A rejection leaves the store untouched. Success adds exactly one user document under the new id and returns a bearer token for that account. Ids stay consistent. |
| `AuthRoutes.Login` | backend/auth_routes.py:95-120 | An unknown email is refused with the same 401 as a wrong password. A token is issued exactly when a stored account with that email has a verified password and is active. The token is for that account. A wrong password gets `Invalid email or password`. A right password on an inactive account gets `Account is inactive`. A stored document that is not a valid `User` gets a 500. Every failure is one of these three errors. |
| `AuthRoutes.RegisterThenLogin` | backend/auth_routes.py:53-120 | After a successful registration, logging in with the same email and password returns a token for the new account. |
| `AuthRoutes.CurrentUser` | backend/auth_routes.py:28-51 | Both directions. A user is returned only when all of these hold: the header starts with `Bearer `; the decoded payload is non-empty; its `sub` is truthy and equals the user's id; a stored document has that id. Conversely, each failed check gives `None` in the source's order. When every check passes, the user read from the first document with that id is returned, and a document that is not a valid `User` gives a 500. |
| `AuthRoutes.BearerTokenPassedThrough` | backend/auth_routes.py:36 | A token that does not itself contain `Bearer ` reaches the decoder intact. |
| `AuthRoutes.GetMe` | backend/auth_routes.py:122-142 | The answer is 401 exactly when there is no current user. Otherwise it is the account without its password hash. |
| `AuthRoutes.VerifyOtpStep` | backend/auth_routes.py:161-178 | For a mobile with no stored code, any six-digit string is accepted and the table is kept. With a stored code, only that code is accepted, and accepting it removes it. A rejection is a 400 and leaves the table unchanged. |
| `AuthRoutes.AfterVerifyAnyCodePasses` | backend/auth_routes.py:164-176 | Once a mobile's code has been accepted, any six-digit string is accepted for that mobile. |
| `AuthRoutes.OtpStore.constructor` | backend/auth_routes.py:22 | The OTP table starts empty. |
| `AuthRoutes.OtpStore.RequestOtp` | backend/auth_routes.py:144-159 | The code is the six-digit numeral of the draw. It replaces the mobile's previous code and is returned to the caller. |
| `AuthRoutes.OtpStore.VerifyOtp` | backend/auth_routes.py:161-178 | The answer and the new table are those of `VerifyOtpStep`. |
| `RegisterPage.WithField` | frontend/src/pages/Register.tsx:33-38 | Exactly the named field takes the new value. |
| `RegisterPage.OtpErrorMessage` | frontend/src/pages/Register.tsx:66-78 | A failed OTP request shows the thrown message, or `Failed to send OTP` when that message is empty. It never shows an empty message. |
| `RegisterPage.RegisterErrorMessage` | frontend/src/pages/Register.tsx:116-117 | A failed registration shows the thrown message, or the fallback text. It never shows an empty message. |
| `RegisterPage.PayloadOf` | frontend/src/pages/Register.tsx:108-111 | `register` receives the form. Its age is `parseInt(age)` when the field is non-empty and undefined when it is empty. |
| `RegisterPage.AgeSentAsNumber` | frontend/src/pages/Register.tsx:110 | An age typed as a decimal numeral reaches `register` as that number. |
| `RegisterPage.SubmitRejection` | frontend/src/pages/Register.tsx:88-103 | Submit's checks, in order: password mismatch, then no OTP sent, then the OTP check. The OTP check fails only when the entry differs from the issued code and is not six characters long. Each failure is pinned to its own message. |
| `RegisterPage.AnySixCharacterOtpPasses` | frontend/src/pages/Register.tsx:100-103 | With the passwords matching and a code sent, any six-character entry passes, whatever the issued code. |
| `RegisterPage.RegisterPage.constructor` | frontend/src/pages/Register.tsx:14-29 | The page starts with an empty form whose role is `donor`, no error, and no OTP. |
| `RegisterPage.RegisterPage.HandleChange` | frontend/src/pages/Register.tsx:33-38 | The input's field is updated and nothing else changes. |
| `RegisterPage.RegisterPage.HandleRoleChange` | frontend/src/pages/Register.tsx:40-45 | The role takes the chosen value, unchecked. |
| `RegisterPage.RegisterPage.SetOtp` | frontend/src/pages/Register.tsx:236 | The OTP entry takes the typed value. |
| `RegisterPage.RegisterPage.RequestOtp` | frontend/src/pages/Register.tsx:47-82 | A request is sent exactly when the mobile is non-empty and ten characters long. Otherwise only the error changes. After a request, loading is off. A code that arrives is stored and marks the OTP sent; a failure sets the error message. |
| `RegisterPage.RegisterPage.HandleSubmit` | frontend/src/pages/Register.tsx:84-121 | `register` is called, with `PayloadOf(form)`, exactly when `SubmitRejection` is `None`. Otherwise the error is the rejection. After the call, loading is off and the error reflects its outcome. |
| `Community.Displayed` | frontend/src/pages/Community.tsx:386 | A post shows its stored count, or its seed count when none is stored. |
| `Community.ToggleLike` | frontend/src/pages/Community.tsx:129-142 | A click flips the item's liked flag and stores a count for it. Every other item's flag and count are unchanged. |
| `Community.ToggleKeepsConsistent` | frontend/src/pages/Community.tsx:129-142 | For a non-negative seed count, the stored count stays equal to the seed plus one exactly when liked. Each click moves the shown count by one, up on a like and down on an unlike. |
| `Community.DoubleToggleRestores` | frontend/src/pages/Community.tsx:129-142 | Two clicks restore both the flag and the shown count. |
| `Community.ZeroCountReadAsMissing` | frontend/src/pages/Community.tsx:138 | A stored count of 0 is treated as missing and reset to the seed. With a negative seed, unliking from 0 gives -2. |
| `Community.SeedLikedFlagIgnored` | frontend/src/pages/Community.tsx:17-18 | The `isLiked` seed of a post is never read. Some post is seeded as liked, yet in the page's initial like state every post is unliked and shows its seed count. |
| `Community.ReelIdsDistinct` | frontend/src/pages/Community.tsx:31-76 | The reel ids are distinct, so each reel's like state is its own. |
| `Community.NextReel` | frontend/src/pages/Community.tsx:121-127 | A scroll moves one reel down or up and stops at either end. It stays within the reel list. |
| `Community.CommunityPage.constructor` | frontend/src/pages/Community.tsx:15-20 | The page starts on the first reel, with the post form hidden and no likes recorded. Every post starts unliked, showing its seed count. |
| `Community.CommunityPage.HandlePostLike` | frontend/src/pages/Community.tsx:129-142 | A post's like state becomes `ToggleLike` of the old state. Consistency is kept, and the shown count moves by one. |
| `Community.CommunityPage.HandleReelLike` | frontend/src/pages/Community.tsx:151-164 | The active reel's like state becomes `ToggleLike` of the old state. Every reel stays consistent. |
| `Community.CommunityPage.HandleReelScroll` | frontend/src/pages/Community.tsx:121-127 | The active reel becomes `NextReel` of the old one. |
| `Community.CommunityPage.SelectReel` | frontend/src/pages/Community.tsx:330 | The indicator click makes that reel active. |
| `Community.CommunityPage.TogglePostForm` | frontend/src/pages/Community.tsx:200 | The post form's visibility flips. |
| `Community.CommunityPage.ClosePostForm` | frontend/src/pages/Community.tsx:22-29 | Submitting or cancelling a post hides the form. |
| `DonorRegistration.Without` | frontend/src/pages/DonorRegistration.tsx:50 | The filter keeps exactly the other organs. |
| `DonorRegistration.WithoutAbsent` | frontend/src/pages/DonorRegistration.tsx:50 | Filtering out an organ that is not selected changes nothing. |
| `DonorRegistration.WithoutAppend` | frontend/src/pages/DonorRegistration.tsx:50 | Filtering distributes over concatenation. |
| `DonorRegistration.ToggledOrgans` | frontend/src/pages/DonorRegistration.tsx:46-53 | The organ is selected afterwards exactly when it was not before. Every other organ keeps its membership. |
| `DonorRegistration.WithoutKeepsNoDuplicates` | frontend/src/pages/DonorRegistration.tsx:50 | Filtering keeps a duplicate-free selection duplicate-free. |
| `DonorRegistration.ToggleKeepsNoDuplicates` | frontend/src/pages/DonorRegistration.tsx:46-53 | The selection never lists an organ twice. |
| `DonorRegistration.ToggleAbsentTwice` | frontend/src/pages/DonorRegistration.tsx:46-53 | Selecting then deselecting an organ restores the selection exactly. |
| `DonorRegistration.ToggleSelectedTwice` | frontend/src/pages/DonorRegistration.tsx:46-53 | Deselecting then reselecting an organ moves it to the end. |
| `DonorRegistration.DonorRegistrationPage.constructor` | frontend/src/pages/DonorRegistration.tsx:15-23 | The form starts empty, with no organs and no consent. |
| `DonorRegistration.DonorRegistrationPage.ToggleOrgan` | frontend/src/pages/DonorRegistration.tsx:46-53 | Only the organ list changes, as `ToggledOrgans` describes. The selection stays duplicate-free and within the offered organs. |
| `DonorRegistration.DonorRegistrationPage.SetField` | frontend/src/pages/DonorRegistration.tsx:122-173 | Exactly the edited text field changes. |
| `DonorRegistration.DonorRegistrationPage.SetConsent` | frontend/src/pages/DonorRegistration.tsx:229 | Exactly the consent flag changes. |
| `DonorRegistration.DonorRegistrationPage.HandleSubmit` | frontend/src/pages/DonorRegistration.tsx:29-44 | Consent is the only check. Without consent the toast is the destructive `Consent Required`; with it, `Registration Submitted`. |
| `ChatBot.SendKeepsTranscript` | frontend/src/components/ChatBot.tsx:17-22 | A user message keeps the transcript invariant and adds one pending reply. |
| `ChatBot.ReplyKeepsTranscript` | frontend/src/components/ChatBot.tsx:24-32 | A delivered canned reply keeps the invariant and settles one pending reply. |
| `ChatBot.AllAnswered` | frontend/src/components/ChatBot.tsx:17-33 | With nothing pending, there are as many assistant replies after the greeting as user messages. |
| `ChatBot.ChatWindow.constructor` | frontend/src/components/ChatBot.tsx:8-15 | The chat starts closed, holding only the greeting, with empty input. |
| `ChatBot.ChatWindow.SetOpen` | frontend/src/components/ChatBot.tsx:40 | The open and close buttons set the window's visibility. |
| `ChatBot.ChatWindow.SetInput` | frontend/src/components/ChatBot.tsx:91 | The input takes the typed value. |
| `ChatBot.ChatWindow.HandleSend` | frontend/src/components/ChatBot.tsx:17-33 | Blank input changes nothing. Otherwise the untrimmed input is appended as a user message, the input is cleared, and a reply becomes pending. The transcript invariant is kept. |
| `ChatBot.ChatWindow.DeliverReply` | frontend/src/components/ChatBot.tsx:24-32 | A pending timer appends the canned reply, and the transcript invariant is kept. |
| `Text.TrimEmptyIffBlank` | frontend/src/components/ChatBot.tsx:18 | `!input.trim()` holds exactly for strings made only of whitespace. |
| `Text.ParseIntDecimal` | frontend/src/pages/Register.tsx:110 | `parseInt` reads a decimal numeral back to its value. |
| `Navigation.AccountButtons` | frontend/src/components/Navigation.tsx:59-100 | Visitors see Login and Register. A signed-in user sees Donate exactly as a donor or admin, and Post Requirement exactly as a hospital or admin. Logout comes last and is shown exactly when someone is signed in. |
| `Navigation.RoleLinks` | frontend/src/components/Navigation.tsx:62-77 | A donor or a hospital sees exactly one action link; an admin sees both. |
| `Navigation.NextTheme` | frontend/src/components/Navigation.tsx:51 | The toggle selects light exactly from dark, and dark from anything else. |
| `Navigation.ThemeButtonLabel` | frontend/src/components/Navigation.tsx:160-161 | The mobile label names the theme that a click selects. |
| `Navigation.ThemeToggleTwice` | frontend/src/components/Navigation.tsx:51 | Two clicks restore light or dark, but turn any other theme into light. |
| `Navigation.NavigationBar.constructor` | frontend/src/components/Navigation.tsx:9-10 | The menu starts closed. |
| `Navigation.NavigationBar.ToggleMenu` | frontend/src/components/Navigation.tsx:107 | The menu button flips the mobile menu. |
| `Navigation.NavigationBar.CloseMenu` | frontend/src/components/Navigation.tsx:121 | Mobile links and the mobile logout close the menu. |
| `Navigation.NavigationBar.ToggleTheme` | frontend/src/components/Navigation.tsx:157 | The theme becomes `NextTheme` of the old one, and the menu is left as it is. |
| `IndexPage.DonorCta` | frontend/src/pages/Index.tsx:49-56 | The donor button is shown to visitors, donors and admins. It leads visitors to `/register` ("Register as Donor") and signed-in users to `/donate` ("Donate Organs"). |
| `IndexPage.RequirementCta` | frontend/src/pages/Index.tsx:58-64 | The requirement button is shown to visitors, hospitals and admins, and always leads to `/recipient-portal`. |
| `IndexPage.HeroCtas` | frontend/src/pages/Index.tsx:47-70 | The hero always ends with Join Community and offers at least one other action. |
| `IndexPage.ClosingCtas` | frontend/src/pages/Index.tsx:341-357 | The closing section always offers at least one action. |
| `IndexPage.SectionsShareTargets` | frontend/src/pages/Index.tsx:341-357 | The closing section's buttons lead where the hero's do, in the same order. |
| `IndexPage.SignedInAgreesWithNavigation` | frontend/src/pages/Index.tsx:49-64 | For a signed-in user, the page offers donating or posting exactly when the navigation bar does, and to the same place. |
| `IndexPage.VisitorSeesBothActions` | frontend/src/pages/Index.tsx:49-64 | A visitor who is not signed in sees both actions on the page, though the navigation bar offers neither. |

## Left out

- Python equality across types (`True == 1`, `1 == 1.0`) is not modelled: values compare structurally, and floats are absent.
- MockDb.MockCollection.UpdateOne: requires the `$set` value to be a dictionary when some document matches. With no match, Python never reads `$set` and answers 0; the model does the same for any `$set`. With a match, `dict.update` also accepts a list of key-value pairs, does nothing with an empty string or list, and raises `ValueError` for a non-empty string. The value model has no lists, so a matched non-dictionary `$set` is not modelled.
- MockDb.MockCollection.InsertOne: requires the id to be hashable. A nested-dictionary id makes Python raise, and that path is not modelled.
- MockDb.MockCollection.FindOne: returns documents by value, so Python's aliasing is not modelled. Mutating a document passed to `insert_one` or `update_one` after the call cannot reach the store.
- `MockMongoClient.close` is a no-op and is not modelled.
- `seed_mock_data` only fills the database with fixtures and is not modelled.
- `MockDatabase.__getitem__` is modelled as the method `Collection`. `__getattr__` behaves the same except for the names `name` and `_collections`: they are real attributes of the database, so `db.name` and `db._collections` never return a collection. That difference is not modelled.
- AuthRoutes.Register: takes the `users` collection directly instead of looking it up through `db.users`.
- AuthRoutes.Register: requires the fresh uuid not to be a stored key already, since `uuid4` collisions are not modelled.
- Asynchronous execution, logging, and `timedelta` token expiry are not modelled.
- Password hashing, JWT signing and decoding, and the request object are parameters or left out.
- Pydantic's coercions and `EmailStr` checks are not modelled. `ParseUserRegister` accepts exactly the typed fields.
- The `datetime` timestamps are abstract integers.
- Models.NewUser: the two default factories of `created_at` and `updated_at` each call `utcnow`, so the two instants may differ. The model reads the clock once and gives both fields that one instant.
- Python's `str.isdigit` is modelled for ASCII digits only. Unicode digits are left out.
- JavaScript's `String.length` counts UTF-16 code units. The model counts characters, so characters outside the Basic Multilingual Plane count differently.
- Text.ParseInt: `parseInt` is exact on unbounded integers. The model does not capture the double-precision rounding of very long numerals.
- Toasts, `console.log`, navigation, and CSS are not modelled. The donor form's toast is returned as a value.
- The `disabled`, `maxLength` and `required` attributes, and the browser's form validation, are not modelled. The handlers are modelled as callable at any time.
- The password-visibility toggles of the registration page are not modelled.
- The comment and share handlers of the community page raise toasts only and are not modelled.
- Community.CommunityPage.HandlePostLike: reads the liked flag from the last render. Two clicks batched into one render are not modelled.
- DonorRegistration.DonorRegistrationPage.SetConsent: takes a boolean. The checkbox's third value, `"indeterminate"`, is not modelled.
- The auth context's `logout` is not modelled. The theme provider's storage is not modelled either: the theme is a field of the navigation bar.
- The chat assistant's one-second timer is modelled as a pending reply that `DeliverReply` delivers.
- Pages outside the modelled ones are not modelled, including the recipient portal, about, events and resources pages and the footer.
