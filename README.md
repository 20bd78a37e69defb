# VS_News device-bound accounts: a Dafny model of the Cloud Functions backend

VS_News is a news app. It has no sign-in: a device registers itself, and the backend hands out
an opaque uid bound to an HMAC of the device id. The backend in `functions/index.js` holds
these accounts in Firestore. It has callable handlers that:

- register a device;
- re-check a stored uid;
- move tokens while keeping a history;
- toggle favorites while keeping a counter;
- rename an account.

A trigger on new comments attempts to update the author's counters and the discussion's
participant list in one transaction. As written, that transaction reads after it writes, so
Firestore refuses it and nothing is updated (see "## Findings"). The model's trigger is the
corrected one, with its reads first.

The model is one store (`Handlers.Store`) that holds the collections as maps:

- `users`
- `tokenHistory` (per user)
- `favorites`
- `discussions`
- `participatedDiscussions` (keyed by user and discussion)

Each handler is a method on the store, with its argument checks, error kinds and writes.
An id that is empty or contains a slash is treated as one that cannot name a document: the
handler fails as internal with nothing written. See "## Left out" for the cases where Firestore
differs.
`Store.Valid` is the store invariant. Every handler keeps it as long as each of its writes
succeeds (store failures are not modelled, see "## Left out"). It says:

- uids have the generated shape;
- no two accounts share a device hash;
- every account's history is a chain of balances that ends at its `tokenCount`;
- every favorite sits under the key `${uid}_${newsId}` of an existing user;
- every user's `favoriteCount` is the number of their favorites;
- every discussion's `participantCount` is its number of distinct participants.

The pure parts live in their own modules:

- `Validation`: argument checks.
- `VerifyUid`: verifyUID's verdict.
- `Ledger`: balances and history.
- `Favorites`: toggling.
- `Discussions`: comment effects and the trigger's transaction order.
- `Identity`: uid shape, favorite key, generated nickname.

They come with lemmas about them. `Scenarios` proves two properties of repeated calls from
the handlers' contracts alone.

The device hash is passed to the store as a function value. The random uid and the clock are
parameters of the calls that use them. Counts that a document may lack are plain integers.
The source reads them with `|| 0` and bumps them with `FieldValue.increment`, and both treat
a missing field as 0.

## Model

| member | source | states |
|---|---|---|
| Handlers.Store.RegisterDevice | functions/index.js:35-117 | A missing device id, or one shorter than 10 characters, is invalid-argument and changes nothing. Otherwise the call succeeds and returns an account whose stored hash is the device's hash. It is new exactly when no account held that hash. A known device gets its single holder back, with nickname and balance, and only lastLoginAt, lastPlatform and lastAppVersion are rewritten. An unknown device gets one new account under the fresh uid, with 100 tokens, zero counts, status active, the generated nickname and a one-entry welcome history. The store invariant is kept. |
| Handlers.Store.VerifyUID | functions/index.js:123-174 | A missing uid or device id is invalid-argument. A uid with a slash is internal and changes nothing. Otherwise the verdict is the one `Rejection` gives for the stored user and the device's hash. A rejection changes nothing. Acceptance returns the nickname and three counts and rewrites only lastLoginAt. |
| Handlers.Store.UpdateTokens | functions/index.js:340-403 | Without a uid, an amount or a type the call is invalid-argument. A uid with a slash is internal. An unknown uid is not-found. A balance that would fall below zero is failed-precondition. Every failure changes nothing. On success the balance becomes old balance + amount, and exactly one entry (type, amount, new balance, description or "", time) is appended to that user's history. The ledger stays consistent. |
| Handlers.Store.ToggleFavorite | functions/index.js:285-335 | A missing uid or news id is invalid-argument. A uid or news id with a slash is internal, because the favorite reference at line 296 throws. An unknown user is internal, because the update of the missing user document aborts the transaction. In both cases nothing changes. Otherwise the favorite under `${uid}_${newsId}` is removed if present (result removed) or added with the payload (result added). The user's favoriteCount moves by -1 or +1 to match, so it keeps equal to the number of their favorites. |
| Handlers.Store.UpdateNickname | functions/index.js:408-441 | A missing uid or nickname, or a nickname outside 2..20 characters, is invalid-argument. An unknown user is internal (update of a missing document). Otherwise only nickname and updatedAt of that user change, and the nickname is returned. |
| Handlers.Store.OnCommentCreated | functions/index.js:220-280 | This is the corrected trigger, with its reads first. A uid or discussion id that cannot name a document changes nothing, because the reference calls throw and the error is swallowed. Otherwise the author's commentCount goes up by one if the author exists. The participation record is merged with its count bumped and the URL and time set. If the discussion exists, its commentCount goes up and its activity time is set, and the author is added as a participant once, with participantCount following. Tokens and favorites are untouched. |
| Handlers.Store.ToggleAt | functions/index.js:295-335 | Once both ids are present, the call is internal with nothing changed exactly when the favorite document id `${uid}_${newsId}` cannot name a document or the user is missing. Otherwise it performs the toggle. |
| Handlers.Store.ToggleOwn | functions/index.js:301-326 | The transaction for an existing user deletes a present favorite or creates an absent one with the payload and time. The user's favoriteCount moves by -1 or +1 to match, and the invariant is kept. |
| Handlers.Store.constructor | functions/index.js:8-12 | An empty store over existing discussions, assumed well counted (no repeated participant, participantCount equal to the number of participants), with the device hash fixed for its lifetime, satisfies the invariant. |
| Handlers.HoldersOf | functions/index.js:49-53 | The uids whose stored deviceHash equals the given hash: the result of the `where('deviceHash', '==', …)` query. |
| Handlers.NewUser | functions/index.js:80-91 | The new account document has 100 tokens, zero favorite and comment counts, status active and the device's hash. |
| Handlers.RewriteUser | functions/index.js:61-65 | Rewriting a user's fields other than hash, balance and favoriteCount (login refresh, nickname, commentCount) keeps the user, ledger and favorite invariants. |
| Handlers.CreditUser | functions/index.js:370-383 | Setting a balance that the extended history ends at keeps every user invariant. |
| Handlers.AddUser | functions/index.js:80-100 | Adding an account under a fresh generated uid, for a hash nobody holds, with a consistent ledger and no favorites, keeps every user invariant, including one account per device. |
| Handlers.ToggleKeepsValid | functions/index.js:301-323 | A toggle with favoriteCount moved by the toggle's delta keeps the user, ledger and favorite invariants. |
| Handlers.CommentKeepsDiscussionsValid | functions/index.js:256-269 | A comment on an existing discussion keeps every participantCount equal to the number of distinct participants. |
| Base.Truthy | functions/index.js:38 | JavaScript truthiness of an optional string argument, as `!x` tests it: present and not empty. |
| Base.OrElse | functions/index.js:381 | `x \|\| d` for an optional string: the argument when it is truthy, otherwise the default. |
| Validation.DeviceIdAccepted | functions/index.js:38 | registerDevice's argument check: a truthy device id of at least 10 characters. |
| Validation.TokenArgsAccepted | functions/index.js:343 | updateTokens' argument check: a truthy uid, an amount that is present (0 included) and a truthy type. |
| Validation.NicknameAccepted | functions/index.js:411-424 | updateNickname's argument check: a truthy uid and a truthy nickname of 2 to 20 characters. |
| Validation.ValidDocId | functions/index.js:296 | An id that the model lets `collection(...).doc(id)` accept as one document: non-empty and without a slash. It is used for the references at lines 136, 229, 243, 253, 296 and 350. |
| VerifyUid.Rejection | functions/index.js:136-152 | The three rejections and acceptance, each as an if-and-only-if. A missing user is user_not_found. A present user with another hash is device_mismatch. A matching user that is not active is account_inactive. The uid is valid exactly when the user exists, the hash matches and the status is active. |
| VerifyUid.Lookup | functions/index.js:136-142 | The lookup finds a user exactly when the uid is a key, and then returns that document. |
| Validation.GeneratedUidIsDocId | functions/index.js:27-29 | Every generated uid (32 hex characters) can name a user document. |
| Validation.FavoriteKeyDocId | functions/index.js:295-296 | For two non-empty ids, `${uid}_${newsId}` can name a document exactly when both parts can. |
| Validation.GeneratedNicknameAccepted | functions/index.js:78 | Every nickname registerDevice generates passes updateNickname's length check (lines 411-424). |
| Identity.GeneratedNicknameLength | functions/index.js:78 | `익명` followed by `Date.now() % 100000` has between 3 and 7 characters. |
| Identity.DecimalLength | functions/index.js:78 | A number below 10^k prints in at most k decimal digits. |
| Identity.Decimal | functions/index.js:78 | The printed form of a number is non-empty and made of decimal digits only. |
| Identity.GeneratedNickname | functions/index.js:78 | The nickname of a new account: `익명` followed by the decimal form of the clock in milliseconds modulo 100000. |
| Identity.IsGeneratedUid | functions/index.js:27-29 | A uid generateRandomUID can return: 32 characters, each 0-9 or a-f. |
| Identity.FavoriteKey | functions/index.js:295 | The favorite key is one character longer than the uid and the news id together. |
| Identity.FavoriteKeyInjective | functions/index.js:295 | For uids of the generated fixed length, equal keys `${uid}_${newsId}` mean equal uid and equal news id. An underscore in a news id cannot make two users' favorites collide. |
| Ledger.WelcomeHistory | functions/index.js:93-100 | The welcome entry alone is a consistent ledger for a balance of 100, and its amounts sum to 100. |
| Ledger.NewBalance | functions/index.js:360-368 | The update is allowed exactly when balance + amount >= 0. The new balance is then non-negative and differs from the old one by exactly the amount. |
| Ledger.ChainedBalanceIsTotal | functions/index.js:370-383 | In a chained history the last recorded balance equals the sum of all amounts. |
| Ledger.AppendKeepsConsistent | functions/index.js:360-383 | Appending the entry updateTokens writes, with the balance NewBalance allows, keeps the ledger consistent with the new balance. It adds the amount to the history's total. |
| Ledger.BalanceFromHistory | functions/index.js:83-100 | A consistent account balance equals the sum of its history's amounts and is never negative. |
| Favorites.Toggled | functions/index.js:301-319 | The favorites after a toggle on key k: k removed if present, otherwise k added with the given favorite. |
| Favorites.ToggleDelta | functions/index.js:301-323 | The change a toggle on key k makes to favoriteCount: -1 when k is present (delete), +1 otherwise (create). |
| Favorites.ToggleFlips | functions/index.js:299-323 | A toggle flips the presence of its own key and leaves every other favorite as it was. An added favorite is the given one. |
| Favorites.ToggleTwice | functions/index.js:299-326 | Toggling the same key twice restores the key set, and the two count changes cancel. If the key was absent, the collection is restored exactly. |
| Favorites.ToggleKeepsWellKeyed | functions/index.js:295-319 | After a toggle, every favorite is still stored under the key of its own uid and news id. |
| Favorites.RemoveOwnFavorite | functions/index.js:304-307 | Deleting one of a user's favorites lowers their number of favorites by one. |
| Favorites.AddOwnFavorite | functions/index.js:314-322 | Adding a favorite of a user under a new key raises their number of favorites by one. |
| Favorites.ToggleCountOwner | functions/index.js:301-323 | The toggling user's number of favorites changes by exactly the -1/+1 that favoriteCount is moved by. |
| Favorites.ToggleCountOthers | functions/index.js:301-323 | No other user's favorites change. |
| Discussions.Commented | functions/index.js:256-269 | A discussion after a comment: commentCount one higher and lastActivityAt set to the time, and, when the author is not yet a participant, the author appended to the participants with participantCount one higher. |
| Discussions.CommentedKeepsCount | functions/index.js:256-269 | A comment adds one to the discussion's commentCount and makes the author a participant. It keeps earlier participants in order, and keeps participantCount equal to the number of distinct participants. The count grows by one exactly when the author is new. |
| Discussions.CommentedTwice | functions/index.js:262-269 | A second comment by the same author changes neither the participants nor their count. |
| Discussions.Participated | functions/index.js:245-250 | The merged participation record carries the discussion id, news URL and time. Its commentCount is one more than before, or 1 for a new record. |
| Discussions.CommentTxnAsWritten | functions/index.js:227-271 | The trigger's transaction accesses in the order written: read the user, write the user if it exists, write the participation record, read the discussion, then write the discussion if it exists, and once more to add a new participant. |
| Discussions.CommentTxnAsWrittenRejected | functions/index.js:227-271 | For every combination of existing and missing documents, the trigger's transaction as written issues a read (line 254) after a write (line 245). |
| Discussions.CommentTxnReorderedAccepted | functions/index.js:227-271 | The same accesses with both reads first never read after a write. |
| Discussions.CommentTxnReorderedSameAccesses | functions/index.js:227-271 | The reordered transaction performs the same accesses as the written one, as a multiset. |
| Scenarios.RegisterDeviceTwice | functions/index.js:49-74 | Registering one device twice yields one account. The second call returns the first call's uid, reports it as not new, returns the same balance and creates no further account. |
| Scenarios.RegisterOnce | functions/index.js:35-108 | A registration with a well-formed device id always succeeds. It returns an account that holds the device's hash and the returned balance. It adds at most that account. It is not new exactly when an account already held the hash, and then it returns that account's stored balance. |
| Scenarios.ToggleExisting | functions/index.js:295-326 | A toggle by an existing user on a news id without a slash always succeeds and performs the toggle. |
| Scenarios.ToggleFavoriteTwice | functions/index.js:299-326 | Two toggles of the same favorite by an existing user report added and removed in some order. They restore the favorite keys and every user document, favoriteCount included. |

## Left out

- Transport and platform plumbing are not modelled: the callable wrappers, `HttpsError` messages, console logging and the Firestore client. The model returns an error kind in place of a thrown `HttpsError`.
- generateDeviceHash (HMAC-SHA256 under the server secret, lines 17-22) is the store's `hash` function value. Its collision resistance is not modelled. Two device ids with the same hash are the same device to the model, as they are to the code.
- Handlers.Store.RegisterDevice: generateRandomUID (lines 27-29) is the `freshUid` parameter, required to be 32 lowercase hex characters and not already a user's uid. A random collision with an existing uid would overwrite that account; the model excludes it.
- Handlers.Store.RegisterDevice: the lookup and the two writes are separate, non-transactional calls. Two concurrent registrations of one device could both create an account. Concurrency is not modelled, so the one-account-per-device invariant holds only for sequential calls.
- Handlers.Store.RegisterDevice: store failures are not modelled; every write is taken to succeed. The user `set` (line 80) and the history `add` (line 94) are separate awaits. If the second fails, the caller gets internal but the account stays without its welcome entry. Every later registration of that device takes the existing-device branch, so that entry is never written and the ledger clause of the store invariant is broken. The model promises the invariant only for runs in which every write succeeds.
- Handlers.Store.ToggleFavorite: the existence read happens outside the transaction (line 299), so two concurrent toggles can both add or both remove. Calls are sequential in the model.
- Handlers.Store.OnCommentCreated: a comment document lacking a field is not modelled; the parameters are plain strings. A missing `uid` or `discussionId` makes the document reference call throw. A missing `newsUrl` makes the `set` at line 245 fail on the undefined value. Either way the error is swallowed and nothing changes.
- Handlers.Store.ToggleFavorite, Handlers.Store.ToggleAt, Handlers.Store.VerifyUID, Handlers.Store.UpdateTokens, Handlers.Store.UpdateNickname, Handlers.Store.OnCommentCreated: every id containing a slash is treated as one that cannot name a document, so the call fails as internal, or the trigger changes nothing. Firestore is more lenient. It drops empty path segments, so a news id "a/" addresses the same favorite as "a". An id of three non-empty segments, such as "a/b/c", names a document in a subcollection. For example, updateNickname with the uid `U/participatedDiscussions/D` of an existing participation record writes nickname and updatedAt into that record and succeeds (line 427), and verifyUID with that uid answers device_mismatch; the model answers internal. It also refuses the ids "." and ".." and ids of the form `__…__`, which the model accepts. The model does not follow these cases.
- Server timestamps and `Date.now()` are one clock value `now` passed to each call.
- A user's token history is a sequence in call order. In Firestore it is a subcollection of auto-id documents (the `add` at line 94, the `doc()` at line 376) with no order of its own; only `createdAt` orders it. The model's order is that `createdAt` order, that is, the order in which the calls commit.
- Request arguments are modelled as absent, or present strings (integers for `amount`). JavaScript values of other types are not modelled: numbers where strings are expected, `null` as an amount, string concatenation in `currentTokens + amount`.
- Handlers.Store.RegisterDevice, Handlers.Store.ToggleFavorite: `platform`, `appVersion` and `newsData` are plain strings. An `undefined` value there makes Firestore reject the write, which the code reports as internal; that error path is not modelled.
- String lengths are counted in Dafny characters. JavaScript counts UTF-16 code units, which differ for characters outside the Basic Multilingual Plane.
- updatePopularDiscussions (lines 179-215) is not modelled. It copies the top 20 discussions by participantCount into a cache document, and the ordering and limit are done by the Firestore query.
- The existing-device branch of registerDevice returns the account whatever its status; only verifyUID checks `status`. The model follows the code.
- `functions/index.js` has no attendance, account-recovery, account-transfer or account-creation-quota logic, and none is modelled.
- Discussion documents are created by clients; the store starts with given discussions and the handlers never create one. Handlers.Store.constructor assumes those discussions are well counted: no participant is listed twice and each participantCount equals the number of participants.

## Findings

| source | as written | input that shows it | evidently intended | confidence | as-written member | corrected member |
|---|---|---|---|---|---|---|
| functions/index.js:245-254 | Inside the comment trigger's transaction, `transaction.get(discussionRef)` is issued after `transaction.set(participatedRef, …)`. Firestore transactions require every read to come before any write, so the transaction is refused. The catch at lines 276-279 swallows the error, and no counter is ever updated. | Any new comment document, whatever users or discussions exist | Read the user and the discussion first, then write. The author's commentCount, the participation record and the discussion's counts and participants are updated. | not executed; relies on the Firestore server SDK refusing a transaction read issued after a write | Discussions.CommentTxnAsWrittenRejected | Handlers.Store.OnCommentCreated |
