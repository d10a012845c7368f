# ArConnect core logic in Dafny

This project models the deterministic core of the ArConnect browser wallet extension and proves properties of it. The modules are:

- **AuthTypes** and **AuthUtils**: the authorization protocol between the background worker and the auth popup.
  - The popup is reused when its recorded tab still shows the auth page and is recreated otherwise.
  - An `unlock` request gets a fixed auth id; every other request gets a fresh one.
  - Each request is sent to the popup as a `pending` record.
  - The background matches `auth_result` replies by popup tab id and auth id.
  - `replyToAuthRequest` builds the reply.
  - A set of active auth ids decides whether the keep-alive interval runs.
- **NotificationUtils** and **NotificationsApi**: the transaction notification poller.
  - It merges the GraphQL edges of several responses, block-less transactions first and then newest first.
  - It classifies each transaction as AR, AO, Warp, Print-Archive or Message, with a sent/received direction.
  - It takes the maximum block height and selects the transactions above the last stored height.
  - It applies the user's settings, stores the new heights and words the desktop notification.
- **Token**: `validateTokenState`, the in/out/interaction classification of token contract interactions, and the filter/sort/limit step that picks an address's latest interactions.
- **Format**: address shortening, the address-shape test, setting-name labels, and the app/community URL helpers.
- **Subscriptions**: the per-address subscription list in extension storage, with get, add, delete-first-match and update-first-match.
- **RouterUtils**: route-override detection, route prefixing, and the target path that `navigate` computes for `up`, `prev`, `next` and page numbers.
- **ConfigOverrides**: `replacePlugin` from the build configuration.
- **FakeDb**: the in-memory authentication backend. It holds a session and two append-only tables, wallets and key shares.
- **Wrappers**, **JsValues** and **Strings** are support modules:
  - `Option`/`Result`;
  - JavaScript values and their truthiness;
  - `startsWith`, one-character `split`, `join` and decimal printing.

State that the source mutates is a class:

- `AuthCoordinator` holds the popup tab id, the keep-alive set and interval, and the reply listeners.
- `NotificationStorage` holds the notification storage keys.
- `SubscriptionStore` holds the storage map.
- `FakeDB` holds the session and the tables.

The other code is functions and lemmas. These become parameters:

- the browser's answers: a tab's URL, a new window's tab id, storage read failures;
- random ids (nanoid) and the clock (Date.now);
- already-parsed JSON, URLs and GraphQL responses.

## Model

| member | source | states |
|---|---|---|
| AuthTypes.StatusNames | src/utils/auth/auth.types.ts:12-17 | the request status strings are exactly the five names: each status reads back from its name, and only those names read back |
| AuthTypes.AuthTypeNames | src/utils/auth/auth.types.ts:172-183 | AuthType is exactly the nine discriminants of AuthRequestData, and "unlock" is not one of them |
| AuthTypes.AuthRequestByTypeAgrees | src/utils/auth/auth.types.ts:207-217 | each key of AuthRequestByType selects exactly the request variant with that discriminant |
| AuthTypes.ResultObject | shim.d.ts:31-36 | the AuthResult message as a plain object carries `type`, `authID`, `error` and `data` |
| AuthTypes.IsAuthErrorResult | src/utils/auth/auth.types.ts:44-53 | holds iff `type`, `authID` and `error` are all non-empty strings |
| AuthTypes.BooleanErrorIsNotErrorResult | src/utils/auth/auth.types.ts:49-52 | a result whose `error` is the boolean true is not an error result for the predicate |
| AuthUtils.AuthIdChoice | src/utils/auth/auth.utils.ts:100-103 | the auth id is the unlock constant exactly for `unlock` requests, otherwise the fresh id |
| AuthUtils.TypedRequestsGetFreshIds | src/utils/auth/auth.utils.ts:100-103 | a payload of the declared union never has type "unlock", so it always gets the fresh id |
| AuthUtils.AuthCoordinator.CreateAuthPopup | src/utils/auth/auth.utils.ts:64-124 | a popup (auth page + "#/", focused, popup, 385x720) is created, and the recorded tab id overwritten, iff the recorded tab is missing or not on the auth page; otherwise the id is unchanged; the request sent carries the caller's url and tabID, the chosen id, the time and status pending; creation failure is an error |
| AuthUtils.AuthCoordinator.StartKeepAlive | src/utils/auth/auth.utils.ts:197-216 | the id joins the active set, the interval runs, and a new interval starts iff none was running; keeps "running iff set non-empty" |
| AuthUtils.AuthCoordinator.StopKeepAlive | src/utils/auth/auth.utils.ts:221-239 | the id leaves the set (an absent id changes nothing); the interval is cleared iff the set became empty while it ran; preserves "running iff set non-empty" |
| AuthUtils.AuthCoordinator.constructor | src/utils/auth/auth.utils.ts:190-192 | starts with no popup tab (-1), an empty set, no interval and no listeners, which satisfies the keep-alive invariant |
| AuthUtils.AuthCoordinator.GetPopupResponse | src/utils/auth/auth.utils.ts:129-135 | starts keep-alive for the id and registers a waiting listener for that popup tab; keeps SharedIdsShareTab when no waiting listener with the id is on another tab |
| AuthUtils.AuthCoordinator.RequestUserAuthorization | src/utils/auth/auth.utils.ts:25-39 | fails iff a new popup is needed and none could be created; on success the recorded popup tab becomes the created tab when a new popup was needed and is kept otherwise, the result dispatches a pending request record (type, app url and tab, chosen id, time) to that tab together with the auth popup window when one was opened, and one more waiting listener for the chosen id is added with that id kept alive; a failed call changes no keep-alive state, no listener and not the recorded popup tab |
| AuthUtils.Settle | src/utils/auth/auth.utils.ts:141-156 | a listener settles iff it is waiting and the reply comes from its popup tab with its auth id; it settles at most once |
| AuthUtils.SettleAll | src/utils/auth/auth.utils.ts:135-157 | every registered listener sees the reply (assuming every registration receives it); each keeps its id and tab, and exactly the waiting listeners whose tab and authID match change |
| AuthUtils.ReplySettlesItsRequest | src/utils/auth/auth.utils.ts:141-182 | a reply built by replyToAuthRequest from the request's own popup tab resolves the request when there is no error message, and otherwise rejects it with the data (or the message when the data is falsy) |
| AuthUtils.ReplyToAuthRequest | src/utils/auth/auth.utils.ts:169-186 | the reply carries the type name and auth id; `error` iff a non-empty message is given; `data` is the data, or the message when the data is falsy |
| AuthUtils.ReplyIsNeverAuthErrorResult | src/utils/auth/auth.utils.ts:177-182 | a reply with a boolean `error` is never an error result for isAuthErrorResult, not even a failed one |
| AuthUtils.AuthCoordinator.DeliverAuthResultAsWritten | src/utils/auth/auth.utils.ts:135-157 | as written: each listener stops keep-alive for its own id on every reply, matching or not, then settles only on a match |
| AuthUtils.PrematureKeepAliveStop | src/utils/auth/auth.utils.ts:135-149 | with requests "a" and "b" waiting on tab 7, the reply to "a" leaves "b" waiting with an empty keep-alive set |
| AuthUtils.AuthCoordinator.DeliverAuthResult | src/utils/auth/auth.utils.ts:135-157 | corrected delivery: only the requests the reply settles stop their keep-alive, so every waiting request stays alive, provided waiting listeners that share an id wait on the same tab (SharedIdsShareTab) |
| AuthUtils.CorrectedDeliveryKeepsWaitingAlive | src/utils/auth/auth.utils.ts:138-149 | under SharedIdsShareTab, removing only the settled ids keeps every still-waiting request in the active set |
| AuthUtils.SharedUnlockIdOnTwoTabs | src/utils/auth/auth.utils.ts:76-103 | without SharedIdsShareTab the corrected delivery can still drop a keep-alive: two unlock requests on tabs 5 and 9, the reply from tab 9 removes the shared id while the request on tab 5 waits |
| NotificationUtils.ConcatLength | src/notifications/utils.ts:335-338 | the merged list has as many edges as all responses together |
| NotificationUtils.SortByRecencyFacts | src/notifications/utils.ts:340-351 | the sort is a permutation, puts every block-less transaction before every mined one, orders mined ones by non-increasing timestamp, and keeps block-less ones in their order |
| NotificationUtils.CompareAgrees | src/notifications/utils.ts:340-351 | the comparator places a first (result at most 0) exactly when a may precede b in the intended order, proved in both directions |
| NotificationUtils.CombineAndSortTransactions | src/notifications/utils.ts:334-354 | the reduce-then-sort result is a newest-first permutation of the concatenated edges, with the same length |
| NotificationUtils.FindTag | src/notifications/utils.ts:374-394 | `find` gives a tag with the name that no earlier tag shares (the first one), or nothing when no tag has it |
| NotificationUtils.ArTransferClassification | src/notifications/utils.ts:367-371 | a positive AR quantity gives token "AR", that quantity, and Sent iff the owner is the address, otherwise Received |
| NotificationUtils.AoClassification | src/notifications/utils.ts:380-401 | an AO transfer is Sent/Received, with the recipient as token id when a Recipient tag and recipient exist and the Quantity tag as quantity; any other Action is Message; isAo is set |
| NotificationUtils.AoWithoutAction | src/notifications/utils.ts:402-407 | an AO transaction without Action is a Message when a Type=Message tag exists |
| NotificationUtils.ProcessTransactionFailsOnlyForBareAo | src/notifications/utils.ts:402-405 | classification throws exactly for AO transactions with neither an Action tag nor a Type=Message tag |
| NotificationUtils.NonAoClassification | src/notifications/utils.ts:361-426 | a Contract tag gives that token id, warpContract and Sent/Received; Type=Print-Archive gives PrintArchive; otherwise Transaction with quantity "0" |
| NotificationUtils.ProcessTransactionKeepsNode | src/notifications/utils.ts:428-434 | the classified transaction keeps the original node |
| NotificationUtils.ProcessTransactions | src/notifications/utils.ts:356-441 | the map keeps length and order, element by element, and fails iff some element's classification throws |
| NotificationsApi.FilterPositive | src/notifications/api.ts:208-211 | exactly the edges with a positive quantity remain, as a set |
| NotificationsApi.FilterPositiveCounts | src/notifications/api.ts:208-211 | each positive edge keeps its multiplicity, every other edge has none |
| NotificationsApi.FilterPositiveAppend | src/notifications/api.ts:208-211 | `filter` keeps order: filtering a concatenation concatenates the filtered parts |
| NotificationsApi.UnfilteredUnlessFalse | src/notifications/api.ts:203-214 | only a query whose isAllTxns is the boolean false drops edges; undefined or true filters nothing |
| NotificationsApi.FilteredResponses | src/notifications/api.ts:203-214 | one filtered response per response |
| NotificationsApi.MaxBlockHeight | src/notifications/api.ts:223-227 | the maximum block height over the transactions with a block; -Infinity iff none has a block |
| NotificationsApi.NewSince | src/notifications/api.ts:230-234 | exactly the transactions with a block above the last stored height, as a set |
| NotificationsApi.NewSinceCounts | src/notifications/api.ts:230-234 | each newer transaction keeps its multiplicity, so the count in the message is the number of newer transactions |
| NotificationsApi.NewSinceAppend | src/notifications/api.ts:230-234 | `filter` keeps order: selecting from a concatenation concatenates the selections |
| NotificationsApi.SelectionReportsExactlyNewer | src/notifications/api.ts:229-242 | the diff is non-empty only when reporting; reporting (and so setting new_notifications) happens iff the max height moved, the last height is not 0 and the setting is on; the diff is then exactly the newer transactions; all fetched edges are kept |
| NotificationsApi.ArNotificationsHandler | src/notifications/api.ts:186-246 | the filter loop, merge, sort, classification and selection compute the specified selection, and the result is undefined when classification throws |
| NotificationsApi.NotificationMessageNamesCount | src/notifications/api.ts:131-149 | a message is shown iff there are new transactions; several give "You have N new transactions." with N their number in decimal, one gives "You have 1 new transaction."; the printed number has no leading zero |
| NotificationsApi.DefaultsAndNullHeights | src/notifications/api.ts:63-82 | a missing customize setting becomes ["default"], and a stored -Infinity height (null in JSON) reads back as 0 |
| NotificationsApi.NotificationStorage.NotificationsHandler | src/notifications/api.ts:53-184 | alarms without the "notifications" prefix change nothing; otherwise it writes the default setting, runs the AR queries (with allTxns from the setting) and the AO queries only with "default", sets new_notifications when either run reports, stores both lists and heights (AO height 0 when AO is off) when both succeed, and shows the message for the combined count |
| NotificationsApi.NotificationStorage.UpdateNotifications | src/notifications/api.ts:69-183 | the try block: heights read from the stored record (0 when absent), new_notifications set when a handler reports, and the record and message written only when both handlers return |
| NotificationsApi.NotificationStorage.FetchTransactions | src/notifications/api.ts:84-130 | the AR handler runs with the setting's allTxns choice; the AO handler runs only after it returns and only with "default", otherwise the AO part is empty with height 0 |
| NotificationsApi.NotificationStorage.NotifyAndStore | src/notifications/api.ts:131-180 | the flag is raised when either handler reported; with both results the message counts AO plus AR new transactions and the record stores both lists and heights under the key; otherwise nothing is written |
| NotificationsApi.NotificationStorage.constructor | src/notifications/api.ts:56-61 | the storage starts with the given settings and stored lists and no new-notifications flag |
| Token.StringBalancesRejected | src/tokens/token.ts:43-53 | a non-empty string given as balances enumerates one-character string values, so the state is rejected |
| Token.ValidateTokenState | src/tokens/token.ts:30-56 | accepts iff the state is present, the ticker is a non-empty string, balances exist and every balance is a number; otherwise it returns the first failing check's error ("No state for token", "Invalid ticker", "No balances object", or the invalid-balance error); the key-type error never occurs |
| Token.ErrorMessagesDistinct | src/tokens/token.ts:31-54 | the five error messages are pairwise different |
| Token.TransferClassification | src/tokens/token.ts:226-241 | for a transfer: the recipient is the node's recipient or else the input target; `in` iff it is the active address, `out` otherwise; the other address is the owner for `in` when it is non-empty, and the recipient otherwise; the quantity is the input's and the unit the ticker |
| Token.OtherFunctionIsInteraction | src/tokens/token.ts:232-253 | any other function is a plain interaction in AR with the node quantity and no other address |
| Token.ParseInteractions | src/tokens/token.ts:219-255 | length and order preserved element by element; fails iff some interaction has no parsable Input tag |
| Token.KeepTimestamped | src/tokens/token.ts:205 | exactly the interactions with a non-zero block timestamp remain, as a set |
| Token.KeepTimestampedCounts | src/tokens/token.ts:205 | each timestamped interaction keeps its multiplicity, every other one has none |
| Token.KeepTimestampedAppend | src/tokens/token.ts:205 | `filter` keeps order: filtering a concatenation concatenates the filtered parts |
| Token.SortByTimestampFacts | src/tokens/token.ts:206 | the sort is a permutation with non-increasing timestamps |
| Token.SliceEnd | src/tokens/token.ts:207 | `slice(0, limit)` ends at min(limit, length) for a non-negative limit and at length + limit (at least 0) for a negative one |
| Token.RecentInteractionsBounded | src/tokens/token.ts:124-207 | the result holds only timestamped interactions from either list, newest first, at most `limit` of them (6 by default) |
| Token.RecentInteractionsAreNewest | src/tokens/token.ts:203-207 | the result is part of the timestamped interactions, nothing left out is newer than the last kept, and a large enough limit keeps them all |
| Format.UrlHelpers | src/utils/format.ts:6-25 | an empty link gives "" without parsing; otherwise the host, and the host name alone for the root path or followed by the path for any other; a malformed link is an error |
| Format.FormatAddressShape | src/utils/format.ts:34-40 | with count c (13 by default) and 0 <= c <= length: the first and last c characters around "...", 2c+3 in all; a longer count repeats the whole address; a negative count gives "..." |
| Format.IsAddressFormat | src/utils/format.ts:52 | true iff some 43 consecutive characters are in [A-Za-z0-9_-] |
| Format.ScanForAddressCorrect | src/utils/format.ts:52 | the left-to-right scan with the current run length finds a 43-character window iff one exists |
| Format.IsAddressFormatUnanchored | src/utils/format.ts:52 | surrounding text never turns a passing string into a failing one; strings shorter than 43 fail |
| Format.SpecialSettingNames | src/utils/format.ts:61-69 | "" gives "", "arconfetti" gives "ArConfetti", "ao_support" gives "ao support" |
| Format.FormatSettingNameIsLabelled | src/utils/format.ts:60-75 | other names: '_' becomes a space, the first character of each word is upper-cased and the rest lower-cased; the length is always kept |
| Format.CaseWordsAgree | src/utils/format.ts:71-74 | split-capitalise-join equals the character-by-character labelling |
| Format.FormatSettingNameWordCount | src/utils/format.ts:71-74 | for a name without spaces, the label has as many space-separated words as the name has '_'-separated ones |
| Strings.Split | src/utils/format.ts:72 | a one-character split has one more piece than separators, none containing the separator |
| Strings.JoinSplit | src/wallets/router/router.utils.ts:64-66 | joining a split with its separator gives back the string |
| Strings.SplitJoin | src/utils/format.ts:72-74 | splitting a join of separator-free words gives back the words |
| Strings.NatToStringValue | src/notifications/api.ts:135 | the decimal text of a number reads back as that number |
| Strings.NatToStringLeadingDigit | src/notifications/api.ts:135 | a positive number's decimal text does not start with '0' |
| Subscriptions.FirstIndex | src/subscriptions/index.ts:29-31 | findIndex: -1 iff no subscription has the id, else the first that has it |
| Subscriptions.FindIndex | src/subscriptions/index.ts:29-87 | the search loop returns that first index |
| Subscriptions.SubscriptionStore.Stored | src/subscriptions/index.ts:9-21 | the stored list under `subscriptions_<address>`, or [] when nothing is stored or the read fails |
| Subscriptions.SubscriptionStore.GetSubscriptionData | src/subscriptions/index.ts:9-21 | returns Stored, the one definition of what is read |
| Subscriptions.RemoveFirstSplices | src/subscriptions/index.ts:33-34 | the recursive removal is `splice(findIndex(...), 1)`: no match gives the list itself, otherwise exactly the entry at the first match's index is cut out |
| Subscriptions.RemoveFirstCounts | src/subscriptions/index.ts:33-34 | removal drops one entry, one match of the id, and nothing else (as a multiset) |
| Subscriptions.SubscriptionStore.DeleteSubscription | src/subscriptions/index.ts:23-46 | writes the list without its first match; with no match nothing is written |
| Subscriptions.UpdateFirst | src/subscriptions/index.ts:88-97 | only the first match changes: its status is set and, when a date is given, its next payment is computed from that date and its frequency; all other entries and fields are unchanged |
| Subscriptions.SubscriptionStore.UpdateSubscription | src/subscriptions/index.ts:77-109 | writes the updated list; with no match nothing is written |
| Subscriptions.SubscriptionStore.AddSubscription | src/subscriptions/index.ts:111-132 | appends the new subscription to the list read (empty when the read fails), one longer |
| Subscriptions.SubscriptionStore.constructor | src/subscriptions/index.ts:13-15 | the store starts with the given contents |
| Subscriptions.AddThenDelete | src/subscriptions/index.ts:28-119 | deleting a just-added subscription whose address was absent restores the list |
| Subscriptions.UpdateStatusIdempotent | src/subscriptions/index.ts:84-97 | updating the status twice without a date equals updating it once |
| RouterUtils.PrefixRoutes | src/wallets/router/router.utils.ts:19-29 | length, order and other fields kept; override paths unchanged; every other path is prefix + path |
| RouterUtils.PrefixRoutesCompose | src/wallets/router/router.utils.ts:19-29 | prefixing twice is prefixing once with the combined prefix, when no inner-prefixed path looks like an override |
| RouterUtils.ParseIntRoundTrip | src/wallets/router/router.utils.ts:71 | parseInt reads back the decimal text of any integer |
| RouterUtils.DigitPrefix | src/wallets/router/router.utils.ts:71 | parseInt's digit run is the longest prefix made of digits: it is followed by a non-digit or by the end |
| RouterUtils.AbsolutePathUnchanged | src/wallets/router/router.utils.ts:43-63 | a target starting with "/" is not an action and passes through unchanged |
| RouterUtils.ParentOfLocation | src/wallets/router/router.utils.ts:64-66 | for a location p/last the parent path is "/" + p (so "//..." for an absolute p) and the popped segment is last |
| RouterUtils.NavigationFromLocation | src/wallets/router/router.utils.ts:64-84 | "up" is the parent path; "prev"/"next" fail without an index in the last segment; "prev" fails on page 1 ("Page 0") and otherwise goes to parent/(page-1); "next" goes to "/" + parent + "/" + (page+1) |
| RouterUtils.NavigationToNumber | src/wallets/router/router.utils.ts:85-89 | a page number n <= 0 fails with "Page n out of bounds", otherwise it goes to parent/n |
| RouterUtils.PrevReadsBack | src/wallets/router/router.utils.ts:70-81 | the path "prev" produces ends with the previous page number, which parses back |
| ConfigOverrides.FirstMatch | config-overrides.js:108-114 | the first plugin whose constructor has a non-empty name the matcher accepts, -1 when none does |
| ConfigOverrides.ReplacePluginFacts | config-overrides.js:107-121 | no match: the list unchanged; a match: the plugins before and after kept, the match replaced (same length) or removed (one shorter), one match fewer unless the new plugin matches |
| ConfigOverrides.NamelessNeverReplaced | config-overrides.js:109-113 | a plugin without a constructor name is never the one replaced |
| ConfigOverrides.ReplaceWithMatchingIdempotent | config-overrides.js:107-121 | replacing with a plugin that itself matches is idempotent |
| FakeDb.NewWallet | src/utils/authentication/fakeDB.ts:80-101 | the new wallet has the given id and the user's id, chain "arweave", type "public", status "enabled", address "", alias info, and the caller's public key and source |
| FakeDb.NewKeyShare | src/utils/authentication/fakeDB.ts:105-128 | the new share points to the wallet id, belongs to the user, has 0 usages after expiration, empty recovery fields and the caller's device nonce and shares |
| FakeDb.FakeDB.AddWallet | src/utils/authentication/fakeDB.ts:70-131 | with a session, appends exactly that wallet and that share and returns the wallet; with a null session it fails and changes nothing; every share keeps pointing to a wallet of its user |
| FakeDb.AddingWalletWithShare | src/utils/authentication/fakeDB.ts:103-105 | appending a wallet with its share keeps every share attached to a wallet of its user |
| FakeDb.FindShare | src/utils/authentication/fakeDB.ts:144-150 | the first share matching user, device nonce and wallet address, or none |
| FakeDb.FakeDB.GetKeyShareForDevice | src/utils/authentication/fakeDB.ts:138-158 | returns the first matching share's authShare with rotateChallenge false; fails without a session or without a match |
| FakeDb.AddedShareIsFound | src/utils/authentication/fakeDB.ts:105-150 | after adding a wallet, its share is the one found for its device and (empty) address when the user had none before |
| FakeDb.FakeDB.Authenticate | src/utils/authentication/fakeDB.ts:169-180 | the session becomes a fresh user id with the given method, and is returned |
| FakeDb.FakeDB.RefreshSession | src/utils/authentication/fakeDB.ts:182-186 | returns the current session unchanged, null included |
| FakeDb.FakeDB.constructor | src/utils/authentication/fakeDB.ts:66-68 | no session and empty tables |

## Left out

- Browser and messaging plumbing is left out. The tab lookup, window creation, sendMessage/onMessage, alarms and storage are parameters or fields. `getAuthPopupWindowTabID`'s polling is not modelled.
- Concurrency is left out. Each mutex-guarded section is one atomic step. Unawaited calls and interleavings between listeners are not modelled.
- AuthUtils.AuthCoordinator.CreateAuthPopup: when `browser.windows.create` throws, the popup mutex is never unlocked, because there is no try/finally. The model returns a failure and does not model the lock.
- DEFAULT_UNLOCK_AUTH_REQUEST_ID: auth.constants.ts is not part of this model, so the constant is a stand-in string.
- AuthUtils.AuthRequest: the payload fields spread into the request record are not carried. Only the type, url, tabID, authID, requestedAt and status are.
- Numbers are integers. Floating point, NaN, BigNumber, `toLocaleString` quantity text and `abbreviateNumber` are not modelled.
  - A quantity's positivity is an input flag.
  - Parsed interactions keep the raw quantity and unit instead of the formatted text.
- JSON.parse, `new URL`, GraphQL fetches and `getInitialState` are inputs or left out. A stored notifications record that fails to parse is not modelled.
- The click handler of the single-transaction notification is left out (it opens a viewblock URL). So is the notification icon and title.
- `calculateNextPaymentDate` is a parameter, because its JavaScript Date month and year rollover is not modelled. Failures of storage writes are not modelled.
- Token.ValidateTokenState: balances are given as the entries `for…in` enumerates. A non-empty string's entries are its indices with one-character strings; StringEntries builds them, and StringBalancesRejected shows they are rejected as the source rejects them. A truthy number or boolean has no enumerable entries and is passed as an empty list. The model does not derive these entries from the raw value itself.
- RouterUtils.ParseInt: the "0x" hexadecimal prefix and non-ASCII white space of `parseInt` are not modelled.
- RouterUtils.NavigationTarget: the search-string suffix built with URLSearchParams is not modelled. The router's own handling of the leading "//" of the computed paths is not part of this model.
- RouterUtils.ErrorMessage: the "no index" message names `location`. That is the page's location, not the router's, and it is taken as a parameter.
- Format.FormatSettingName: case mapping is ASCII. Unicode case mappings that change length (such as "ß" to "SS") are not modelled. Strings are sequences of characters, with no UTF-16 surrogate handling.
- AuthUtils.SettleAll: every `onMessage("auth_result", …)` registration is assumed to receive each reply. `@arconnect/webext-bridge` is not part of this model. If a later registration replaced an earlier one instead, the earlier request would never settle at all, and SettleAll does not describe that.
- AuthUtils.AuthCoordinator.DeliverAuthResultAsWritten: makes the same assumption as SettleAll, that every registered listener sees each reply.
- AuthUtils.AuthCoordinator.DeliverAuthResult: "every waiting request stays alive" is proved only under SharedIdsShareTab, which no method establishes in general. Two unlock requests share DEFAULT_UNLOCK_AUTH_REQUEST_ID, and a popup re-created between them puts them on different tabs (AuthUtils.SharedUnlockIdOnTwoTabs). GetPopupResponse keeps SharedIdsShareTab only when no waiting listener with the same id is on another tab.
- AuthUtils.CorrectedDeliveryKeepsWaitingAlive: requires SharedIdsShareTab, for the same reason as DeliverAuthResult.
- FakeDb: `sleep`, `nanoid` and `Date.now` are parameters or are dropped. The unused `authMethodsByUserId` table is not modelled.

## Findings

| source | as written | input that shows it | evidently intended | confidence | as-written member | corrected member |
|---|---|---|---|---|---|---|
| src/utils/auth/auth.utils.ts:135-138 | every `auth_result` listener calls `stopKeepAlive(authID)` before checking that the reply is its own | requests "a" and "b" waiting on popup tab 7; the popup replies to "a"; "b" still waits, but its id has left the keep-alive set and the interval is cleared | stop keep-alive only when the reply settles the listener's own request, so waiting requests stay alive (when requests that share an id share a tab) | medium, not executed; assumes every `auth_result` registration receives each reply | AuthUtils.AuthCoordinator.DeliverAuthResultAsWritten, AuthUtils.PrematureKeepAliveStop | AuthUtils.AuthCoordinator.DeliverAuthResult, AuthUtils.CorrectedDeliveryKeepsWaitingAlive |
