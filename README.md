# m3u-player, modelled in Dafny

m3u-player is a web IPTV player. The React frontend keeps a list of M3U
playlist subscriptions: fixed ones served by the backend, and the user's own,
which live in the browser's local storage. It downloads the chosen playlist
and parses it into channels. It plays a channel's stream, and on an https page
it sends plain `http://` streams through the backend's `/proxy?url=` endpoint.
A Cloudflare worker serves `/api/subscriptions` over a key-value namespace.

The model covers this logic:

- `js_string.dfy` (`JsString`): the JavaScript string routines the code relies on. These are
  `trim`, `startsWith`, `indexOf`, `includes`, one-character `split`,
  `split(...).pop()`, ASCII `toLowerCase`, and number formatting in template literals.
  Each is stated over `seq<char>`, with its round trips and bounds. `Join` is not
  called by the code; it is the reference inverse used to state `split`'s round trip.
- `js_value.dfy` (`JsValue`): a property read from parsed JSON. It is missing, a string,
  or another value that is truthy or falsy.
- `m3u_parser.dfy` (`M3uParser`): the playlist parser of `fetchAndParseM3u`.
  - `Run` / `ParseM3u` is the parse as a fold over the lines, with the pending entry made explicit.
  - `ParseChannels` is the loop itself, proved equal to the fold.
  - Lemmas cover each branch, the channel-name rules, the `tvg-logo` / `group-title`
    extraction and the channel keys.
  - They also prove that every channel is well formed, the channel count bound, the order
    of the channels and that keys are distinct.
- `playable_url.dfy` (`PlayableUrl`): `getPlayableUrl`.
- `user_subscriptions.dfy` (`UserSubscriptions`): the subscription list.
  - Loading and filtering the stored list.
  - Merging fixed and user subscriptions.
  - Adding a user subscription, with duplicate detection that ignores `http`/`https` and with default naming.
  - Deleting by id.
- `subscription_worker.dfy` (`SubscriptionWorker`): the worker's router and its list, add and
  delete handlers.
  - Each handler is a pure function of the namespace contents.
  - The class `Worker` holds the namespace as a `map<string, string>` field. Its methods are
    proved equal to those functions.
- `add_subscription_form.dfy` (`AddSubscriptionForm`): the add-subscription form.
  - Its `handleSubmit` checks and its two fields are a class with `name` and `url` fields.
  - The form is connected to the app's add operation and to the worker's own URL check.

These become parameters:

- I/O and other sources of values:
  - what local storage held, already parsed;
  - whether saving to local storage succeeded;
  - the answer to `window.confirm`;
  - the ids from `Date.now()`/`Math.random()` and `crypto.randomUUID()`;
  - the order in which the namespace lists its keys;
  - the request's path, method and parsed body;
  - whether the page is served over https;
  - the API base.
- `encodeURIComponent`: a function parameter that yields `None` where it would throw.

## Model

| member | source | states |
|---|---|---|
| M3uParser.Step | frontend/src/App.jsx:419-447 | one line's effect on the parser's variables, branch for branch; its cases are stated by `TagStartsEntry`, `UrlCompletesPending`, `NonUrlDiscardsPending` and `OtherLineIgnored` |
| M3uParser.Run | frontend/src/App.jsx:418-448 | the parser's variables after a sequence of lines, from no pending entry, index 0 and no channels; `RunInvariant` and `RunOrder` state its properties |
| M3uParser.ParseM3u | frontend/src/App.jsx:413-414 | the channels of a playlist text split on `\n`; the `Parsed*` lemmas state its properties |
| M3uParser.ConsumeLine | frontend/src/App.jsx:419-447 | the loop body changes the parser's variables exactly as one step of the fold does |
| M3uParser.ParseChannels | frontend/src/App.jsx:413-449 | the parse loop over the `\n`-separated lines yields exactly the channels of the fold `ParseM3u`, whose properties are the lemmas below |
| M3uParser.ParseExtinf | frontend/src/App.jsx:420-436 | the entry opened by an `#EXTINF:` line always has a non-empty, trimmed name, and its logo and group hold no quote |
| M3uParser.ExtinfNameAfterComma | frontend/src/App.jsx:422-424 | with a comma, the name is the trimmed text after the first comma |
| M3uParser.ExtinfNameWithoutComma | frontend/src/App.jsx:430-432 | without a comma, the name is the trimmed text after `#EXTINF:` (or `未命名频道` when blank), and logo and group are empty |
| M3uParser.ExtinfDefaultName | frontend/src/App.jsx:433-436 | a blank title after the comma gives the name `未命名频道` |
| M3uParser.ExtinfAttributes | frontend/src/App.jsx:425-429 | logo and group are the `tvg-logo` / `group-title` matches within the text between the tag and the first comma, or empty when there is no match |
| M3uParser.MatchQuoted | frontend/src/App.jsx:426-429 | a captured attribute value never contains a quote |
| M3uParser.MatchQuotedFound | frontend/src/App.jsx:426-429 | when the leftmost case-insensitive occurrence of the key is followed by quote-free text and a quote, exactly that text is captured |
| M3uParser.MatchQuotedAbsent | frontend/src/App.jsx:426-429 | without a case-insensitive occurrence of the key nothing is captured |
| M3uParser.MatchQuotedUnclosed | frontend/src/App.jsx:426-429 | when every occurrence of the key lacks a closing quote after it, nothing is captured and the field stays empty |
| M3uParser.CommaAfterTag | frontend/src/App.jsx:422-425 | the first comma of a tagged line lies after `#EXTINF:`, so the attribute text between them is well defined |
| M3uParser.UnnamedChannelTrimmed | frontend/src/App.jsx:434-435 | the default channel name is non-empty and trimmed |
| M3uParser.KindCases | frontend/src/App.jsx:420-439 | a trimmed line opens an entry, is a URL line, is a non-URL line or is skipped, each exactly under the source's tests |
| M3uParser.TagIsComment | frontend/src/App.jsx:420-437 | an `#EXTINF:` line also starts with `#`, so it never reaches the URL branch |
| M3uParser.TagStartsEntry | frontend/src/App.jsx:420-421 | an `#EXTINF:` line replaces any pending entry and changes nothing else |
| M3uParser.UrlCompletesPending | frontend/src/App.jsx:437-443 | a URL line after an `#EXTINF:` line appends exactly one channel built from the entry, the trimmed line and the key of the current index, then clears the entry and advances the index |
| M3uParser.NonUrlDiscardsPending | frontend/src/App.jsx:444-447 | a non-blank, non-comment line without `://` drops the pending entry and emits nothing |
| M3uParser.OtherLineIgnored | frontend/src/App.jsx:437 | every other line changes nothing, so a URL line without a pending entry emits nothing |
| M3uParser.ChannelIdIndex | frontend/src/App.jsx:442 | the channel index can be read back from a key as the digits between `ch_` and the next `_` |
| M3uParser.ChannelIdInjective | frontend/src/App.jsx:442 | keys of different indexes differ, whatever the URLs |
| M3uParser.CompleteKeepsInvariant | frontend/src/App.jsx:440-443 | completing an entry with a URL line keeps the parser invariant |
| M3uParser.StepInvariant | frontend/src/App.jsx:418-448 | each line keeps the invariant: the index equals the channel count, every channel is well formed with the key of its position, and channels plus the pending entry never outnumber the `#EXTINF:` lines seen |
| M3uParser.RunInvariant | frontend/src/App.jsx:413-449 | the invariant holds after any sequence of lines |
| M3uParser.StepAppends | frontend/src/App.jsx:437-447 | a line either leaves the channels alone or appends one channel whose URL is that trimmed line |
| M3uParser.StepOrder | frontend/src/App.jsx:440-443 | one line extends the channel URLs by at most that trimmed line, keeping them a subsequence of the trimmed lines |
| M3uParser.RunOrder | frontend/src/App.jsx:418-448 | the channel URLs are a subsequence of the trimmed input lines |
| M3uParser.ParsedChannelsWellFormed | frontend/src/App.jsx:437-443 | every emitted channel has a trimmed, non-empty, non-comment URL containing `://`, a non-empty name and the key `ch_<position>_<last ten characters>` |
| M3uParser.ParsedCountBound | frontend/src/App.jsx:420-447 | there are never more channels than `#EXTINF:` lines |
| M3uParser.ParsedOrder | frontend/src/App.jsx:437-443 | channels appear in the order of their URL lines |
| M3uParser.ParsedIdsDistinct | frontend/src/App.jsx:442 | no two channels of one playlist share a key |
| PlayableUrl.GetPlayableUrl | frontend/src/App.jsx:32-51 | only a non-empty URL yields something, and a result that differs from the URL only arises for an `http://` URL on an https page |
| PlayableUrl.NothingToPlay | frontend/src/App.jsx:33-36 | a missing or empty URL yields nothing |
| PlayableUrl.PlayedDirectly | frontend/src/App.jsx:38-45 | a URL that is not `http://` (ignoring case), or any URL on a non-https page, is returned unchanged |
| PlayableUrl.ProxiedRoundTrip | frontend/src/App.jsx:40-42 | an `http://` URL on an https page becomes exactly the API base plus `/proxy?url=` plus its encoding, and decoding the query gives the URL back whenever decoding undoes encoding |
| PlayableUrl.ProxiedLink | frontend/src/App.jsx:38-42 | an `http://` URL on an https page whose encoding succeeds becomes exactly the API base plus `/proxy?url=` plus its encoding, whatever the server's decoder |
| PlayableUrl.EncodingFailure | frontend/src/App.jsx:46-50 | when encoding throws, the result is nothing |
| PlayableUrl.PlayableStable | frontend/src/App.jsx:32-51 | a playable URL is its own playable URL, unless the API base is itself an `http://` address |
| UserSubscriptions.LoadUserSubscriptions | frontend/src/App.jsx:184-205 | only valid records are loaded; a non-array loads as the empty list and is written back; a write-back happens exactly for a non-array or an array that holds an invalid record; when the write-back succeeds or is not needed the list is exactly the filtered array, and when it fails the list is empty |
| UserSubscriptions.ValidStoredSameLength | frontend/src/App.jsx:189-194 | a filter that keeps as many records as it was given returns its input, so the length test decides the write-back |
| UserSubscriptions.ValidStored | frontend/src/App.jsx:189 | the filter keeps only records with truthy `id`, `name` and `url`, and never more than it was given |
| UserSubscriptions.ValidStoredMembership | frontend/src/App.jsx:189 | an item survives the filter exactly when it was stored and is a valid record |
| UserSubscriptions.ValidStoredConcat | frontend/src/App.jsx:189 | the filter keeps the stored order |
| UserSubscriptions.ValidStoredAllValid | frontend/src/App.jsx:189 | a list of valid records passes unchanged |
| UserSubscriptions.ValidStoredDrops | frontend/src/App.jsx:189-192 | the filter shortens the list exactly when some item is invalid |
| UserSubscriptions.LoadRewritesInvalid | frontend/src/App.jsx:187-195 | a stored array is written back exactly when it holds an invalid item |
| UserSubscriptions.LoadStable | frontend/src/App.jsx:184-200 | loading a list that a load produced gives it back with nothing to write |
| UserSubscriptions.MarkFixed | frontend/src/App.jsx:268 | every fixed entry is marked fixed and gets the id `fixed_` + its URL, one per fixed subscription |
| UserSubscriptions.MarkUser | frontend/src/App.jsx:270 | every user entry is marked not fixed, one per user subscription |
| UserSubscriptions.Merge | frontend/src/App.jsx:264-271 | the merged list holds the fixed entries first, then the user entries: an entry is fixed exactly when its position is below the number of fixed subscriptions |
| UserSubscriptions.MergeSplits | frontend/src/App.jsx:265-271 | the merged list splits back into exactly the fixed list and the user list, both in order |
| UserSubscriptions.MarkUserAt | frontend/src/App.jsx:270 | the k-th user subscription appears unchanged among the merged user entries |
| UserSubscriptions.NormalizeUrl | frontend/src/App.jsx:292 | the normalised URL is a suffix of the URL, shorter only when a leading `http://` or `https://` was stripped |
| UserSubscriptions.SchemeStripped | frontend/src/App.jsx:292 | either scheme is stripped once and the rest is kept |
| UserSubscriptions.SchemeInsensitive | frontend/src/App.jsx:291-294 | the `http` and `https` forms of an address normalise alike |
| UserSubscriptions.DefaultName | frontend/src/App.jsx:289 | the name is never empty: the trimmed name when there is one; otherwise the last `/`-separated piece of the URL (a slash-free suffix that is the whole URL or follows a `/`) when that is non-empty, else `未命名订阅` |
| UserSubscriptions.AddUserSubscription | frontend/src/App.jsx:286-317 | the list is unchanged or grows by one entry at the end with the new id, the default name and the trimmed URL, and it grows exactly when the address is not already merged and saving succeeds |
| UserSubscriptions.AddRejectsSameAddress | frontend/src/App.jsx:291-299 | once an address is added, adding any URL that normalises to it changes nothing |
| UserSubscriptions.AddRejectsOtherScheme | frontend/src/App.jsx:291-299 | after adding the `http://` form of an address, its `https://` form is refused |
| UserSubscriptions.RemoveId | frontend/src/App.jsx:333 | no survivor of the filter carries the id, and the list never grows |
| UserSubscriptions.RemoveIdShrinks | frontend/src/App.jsx:333 | removing a present id shortens the list |
| UserSubscriptions.RemoveIdMembership | frontend/src/App.jsx:333 | exactly the entries with other ids survive |
| UserSubscriptions.RemoveIdConcat | frontend/src/App.jsx:333 | the survivors keep their order |
| UserSubscriptions.RemoveIdAbsent | frontend/src/App.jsx:323-327 | removing an unknown id changes nothing |
| UserSubscriptions.DeleteUserSubscription | frontend/src/App.jsx:322-337 | the list changes exactly when the id is present, the user confirms and saving succeeds, and then it is exactly the filter of the list by the id, which keeps every other entry in order |
| UserSubscriptions.DeleteUndoesAdd | frontend/src/App.jsx:286-337 | deleting a subscription just added under a fresh id restores the previous list |
| SubscriptionWorker.NonEmpty | worker/m3u-worker.js:10 | `filter(Boolean)` keeps exactly the non-empty segments of its input, no others |
| SubscriptionWorker.NonEmptyAll | worker/m3u-worker.js:10 | segments that are all non-empty pass unchanged |
| SubscriptionWorker.NonEmptyConcat | worker/m3u-worker.js:10 | the filter keeps the order of the segments |
| SubscriptionWorker.PathSegments | worker/m3u-worker.js:10 | path segments are non-empty and contain no `/` |
| SubscriptionWorker.SegmentsRoundTrip | worker/m3u-worker.js:9-10 | the segments of the path built from slash-free, non-empty segments are those segments |
| SubscriptionWorker.RouteOf | worker/m3u-worker.js:13-33 | the list handler is only reached by GET, the add handler only by POST, the delete handler only by DELETE with a non-empty, slash-free id |
| SubscriptionWorker.OutsideApiNotFound | worker/m3u-worker.js:13-43 | any path whose first two segments are not `api`, `subscriptions` is not found, whatever the method |
| SubscriptionWorker.ApiPathsRoute | worker/m3u-worker.js:13-33 | GET and POST on `/api/subscriptions` reach list and add, DELETE on `/api/subscriptions/<id>` reaches delete, GET with an id is 405, DELETE without one is 404 |
| SubscriptionWorker.ApiRouteTable | worker/m3u-worker.js:13-33 | under `/api/subscriptions`, for any path and method: list exactly for GET without an id, add exactly for POST without an id, delete of the third segment exactly for DELETE with an id, 405 exactly for another method with an id, 404 exactly for another method without one |
| SubscriptionWorker.Listing | worker/m3u-worker.js:54-62 | the listing has at most one entry per key, and each entry is a stored key with its non-empty URL |
| SubscriptionWorker.ListResponse | worker/m3u-worker.js:49-67 | the list answers 500 exactly without the binding, and with the binding exactly 200 with the listing |
| SubscriptionWorker.ListingMembership | worker/m3u-worker.js:54-62 | an entry is listed exactly when its id is a listed key holding that non-empty URL |
| SubscriptionWorker.ListingConcat | worker/m3u-worker.js:56-62 | the listing follows the key order |
| SubscriptionWorker.AddOutcome | worker/m3u-worker.js:74-107 | 201 exactly when bound and the body's `url` is a string starting with `http`, and then the new id maps to that URL and is returned; 400 exactly for malformed JSON or a bad URL when bound; otherwise the namespace is unchanged |
| SubscriptionWorker.DeleteOutcome | worker/m3u-worker.js:110-123 | 204 exactly when bound and the id is present, and then only that key goes; 404 exactly when bound and it is absent; otherwise the namespace is unchanged |
| SubscriptionWorker.ServeOutcome | worker/m3u-worker.js:8-44 | every request gets 200, 201, 204, 400, 404, 405 or 500 and the namespace changes only with 201 or 204; a path with no route answers 404 and changes nothing, a method with no handler on an id answers exactly 405, and the list, add and delete routes answer exactly with their handlers' outcomes, the delete handler on the path's id |
| SubscriptionWorker.AddedIsListed | worker/m3u-worker.js:54-99 | a successful add is listed afterwards whenever its key is listed |
| SubscriptionWorker.AddCreatesOneKey | worker/m3u-worker.js:90-93 | a successful add under a fresh id creates exactly one key |
| SubscriptionWorker.DeleteUndoesAdd | worker/m3u-worker.js:90-123 | deleting the id an add just created answers 204 and restores the namespace |
| SubscriptionWorker.DeleteTwiceNotFound | worker/m3u-worker.js:116-121 | a second delete of the same id answers 404 |
| SubscriptionWorker.UnboundTouchesNothing | worker/m3u-worker.js:8-113 | without the binding no request changes the namespace, and exactly the requests that reach a handler get 500 |
| SubscriptionWorker.ServeChangesOnlyByHandlers | worker/m3u-worker.js:13-43 | only a POST to add or a DELETE with an id can change the namespace |
| SubscriptionWorker.Worker.List | worker/m3u-worker.js:49-67 | the loop over the listed keys answers exactly the list response |
| SubscriptionWorker.Worker.Add | worker/m3u-worker.js:74-108 | the response and the new namespace are those of the add handler, and the binding is unchanged |
| SubscriptionWorker.Worker.Delete | worker/m3u-worker.js:110-128 | the response and the new namespace are those of the delete handler, and the binding is unchanged |
| SubscriptionWorker.Worker.Fetch | worker/m3u-worker.js:8-44 | the response and the new namespace are those of routing the request to its handler |
| AddSubscriptionForm.Validate | frontend/src/components/AddSubscription.jsx:11-21 | a blank name is rejected whatever the URL; otherwise a trimmed URL without `http://` or `https://` is rejected; an accepted pair is the trimmed name and URL |
| AddSubscriptionForm.ValidateStable | frontend/src/components/AddSubscription.jsx:11-23 | submitting an accepted pair again is accepted unchanged |
| AddSubscriptionForm.AcceptedUrlPassesWorker | frontend/src/components/AddSubscription.jsx:18-23 | an accepted URL also passes the worker's URL check |
| AddSubscriptionForm.AcceptedIsStoredAsGiven | frontend/src/components/AddSubscription.jsx:23 | an accepted pair whose address is new is appended to the user list with exactly that name and URL |
| AddSubscriptionForm.Form.constructor | frontend/src/components/AddSubscription.jsx:6-7 | both fields start empty |
| AddSubscriptionForm.Form.SetName | frontend/src/components/AddSubscription.jsx:34 | typing in the name field sets the name only |
| AddSubscriptionForm.Form.SetUrl | frontend/src/components/AddSubscription.jsx:42 | typing in the URL field sets the URL only |
| AddSubscriptionForm.Form.HandleSubmit | frontend/src/components/AddSubscription.jsx:9-26 | the outcome is the validation of the fields, both fields are cleared on acceptance, and both are kept on rejection |
| JsString.Trim | frontend/src/App.jsx:419 | a trimmed string has no whitespace at either end and is no longer than the original |
| JsString.TrimBounds | frontend/src/App.jsx:419 | the trimmed string is a slice of the original with only whitespace before and after it |
| JsString.TrimIdempotent | frontend/src/components/AddSubscription.jsx:11-12 | trimming twice is trimming once |
| JsString.TrimEmpty | frontend/src/App.jsx:434 | a string trims to empty exactly when it is all whitespace |
| JsString.ToLower | frontend/src/App.jsx:38 | lower-casing keeps the length and folds each character separately |
| JsString.Split | frontend/src/App.jsx:414 | a split always has at least one piece; with `JoinSplit`, `SplitJoin` and `SplitPieces` it is pinned to the pieces between separators |
| JsString.Join | frontend/src/App.jsx:414 | the reference inverse of the one-character `split`: by `JoinSplit` and `SplitJoin`, joining a split gives the text back and splitting a join of separator-free pieces gives the pieces |
| JsString.JoinSplit | frontend/src/App.jsx:414 | joining the lines of a split gives back the text |
| JsString.SplitJoin | worker/m3u-worker.js:10 | splitting a join of separator-free pieces gives back the pieces |
| JsString.SplitPieces | worker/m3u-worker.js:10 | no piece of a split holds the separator |
| JsString.LastPieceSuffix | frontend/src/App.jsx:289 | `split('/').pop()` is a slash-free suffix of the string |
| JsString.LastPieceAfterSeparator | frontend/src/App.jsx:289 | the last piece is the whole string or starts right after a separator, so with `LastPieceSuffix` it is exactly the text after the last separator |
| JsString.IndexOfFirst | frontend/src/App.jsx:422 | `indexOf` finds the first occurrence, or -1 exactly when there is none |
| JsString.LastChars | frontend/src/App.jsx:442 | `substring(length - 10)` is the last ten characters, or the whole string when it is shorter |
| JsString.NatToStringValue | frontend/src/App.jsx:442 | the decimal digits of an index read back as that index |
| JsString.NatToStringInjective | frontend/src/App.jsx:442 | distinct indexes are formatted differently |

## Left out

- The HLS forwarding proxy (`/api/proxy`, vps文件/server.js:186) and its manifest rewriting (`rewriteM3uUrls`, vps文件/server.js:364) live in the Express server and are not modelled. The model covers only the frontend's `/proxy?url=` links.
- The Express server's own subscription endpoints (vps文件/server.js:60-137) are not modelled either; the model follows the Cloudflare worker.
- hls.js, native video playback and their event handlers: calls into a foreign library and media I/O.
- `fetch`, `localStorage`, `alert`, `window.confirm` and status messages: I/O. Their results are parameters.
- Failures of `JSON.stringify` and `setItem`, both when adding or deleting and when writing back a cleaned list at start-up, are folded into `saved` parameters.
- LastChars (`JsString.LastChars`) counts Unicode scalar values, while `substring` counts UTF-16 code units. For a URL whose last ten code units include characters outside the Basic Multilingual Plane, the source's channel key takes fewer characters and may split a surrogate pair; the model's key differs there. Strings are sequences of scalar values throughout; elsewhere only positions found by `indexOf` are used, so the difference does not arise.
- The unserved `/fixed-subscriptions` fetch and its filter: network I/O. The fixed list is a parameter.
- After a delete, the app resets the selected subscription and the player (frontend/src/App.jsx:341-357). That is UI and player state and is not modelled.
- A stored record with truthy non-string properties passes the filter. The rest of the model types user subscriptions with string fields.
- The key-value namespace's asynchrony, its consistency, and the 1000-key page of `list()`: the listing order is a parameter.
- Exceptions thrown by the namespace, which the worker answers with 500: the model's namespace never fails.
- Parsing the request URL: the pathname is a parameter.
- `JsString.ToLower` folds ASCII letters only. This is exact for the ASCII keys that the case-insensitive match looks for, but `getPlayableUrl` lower-cases the whole URL. Non-ASCII characters never fold to the ASCII scheme `http://`, so the proxy decision is unaffected.
- `encodeURIComponent` and its decoding are parameters, not reimplementations.
- `SubscriptionWorker.AddOutcome`: a fresh id that is already a key overwrites it, exactly as `put` would. Freshness is a premise of the lemmas about adding, not a requirement of the handler.
