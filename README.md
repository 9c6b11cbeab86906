# DeGuild public back end: a Dafny model of its listing logic

DeGuild's public back end is a set of HTTP functions. The DeGuild front ends
call them to list skill certificates, magic scrolls (the guild shop's
course tokens) and jobs. They also list the certificate managers a shop has
approved, and they generate thumbnails for uploaded images. Each handler in
`functions/index.js` reads smart-contract event logs and document-store
collections. It then windows, reconciles, enriches or flattens what it read
and answers with JSON. The model covers that deterministic part. The contract
calls and store reads become inputs: event lists, and total functions from a
scroll type, certificate or address to the call's outcome.

The modules follow the handlers:

- **JsNumbers, JsStrings, JsSeqs** give the JavaScript semantics the handlers
  depend on:
  - `Number(…)` and `parseInt(…, 10)` on route strings;
  - NaN comparisons;
  - `slice` clamping;
  - `indexOf`, `startsWith` and `substring`;
  - `filter`;
  - the default `Array.prototype.sort`.
- **EventWindow** is the 8-wide page window of the certificate, shop and
  inventory pages. For integer page strings, the page string is coerced as the code does it;
  other numeric forms are listed under "Left out" (the `JsNumbers.ToNumber` line).
  Next to it is the window as evidently intended.
- **Lifecycle** reconciles a bought scroll's state from the consumed and
  burned event lists. It has an imperative `ReconcileState`.
- **Enrichment** builds one record per paged event inside its own try block.
  A failing record becomes `null` at its own position.
- **ConcatApply** covers `[].concat.apply([], groups)` and
  `[].concat.apply(...groups)`.
- **CursorPager** is the 24-wide cursor pager of `allCertificates`,
  `allMagicScrolls` and `allJobs`. Its `ListPage` method pushes each document
  and then sorts.
- **Handlers** puts those pieces together into the page handlers and
  `getAllCM`.
- **ApiPrefix** is the request-URL rewrite middleware, as a `Request` class
  whose `url` is changed in place.
- **Thumbnails** covers `thumbThis`, plus the storage trigger's guard and
  thumbnail path.

## Model

| member | source | states |
|---|---|---|
| EventWindow.Window | functions/index.js:279-286 | a page is answered exactly when `Number(page) * 8` is a number below the list length; otherwise the answer is a 404 "Out of page"; an answered window is no longer than the list |
| EventWindow.WindowOfNumbers | functions/index.js:409-416 | once `page` and `page + "1"` convert to integers a ≤ b, the page is accepted exactly when 8a < length and then is `events[8a .. min(length, 8b)]`, else "Out of page" |
| EventWindow.WindowOfDecimalPage | functions/index.js:503-510 | a decimal page n is accepted exactly when 8n < length and then is the events from 8n up to 8(10n + 1), in log order; else "Out of page" |
| EventWindow.FirstPage | functions/index.js:409-410 | page "0" is the first min(8, length) events, and a 404 for an empty list |
| EventWindow.SecondPage | functions/index.js:409-410 | page "1" is the events from 8 up to min(length, 88), and a 404 when there are at most 8 |
| EventWindow.NegativePageIsEmpty | functions/index.js:409-410 | a negative page "-d" with d > 0 is always accepted and is empty |
| EventWindow.MinusZeroPage | functions/index.js:409-410 | page "-0" of a non-empty list is accepted and holds all but the last min(8, length) events |
| EventWindow.WindowPagesOverlap | functions/index.js:280 | with 17 events, page "1" is events 8..17 and page "2" is events 16..17, so event 16 is on both pages |
| EventWindow.IntendedWindowAt | functions/index.js:279-286 | the intended window for page number n: a 404 when rejected, and at most 8 events when answered |
| EventWindow.IntendedWindow | functions/index.js:279-286 | the intended window for a page string: a 404 when rejected, and at most 8 events when answered |
| EventWindow.IntendedWindowOfPage | functions/index.js:279-286 | the intended window of the decimal string of n is the intended window of page number n |
| EventWindow.IntendedWindowAtPage | functions/index.js:279-286 | intended page n is accepted exactly when 8n < length and then is `events[8n .. min(length, 8n + 8)]` |
| EventWindow.IntendedPagesFrom | functions/index.js:279-286 | the intended pages from page n on, put end to end, are exactly the events from 8n on |
| EventWindow.IntendedPagesReassemble | functions/index.js:279-286 | the intended pages 0, 1, 2, … put end to end give back the whole event list, each event once, in order |
| JsNumbers.ToNumberOfDigits | functions/index.js:279 | `Number(s)` of a decimal digit string is its decimal value |
| JsNumbers.ToNumberAppendOne | functions/index.js:280 | for a decimal page n, `page + 1` is the string of 10n + 1 and converts to 10n + 1 |
| JsNumbers.ToNumberOfNegative | functions/index.js:279 | `Number("-" + d)` is minus the value of the digits d |
| JsNumbers.ToNumberOfNegativeAppendOne | functions/index.js:280 | `Number("-" + d + "1")` is −(10·value(d) + 1) |
| JsNumbers.ToNumberOfNatToDecimal | functions/index.js:279 | a natural number written in decimal converts back to itself |
| JsNumbers.NatToDecimal | functions/index.js:279 | the decimal string of n is a digit string whose value is n |
| JsNumbers.DigitPrefixOfDigits | functions/index.js:177 | the digit run `parseInt` reads from digits followed by a non-digit is exactly those digits |
| JsNumbers.ParseIntOfDigits | functions/index.js:177 | `parseInt(d + tail, 10)` is the value of the digits d whenever tail does not start with a digit |
| JsNumbers.DigitStringIsTrimmed | functions/index.js:279 | a digit string loses nothing to the white-space trim of `Number` |
| JsNumbers.ToNumber | functions/index.js:279-280 | `Number(page)`: trims white space at both ends; the empty string is 0, and an optional sign followed by decimal digits is that integer; everything else is NaN |
| JsNumbers.ParseInt | functions/index.js:177 | `parseInt(s, 10)`: skips leading white space, reads an optional sign and the longest run of digits after it; NaN when there are no digits |
| CursorPager.PageQuery | functions/index.js:180-214 | the three store queries: `next` keeps tokens after the cursor, `previous` keeps tokens before it in descending order, and otherwise the list is the collection itself; each is cut to 24. Nothing has more than 24 tokens, and any other direction gives the first min(24, size) tokens |
| ConcatApply.Flatten | functions/index.js:255 | `[].concat.apply([], groups)`: every group spread into `concat` on an empty receiver (its meaning is stated by `FlattenIsConcatenation`) |
| ConcatApply.ConcatApplySpread | functions/index.js:135 | `[].concat.apply(...groups)` throws exactly when there is no group |
| ConcatApply.Concatenation | functions/index.js:682 | the reference in-order concatenation of all groups, against which both flattenings are compared |
| Thumbnails.ThumbThis | functions/index.js:138-143 | `thumbThis(url)` is exactly six characters longer than `url` |
| Thumbnails.Guard | functions/index.js:955-963 | the trigger throws exactly when `contentType` is undefined, and stops with "This is not an image." exactly when the type does not start with "image/" |
| Thumbnails.Dirname | functions/index.js:946 | `path.dirname`: what precedes the last '/', "/" for a file at the root and "." for a bare name (its use is stated by `ThumbBasename`) |
| Thumbnails.JoinName | functions/index.js:948-950 | `path.normalize(path.join(dir, name))` for a slash-free name (its use is stated by `ThumbBasename`) |
| Thumbnails.ThumbFilePath | functions/index.js:946-950 | the thumbnail's path `dir/thumb_<basename>`; `ThumbBasename` states that its basename is "thumb_" + the original basename |
| Lifecycle.State | functions/index.js:536-542 | the reconciled state is always 1, 2 or 3 |
| Handlers.VerifiedCertificates | functions/index.js:255-274 | every certificate it keeps passes verification |
| Handlers.MergeSkill | functions/index.js:138-163 | an entry is built exactly when the shop-name lookup for the certificate's address succeeds and the document has a string `url` (otherwise `url.slice` throws); then it has name = the title, image = `thumbThis(url)`, the same address and `tokenId`, the looked-up `shopName`, and `added` = false |
| CursorPager.AfterCursor | functions/index.js:185-186 | `startAfter(tokenId)` on the ascending order: a token passes when its id is above the cursor, and every token passes a NaN cursor, which sorts first (properties in `AfterCursorUpwardClosed` and `NaNCursor`) |
| CursorPager.BeforeCursor | functions/index.js:196-197 | `startAfter(tokenId)` on the descending order: a token passes when its id is below the cursor, and none passes a NaN cursor (properties in `BeforeCursorUpwardClosed` and `NaNCursor`) |
| CursorPager.SortString | functions/index.js:216 | `String(x)` as the default `sort()` compares it: "[object Object]" for every record, so `SortByKeyOfEqualKeys` keeps the order |
| Handlers.UncalledVerify | functions/index.js:264-267 | the awaited `verify(...)` without `.call()` is the method object, which is truthy for every certificate (consequence in `UncalledVerifyKeepsAll`) |
| Enrichment.ScrollRecordFails | functions/index.js:422-455 | the try block throws: a view call, the store read or `fromWei` throws, or the document is missing; `ScrollRecord` is null exactly then |
| JsNumbers.Times | functions/index.js:279-280 | `page * 8`: NaN stays NaN, an integer is multiplied (used by `WindowOfNumbers`) |
| JsNumbers.LessThan | functions/index.js:279 | `page * 8 < length`: false for NaN, the integer comparison otherwise |
| JsNumbers.ToIntegerOrInfinity | functions/index.js:280 | how `slice` coerces its arguments: NaN becomes 0, an integer is kept |
| JsStrings.StartsWith | functions/index.js:956-961 | `s.startsWith(p)`: `s` begins with the characters of `p`, in order (with indexOf in `IndexOfZeroIffPrefix`); used at lines 956 and 961 |
| JsStrings.IndexOf | functions/index.js:884 | `s.indexOf(p)`: -1 exactly when `p` occurs nowhere, and otherwise the first position where `p` occurs |
| JsStrings.Substring | functions/index.js:885 | `s.substring(start)`: the characters from `start` on, or "" past the end |
| JsSeqs.Take | functions/index.js:188-208 | `limit(24)` at lines 188, 199 and 208: the first min(24, n) elements, as a prefix |
| JsSeqs.Reverse | functions/index.js:196 | `orderBy("tokenId", "desc")` on the ascending collection: the same elements, last first |
| ConcatApply.Concat | functions/index.js:255 | `receiver.concat(...args)`, here and at line 682: the receiver followed by each argument's contents in order (spread arrays by `ArgsContentsOfSpreads`, single records by `ArgsContentsOfSingles`) |
| Lifecycle.ReconcileState | functions/index.js:530-542 | the state computed by `let state = 1` and the two successive overriding checks is the state function's value |
| Lifecycle.Matching | functions/index.js:530-535 | the `scrollId` filter, defined by `JsSeqs.Filter`: the events matching an id are events of the list with that id, and there are some exactly when the list mentions the id |
| Lifecycle.StateCases | functions/index.js:536-542 | the state is 1, 2 or 3; it is 3 exactly when a burned event names the scroll, 2 exactly when a consumed one does and no burned one does, and 1 when neither does |
| Lifecycle.StateIgnoresEventOrder | functions/index.js:530-542 | reordering the consumed or burned events leaves the state unchanged |
| Lifecycle.MentionsDependsOnElementsOnly | functions/index.js:530-535 | whether a list has an event for an id depends only on its elements, not on their order |
| Lifecycle.StateScenario | functions/index.js:536-542 | for instance "7": no events gives 1, a consume gives 2, a consume and a burn give 3, and events for other ids give 1 |
| Enrichment.ScrollRecord | functions/index.js:422-457 | a shop or inventory record is null exactly when a view call, the store read or `fromWei` throws, or the stored document is missing; otherwise it carries the given id and state, the document's fields, `isPurchasable`, the converted price and the scroll-type entries `prerequisiteId`, `prerequisite`, `hasLesson`, `hasPrerequisite` and `available` |
| Enrichment.MapEntries | functions/index.js:420-422 | mapping with a per-entry try block gives one result per input, each at its input's position |
| Enrichment.ShopRecords | functions/index.js:420-457 | the shop page has one record per event in the window; record k is null exactly when event k's scroll type fails, and otherwise has `tokenId` = that scroll type and no state; record k is exactly the try block's record for event k's scroll type (`ScrollRecord` of its chain answers and document), so its metadata, price and flags are that scroll type's |
| Enrichment.InventoryRecords | functions/index.js:514-565 | the inventory page has one record per bought event; record k is null exactly when its scroll type fails, and otherwise has `tokenId` = the event's `scrollId` and the reconciled state; record k is exactly `ScrollRecord` of the event's `scrollId`, its state, and the chain answers and document for its scroll type |
| Enrichment.ListedRecord | functions/index.js:596-615 | an admin-listing record is null exactly when the store read throws or the document is missing; otherwise it carries the scroll type and the document's fields |
| Enrichment.ListedRecords | functions/index.js:594-617 | the admin listing has one record per `ScrollAdded` event; record k is null exactly when its document read fails, and otherwise has `tokenId` = its scroll type; record k is exactly `ListedRecord` of event k and its document read, so it carries that document's fields |
| Enrichment.GatherAll | functions/index.js:288-297 | `Promise.all` without a try block gives every result in input order exactly when no call throws, and rejects otherwise |
| Enrichment.InventoryStateInRange | functions/index.js:536-542 | every non-null inventory record's state is 1, 2 or 3 |
| ConcatApply.SpreadEach | functions/index.js:255 | passing the groups through `apply` gives one spread argument per group, at its position |
| ConcatApply.SingleEach | functions/index.js:135 | spreading a group into `concat`'s argument list gives one single-record argument per record |
| ConcatApply.ArgsContentsOfSpreads | functions/index.js:255 | `concat` of spread groups contributes their in-order concatenation |
| ConcatApply.ArgsContentsOfSingles | functions/index.js:135 | `concat` of single records contributes exactly those records in order |
| ConcatApply.FlattenIsConcatenation | functions/index.js:682 | `[].concat.apply([], groups)` is the in-order concatenation of every group |
| ConcatApply.ConcatenationAppend | functions/index.js:255 | concatenating two runs of groups is concatenating each run and joining the results |
| ConcatApply.ConcatenationPlaces | functions/index.js:255 | each group appears unchanged in the flattened list, right after all the groups before it |
| ConcatApply.ConcatApplySpreadCases | functions/index.js:135 | `[].concat.apply(...groups)` throws with no group, copies a single group, and joins only the first two otherwise |
| ConcatApply.ConcatApplySpreadAgreement | functions/index.js:135 | `[].concat.apply(...groups)` equals the full flattening exactly when there is a group and every group after the second is empty |
| ConcatApply.ConcatApplySpreadDropsThirdGroup | functions/index.js:135 | with three one-record groups, `[].concat.apply(...groups)` gives two records while the full flattening gives three |
| CursorPager.CursorOf | functions/index.js:177 | a route without a `tokenId` parameter gives a NaN cursor |
| CursorPager.CursorOfDigits | functions/index.js:177 | a decimal `tokenId` parameter gives the cursor it spells |
| CursorPager.ListPage | functions/index.js:180-216 | pushing each document of the chosen query (next, previous or the first 24) into `data` and answering `data.sort()` gives the query's records in the query's order |
| CursorPager.NextPageIsRun | functions/index.js:345-355 | on a collection ordered by `tokenId`, `next` is the run of at most 24 consecutive tokens that starts at the first token above the cursor |
| CursorPager.PreviousPageIsRun | functions/index.js:356-366 | `previous` is the run of at most 24 consecutive tokens of the descending collection that starts at the largest token below the cursor |
| CursorPager.NextPage | functions/index.js:740-750 | `next` returns at most 24 tokens, each with `tokenId` above the cursor, in ascending order |
| CursorPager.PreviousPage | functions/index.js:751-761 | `previous` returns at most 24 tokens, each with `tokenId` below the cursor, in descending order (not reversed back) |
| CursorPager.NaNCursor | functions/index.js:181-202 | with a cursor that does not parse, `next` lists the first 24 tokens and `previous` lists none |
| CursorPager.BareRoute | functions/index.js:203-214 | the route without parameters lists the first min(24, size) tokens as stored |
| CursorPager.AfterCursorUpwardClosed | functions/index.js:185-186 | on an ascending collection, once a token is above the cursor every later one is too |
| CursorPager.BeforeCursorUpwardClosed | functions/index.js:196-197 | on a descending collection, once a token is below the cursor every later one is too |
| CursorPager.ReverseDescending | functions/index.js:196 | the descending order is the ascending collection reversed |
| CursorPager.RunAscending | functions/index.js:185-188 | a run of at most 24 consecutive tokens of an ascending collection is ascending |
| CursorPager.RunAbove | functions/index.js:185-188 | a run that starts above the cursor in an ascending collection stays above it |
| CursorPager.RunBelow | functions/index.js:196-199 | a run that starts below the cursor in a descending collection stays below it, descending |
| CursorPager.NextScenario | functions/index.js:740-750 | tokens 1, 3, 5, 9 with cursor 3 and `next` give 5, 9 |
| CursorPager.PreviousScenario | functions/index.js:751-761 | tokens 1, 3, 5, 9 with cursor 5 and `previous` give 3, 1 |
| JsSeqs.SortByKeyOfEqualKeys | functions/index.js:216 | the default sort leaves a list unchanged when every element's string is the same, as "[object Object]" is for every record |
| JsSeqs.SortByKey | functions/index.js:380 | the default sort's result is a permutation of its input |
| JsSeqs.SortByKeySorted | functions/index.js:776 | the default sort's result is ordered by the elements' strings |
| JsSeqs.FilterUpwardClosed | functions/index.js:186 | filtering by a condition that stays true once it holds keeps exactly the suffix from its first match |
| JsSeqs.Filter | functions/index.js:272-274 | `filter` keeps exactly the elements that pass, and is no longer than its input |
| JsSeqs.FilterAppend | functions/index.js:272-274 | filtering a concatenation is concatenating the filtered parts |
| JsSeqs.Slice | functions/index.js:280 | `slice` with clamped, possibly negative, indexes never gives more elements than the list has |
| JsSeqs.SliceNonNegative | functions/index.js:280 | `slice(a, b)` with 0 ≤ a ≤ b is the elements from min(a, length) up to min(b, length) |
| JsStrings.IndexOfZeroIffPrefix | functions/index.js:884 | `url.indexOf(p) === 0` holds exactly when `url` starts with `p` |
| Handlers.ShopPage | functions/index.js:389-464 | the shop page is answered exactly when its window is; otherwise it is a 404 "Out of page"; record k corresponds to windowed event k, null exactly when it fails, with `tokenId` = the scroll type, and equal to `ScrollRecord` of the event's scroll type, its chain answers and its document |
| Handlers.ShopPageAccepts | functions/index.js:409-416 | a decimal shop page n is answered exactly when 8n is below the number of `ScrollAdded` events, else "Out of page" |
| Handlers.InventoryPage | functions/index.js:470-572 | the inventory page is answered exactly when its window is; record k corresponds to windowed bought event k, with `tokenId` = its `scrollId` and its reconciled state, and equal to `ScrollRecord` of the event's `scrollId`, its state, and the chain answers and document for its scroll type |
| Handlers.InventoryPageAccepts | functions/index.js:503-510 | a decimal inventory page n is answered exactly when 8n is below the number of the user's `ScrollBought` events |
| Handlers.AdminListing | functions/index.js:576-622 | the admin listing is always answered, with one record per `ScrollAdded` event; record k is null exactly when the read of event k's scroll type throws or finds no document, and otherwise has `tokenId` = that scroll type and the document's fields |
| Handlers.VerifiedCertificatesInOrder | functions/index.js:255-274 | the windowed certificates are the in-order concatenation of every manager's minted certificates, filtered by verification |
| Handlers.VerifiedCertificatesExact | functions/index.js:255-274 | a certificate is kept exactly when some manager minted it and it passes verification |
| Handlers.UncalledVerifyKeepsAll | functions/index.js:264-274 | with `verify(…)` awaited without `.call()`, whose value is a truthy method object, the filter keeps every minted certificate |
| Handlers.CertificatesPage | functions/index.js:225-300 | the certificate page is a 404 "Out of page" exactly when its window is rejected, answered exactly when every document read succeeds, and then holds each windowed certificate's document at its position |
| Handlers.GuildCertificates | functions/index.js:89-164 | no certificate group rejects the request. Otherwise the listing is built from the first group, or from the first two joined, and is answered exactly when every shop-name lookup succeeds and every listed document has a string `url` (`thumbThis` throws on a missing one, leaving the request without a response). Each entry has image `thumbThis(url)`, name = the title, the same `tokenId` and `address`, `shopName` = the lookup's answer, and `added` = false |
| Handlers.Accounts | functions/index.js:643 | the projection gives each event's `account`, in order |
| Handlers.ApprovedManagers | functions/index.js:643-651 | `getAllCM` answers the accounts in event order exactly when there is an event, and otherwise is a 404 "<shop> has no approved manager!" |
| ApiPrefix.Rewrite | functions/index.js:883-888 | a URL starting with "/api/" becomes what follows "/api", which still starts with "/"; any other URL is unchanged |
| ApiPrefix.Request.constructor | functions/index.js:883 | a request holds the URL it arrived with |
| ApiPrefix.Request.StripApiPrefix | functions/index.js:883-888 | the request's `url` is replaced in place by its rewrite |
| ApiPrefix.RewriteLength | functions/index.js:884-885 | the URL gets exactly four characters shorter when it starts with "/api/", and keeps its length otherwise |
| ApiPrefix.RewriteStripsOnce | functions/index.js:884-885 | "/api/api/x" is routed as "/api/x": one prefix is stripped per request |
| ApiPrefix.RouteUntouched | functions/index.js:884 | a URL that does not start with "/a" is routed as it came |
| Thumbnails.ThumbThisInserts | functions/index.js:138-143 | `thumbThis` inserts "thumb_" at min(125, length); the result is six characters longer, and taking those six characters out gives the URL back |
| Thumbnails.LastSlash | functions/index.js:946-947 | the last '/' of a path, with nothing but non-slashes after it, or none in a slash-free path |
| Thumbnails.Basename | functions/index.js:947 | `path.basename` contains no '/' |
| Thumbnails.GuardCases | functions/index.js:955-963 | the trigger makes a thumbnail exactly when the MIME type starts with "image/" and the basename does not start with "thumb_", and then writes it to the thumbnail path |
| Thumbnails.LastSlashOfSlashFreeSuffix | functions/index.js:946-947 | appending a slash-free name does not move the last '/' |
| Thumbnails.BasenameAfterSlash | functions/index.js:947-949 | the basename of a directory ending in '/' joined with a slash-free name is that name |
| Thumbnails.ThumbBasename | functions/index.js:947-950 | the thumbnail path's basename is "thumb_" followed by the original basename |
| Thumbnails.ThumbnailDoesNotRetrigger | functions/index.js:948-963 | when the uploaded thumbnail fires the trigger again, the guard stops it: no thumbnail of a thumbnail is made |

## Left out

- Contract calls and store reads are inputs, not modelled. These include `getPastEvents`, `.methods.*.call()`, `collection/doc/get/orderBy/startAfter/limit`, and `fromWei`. Each lookup answers the same for the same scroll type, certificate or address within one request.
- The `where("title", ">=", skillName)` range query of the guild listing is not modelled. `GuildCertificates` takes the groups the store returns as input.
- CursorPager.PageQuery: models the store's `orderBy("tokenId")` as a collection already in ascending order of integer token ids, and `startAfter` as a strict comparison. A NaN cursor is placed before every number, the order the document store uses for NaN. Documents with non-numeric `tokenId`s are not modelled.
- Handlers.CertificatesPage: the verification is a parameter. `UncalledVerifyKeepsAll` shows what the code's awaited method object leads to, since a method object is truthy. What `verify` itself returns on the chain is not modelled.
- JsNumbers.ToNumber: only the integer forms of `Number(…)` are modelled: surrounding white space, the empty string, an optional sign and decimal digits. Fractions, exponents, hexadecimal/octal/binary prefixes and "Infinity" give NaN in the model, where JavaScript gives a number.
- JsNumbers.ParseInt: has unbounded precision. JavaScript rounds digit strings beyond 2^53 to the nearest double.
- `-0` is not distinguished from `0`, and strings are sequences of characters, not of UTF-16 code units.
- The code reads `fromDb.data()` of a snapshot, which is always truthy, so the `{}` default is never taken. A missing document therefore makes the record `null`, not a record of empty fields. The model follows the code here.
- Concurrency of `Promise.all` is not modelled: entries are built one after another, each at its own position. When a call without a try block rejects, the model answers `Unhandled` and gives no partial response.
- The single-document read handlers are not modelled: `readCertificate`, `readMagicScroll`, `readJob` and `readProfile` are thin store wrappers.
- `allGuildCertificates` is not modelled: it answers the store's groups as they come, with no flattening.
- `allCourses` is modelled only for its flattening at line 682 (`ConcatApply.FlattenIsConcatenation`). The per-course `typeAccepted` calls are not modelled.
- The HTML page of `shareCertificate` is not modelled. It is string interpolation into a response.
- `removeDownloadToken` is not modelled. It writes metadata into storage.
- The thumbnail trigger's I/O is not modelled: the temporary-file download, the ImageMagick resize, the upload, the signed URLs and the database write.
- Thumbnails.ThumbFilePath: `path.normalize` is modelled only for "." and for a directory that already ends in "/". `..` segments and repeated slashes are not modelled. Node's `path.basename` and `path.dirname` also ignore a trailing '/' (`path.basename("a/b/")` is "b" and `path.dirname("a/b/")` is "a"), but the model splits at the last '/' and gives "" and "a/b".
- Express routing, CORS and logging are not modelled.

## Findings

| source | as written | input that shows it | evidently intended | confidence | as-written member | corrected member |
|---|---|---|---|---|---|---|
| functions/index.js:280 | `slice(page * 8, (page + 1) * 8)`, also at lines 410 and 504 and so in `ShopPage` and `InventoryPage`, with `page` a route string: `page + 1` appends "1", so page n ends at 8(10n + 1) | 17 events: page "1" is events 8 to 16 and page "2" is event 16 again | `Number(page)`, then pages of 8 that split the list | high, not executed | EventWindow.WindowPagesOverlap | EventWindow.IntendedPagesReassemble |
| functions/index.js:135 | `[].concat.apply(...allSkills)` spreads the groups into `apply`'s own arguments | three managers with one certificate each: the listing shows two | `[].concat.apply([], allSkills)`, as at lines 255 and 682 | high, not executed | ConcatApply.ConcatApplySpreadDropsThirdGroup | ConcatApply.FlattenIsConcatenation |

The handlers keep the code's behaviour, so their contracts describe what the
functions answer today. The corrected definitions stand beside them, with
their intended properties proved.
