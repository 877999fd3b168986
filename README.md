# v2fun client core, modelled in Dafny

v2fun is a mobile-first web client for the V2EX forum. This project models the client's
own logic and proves properties about it. The HTTP traffic, the DOM and React's rendering
are not modelled. What is modelled:

- **Pagination** (`pagination.dfy`): the page-number strip. `GetPageNumbers` builds the
  strip with a loop and is proved equal to the specification function `Strip`. The lemmas
  cover the shape of the strip, its ellipses and the render guards.
- **Notification** (`notification.dfy`): the two link parsers. The regular expression
  `/\/t\/(\d+)(?:#reply(\d+))?/` becomes a leftmost scan over suffixes. The member
  pattern `/\/member\/([^/?#]+)/` becomes a second scan that is used only when no topic
  matches.
- **Avatar** (`avatar.dfy`): avatar URL normalisation.
- **InfiniteScroll** (`infinite_scroll.dfy`): the infinite-scroll hook, as a class
  `Pager`.
  - Each ref and the React state mirroring it are one field.
  - A fetch is two events: `StartFetch` hands out a `Ticket`; `Complete` or `Fail`
    consumes it.
  - The generation counter drops a response whose ticket is stale.
- **ListCache** (`list_cache.dfy`): the TTL list cache. `Provider` holds the map. `Binding`
  is `useListCache(key)`. The clock and the scroll position are parameters.
- **NodeDetail** (`node_detail.dfy`): the node page's `fetchPage` (its request and its
  `hasMore` rule) and its cache key.
- **TopicDetail** (`topic_detail.dfy`):
  - the floor and page arithmetic;
  - the reply box, as a class `Composer`. Each await of `handleSubmitReply` is one
    method, and `phase` records which answer is awaited;
  - thanking the topic and quoting a reply.
- **Nodes** (`nodes.dfy`): the node directory's filtered list. The sort is an insertion
  sort that keeps ties in their input order.
- **Passcode** (`passcode.dfy`): the six-box passcode gate, as a class `Gate`.
- **Client** (`client.ts` logic, `client.dfy`): how `request` maps statuses and bodies, the
  header merge, and the URL builders, including `encodeURIComponent` over UTF-8.
- Shared modules: `Wrappers` (Option, Result), `Seqs` (ordered subsequences, what `filter` keeps), `Text` (decimal digits, JavaScript's
  `trim`, `toLowerCase` and `includes`) and `Types` (the record fields the core reads).

Three places where the code, not the obvious reading of it, is what the model follows:

- **A hidden page can have no ellipsis.** The strip does not always mark a skipped page.
  With 8 pages and page 5 current it shows `1 … 4 5 6 8`, so page 7 is skipped without
  an ellipsis. With 10 pages and page 4 current, page 2 is skipped the same way. Both
  are stated in `Pagination.HiddenPageWithoutEllipsis`. What is proved is the weaker
  true property: every ellipsis stands between two page numbers at least two apart.
- **After a successful reply, the page shown is not always the larger count.**
  - When the re-fetched page reports more pages than were known, the newly reported
    last page is fetched and shown.
  - Otherwise the re-fetched answer's own page count is shown as the last page, even
    when it is smaller than the count known before.
  - `Composer.FirstReloaded` states both branches.
- **A failed reload counts as a failed reply.** The draft has already been cleared when a
  reload after a successful reply throws. The reply box then shows the network error all
  the same.

## Model

| member | source | states |
|---|---|---|
| Pagination.GetPageNumbers | src/components/Pagination.tsx:9-35 | the array built by pushes and the loop is exactly `Strip(current, total)` |
| Pagination.Span | src/components/Pagination.tsx:11 | the run lo..hi has hi-lo+1 entries (none when hi < lo), entry k being page lo+k |
| Pagination.SmallStripIsAllPages | src/components/Pagination.tsx:10-12 | with at most 7 pages the strip is exactly pages 1..total, no ellipsis |
| Pagination.LargeStripEnds | src/components/Pagination.tsx:14-32 | with more than 7 pages the strip starts with page 1 and ends with the last page |
| Pagination.LargeStripPages | src/components/Pagination.tsx:20-24 | a page strictly between the first and the last is shown iff it is within one of the current page |
| Pagination.LargeStripEllipses | src/components/Pagination.tsx:16-28 | the leading ellipsis is there iff current > 4, the trailing one iff current < total - 3 |
| Pagination.StripShape | src/components/Pagination.tsx:9-35 | at most 7 entries, page numbers in [1, total] and strictly increasing |
| Pagination.StripHasCurrent | src/components/Pagination.tsx:9-35 | the current page always has a button when 1 <= current <= total |
| Pagination.EllipsisHidesPages | src/components/Pagination.tsx:16-28 | an ellipsis is never first or last and sits between page numbers at least two apart |
| Pagination.HiddenPageWithoutEllipsis | src/components/Pagination.tsx:16-32 | totals 8/current 5 and 10/current 4 leave a page hidden with no ellipsis beside it |
| Pagination.Render | src/components/Pagination.tsx:38-72 | no bar iff at most one page; previous disabled iff page <= 1, next disabled iff page >= total |
| Pagination.OneActiveButton | src/components/Pagination.tsx:55-64 | a shown bar with the page in range highlights exactly one button |
| Notification.ParseNotification | src/utils/parseNotification.ts:10-18 | a target is only ever read where a "/t/<digit>" match begins |
| Notification.ParseIsLeftmost | src/utils/parseNotification.ts:12-17 | no target iff no "/t/<digit>" occurs; otherwise the target is read at the leftmost occurrence |
| Notification.ParseSkipsPrefix | src/utils/parseNotification.ts:12 | text before the first "/t/<digit>" that holds none does not change the parse |
| Notification.AbsoluteUrlParsesLikePath | src/utils/parseNotification.ts:38 | the site origin in front of a path does not change the parse (the match is unanchored) |
| Notification.ParseReplyLink | src/utils/parseNotification.ts:8-17 | "/t/n#reply f" reads back as topic n, floor f |
| Notification.ParseTopicLink | src/utils/parseNotification.ts:12-17 | "/t/n" reads back as topic n with no floor |
| Notification.TopicWebUrlReadsBack | src/api/client.ts:61-63 | the topic's web URL parses back to the same topic with no floor |
| Notification.NameRun | src/utils/parseNotification.ts:48 | the username run is a prefix with no '/', '?' or '#', stopped only by one of those |
| Notification.ParseMember | src/utils/parseNotification.ts:48-50 | a member name found is nonempty and holds no '/', '?' or '#' |
| Notification.ParseMemberIsLeftmost | src/utils/parseNotification.ts:48-50 | no name iff no "/member/<name character>" occurs; otherwise the whole name run at the leftmost occurrence |
| Notification.ParseLink | src/utils/parseNotification.ts:36-54 | null iff neither pattern matches; a topic match wins and carries its topic and floor; otherwise the member link carries the parsed name |
| Notification.ParseMemberLink | src/utils/parseNotification.ts:47-51 | "/member/u" for a valid name u reads back as member u |
| Avatar.FixAvatarUrl | src/utils/fixAvatarUrl.ts:5-9 | missing or empty gives "", "//..." gains "https:", anything else is kept; never protocol-relative |
| Avatar.FixIsIdempotent | src/utils/fixAvatarUrl.ts:5-9 | fixing a fixed URL changes nothing |
| InfiniteScroll.Keys | src/hooks/useInfiniteScroll.ts:77 | the key set holds exactly the keys of the previous items |
| InfiniteScroll.Unseen | src/hooks/useInfiniteScroll.ts:78 | keeps exactly the batch items whose key is not already seen, and only batch items |
| InfiniteScroll.UnseenIsFilter | src/hooks/useInfiniteScroll.ts:78 | the kept items are an ordered subsequence of the batch, each item with an unseen key as often as in the batch, nothing else |
| InfiniteScroll.UnseenKeepsFreshBatch | src/hooks/useInfiniteScroll.ts:78 | a batch of unseen keys is kept whole, duplicates within it included |
| InfiniteScroll.UnseenDropsSeenBatch | src/hooks/useInfiniteScroll.ts:78 | a batch of seen keys adds nothing |
| InfiniteScroll.Merged | src/hooks/useInfiniteScroll.ts:74-79 | a reset replaces the list; an append is the old list plus the batch, or plus `Unseen` of it with a key, adding no old key |
| InfiniteScroll.RepeatedBatchAddsNothing | src/hooks/useInfiniteScroll.ts:74-79 | with a key, appending the same batch twice equals appending it once |
| InfiniteScroll.AppendKeepsNewKeys | src/hooks/useInfiniteScroll.ts:77-78 | every batch item whose key is new lands in the appended part |
| InfiniteScroll.Pager.constructor | src/hooks/useInfiniteScroll.ts:36-53 | items, page and exhausted come from the snapshot or are [], 1, false; initial loading iff no snapshot |
| InfiniteScroll.Pager.StartFetch | src/hooks/useInfiniteScroll.ts:60-68 | ignored while fetching; otherwise fetching, error cleared, generation bumped for a reset, ticket issued |
| InfiniteScroll.Pager.Complete | src/hooks/useInfiniteScroll.ts:70-85 | a stale ticket changes nothing; otherwise items merged, page = target, exhausted = !hasMore, fetch over |
| InfiniteScroll.Pager.Fail | src/hooks/useInfiniteScroll.ts:86-93 | a stale ticket changes nothing; otherwise the network error, fetch over, list untouched |
| InfiniteScroll.Pager.Mount | src/hooks/useInfiniteScroll.ts:112-118 | a restored pager skips its first fetch and only clears the flag; otherwise a reset fetch of page 1 starts, or nothing changes while one is in flight |
| InfiniteScroll.Pager.Intersect | src/hooks/useInfiniteScroll.ts:121-125 | fetches page+1 iff intersecting, not fetching, not exhausted and no error, changing only the fetch flags; otherwise nothing changes |
| InfiniteScroll.Pager.Reset | src/hooks/useInfiniteScroll.ts:154-163 | empties the list, page 1, not exhausted, no error, a new generation fetching page 1 |
| InfiniteScroll.Pager.ResetKeyChanged | src/hooks/useInfiniteScroll.ts:97-109 | a new key resets like `reset` and records the key; the same key does nothing |
| InfiniteScroll.Pager.Retry | src/hooks/useInfiniteScroll.ts:165-169 | clears the error and fetches page+1 unless a fetch is in flight; a fetch is in flight afterwards and nothing else changes |
| InfiniteScroll.Pager.GetSnapshot | src/hooks/useInfiniteScroll.ts:171-175 | the snapshot is the current items, page and exhausted flag |
| InfiniteScroll.StaleResponseAfterReset | src/hooks/useInfiniteScroll.ts:68-87 | a response to a fetch started before a reset is dropped and the reset's own answer is shown |
| ListCache.Lookup | src/hooks/useListCache.tsx:29-36 | data and scroll position back iff the key is present and at most 300000 ms old |
| ListCache.AfterLookup | src/hooks/useListCache.tsx:32-35 | an expired entry read is deleted; nothing else changes |
| ListCache.SaveThenRestore | src/hooks/useListCache.tsx:21-36 | a save then a restore within the TTL, bound included, returns what was saved and deletes nothing |
| ListCache.ExpiredStaysGone | src/hooks/useListCache.tsx:32-35 | after an expired read, the key finds nothing until saved again |
| ListCache.Provider.constructor | src/hooks/useListCache.tsx:19 | the cache starts empty |
| ListCache.Provider.Save | src/hooks/useListCache.tsx:21-27 | the key's entry becomes (data, scrollY, now); other keys untouched |
| ListCache.Provider.Restore | src/hooks/useListCache.tsx:29-37 | returns `Lookup` and leaves the map as `AfterLookup` says |
| ListCache.Binding.constructor | src/hooks/useListCache.tsx:46-48 | the binding holds its provider and key |
| ListCache.Binding.Save | src/hooks/useListCache.tsx:50-52 | forwards to the provider with the fixed key |
| ListCache.Binding.Restore | src/hooks/useListCache.tsx:54-58 | forwards to the provider with the fixed key |
| NodeDetail.PlanFetch | src/pages/NodeDetail.tsx:41-43 | no name gives an empty last page without a request; otherwise the node-topics path is requested |
| NodeDetail.HasMore | src/pages/NodeDetail.tsx:48-52 | more follows by the page number when the count is above one, else by a full page of 20 |
| NodeDetail.Receive | src/pages/NodeDetail.tsx:44-53 | failure iff unsuccessful; missing result is empty; hasMore by page count above one, else by a full 20 |
| NodeDetail.PagesStopAtCount | src/pages/NodeDetail.tsx:48-52 | with a fixed count above one, pages 1, 2, ... are never asked past the count, and the last one ends the listing |
| NodeDetail.CacheKey | src/pages/NodeDetail.tsx:22 | the key is "/node/" followed by the name, and nothing else |
| NodeDetail.CacheKeyInjective | src/pages/NodeDetail.tsx:22 | two nodes never share a cache entry |
| TopicDetail.FloorLabel | src/pages/TopicDetail.tsx:248 | the reply at index i of page p is labelled with a floor in ((p-1)·100, p·100] |
| TopicDetail.InitialPage | src/pages/TopicDetail.tsx:56 | page 1 for no floor or floor 0; otherwise the page p with (p-1)·100 < f <= p·100 |
| TopicDetail.RequestedFloorIsOnInitialPage | src/pages/TopicDetail.tsx:56 | floor f >= 1 is shown on the initial page at an index in [0, 100) |
| TopicDetail.FloorLabelOpensItsPage | src/pages/TopicDetail.tsx:248 | asking for the floor shown at (page, index) opens that page |
| TopicDetail.Mention | src/pages/TopicDetail.tsx:162 | "@" + username, then " #", the floor, and a closing space |
| TopicDetail.MentionReadsBack | src/pages/TopicDetail.tsx:162 | the digits after " #" in a mention read back as the floor |
| TopicDetail.ReplyFailureText | src/pages/TopicDetail.tsx:131-134 | the cookie message for "cookie_expired", else the server message, else "回复失败"; never empty |
| TopicDetail.Composer.constructor | src/pages/TopicDetail.tsx:24-56 | the page opened is `InitialPage` of the requested floor; nothing is being submitted |
| TopicDetail.Composer.Loaded | src/pages/TopicDetail.tsx:64-67 | the initial answer's replies and page count are shown |
| TopicDetail.Composer.Edit | src/pages/TopicDetail.tsx:271 | typing replaces the draft and clears the error |
| TopicDetail.Composer.ReplyTo | src/pages/TopicDetail.tsx:161-165 | the mention is appended to the draft |
| TopicDetail.Composer.BeginReply | src/pages/TopicDetail.tsx:105-110 | no-op for a blank draft or a running submit; otherwise posts the trimmed draft |
| TopicDetail.Composer.ReplyAnswered | src/pages/TopicDetail.tsx:110-139 | success clears the draft and reloads the known last page; otherwise the failure text |
| TopicDetail.Composer.FirstReloaded | src/pages/TopicDetail.tsx:117-137 | a grown count fetches the new last page; otherwise this answer is shown as the last page |
| TopicDetail.Composer.LastReloaded | src/pages/TopicDetail.tsx:119-140 | the newly reported last page is shown; the submit ends |
| TopicDetail.Composer.BeginThank | src/pages/TopicDetail.tsx:143-149 | ignored while thanking or once thanked; logged out opens the topic on the site |
| TopicDetail.Composer.FinishThank | src/pages/TopicDetail.tsx:150-158 | thanked only on success and never reset; an expired cookie raises the alert |
| TopicDetail.SuccessfulReplyShowsLastPage | src/pages/TopicDetail.tsx:105-141 | a successful reply ends with the draft cleared, on the last reported page |
| Nodes.Insert | src/pages/Nodes.tsx:22 | inserting keeps the multiset of nodes, one more x |
| Nodes.InsertKeepsOrder | src/pages/Nodes.tsx:22 | inserting into a list ordered by topics, most first, keeps it ordered |
| Nodes.SortByTopics | src/pages/Nodes.tsx:22 | the sorted copy is a permutation of the input |
| Nodes.SortIsDescending | src/pages/Nodes.tsx:22 | the sorted copy is ordered by topics, most first |
| Nodes.Matches | src/pages/Nodes.tsx:24-26 | an empty search matches every node |
| Nodes.Keep | src/pages/Nodes.tsx:25-27 | keeps a node iff its lowered title or name includes the lowered query |
| Nodes.KeepIsSubsequence | src/pages/Nodes.tsx:25-27 | filtering keeps the sorted order |
| Nodes.KeepCount | src/pages/Nodes.tsx:25-27 | a matching node keeps every copy; any other node has none |
| Nodes.Filtered | src/pages/Nodes.tsx:21-28 | shows input nodes only; at most 100 for a blank search, only matching nodes otherwise |
| Nodes.FilteredIsOrderedSubsequence | src/pages/Nodes.tsx:21-28 | the list shown is a subsequence of the sorted list, hence ordered by topics |
| Nodes.BlankSearchShowsFirstHundred | src/pages/Nodes.tsx:23 | a blank or white-space search shows the first min(100, n) sorted nodes |
| Nodes.SearchShowsExactlyTheMatches | src/pages/Nodes.tsx:24-27 | any other search shows exactly the matching nodes, each as often as in the input, no cap |
| Passcode.DigitsOf | src/components/PasscodeGate.tsx:47 | an ordered subsequence holding every digit of the input as often as it occurs, and no other character |
| Passcode.DigitsOfAppend | src/components/PasscodeGate.tsx:72 | keeping digits distributes over concatenation |
| Passcode.LastDigit | src/components/PasscodeGate.tsx:47 | the last digit typed, or "" when there is none |
| Passcode.PastedDigits | src/components/PasscodeGate.tsx:72 | the first min(6, n) of the n digits of the pasted text |
| Passcode.PasteSlots | src/components/PasscodeGate.tsx:74-75 | box i holds pasted digit i, or is empty past the pasted digits |
| Passcode.Join | src/components/PasscodeGate.tsx:54 | boxes of at most one digit join into a digit string no longer than the box count |
| Passcode.JoinFilled | src/components/PasscodeGate.tsx:53-54 | filled boxes join into a code whose digit i is box i's digit |
| Passcode.PasteThenJoin | src/components/PasscodeGate.tsx:74-79 | joining the boxes after a paste gives back the pasted digits |
| Passcode.Gate.constructor | src/components/PasscodeGate.tsx:7-10 | loading, six empty boxes, no error |
| Passcode.Gate.StatusResolved | src/components/PasscodeGate.tsx:13-18 | unlocked iff the server says verified; a failed request locks |
| Passcode.Gate.Change | src/components/PasscodeGate.tsx:45-62 | box i takes the last digit typed, the rest unchanged; submits the joined code iff that fills all six |
| Passcode.Gate.Paste | src/components/PasscodeGate.tsx:70-83 | no digits: nothing; else boxes refilled from the first six digits, submitted iff six |
| Passcode.Gate.FillSlots | src/components/PasscodeGate.tsx:74-75 | the array loop leaves exactly `PasteSlots` of the pasted digits |
| Passcode.Gate.Submitted | src/components/PasscodeGate.tsx:20-43 | accepted unlocks; refused shows "口令错误" and shakes; a failure shows the retry message |
| Passcode.Gate.TimerFired | src/components/PasscodeGate.tsx:32-41 | the shake stops; after a refusal all six boxes are emptied |
| Client.StatusMessage | src/api/client.ts:11-16 | 401 re-login, 403 no permission, 500 and above unavailable, else "请求失败 (status)" |
| Client.StatusMessageIdentifiesStatus | src/api/client.ts:12-15 | below 500, equal messages mean equal statuses |
| Client.Check | src/api/client.ts:10-22 | not OK throws the status message; `success === false` with a message throws it; else the body |
| Client.Headers | src/api/client.ts:6-9 | JSON content type by default; every caller header kept and winning |
| Client.RepliesPath | src/api/client.ts:32-33 | "/replies/show.json?topic_id=", the id, then `&page=<page or 1>&page_size=100`, and nothing between |
| Client.TopicWebUrl | src/api/client.ts:61-63 | the site origin, "/t/" and the id in decimal |
| Client.EncodeUriComponent | src/api/client.ts:79 | output is unreserved characters and %XX escapes; unreserved text is unchanged |
| Client.NodeTopicsPath | src/api/client.ts:78-79 | "/web/node/", the encoded name, then `?p=<page or 1>` |
| Client.NodeNameStaysInItsSegment | src/api/client.ts:79 | no node name adds a '/', '?' or '#' to the path |
| Text.Trim | src/pages/Nodes.tsx:23 | `trim`: empty iff all white space; a slice of the input, only white space cut off either side, none left at either end |
| Text.Lower | src/pages/Nodes.tsx:24-26 | same length, each letter A-Z lowered, everything else kept |
| Text.Includes | src/pages/Nodes.tsx:26 | true iff the query occurs at some position |
| Text.ValueOfDec | src/utils/parseNotification.ts:15-16 | reading the decimal form of n gives back n |
| Text.DigitRun | src/utils/parseNotification.ts:12 | the `\d+` run: the longest digit prefix |

## Left out

- I/O is not modelled: `fetch`, JSON decoding, timers, `requestAnimationFrame`, IntersectionObserver, scrolling, focus and `alert`. Each answer is a parameter of the method that receives it, and `None` stands for a thrown request.
- `Date.now()` and `window.scrollY` are parameters of `ListCache.Provider.Save` and `Restore`.
- Concurrency is not modelled. Events are applied one at a time, and React's batching of state updates is not.
- `parseInt` is modelled as reading a digit run into a natural number. Precision beyond 2^53 is not modelled.
- Text.Lower: lowers only A-Z, not the full Unicode mapping of `toLowerCase`.
- Nodes.SortByTopics: the sort keeps ties in input order, but no lemma proves that stability.
- Client.EncodeUriComponent: characters here are Unicode scalar values. The `URIError` thrown for a lone UTF-16 surrogate cannot arise, and the contract does not state the exact escape bytes.
- Client.Check: `data.message` is modelled as a string that is "" when absent. Other falsy or non-string messages are not modelled.
- NodeDetail.Receive: `res.totalPages || 1` treats only 0 as falsy. `undefined` and `NaN` page counts are not modelled.
- NodeDetail: an undefined route parameter is modelled as the empty name.
- NodeDetail: saving `Cached(snapshot, node)` on unmount is represented by the datatype and `ListCache.Binding.Save`. The unmount effect itself is not modelled.
- TopicDetail: the `!id` guards are not modelled, since the topic id is always present. Neither are the `loading` flag, `fetchReplies`, `handlePageChange`, pull-to-refresh, `scrollToElement` and the floor highlight, which are page changes and DOM effects.
- Passcode.Gate.Submitted: every non-OK response counts as a refusal (`Some(false)`), as `res.ok` decides. `handleKeyDown` only moves focus and is not modelled.
- Passcode: the shake animation is modelled only as the `shaking` flag, with the 400 ms timer as the `TimerFired` event.
- ListCache.Binding.constructor: takes a provider. The error thrown when `useListCache` is used outside a provider is not modelled.
- InfiniteScroll: `rootMargin` and the observer's attach/detach in `sentinelRef` are DOM plumbing and are not modelled.
- Pagination: the click handlers only call `onPageChange`.
- The server (`server/index.mjs`) is a reverse proxy and is not part of this model. Neither are pull-to-refresh, HTML sanitising, authentication and the other pages, which are presentation or server-dependent glue.
