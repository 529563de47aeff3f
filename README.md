# Yahoo! realtime search monitor: change detection

`yahoo_realtime_monitor.py` watches Yahoo! realtime search for a list of
keywords. For each keyword, in order, `main` does the following:

- it fetches the latest result cards;
- it keeps at most ten posts that have text, each with an id hashed from
  `text + user + time`;
- it compares their ids with the ids stored for that keyword by the previous
  run;
- when some posts are new, it builds a LINE notification message for them
  and sends it;
- it records the current ids.

After the loop the recorded mapping is written back as the cache for the
next run.

This project models that pipeline in Dafny and proves what each stage
promises. The modules are:

- `Posts` covers the cards on a page and the extraction loop of
  `get_yahoo_realtime_posts`.
- `Cache` covers the `load_cache` fallback, the ids stored for a keyword and
  `list(current_ids)`.
- `Novelty` covers `current_ids`, `new_ids` and `new_posts`.
- `Notification` covers the message `format_notification` builds and the
  token guard of `send_line_notification`.
- `Monitor` covers one pass of `main`'s loop, the whole loop, and the cache
  snapshot it saves.
- `Text` and `Common` hold string containment, decimal rendering of integers
  and small sequence facts.

The outside world enters the model as values:

- a page fetch is a `Response`: the parsed cards, or a transport failure;
- the clock reading used in the message is a string;
- the notifier's transport success is a boolean;
- the cache file is a `StoredFile`: missing, unparsable, or a parsed mapping;
- Python's `hash` is a function parameter `hash: string -> Ident`.

The message is modelled as a sequence of `Line` values. Each line renders to
exactly the text the source appends. Statements of the form "the message
shows X only when …" are proved about the lines, because a user's post text
can itself contain any string.

## Model

| member | source | states |
|---|---|---|
| Posts.CardPost | yahoo_realtime_monitor.py:74-98 | A card yields a post exactly when it is readable and its text is non-empty. The post carries the card's text, user, time and link, a missing element reading as "". Its id is the hash of `text + user + time`. |
| Posts.Extracted | yahoo_realtime_monitor.py:73-101 | The cards yield at most one post each. Every post has text and the id hashed from its own text, user and time. |
| Posts.RealtimePosts | yahoo_realtime_monitor.py:53-107 | A transport failure gives an empty list. A page gives at most ten posts, each with text and its hashed id. |
| Posts.FirstCards | yahoo_realtime_monitor.py:73 | The cards read are a prefix of the page, at most ten long, and the whole page when it has ten cards or fewer. |
| Posts.GetRealtimePosts | yahoo_realtime_monitor.py:53-107 | The loop's result is the specified extraction. It has at most ten posts. Each has non-empty text and the id `hash(text + user + time)`. A transport failure gives an empty list. |
| Posts.ExtractedOrder | yahoo_realtime_monitor.py:73-101 | The extracted posts are, in card order, exactly the posts yielded by the cards that have text. Cards without text, and unreadable cards, are dropped without ending the loop. |
| Posts.FetchedPostsComeFromCards | yahoo_realtime_monitor.py:73-98 | A post is fetched exactly when one of the first ten cards yields it. |
| Posts.ExtractedAgrees | yahoo_realtime_monitor.py:97 | Extraction depends on the hash only through the ids it gives the cards' `text + user + time` strings. |
| Posts.RealtimePostsAgree | yahoo_realtime_monitor.py:53-107 | Two hash functions that agree on a page's cards give the same fetched posts. |
| Cache.LoadCache | yahoo_realtime_monitor.py:110-120 | A parsed file gives its mapping. A missing or unparsable file gives the empty mapping. |
| Cache.PreviousIds | yahoo_realtime_monitor.py:173 | An id was seen before exactly when it is listed under the keyword. A keyword not in the cache has no previous ids. |
| Cache.ListOf | yahoo_realtime_monitor.py:193 | `list(current_ids)` holds exactly the ids of the set, each once. |
| Cache.LoadSavedSnapshot | yahoo_realtime_monitor.py:193-196 | Reading back a saved snapshot gives each keyword exactly its stored ids, and none for an absent keyword. |
| Novelty.CurrentIds | yahoo_realtime_monitor.py:176 | The set holds the id of every fetched post and no other id. |
| Novelty.KeepIn | yahoo_realtime_monitor.py:180 | The filter keeps exactly the posts whose id is in the set, and never lengthens the list. |
| Novelty.KeepInOrder | yahoo_realtime_monitor.py:180 | The kept posts are an ordered subsequence of the input: increasing positions, and exactly those positions whose id is in the set. |
| Novelty.NewPosts | yahoo_realtime_monitor.py:176-180 | A post is new exactly when it was fetched and its id is not among the previous ids. |
| Novelty.NewPostsOrder | yahoo_realtime_monitor.py:176-180 | The new posts are the subsequence of the fetched posts, in fetch order, made of exactly the positions whose id was not seen before. |
| Novelty.NewPostsFromNothing | yahoo_realtime_monitor.py:173-180 | With no previous ids, every fetched post is new, in fetch order. |
| Novelty.NewPostsAllSeen | yahoo_realtime_monitor.py:176-180 | When every current id was seen before, nothing is new. |
| Text.NatToDecimal | yahoo_realtime_monitor.py:21 | A count renders as a non-empty string of decimal digits, with a leading zero only for zero, which renders as "0". |
| Text.DecimalRoundTrip | yahoo_realtime_monitor.py:21 | Reading back the rendered digits gives the number. |
| Text.IntToString | yahoo_realtime_monitor.py:39 | An integer in an f-string renders as `str(i)`: a non-empty digit string whose value is the integer, with no leading zero except "0" itself for zero, preceded by a minus sign when the integer is negative. |
| Notification.LineText | yahoo_realtime_monitor.py:21-39 | Each line renders as the exact text the source appends for it. This is the definition; MessageMentions and the *Shown lemmas state what follows from it. |
| Notification.NotificationLines | yahoo_realtime_monitor.py:21-22 | The message starts with the header line for the keyword and count, then the time line. |
| Notification.FormatNotification | yahoo_realtime_monitor.py:16-41 | The message built by successive appends is the rendering of the specified lines. |
| Notification.DetailText | yahoo_realtime_monitor.py:24-39 | The `if posts:` block, built by successive appends, renders exactly the detail lines of the first post. |
| Notification.MessageMentions | yahoo_realtime_monitor.py:21-39 | The message contains the keyword, the count and the time stamp. If there are posts, it also contains the first post's text, each non-empty poster, time and link line, and, when the count exceeds one, the "他 count-1 件" trailer. |
| Notification.BodyShown | yahoo_realtime_monitor.py:24-28 | A post text line is present exactly when there are posts, and it is the first post's text. |
| Notification.PosterShown | yahoo_realtime_monitor.py:30-31 | A poster line is present exactly when the first post's user is non-empty, and it carries that user. |
| Notification.TimeShown | yahoo_realtime_monitor.py:32-33 | A time line is present exactly when the first post's time is non-empty, and it carries that time. |
| Notification.LinkShown | yahoo_realtime_monitor.py:34-35 | A link line is present exactly when the first post's link is non-empty, and it carries that link. |
| Notification.OthersShown | yahoo_realtime_monitor.py:37-39 | The trailer is present exactly when there are posts and the count exceeds one, and it gives count - 1. |
| Notification.OnlyLatestShown | yahoo_realtime_monitor.py:24-28 | The message depends only on the first post: posts after it never reach the text. |
| Notification.SendLineNotification | yahoo_realtime_monitor.py:131-150 | With an empty token nothing is sent. Delivery succeeds exactly when a token is set and the transport succeeds. |
| Notification.NoTokenNoSuccess | yahoo_realtime_monitor.py:135-137 | With an empty token the call reports failure, whatever the transport would do. |
| Monitor.KeywordOutcome | yahoo_realtime_monitor.py:166-190 | One pass of the loop body, defined on the fetched posts and the loaded cache. Its properties are stated by Monitor.KeywordOutcomeCases. |
| Monitor.KeywordOutcomeCases | yahoo_realtime_monitor.py:166-190 | A keyword is skipped exactly when its fetch is empty. It is notified exactly when some fetched post is new. The notification then carries `len(new_posts)` (between 1 and the number fetched), the message for exactly the new posts, and the delivery result. |
| Monitor.Record | yahoo_realtime_monitor.py:168-170 | After a non-empty fetch, the keyword's entry is exactly the current id set, replacing the old one. An empty fetch leaves the mapping alone. Other keywords' entries are untouched. |
| Monitor.HandleKeyword | yahoo_realtime_monitor.py:163-193 | One pass of the loop body has the specified outcome, and it extends the saved mapping by that keyword's record. |
| Monitor.Run | yahoo_realtime_monitor.py:153-196 | Every configured keyword gets its own pass, in order, against the cache loaded once at the start, so an empty fetch does not stop later keywords. The mapping saved at the end stores the snapshot of all passes, and only configured keywords are its keys. |
| Monitor.Snapshot | yahoo_realtime_monitor.py:160-193 | `new_cache` after the loop, by folding Monitor.Record over the keywords in order. Its properties are stated by the Snapshot* lemmas. |
| Monitor.SnapshotKeys | yahoo_realtime_monitor.py:162-193 | Only configured keywords enter the snapshot. |
| Monitor.SnapshotLatest | yahoo_realtime_monitor.py:176-193 | A keyword's entry is the id set of its last non-empty fetch, replaced and not merged with earlier ids. |
| Monitor.SnapshotDrops | yahoo_realtime_monitor.py:168-170 | A keyword all of whose fetches were empty has no entry, even if the old cache had one. |
| Monitor.SnapshotEntry | yahoo_realtime_monitor.py:168-193 | With distinct keywords, a keyword with posts is stored with exactly its current ids, and a keyword without posts is absent. |
| Monitor.StoresRecord | yahoo_realtime_monitor.py:193 | Storing `list(current_ids)` under the keyword keeps the saved mapping a faithful listing of the snapshot. |
| Monitor.FirstRunReportsAll | yahoo_realtime_monitor.py:114-120 | With no usable cache file, a keyword with posts is notified with all its fetched posts, in order, with their number as the count. |
| Monitor.RerunIsQuiet | yahoo_realtime_monitor.py:173-193 | Running again on the saved mapping, for a keyword whose page is unchanged, notifies nothing, provided the new process hashes that page's cards to the same ids. |
| Monitor.NewIdsReportAll | yahoo_realtime_monitor.py:173-190 | When none of the fetched ids is among the stored ones, every fetched post is notified again, in fetch order, with their number as the count. |
| Monitor.SaltedRerunReportsAgain | yahoo_realtime_monitor.py:97 | An unchanged one-card page, saved under one hash and read under another, is reported again. |
| Monitor.EmptyFetchForgets | yahoo_realtime_monitor.py:168-170 | After an empty fetch the keyword is absent from the saved mapping, so on the next run all its posts count as new again. |

## Left out

- The HTTP requests, their headers and timeouts, and the LINE Notify POST are network I/O. A fetch result and the notifier's transport success are inputs.
- BeautifulSoup and the `.sw-Card` selectors are a foreign parser. A page is the sequence of cards the parser found. Each card holds the already-stripped text of its title, author and time and the `href` of its link, or it is a card whose reading raised.
- Reading and writing `last_posts.json` is file I/O. A `StoredFile` stands for what `json.load` produced. A parsed file whose contents are not a mapping of keyword to id list is not modelled.
- `save_cache` is not modelled beyond the mapping handed to it.
- Python's `hash` is an uninterpreted parameter. The model does not fix how it relates between two processes. Monitor.RerunIsQuiet assumes that the two processes' hashes agree on the page's cards. Monitor.NewIdsReportAll and Monitor.SaltedRerunReportsAgain cover the case where they do not.
- Distinct posts whose concatenations `text + user + time` coincide get the same id, as in the source; the model keeps that.
- `datetime.now()` and its `strftime` format are a clock. The time stamp is a string input taken per keyword.
- `print` logging has no behavioural effect.
- Monitor.Run: `list(current_ids)` has an unspecified order. Run picks one order and states only that the saved list holds exactly the id set, each once.
- Monitor.Run: the keyword list is a parameter, with one observation per keyword, rather than the constant `SEARCH_KEYWORDS`.
- Monitor.KeywordOutcomeCases: the return value of `send_line_notification` is ignored by `main`. The outcome records it but nothing depends on it.
- Monitor.RerunIsQuiet: stated for distinct keywords and for a keyword whose page is unchanged, under a hash that agrees between the two processes on that page's cards. With a repeated keyword, the last non-empty occurrence decides the stored ids, as Monitor.SnapshotLatest states.

## Findings

| source | as written | input that shows it | evidently intended | confidence | as-written member | corrected member |
|---|---|---|---|---|---|---|
| yahoo_realtime_monitor.py:97 | The post id is Python's built-in `hash` of a string, which is salted per process unless `PYTHONHASHSEED` is fixed, so the ids saved at line 193 need not match the ids of the next run | one unchanged card with text "a", saved by a process whose hash gives 0 and read by one whose hash gives 1 | an id that is stable across runs (a fixed digest of `text + user + time`), so that posts already reported are recognised | not executed | Monitor.SaltedRerunReportsAgain | Monitor.RerunIsQuiet |
