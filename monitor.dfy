/** The per-keyword loop of `main`: fetch, detect what is new, notify,
    and accumulate the snapshot that is saved once at the end. */
module Monitor {
  import opened Common
  import opened Posts
  import opened Cache
  import opened Novelty
  import opened Notification

  /** What the outside world does while one keyword is handled: the page
      the fetch gets, the clock reading taken when a message is built, and
      whether the notification service would accept a request. */
  datatype Observation = Observation(response: Response, stamp: string, transportOk: bool)

  /** How one pass of the loop body ends. */
  datatype Outcome =
    | NoPosts                        // nothing fetched: the keyword is skipped
    | NothingNew                     // posts fetched, all of them seen before
    | Notified(count: nat, message: string, delivery: Delivery)

  /** One pass of the loop body for `keyword`, whose fetch returned
      `current`, against the cache loaded at the start of the run. */
  function KeywordOutcome(cache: map<string, seq<Ident>>, keyword: string, current: seq<Post>,
                          obs: Observation, token: string): Outcome
  {
    if current == [] then NoPosts
    else
      var novel := NewPosts(current, PreviousIds(cache, keyword));
      if novel == [] then NothingNew
      else Notified(|novel|, NotificationText(keyword, |novel|, novel, obs.stamp), SendLineNotification(token, obs.transportOk))
  }

  /** A keyword is skipped exactly when its fetch is empty, and notified
      exactly when some fetched post was not seen before; the message then
      counts and shows the new posts, and is sent with the configured token. */
  lemma KeywordOutcomeCases(cache: map<string, seq<Ident>>, keyword: string, current: seq<Post>,
                            obs: Observation, token: string)
    ensures var r := KeywordOutcome(cache, keyword, current, obs, token);
      && (r.NoPosts? <==> current == [])
      && (r.Notified? <==> NewPosts(current, PreviousIds(cache, keyword)) != [])
      && (r.Notified? ==>
            var novel := NewPosts(current, PreviousIds(cache, keyword));
            && r.count == |novel|
            && 1 <= r.count <= |current|
            && r.message == NotificationText(keyword, r.count, novel, obs.stamp)
            && r.delivery == SendLineNotification(token, obs.transportOk))
  {
    if current == [] {
      assert NewPosts(current, PreviousIds(cache, keyword)) == [];
    }
  }

  /** The posts each keyword's fetch returns. */
  function Fetches(obs: seq<Observation>, hash: string -> Ident): (fetched: seq<seq<Post>>)
    ensures |fetched| == |obs|
    ensures forall j :: 0 <= j < |obs| ==> fetched[j] == RealtimePosts(obs[j].response, hash)
  {
    seq(|obs|, j requires 0 <= j < |obs| => RealtimePosts(obs[j].response, hash))
  }

  /** `new_cache` after the loop has handled `keywords` in order, the j-th
      fetch having returned `fetched[j]`: a keyword with posts gets exactly
      the ids fetched now; one without is passed over. */
  function Snapshot(keywords: seq<string>, fetched: seq<seq<Post>>): map<string, set<Ident>>
    requires |fetched| == |keywords|
    decreases |keywords|
  {
    if keywords == [] then map[]
    else
      var n := |keywords| - 1;
      Record(Snapshot(keywords[..n], fetched[..n]), keywords[n], fetched[n])
  }

  /** `new_cache[keyword] = list(current_ids)`, skipped when nothing was
      fetched. */
  function Record(snapshot: map<string, set<Ident>>, keyword: string, current: seq<Post>): (r: map<string, set<Ident>>)
    ensures current != [] ==> keyword in r && r[keyword] == CurrentIds(current)
    ensures current == [] ==> (keyword in r <==> keyword in snapshot)
    ensures forall k :: k != keyword ==> (k in r <==> k in snapshot)
    ensures forall k :: k != keyword && k in r ==> r[k] == snapshot[k]
  {
    if current == [] then snapshot else snapshot[keyword := CurrentIds(current)]
  }

  /** `main`: load the cache once, handle every keyword in order, and give
      back what each pass did and the mapping handed to `save_cache`. */
  method Run(keywords: seq<string>, file: StoredFile, obs: seq<Observation>, hash: string -> Ident, token: string)
    returns (outcomes: seq<Outcome>, saved: map<string, seq<Ident>>)
    requires |obs| == |keywords|
    ensures |outcomes| == |keywords|
    ensures forall j :: 0 <= j < |keywords| ==>
              outcomes[j] == KeywordOutcome(LoadCache(file), keywords[j], Fetches(obs, hash)[j], obs[j], token)
    ensures Stores(saved, Snapshot(keywords, Fetches(obs, hash)))
    ensures forall k :: k in saved ==> k in keywords
  {
    ghost var fetched := Fetches(obs, hash);
    var cache := LoadCache(file);
    var newCache: map<string, seq<Ident>> := map[];
    ghost var all := Outcomes(cache, keywords, fetched, obs, token);
    outcomes := [];
    for i := 0 to |keywords|
      invariant outcomes == all[..i]
      invariant Stores(newCache, Snapshot(keywords[..i], fetched[..i]))
    {
      assert fetched[i] == RealtimePosts(obs[i].response, hash);
      var outcome;
      outcome, newCache := HandleKeyword(cache, keywords[i], obs[i], hash, token, newCache,
                                         Snapshot(keywords[..i], fetched[..i]));
      SnapshotSnoc(keywords, fetched, i);
      assert outcome == all[i];
      TakeSnoc(all, i);
      outcomes := outcomes + [outcome];
    }
    assert keywords[..|keywords|] == keywords && fetched[..|fetched|] == fetched && all[..|all|] == all;
    saved := newCache;
    SnapshotKeys(keywords, fetched);
  }

  /** The outcome of each keyword's pass, the j-th fetch having returned
      `fetched[j]`; every pass works against the same loaded cache, so no
      pass sees what an earlier one recorded. */
  function Outcomes(cache: map<string, seq<Ident>>, keywords: seq<string>, fetched: seq<seq<Post>>,
                    obs: seq<Observation>, token: string): (r: seq<Outcome>)
    requires |fetched| == |keywords| && |obs| == |keywords|
    ensures |r| == |keywords|
  {
    seq(|keywords|, j requires 0 <= j < |keywords| => KeywordOutcome(cache, keywords[j], fetched[j], obs[j], token))
  }

  /** Handling one more keyword extends the snapshot by that keyword's
      record. */
  lemma SnapshotSnoc(keywords: seq<string>, fetched: seq<seq<Post>>, i: nat)
    requires |fetched| == |keywords| && i < |keywords|
    ensures Snapshot(keywords[..i + 1], fetched[..i + 1]) == Record(Snapshot(keywords[..i], fetched[..i]), keywords[i], fetched[i])
  {
    assert keywords[..i + 1][..i] == keywords[..i] && fetched[..i + 1][..i] == fetched[..i];
  }

  /** The body of `main`'s loop for one keyword: fetch; on no posts, skip;
      otherwise notify if anything is new and record the current ids. */
  method HandleKeyword(cache: map<string, seq<Ident>>, keyword: string, obs: Observation, hash: string -> Ident,
                       token: string, newCache: map<string, seq<Ident>>, ghost snapshot: map<string, set<Ident>>)
    returns (outcome: Outcome, newCache': map<string, seq<Ident>>)
    requires Stores(newCache, snapshot)
    ensures outcome == KeywordOutcome(cache, keyword, RealtimePosts(obs.response, hash), obs, token)
    ensures Stores(newCache', Record(snapshot, keyword, RealtimePosts(obs.response, hash)))
  {
    var current := GetRealtimePosts(obs.response, hash);
    if current == [] {
      return NoPosts, newCache;
    }
    var previous := PreviousIds(cache, keyword);
    var currentIds := CurrentIds(current);
    var newIds := currentIds - previous;
    var novel := KeepIn(current, newIds);
    if novel != [] {
      var message := FormatNotification(keyword, |novel|, novel, obs.stamp);
      var delivery := SendLineNotification(token, obs.transportOk);
      outcome := Notified(|novel|, message, delivery);
    } else {
      outcome := NothingNew;
    }
    var ids := ListOf(currentIds);
    newCache' := newCache[keyword := ids];
    StoresRecord(newCache, snapshot, keyword, current, ids);
  }

  /** Storing the listed current ids keeps the saved mapping in step with
      the snapshot. */
  lemma StoresRecord(newCache: map<string, seq<Ident>>, snapshot: map<string, set<Ident>>, keyword: string,
                     current: seq<Post>, ids: seq<Ident>)
    requires Stores(newCache, snapshot)
    requires current != [] && Elements(ids) == CurrentIds(current) && Distinct(ids)
    ensures Stores(newCache[keyword := ids], Record(snapshot, keyword, current))
  {
  }

  /** Only configured keywords enter the snapshot. */
  lemma {:induction false} SnapshotKeys(keywords: seq<string>, fetched: seq<seq<Post>>)
    requires |fetched| == |keywords|
    ensures forall k :: k in Snapshot(keywords, fetched) ==> k in keywords
    decreases |keywords|
  {
    if keywords != [] {
      var n := |keywords| - 1;
      SnapshotKeys(keywords[..n], fetched[..n]);
      assert forall k :: k in keywords[..n] ==> k in keywords;
    }
  }

  /** The entry of a keyword is the id set of its last non-empty fetch:
      replaced, never merged with what came before. */
  lemma {:induction false} SnapshotLatest(keywords: seq<string>, fetched: seq<seq<Post>>, j: nat)
    requires |fetched| == |keywords| && j < |keywords|
    requires fetched[j] != []
    requires forall l :: j < l < |keywords| && keywords[l] == keywords[j] ==> fetched[l] == []
    ensures keywords[j] in Snapshot(keywords, fetched)
    ensures Snapshot(keywords, fetched)[keywords[j]] == CurrentIds(fetched[j])
    decreases |keywords|
  {
    var n := |keywords| - 1;
    if j < n {
      SnapshotLatest(keywords[..n], fetched[..n], j);
    }
  }

  /** A keyword none of whose fetches returned posts has no entry, whatever
      the loaded cache held for it. */
  lemma {:induction false} SnapshotDrops(keywords: seq<string>, fetched: seq<seq<Post>>, k: string)
    requires |fetched| == |keywords|
    requires forall l :: 0 <= l < |keywords| && keywords[l] == k ==> fetched[l] == []
    ensures k !in Snapshot(keywords, fetched)
    decreases |keywords|
  {
    if keywords != [] {
      var n := |keywords| - 1;
      SnapshotDrops(keywords[..n], fetched[..n], k);
    }
  }

  /** With each keyword configured once: a keyword with posts is stored
      with exactly the ids fetched now (ids seen before but not now are
      gone); a keyword without posts is left out. */
  lemma SnapshotEntry(keywords: seq<string>, fetched: seq<seq<Post>>, j: nat)
    requires |fetched| == |keywords| && j < |keywords| && Distinct(keywords)
    ensures fetched[j] != [] ==>
              keywords[j] in Snapshot(keywords, fetched) && Snapshot(keywords, fetched)[keywords[j]] == CurrentIds(fetched[j])
    ensures fetched[j] == [] ==> keywords[j] !in Snapshot(keywords, fetched)
  {
    if fetched[j] != [] {
      SnapshotLatest(keywords, fetched, j);
    } else {
      SnapshotDrops(keywords, fetched, keywords[j]);
    }
  }

  /** A run that finds no usable cache file reports every fetched post of a
      keyword as new, in fetch order. */
  lemma FirstRunReportsAll(file: StoredFile, keyword: string, current: seq<Post>, obs: Observation, token: string)
    requires !file.Parsed?
    requires current != []
    ensures KeywordOutcome(LoadCache(file), keyword, current, obs, token)
              == Notified(|current|, NotificationText(keyword, |current|, current, obs.stamp),
                          SendLineNotification(token, obs.transportOk))
  {
    NewPostsFromNothing(current);
  }

  /** Running again on the saved snapshot notifies nothing for a keyword
      whose page is unchanged, provided the new process hashes that page's
      cards to the same ids as the one that saved it. */
  lemma RerunIsQuiet(keywords: seq<string>, obs: seq<Observation>, first: string -> Ident,
                     second: string -> Ident, saved: map<string, seq<Ident>>, later: Observation,
                     token: string, j: nat)
    requires |obs| == |keywords| && j < |keywords| && Distinct(keywords)
    requires Stores(saved, Snapshot(keywords, Fetches(obs, first)))
    requires later.response == obs[j].response
    requires later.response.Page? ==> SameIds(later.response.cards, first, second)
    ensures !KeywordOutcome(LoadCache(Parsed(saved)), keywords[j], RealtimePosts(later.response, second), later, token).Notified?
  {
    var fetched := Fetches(obs, first);
    var current := fetched[j];
    RealtimePostsAgree(later.response, first, second);
    assert RealtimePosts(later.response, second) == current;
    if current != [] {
      SnapshotEntry(keywords, fetched, j);
      LoadSavedSnapshot(saved, Snapshot(keywords, fetched), keywords[j]);
      NewPostsAllSeen(current, PreviousIds(LoadCache(Parsed(saved)), keywords[j]));
      KeywordOutcomeCases(LoadCache(Parsed(saved)), keywords[j], current, later, token);
    }
  }

  /** A run whose fetched ids all differ from the stored ones (a new
      process whose salted hash maps the same page elsewhere, say) reports
      every fetched post again, in fetch order. */
  lemma NewIdsReportAll(cache: map<string, seq<Ident>>, keyword: string, current: seq<Post>,
                        obs: Observation, token: string)
    requires current != []
    requires forall i :: 0 <= i < |current| ==> current[i].id !in PreviousIds(cache, keyword)
    ensures KeywordOutcome(cache, keyword, current, obs, token)
              == Notified(|current|, NotificationText(keyword, |current|, current, obs.stamp),
                          SendLineNotification(token, obs.transportOk))
  {
    var previous := PreviousIds(cache, keyword);
    assert forall i :: 0 <= i < |current| ==> current[i] in current;
    KeepAll(current, CurrentIds(current) - previous);
  }

  /** The same one-card page, saved by a process whose hash gives 0 and
      read by one whose hash gives 1, is reported again. */
  lemma SaltedRerunReportsAgain(obs: Observation, token: string)
    requires obs.response == Page([Card(Some("a"), None, None, None)])
    ensures KeywordOutcome(LoadCache(Parsed(map["k" := [0]])), "k", RealtimePosts(obs.response, s => 1), obs, token).Notified?
  {
    var current := RealtimePosts(obs.response, s => 1);
    var cards := [Card(Some("a"), None, None, None)];
    assert FirstCards(cards) == cards;
    assert cards[..0] == [];
    assert current == [Post("a", "", "", "", 1)];
    assert PreviousIds(LoadCache(Parsed(map["k" := [0]])), "k") == {0};
    NewIdsReportAll(LoadCache(Parsed(map["k" := [0]])), "k", current, obs, token);
  }

  /** An empty fetch drops the keyword's history: on the next run all of
      that keyword's posts count as new again, even those seen before. */
  lemma EmptyFetchForgets(keywords: seq<string>, fetched: seq<seq<Post>>, saved: map<string, seq<Ident>>,
                          j: nat, later: seq<Post>)
    requires |fetched| == |keywords| && j < |keywords| && Distinct(keywords)
    requires fetched[j] == []
    requires Stores(saved, Snapshot(keywords, fetched))
    ensures keywords[j] !in saved
    ensures NewPosts(later, PreviousIds(LoadCache(Parsed(saved)), keywords[j])) == later
  {
    SnapshotEntry(keywords, fetched, j);
    NewPostsFromNothing(later);
  }
}
