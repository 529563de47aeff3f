/** Novelty detection in `main`: which of the posts fetched now were not
    seen in the previous run. */
module Novelty {
  import opened Common
  import opened Posts

  /** `{post['id'] for post in posts}`. */
  function CurrentIds(posts: seq<Post>): (ids: set<Ident>)
    ensures forall p :: p in posts ==> p.id in ids
    ensures forall id :: id in ids ==> exists p :: p in posts && p.id == id
  {
    set p | p in posts :: p.id
  }

  /** `[post for post in posts if post['id'] in ids]`. */
  function KeepIn(posts: seq<Post>, ids: set<Ident>): (r: seq<Post>)
    ensures |r| <= |posts|
    ensures forall p :: p in r <==> p in posts && p.id in ids
    decreases |posts|
  {
    if posts == [] then []
    else
      var last := posts[|posts| - 1];
      KeepIn(posts[..|posts| - 1], ids) + (if last.id in ids then [last] else [])
  }

  /** `new_ids = current_ids - previous_ids` and the posts carrying them. */
  function NewPosts(current: seq<Post>, previous: set<Ident>): (r: seq<Post>)
    ensures |r| <= |current|
    ensures forall p :: p in r <==> p in current && p.id !in previous
  {
    var newIds := CurrentIds(current) - previous;
    KeepIn(current, newIds)
  }

  /** The filter keeps exactly the posts whose id is in `ids`, in order:
      `idx` lists their positions in `posts`, increasing. */
  lemma {:induction false} KeepInOrder(posts: seq<Post>, ids: set<Ident>) returns (idx: seq<nat>)
    ensures |idx| == |KeepIn(posts, ids)|
    ensures IncreasingIndices(idx, |posts|)
    ensures forall k :: 0 <= k < |idx| ==> KeepIn(posts, ids)[k] == posts[idx[k]]
    ensures forall i :: 0 <= i < |posts| ==> (posts[i].id in ids <==> i in idx)
    decreases |posts|
  {
    if posts == [] {
      return [];
    }
    var n := |posts| - 1;
    var prior := KeepInOrder(posts[..n], ids);
    idx := if posts[n].id in ids then prior + [n] else prior;
    ExtendKeepOrder(posts, ids, prior, idx);
  }

  /** The inductive step of `KeepInOrder`. */
  lemma ExtendKeepOrder(posts: seq<Post>, ids: set<Ident>, prior: seq<nat>, idx: seq<nat>)
    requires |posts| > 0
    requires var n := |posts| - 1;
      && |prior| == |KeepIn(posts[..n], ids)|
      && IncreasingIndices(prior, n)
      && (forall k :: 0 <= k < |prior| ==> KeepIn(posts[..n], ids)[k] == posts[..n][prior[k]])
      && (forall i :: 0 <= i < n ==> (posts[..n][i].id in ids <==> i in prior))
      && idx == if posts[n].id in ids then prior + [n] else prior
    ensures |idx| == |KeepIn(posts, ids)|
    ensures IncreasingIndices(idx, |posts|)
    ensures forall k :: 0 <= k < |idx| ==> KeepIn(posts, ids)[k] == posts[idx[k]]
    ensures forall i :: 0 <= i < |posts| ==> (posts[i].id in ids <==> i in idx)
  {
    var n := |posts| - 1;
    var front := posts[..n];
    var kept, before := KeepIn(posts, ids), KeepIn(front, ids);
    assert kept == before + (if posts[n].id in ids then [posts[n]] else []);
    KeptAt(posts, ids, prior, idx, kept, before);
    Covered(posts, ids, prior, idx);
  }

  lemma KeptAt(posts: seq<Post>, ids: set<Ident>, prior: seq<nat>, idx: seq<nat>, kept: seq<Post>, before: seq<Post>)
    requires |posts| > 0
    requires var n := |posts| - 1;
      && |prior| == |before|
      && (forall k :: 0 <= k < |prior| ==> prior[k] < n && before[k] == posts[..n][prior[k]])
      && idx == (if posts[n].id in ids then prior + [n] else prior)
      && kept == before + (if posts[n].id in ids then [posts[n]] else [])
    ensures |idx| == |kept|
    ensures forall k :: 0 <= k < |idx| ==> kept[k] == posts[idx[k]]
  {
    var n := |posts| - 1;
    forall k | 0 <= k < |idx|
      ensures kept[k] == posts[idx[k]]
    {
      if k < |prior| {
        assert idx[k] == prior[k] && kept[k] == before[k];
        assert posts[..n][prior[k]] == posts[prior[k]];
      }
    }
  }

  lemma Covered(posts: seq<Post>, ids: set<Ident>, prior: seq<nat>, idx: seq<nat>)
    requires |posts| > 0
    requires var n := |posts| - 1;
      && (forall k :: 0 <= k < |prior| ==> prior[k] < n)
      && (forall i :: 0 <= i < n ==> (posts[..n][i].id in ids <==> i in prior))
      && idx == if posts[n].id in ids then prior + [n] else prior
    ensures forall i :: 0 <= i < |posts| ==> (posts[i].id in ids <==> i in idx)
  {
    var n := |posts| - 1;
    assert n !in prior;
    forall i | 0 <= i < |posts|
      ensures posts[i].id in ids <==> i in idx
    {
      if i < n {
        assert posts[..n][i] == posts[i];
        assert i in idx <==> i in prior;
      }
    }
  }

  /** `new_posts` is the ordered sub-sequence of `current` made of exactly
      the posts whose id was not seen before. */
  lemma NewPostsOrder(current: seq<Post>, previous: set<Ident>) returns (idx: seq<nat>)
    ensures |idx| == |NewPosts(current, previous)|
    ensures IncreasingIndices(idx, |current|)
    ensures forall k :: 0 <= k < |idx| ==> NewPosts(current, previous)[k] == current[idx[k]]
    ensures forall i :: 0 <= i < |current| ==> (current[i].id !in previous <==> i in idx)
  {
    var newIds := CurrentIds(current) - previous;
    idx := KeepInOrder(current, newIds);
    forall i | 0 <= i < |current|
      ensures current[i].id !in previous <==> i in idx
    {
      assert current[i] in current;
    }
  }

  /** A filter that every post passes changes nothing. */
  lemma {:induction false} KeepAll(posts: seq<Post>, ids: set<Ident>)
    requires forall i :: 0 <= i < |posts| ==> posts[i].id in ids
    ensures KeepIn(posts, ids) == posts
    decreases |posts|
  {
    if posts != [] {
      var n := |posts| - 1;
      KeepAll(posts[..n], ids);
      assert posts == posts[..n] + [posts[n]];
    }
  }

  /** A filter that no post passes keeps nothing. */
  lemma {:induction false} KeepNone(posts: seq<Post>, ids: set<Ident>)
    requires forall i :: 0 <= i < |posts| ==> posts[i].id !in ids
    ensures KeepIn(posts, ids) == []
    decreases |posts|
  {
    if posts != [] {
      var n := |posts| - 1;
      KeepNone(posts[..n], ids);
    }
  }

  /** With nothing seen before, every fetched post is new, in fetch order. */
  lemma NewPostsFromNothing(current: seq<Post>)
    ensures NewPosts(current, {}) == current
  {
    assert CurrentIds(current) - {} == CurrentIds(current);
    assert forall i :: 0 <= i < |current| ==> current[i] in current;
    KeepAll(current, CurrentIds(current));
  }

  /** When every fetched id was seen before, nothing is new. */
  lemma NewPostsAllSeen(current: seq<Post>, previous: set<Ident>)
    requires CurrentIds(current) <= previous
    ensures NewPosts(current, previous) == []
  {
    assert forall i :: 0 <= i < |current| ==> current[i] in current;
    KeepNone(current, CurrentIds(current) - previous);
  }
}
