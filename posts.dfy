/** Items and their extraction from a search results page
    (`get_yahoo_realtime_posts`). The HTTP request and the HTML parser are
    not modelled: a page is the sequence of cards the parser found, each
    card holding the stripped text of the sub-elements it has. */
module Posts {
  import opened Common

  /** What Python's `hash` returns. */
  type Ident = int

  /** At most this many cards of a page are read. */
  const MaxCards: nat := 10

  /** One result card: the stripped text of its title, author and time
      elements and the `href` of its first link, each absent when the card
      has no such element; or a card whose reading raised an exception. */
  datatype Card =
    | Card(title: Option<string>, author: Option<string>, time: Option<string>, href: Option<string>)
    | Unreadable

  /** A detected post. `id` is the hash of `text + user + time`. */
  datatype Post = Post(text: string, user: string, time: string, link: string, id: Ident)

  /** What the fetch of one keyword's page produced: the cards of a page that
      was retrieved, or a transport failure (timeout, error status, ...). */
  datatype Response = Page(cards: seq<Card>) | TransportFailure

  /** A missing element reads as the empty string. */
  function OrEmpty(o: Option<string>): string
  {
    match o
    case Some(s) => s
    case None => ""
  }

  /** The string a card's id is hashed from: `text + user + time`. */
  function CardKey(card: Card): string
  {
    match card
    case Unreadable => ""
    case Card(title, author, time, _) => OrEmpty(title) + OrEmpty(author) + OrEmpty(time)
  }

  /** The post a card yields, if any: only a readable card with non-empty
      text does, carrying its fields (a missing one as "") and the hash of
      its key as id. */
  function CardPost(card: Card, hash: string -> Ident): (r: Option<Post>)
    ensures r.Some? <==> card.Card? && OrEmpty(card.title) != ""
    ensures r.Some? ==>
              r.value == Post(OrEmpty(card.title), OrEmpty(card.author), OrEmpty(card.time), OrEmpty(card.href),
                              hash(CardKey(card)))
  {
    match card
    case Unreadable => None
    case Card(title, author, time, href) =>
      var text, user, stamp := OrEmpty(title), OrEmpty(author), OrEmpty(time);
      if text != "" then Some(Post(text, user, stamp, OrEmpty(href), hash(text + user + stamp)))
      else None
  }

  /** The posts the cards yield, in card order: at most one per card, each
      with text and with the id hashed from its own text, user and time. */
  function Extracted(cards: seq<Card>, hash: string -> Ident): (r: seq<Post>)
    ensures |r| <= |cards|
    ensures forall p :: p in r ==> p.text != "" && p.id == hash(p.text + p.user + p.time)
    decreases |cards|
  {
    if cards == [] then []
    else
      var last := cards[|cards| - 1];
      Extracted(cards[..|cards| - 1], hash) + Yield(CardPost(last, hash))
  }

  /** The posts one card contributes: none or one. */
  function Yield(o: Option<Post>): (r: seq<Post>)
  {
    match o
    case Some(p) => [p]
    case None => []
  }

  /** `post_items[:10]`. */
  function FirstCards(cards: seq<Card>): (r: seq<Card>)
    ensures |r| <= MaxCards
    ensures |r| <= |cards| && r == cards[..|r|]
    ensures |r| == |cards| || |r| == MaxCards
  {
    if |cards| <= MaxCards then cards else cards[..MaxCards]
  }

  /** The posts a fetch returns: none after a transport failure, otherwise
      those yielded by the first `MaxCards` cards. */
  function RealtimePosts(response: Response, hash: string -> Ident): (r: seq<Post>)
    ensures response.TransportFailure? ==> r == []
    ensures |r| <= MaxCards
    ensures forall p :: p in r ==> p.text != "" && p.id == hash(p.text + p.user + p.time)
  {
    match response
    case TransportFailure => []
    case Page(cards) => Extracted(FirstCards(cards), hash)
  }

  /** The fetch-and-extract loop of `get_yahoo_realtime_posts`. */
  method GetRealtimePosts(response: Response, hash: string -> Ident) returns (posts: seq<Post>)
    ensures posts == RealtimePosts(response, hash)
    ensures |posts| <= MaxCards
    ensures forall p :: p in posts ==> p.text != "" && p.id == hash(p.text + p.user + p.time)
  {
    match response {
      case TransportFailure =>
        return [];
      case Page(cards) =>
        var items := FirstCards(cards);
        posts := [];
        for i := 0 to |items|
          invariant posts == Extracted(items[..i], hash)
          invariant |posts| <= i
          invariant forall p :: p in posts ==> p.text != "" && p.id == hash(p.text + p.user + p.time)
        {
          assert items[..i + 1][..i] == items[..i];
          match items[i] {
            case Unreadable =>
            case Card(title, author, time, href) =>
              var text := OrEmpty(title);
              var user := OrEmpty(author);
              var stamp := OrEmpty(time);
              var link := OrEmpty(href);
              if text != "" {
                posts := posts + [Post(text, user, stamp, link, hash(text + user + stamp))];
              }
          }
        }
        assert items[..|items|] == items;
    }
  }

  /** Extraction keeps exactly the cards that yield a post, in their order:
      `idx` lists those cards' positions, increasing, and the k-th post is
      the one the `idx[k]`-th card yields. */
  lemma {:induction false} ExtractedOrder(cards: seq<Card>, hash: string -> Ident) returns (idx: seq<nat>)
    ensures |idx| == |Extracted(cards, hash)|
    ensures IncreasingIndices(idx, |cards|)
    ensures forall k :: 0 <= k < |idx| ==> CardPost(cards[idx[k]], hash) == Some(Extracted(cards, hash)[k])
    ensures forall i :: 0 <= i < |cards| ==> (CardPost(cards[i], hash).Some? <==> i in idx)
    decreases |cards|
  {
    if cards == [] {
      return [];
    }
    var n := |cards| - 1;
    var front := cards[..n];
    var prior := ExtractedOrder(front, hash);
    var last := CardPost(cards[n], hash);
    idx := if last.Some? then prior + [n] else prior;
    assert forall i :: 0 <= i < n ==> cards[i] == front[i];
    ExtendOrder(cards, hash, prior, idx);
  }

  /** The state `ExtendOrder` starts from: `prior` lists the positions
      of the cards among all but the last that yield a post. */
  ghost predicate OrderedUpTo(cards: seq<Card>, hash: string -> Ident, prior: seq<nat>)
    requires |cards| > 0
  {
    var n := |cards| - 1;
    && |prior| == |Extracted(cards[..n], hash)|
    && IncreasingIndices(prior, n)
    && (forall k :: 0 <= k < |prior| ==> CardPost(cards[prior[k]], hash) == Some(Extracted(cards[..n], hash)[k]))
    && (forall i :: 0 <= i < n ==> (CardPost(cards[i], hash).Some? <==> i in prior))
  }

  /** The inductive step of `ExtractedOrder`: from the positions for all
      cards but the last, to the positions for all of them. */
  lemma ExtendOrder(cards: seq<Card>, hash: string -> Ident, prior: seq<nat>, idx: seq<nat>)
    requires |cards| > 0 && OrderedUpTo(cards, hash, prior)
    requires idx == if CardPost(cards[|cards| - 1], hash).Some? then prior + [|cards| - 1] else prior
    ensures |idx| == |Extracted(cards, hash)|
    ensures IncreasingIndices(idx, |cards|)
    ensures forall k :: 0 <= k < |idx| ==> CardPost(cards[idx[k]], hash) == Some(Extracted(cards, hash)[k])
    ensures forall i :: 0 <= i < |cards| ==> (CardPost(cards[i], hash).Some? <==> i in idx)
  {
    ExtendLength(cards, hash, prior, idx);
    ExtendYields(cards, hash, prior, idx);
    ExtendCovers(cards, hash, prior, idx);
  }

  /** In the step, the positions stay increasing and as many as the posts. */
  lemma ExtendLength(cards: seq<Card>, hash: string -> Ident, prior: seq<nat>, idx: seq<nat>)
    requires |cards| > 0 && OrderedUpTo(cards, hash, prior)
    requires idx == if CardPost(cards[|cards| - 1], hash).Some? then prior + [|cards| - 1] else prior
    ensures |idx| == |Extracted(cards, hash)|
    ensures IncreasingIndices(idx, |cards|)
  {
    var n := |cards| - 1;
    assert Extracted(cards, hash) == Extracted(cards[..n], hash) + Yield(CardPost(cards[n], hash));
  }

  /** In the step, the k-th position still names the card of the k-th post. */
  lemma ExtendYields(cards: seq<Card>, hash: string -> Ident, prior: seq<nat>, idx: seq<nat>)
    requires |cards| > 0 && OrderedUpTo(cards, hash, prior)
    requires idx == if CardPost(cards[|cards| - 1], hash).Some? then prior + [|cards| - 1] else prior
    ensures forall k :: 0 <= k < |idx| ==> CardPost(cards[idx[k]], hash) == Some(Extracted(cards, hash)[k])
  {
    var n := |cards| - 1;
    var posts, before := Extracted(cards, hash), Extracted(cards[..n], hash);
    var last := CardPost(cards[n], hash);
    assert posts == before + Yield(last);
    forall k | 0 <= k < |idx|
      ensures CardPost(cards[idx[k]], hash) == Some(posts[k])
    {
      if k < |prior| {
        assert idx[k] == prior[k] && posts[k] == before[k];
      } else {
        assert idx[k] == n && posts[k] == last.value;
      }
    }
  }

  /** In the step, a position is listed exactly when its card yields. */
  lemma ExtendCovers(cards: seq<Card>, hash: string -> Ident, prior: seq<nat>, idx: seq<nat>)
    requires |cards| > 0
    requires forall k :: 0 <= k < |prior| ==> prior[k] < |cards| - 1
    requires forall i :: 0 <= i < |cards| - 1 ==> (CardPost(cards[i], hash).Some? <==> i in prior)
    requires idx == if CardPost(cards[|cards| - 1], hash).Some? then prior + [|cards| - 1] else prior
    ensures forall i :: 0 <= i < |cards| ==> (CardPost(cards[i], hash).Some? <==> i in idx)
  {
    var n := |cards| - 1;
    assert n !in prior;
    forall i | 0 <= i < |cards|
      ensures CardPost(cards[i], hash).Some? <==> i in idx
    {
      if i < n {
        assert i in idx <==> i in prior;
      }
    }
  }

  /** A card with text, among the first `MaxCards`, is reported; every
      reported post comes from such a card and has non-empty text. */
  lemma FetchedPostsComeFromCards(cards: seq<Card>, hash: string -> Ident, p: Post)
    ensures p in RealtimePosts(Page(cards), hash) <==>
              exists i :: 0 <= i < |cards| && i < MaxCards && CardPost(cards[i], hash) == Some(p)
  {
    var window := FirstCards(cards);
    var idx := ExtractedOrder(window, hash);
    var posts := Extracted(window, hash);
    if p in posts {
      var k :| 0 <= k < |posts| && posts[k] == p;
      assert CardPost(cards[idx[k]], hash) == Some(p);
    }
    if i :| 0 <= i < |cards| && i < MaxCards && CardPost(cards[i], hash) == Some(p) {
      assert window[i] == cards[i];
      var k :| 0 <= k < |idx| && idx[k] == i;
      assert posts[k] == p;
    }
  }

  /** Two hash functions give the same ids on a page's cards. */
  predicate SameIds(cards: seq<Card>, first: string -> Ident, second: string -> Ident)
  {
    forall i :: 0 <= i < |cards| ==> first(CardKey(cards[i])) == second(CardKey(cards[i]))
  }

  /** Extraction depends on the hash only through the ids of the cards. */
  lemma {:induction false} ExtractedAgrees(cards: seq<Card>, first: string -> Ident, second: string -> Ident)
    requires SameIds(cards, first, second)
    ensures Extracted(cards, first) == Extracted(cards, second)
    decreases |cards|
  {
    if cards != [] {
      var n := |cards| - 1;
      assert SameIds(cards[..n], first, second) by {
        forall i | 0 <= i < n
          ensures first(CardKey(cards[..n][i])) == second(CardKey(cards[..n][i]))
        {
          assert cards[..n][i] == cards[i];
        }
      }
      ExtractedAgrees(cards[..n], first, second);
      assert CardPost(cards[n], first) == CardPost(cards[n], second);
    }
  }

  /** A fetch reports the same posts under two hash functions that agree
      on the page's cards. */
  lemma RealtimePostsAgree(response: Response, first: string -> Ident, second: string -> Ident)
    requires response.Page? ==> SameIds(response.cards, first, second)
    ensures RealtimePosts(response, first) == RealtimePosts(response, second)
  {
    if response.Page? {
      var window := FirstCards(response.cards);
      assert forall i :: 0 <= i < |window| ==> window[i] == response.cards[i];
      ExtractedAgrees(window, first, second);
    }
  }
}
