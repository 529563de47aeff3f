/** The per-keyword state kept between runs (`load_cache`, and the lists that
    `main` hands to `save_cache`). Reading and writing the JSON file is not
    modelled: the file is what a previous run saved, absent, or not valid. */
module Cache {
  import opened Common
  import opened Posts

  /** The cache file as `load_cache` finds it. */
  datatype StoredFile = Missing | Unparsable | Parsed(entries: map<string, seq<Ident>>)

  /** `load_cache`: the parsed mapping, or the empty mapping when the file
      is missing or cannot be parsed; it never fails. */
  function LoadCache(file: StoredFile): (cache: map<string, seq<Ident>>)
    ensures file.Parsed? ==> cache == file.entries
    ensures !file.Parsed? ==> cache == map[]
  {
    match file
    case Parsed(entries) => entries
    case _ => map[]
  }

  /** `set(cache.get(keyword, []))`: the ids stored for the keyword, none for
      a keyword the cache does not know. */
  function PreviousIds(cache: map<string, seq<Ident>>, keyword: string): (ids: set<Ident>)
    ensures forall id :: id in ids <==> keyword in cache && id in cache[keyword]
    ensures keyword !in cache ==> ids == {}
  {
    Elements(if keyword in cache then cache[keyword] else [])
  }

  /** `saved` is a serialisation of `snapshot`: the same keywords, and for
      each a duplicate-free list of exactly that keyword's ids. */
  ghost predicate Stores(saved: map<string, seq<Ident>>, snapshot: map<string, set<Ident>>)
  {
    && saved.Keys == snapshot.Keys
    && forall k :: k in saved ==> Elements(saved[k]) == snapshot[k] && Distinct(saved[k])
  }

  /** `list(ids)`: the ids in some order, each once. */
  method ListOf(ids: set<Ident>) returns (list: seq<Ident>)
    ensures Elements(list) == ids
    ensures Distinct(list)
    ensures |list| == |ids|
  {
    list := [];
    var rest := ids;
    while rest != {}
      invariant Elements(list) + rest == ids
      invariant Elements(list) !! rest
      invariant Distinct(list)
      invariant |list| + |rest| == |ids|
      decreases rest
    {
      if forall y :: y !in rest {
        assert false;
      }
      var x :| x in rest;
      assert Elements(list + [x]) == Elements(list) + {x};
      list := list + [x];
      rest := rest - {x};
    }
  }

  /** What the next run reads back from a saved snapshot: for each keyword,
      exactly the ids the snapshot holds, and none for a keyword it lacks. */
  lemma LoadSavedSnapshot(saved: map<string, seq<Ident>>, snapshot: map<string, set<Ident>>, keyword: string)
    requires Stores(saved, snapshot)
    ensures PreviousIds(LoadCache(Parsed(saved)), keyword) == if keyword in snapshot then snapshot[keyword] else {}
  {
  }
}
