/** `JWKSCache` when its calls do not overlap: the object and its in-place bookkeeping. */
module JwksCache {
  import opened Wrappers
  import opened JwksStore
  import Lru

  /** A `get_key` call: when it starts, and how the fetch ends if it makes one. */
  datatype Request = Request(url: Url, kid: Kid, now: real, outcome: Outcome)

  datatype Effect = Effect(store: Store, answer: Answer, fetched: bool)

  /** A whole `get_key` call with nothing running beside it. */
  function GetKeyEffect(cfg: Config, s: Store, q: Request): (r: Effect) {
    if Rejects(cfg, s, q.url, q.kid, q.now) then Effect(s, NegativeCached, false)
    else
      match Open(cfg, Lookup(s, q.url), q.kid, q.now)
      case Serve(key) => Effect(Touch(s, q.url), Found(key), false)
      case Fetch(need) =>
        var end := Settle(cfg, Touch(s, q.url), q.url, q.kid, q.now, need, q.outcome);
        Effect(end.store, end.answer, true)
  }

  class JWKSCache {
    const cfg: Config
    var order: seq<Url>
    var entries: map<Url, Entry>
    var unknownKids: map<Url, map<Kid, real>>

    ghost function Contents(): Store
      reads this
    {
      Store(order, entries, unknownKids)
    }

    ghost predicate Valid()
      reads this
    {
      cfg.Valid() && Contents().Valid(cfg.maxUrls)
    }

    constructor (cfg: Config)
      requires cfg.Valid()
      ensures this.cfg == cfg && Valid() && Contents() == Empty
    {
      this.cfg := cfg;
      order, entries, unknownKids := [], map[], map[];
    }

    /** The constructor with its argument checks: `None` stands for the ValueError. */
    static method Create(cfg: Config) returns (cache: Option<JWKSCache>)
      ensures cache.None? <==> cfg.maxUrls < 1 || cfg.unknownKidTtl < 0.0
      ensures cache.Some? ==>
        fresh(cache.value) && cache.value.cfg == cfg && cache.value.Valid() && cache.value.Contents() == Empty
    {
      if cfg.maxUrls < 1 || cfg.unknownKidTtl < 0.0 {
        return None;
      }
      var c := new JWKSCache(cfg);
      cache := Some(c);
    }

    /** `_entries.move_to_end(url)` for a key that is present. */
    method MoveToEnd(url: Url)
      requires url in order
      modifies this`order
      ensures order == Lru.MoveToEnd(old(order), url)
    {
      order := Lru.Without(order, url) + [url];
    }

    /** `_entries[url] = entry` followed by `move_to_end(url)`. */
    method Insert(url: Url, entry: Entry)
      modifies this`order, this`entries
      ensures order == Lru.MoveToEnd(old(order), url) && entries == old(entries)[url := entry]
    {
      entries := entries[url := entry];
      if url !in order {
        Lru.WithoutElems(order, url);
        Lru.WithoutSnoc(order, url, url);
        order := order + [url];
      }
      MoveToEnd(url);
    }

    /** The eviction loop: `popitem(last=False)` while the cache is over its cap. */
    method EvictOverflow()
      requires Lru.NoDups(order) && Lru.Elems(order) == entries.Keys
      modifies this`order, this`entries
      ensures order == Lru.Suffix(old(order), cfg.maxUrls)
      ensures entries == Keep(old(entries), order)
    {
      ghost var all, table := order, entries;
      ghost var n := 0;
      while |order| > cfg.maxUrls
        invariant 0 <= n <= |all| && order == all[n..]
        invariant |order| >= cfg.maxUrls || n == 0
        invariant entries == table - Lru.Elems(all[..n])
      {
        DropOneMore(all, table, n);
        order, entries, n := order[1..], entries - {order[0]}, n + 1;
      }
      DropOldest(all, table, n);
    }

    method StoreEntry(url: Url, entry: Entry)
      requires Valid()
      modifies this`order, this`entries
      ensures Valid() && Contents() == Put(old(Contents()), url, entry, cfg.maxUrls)
      ensures url in entries && entries[url] == entry
    {
      PutKeeps(Contents(), url, entry, cfg.maxUrls);
      Lru.MoveToEndNoDups(order, url);
      Insert(url, entry);
      EvictOverflow();
    }

    method TouchEntry(url: Url)
      requires Valid()
      modifies this`order
      ensures Valid() && Contents() == Touch(old(Contents()), url)
    {
      TouchKeeps(Contents(), url, cfg.maxUrls);
      assert url in order <==> url in Lru.Elems(order);
      if url in entries {
        MoveToEnd(url);
      }
    }

    /** `unknown_kids.setdefault(url, {})[kid] = now`. */
    method StampUnknown(url: Url, kid: Kid, now: real)
      requires Valid()
      modifies this`unknownKids
      ensures Valid() && Contents() == Stamp(old(Contents()), url, kid, now)
    {
      if url !in unknownKids {
        unknownKids := unknownKids[url := map[]];
      }
      unknownKids := unknownKids[url := unknownKids[url][kid := now]];
    }

    /** The body of both `try` blocks: `None` stands for the exception a failed fetch raises. */
    method FetchAndStore(url: Url, now: real, outcome: Outcome) returns (keys: Option<KeySet>)
      requires Valid()
      modifies this`order, this`entries
      ensures Valid()
      ensures outcome.Failed? ==> keys.None? && Contents() == old(Contents())
      ensures outcome.Fetched? ==> keys == Some(outcome.keys)
      ensures outcome.Fetched? ==>
        Contents() == Put(old(Contents()), url, Entry(outcome.keys, now), cfg.maxUrls)
    {
      match outcome
      case Failed => keys := None;
      case Fetched(ks) =>
        StoreEntry(url, Entry(ks, now));
        keys := Some(ks);
    }

    /** The end of a call: the key, or a stamp and a rejection. */
    method Finish(url: Url, kid: Kid, now: real, keys: map<Kid, Key>) returns (answer: Answer)
      requires Valid()
      modifies this`unknownKids
      ensures Valid() && Reply(Contents(), answer) == Conclude(old(Contents()), url, kid, now, keys)
    {
      if kid in keys {
        return Found(keys[kid]);
      }
      StampUnknown(url, kid, now);
      answer := UnknownKid;
    }

    /** `get_key` from the first fetch on: a refresh of `held`, or a probe for a missing kid. */
    method FetchAndSettle(url: Url, kid: Kid, now: real, need: Need, outcome: Outcome) returns (answer: Answer)
      requires Valid()
      modifies this
      ensures Valid()
      ensures Reply(Contents(), answer) == Settle(cfg, old(Contents()), url, kid, now, need, outcome)
    {
      var got := FetchAndStore(url, now, outcome);
      if got.Some? {
        answer := Finish(url, kid, now, got.value.byKid);
      } else if need.Probe? {
        answer := Finish(url, kid, now, map[]);
      } else if need.held.Some? && now - need.held.value.fetchedAt <= cfg.staleTtl {
        answer := Finish(url, kid, now, need.held.value.keys.byKid);
      } else {
        answer := FetchFailed;
      }
    }

    /** `get_key`, with `outcome` for what the network gives if the call fetches. */
    method GetKey(url: Url, kid: Kid, now: real, outcome: Outcome) returns (answer: Answer, fetched: bool)
      requires Valid()
      modifies this
      ensures Valid()
      ensures Effect(Contents(), answer, fetched) ==
        GetKeyEffect(cfg, old(Contents()), Request(url, kid, now, outcome))
    {
      if url in unknownKids && kid in unknownKids[url] && now - unknownKids[url][kid] <= cfg.unknownKidTtl {
        return NegativeCached, false;
      }
      assert !Rejects(cfg, Contents(), url, kid, now);
      var entry := if url in entries then Some(entries[url]) else None;
      ghost var opening := Open(cfg, Lookup(Contents(), url), kid, now);
      if entry.Some? {
        TouchEntry(url);
      }
      assert Contents() == Touch(old(Contents()), url);
      if entry.None? || now - entry.value.fetchedAt > cfg.cacheTtl {
        assert opening == Fetch(Refresh(entry));
        answer := FetchAndSettle(url, kid, now, Refresh(entry), outcome);
        return answer, true;
      }
      if kid !in entry.value.keys.byKid {
        assert opening == Fetch(Probe);
        answer := FetchAndSettle(url, kid, now, Probe, outcome);
        return answer, true;
      }
      return Found(entry.value.keys.byKid[kid]), false;
    }
  }

  lemma DropOneMore(order: seq<Url>, table: map<Url, Entry>, n: nat)
    requires n < |order|
    ensures order[n..][0] == order[n] && order[n..][1..] == order[n + 1..]
    ensures table - Lru.Elems(order[..n]) - {order[n]} == table - Lru.Elems(order[..n + 1])
  {
    assert Lru.Elems(order[..n + 1]) == Lru.Elems(order[..n]) + {order[n]};
  }

  /** Dropping the oldest `n` keys leaves the table restricted to the other keys. */
  lemma DropOldest(order: seq<Url>, table: map<Url, Entry>, n: nat)
    requires Lru.NoDups(order) && Lru.Elems(order) == table.Keys && n <= |order|
    ensures table - Lru.Elems(order[..n]) == Keep(table, order[n..])
  {
    forall u | u in table ensures u in Lru.Elems(order[..n]) <==> u !in order[n..] {
      assert u in Lru.Elems(order);
      var i :| 0 <= i < |order| && order[i] == u;
      if i < n {
        assert order[..n][i] == u;
        assert forall j :: 0 <= j < |order[n..]| ==> order[n..][j] == order[n + j];
      } else {
        assert order[n..][i - n] == u;
      }
    }
  }
}
