/** The DNS memo cache: a keyed store of resolved addresses whose entries
    expire, filled on demand by a resolver.  The clock (`now`) and the
    answer the system resolver would give (`resolved`) are inputs, so the
    cache's rules can be stated over them. */
module Dns {
  import opened Basics

  /** The timeout passed with every store, in the cache library's unit. */
  const CacheTimeout: int := 60 * 10

  datatype Entry = Entry(value: string, expiry: int)

  /** The key of a domain: the prefix `D:` followed by the domain. */
  function CacheKey(domain: string): (key: string)
    ensures |key| == |domain| + 2 && key[..2] == "D:" && key[2..] == domain
  {
    "D:" + domain
  }

  /** Different domains never share a cache entry. */
  lemma CacheKeyInjective(a: string, b: string)
    ensures CacheKey(a) == CacheKey(b) ==> a == b
  {
    if CacheKey(a) == CacheKey(b) {
      assert a == CacheKey(a)[2..];
    }
  }

  /** What the cache's `get` returns: the value of an unexpired entry. */
  function Live(store: map<string, Entry>, key: string, now: int): (v: Option<string>)
    ensures v.Some? <==> key in store && now < store[key].expiry
    ensures v.Some? ==> v.value == store[key].value
  {
    if key in store && now < store[key].expiry then Some(store[key].value) else None
  }

  /** A cached value is a hit only when it is truthy, that is non-empty. */
  predicate IsHit(store: map<string, Entry>, key: string, now: int)
    ensures IsHit(store, key, now) ==> key in store && now < store[key].expiry && store[key].value != ""
    ensures key in store && store[key].value == "" ==> !IsHit(store, key, now)
  {
    Live(store, key, now).Some? && Live(store, key, now).value != ""
  }

  datatype LookupOutcome = LookupOutcome(value: string, resolverCalled: bool, store: map<string, Entry>)

  /** One `dnsQuery(domain)` at time `now` against `store`. */
  function Lookup(store: map<string, Entry>, domain: string, now: int, resolved: Option<string>): (o: LookupOutcome)
    // a hit answers from the cache and never asks the resolver
    ensures var key := CacheKey(domain);
      o.resolverCalled <==> !IsHit(store, key, now)
    ensures !o.resolverCalled ==> o.value == Live(store, CacheKey(domain), now).value
    ensures o.resolverCalled ==> o.value == (if resolved.None? then "" else resolved.value)
    // a failed resolution answers '' and stores nothing
    ensures o.resolverCalled && resolved.None? ==> o.value == "" && o.store == store
    // every other answer is (re)stored under the key with a fresh expiry
    ensures !o.resolverCalled || resolved.Some? ==>
      o.store == store[CacheKey(domain) := Entry(o.value, now + CacheTimeout)]
    // no other key is touched
    ensures forall k :: k != CacheKey(domain) ==>
      (k in o.store <==> k in store) && (k in store ==> o.store[k] == store[k])
  {
    var key := CacheKey(domain);
    var value := if IsHit(store, key, now) then Live(store, key, now) else resolved;
    match value
    case None => LookupOutcome("", true, store)
    case Some(v) => LookupOutcome(v, !IsHit(store, key, now), store[key := Entry(v, now + CacheTimeout)])
  }

  /** A second lookup of a domain inside the timeout of a successful first
      one answers the same address without a second resolution. */
  lemma RepeatWithinTimeout(store: map<string, Entry>, domain: string, t0: int, t1: int,
                            first: Option<string>, second: Option<string>)
    requires Lookup(store, domain, t0, first).value != ""
    requires t0 <= t1 < t0 + CacheTimeout
    ensures var o0 := Lookup(store, domain, t0, first);
            var o1 := Lookup(o0.store, domain, t1, second);
            !o1.resolverCalled && o1.value == o0.value
  {
  }

  /** Once the timeout has run out, the next lookup resolves again. */
  lemma RepeatAfterTimeout(store: map<string, Entry>, domain: string, t0: int, t1: int,
                           first: Option<string>, second: Option<string>)
    requires Lookup(store, domain, t0, first).value != ""
    requires t0 + CacheTimeout <= t1
    ensures Lookup(Lookup(store, domain, t0, first).store, domain, t1, second).resolverCalled
  {
  }

  /** An empty answer from the resolver is stored but is never a hit. */
  lemma EmptyAnswerIsNoHit(store: map<string, Entry>, domain: string, t0: int, t1: int, second: Option<string>)
    requires !IsHit(store, CacheKey(domain), t0)
    ensures var o0 := Lookup(store, domain, t0, Some(""));
            o0.value == "" && CacheKey(domain) in o0.store
            && Lookup(o0.store, domain, t1, second).resolverCalled
  {
  }

  /** The cache library's store. */
  class MemCache {
    var entries: map<string, Entry>

    constructor ()
      ensures entries == map[]
    {
      entries := map[];
    }

    method Get(key: string, now: int) returns (v: Option<string>)
      ensures v == Live(entries, key, now)
    {
      if key in entries && now < entries[key].expiry {
        v := Some(entries[key].value);
      } else {
        v := None;
      }
    }

    method Set(key: string, value: string, timeout: int, now: int)
      modifies this
      ensures entries == old(entries)[key := Entry(value, now + timeout)]
    {
      entries := entries[key := Entry(value, now + timeout)];
    }
  }

  /** `DnsCache` with its lazily created `mcache`.  The source keeps it in
      a static field; here one object stands for it and is shared by every
      connection. */
  class DnsCache {
    var mcache: MemCache?

    constructor ()
      ensures mcache == null
    {
      mcache := null;
    }

    /** The entries the cache holds, empty before its creation. */
    ghost function Store(): map<string, Entry>
      reads this, mcache
    {
      if mcache == null then map[] else mcache.entries
    }

    /** `dnsQuery`: creates the store on the first call, reuses it after. */
    method DnsQuery(domain: string, now: int, resolved: Option<string>) returns (value: string, resolverCalled: bool)
      modifies this, mcache
      ensures mcache != null
      ensures old(mcache) != null ==> mcache == old(mcache)
      ensures old(mcache) == null ==> fresh(mcache)
      ensures var o := Lookup(old(Store()), domain, now, resolved);
              value == o.value && resolverCalled == o.resolverCalled && Store() == o.store
    {
      if mcache == null {
        mcache := new MemCache();
      }
      var key := CacheKey(domain);
      var cached := mcache.Get(key, now);
      var v := cached;
      resolverCalled := false;
      if !(v.Some? && v.value != "") {
        v := resolved;
        resolverCalled := true;
      }
      if v.None? {
        value := "";
      } else {
        mcache.Set(key, v.value, CacheTimeout, now);
        value := v.value;
      }
    }
  }
}
