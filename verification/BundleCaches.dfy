/** The three mutable caches of the bundle service. */
module BundleCaches {
  import opened Strings
  import Lru = BundleLru
  import opened Policies

  /** Map and recency list over the same elements. */
  class BundleCache {
    const config: Lru.Config
    var entries: map<string, Lru.Item>
    var evictList: seq<Lru.Item>

    /** Map and list hold the same distinct keys and the same entries. */
    ghost predicate Valid()
      reads this
    {
      config.maxEntries >= 1 && Lru.Valid(config, evictList) && Linked()
    }

    ghost predicate Linked()
      reads this
    {
      && (forall k :: k in entries <==> Lru.Holds(evictList, k))
      && (forall x :: x in evictList ==> x.key in entries && entries[x.key] == x)
    }

    constructor (maxEntries: int, ttl: int)
      ensures Valid() && config == Lru.NewConfig(maxEntries, ttl) && evictList == [] && entries == map[]
    {
      config := Lru.NewConfig(maxEntries, ttl);
      entries, evictList := map[], [];
    }

    method Get(now: int, key: string) returns (data: string, etag: string, ok: bool)
      requires Valid()
      modifies this
      ensures Valid()
      ensures var (list, hit) := Lru.Get(old(evictList), now, key);
              evictList == list && ok == hit.Some? && (ok ==> data == hit.value.data && etag == hit.value.etag)
    {
      Lru.ApplyKeeps(config, evictList, now, Lru.GetOp(key));
      if key !in entries { return "", "", false; }
      var e := entries[key];
      FindElement(key);
      if now > e.expires {
        RemoveElement(e);
        return "", "", false;
      }
      ghost var was := evictList;
      evictList := [e] + Lru.Remove(evictList, key);
      SameKeysAfterMove(was, e, e);
      return e.data, e.etag, true;
    }

    lemma FindElement(key: string)
      requires Valid() && key in entries
      ensures Lru.Find(evictList, key) == Some(entries[key]) && entries[key].key == key
    {
      var x := Lru.Find(evictList, key).value;
      Lru.FindMember(evictList, x);
    }

    /** `removeElement`: unlinks the element and deletes its key. */
    method RemoveElement(e: Lru.Item)
      requires Valid() && e in evictList
      modifies this
      ensures Valid() && evictList == Lru.Remove(old(evictList), e.key)
    {
      ghost var was := evictList;
      evictList := Lru.Remove(evictList, e.key);
      entries := entries - {e.key};
      Lru.RemovedIsGone(was, e.key);
      Lru.RemoveKeepsOthers(was, e.key);
      KeysOfRemove(was, e.key);
    }

    method Set(now: int, key: string, data: string, etag: string)
      requires Valid()
      modifies this
      ensures Valid() && evictList == Lru.Set(config, old(evictList), now, key, data, etag)
    {
      Lru.SetPutsInFront(config, evictList, now, key, data, etag);
      var x := Lru.Item(key, data, etag, now + config.ttl);
      if key in entries {
        FindElement(key);
        SameKeysAfterMove(evictList, entries[key], x);
        evictList := [x] + Lru.Remove(evictList, key);
        entries := entries[key := x];
        return;
      }
      PushFront(x);
    }

    /** `PushFront` and, when the list is too long, `removeLRU`. */
    method PushFront(x: Lru.Item)
      requires Valid() && x.key !in entries
      modifies this
      ensures Linked() && evictList == Lru.Evict(config, [x] + old(evictList))
    {
      KeysOfFront(x, evictList);
      Lru.FrontKeepsDistinct(x, evictList);
      evictList := [x] + evictList;
      entries := entries[x.key := x];
      if |evictList| > config.maxEntries {
        RemoveLRU();
      }
    }

    method RemoveLRU()
      requires evictList != [] && Linked() && Lru.Distinct(evictList)
      modifies this
      ensures Linked() && evictList == old(evictList)[..|old(evictList)| - 1]
    {
      var last := evictList[|evictList| - 1];
      KeysOfInit(evictList);
      evictList := evictList[..|evictList| - 1];
      entries := entries - {last.key};
    }

    method Invalidate(key: string)
      requires Valid()
      modifies this
      ensures Valid() && evictList == Lru.Remove(old(evictList), key)
    {
      if key in entries {
        FindElement(key);
        RemoveElement(entries[key]);
      }
    }

    method InvalidateAll()
      requires Valid()
      modifies this
      ensures Valid() && evictList == []
    {
      entries, evictList := map[], [];
    }
  }

  lemma KeysOfRemove(s: seq<Lru.Item>, key: string)
    ensures forall k :: Lru.Holds(Lru.Remove(s, key), k) <==> Lru.Holds(s, k) && k != key
  {
    Lru.RemovedIsGone(s, key);
    Lru.RemoveKeepsOthers(s, key);
    var r := Lru.Remove(s, key);
    forall k ensures Lru.Holds(r, k) <==> Lru.Holds(s, k) && k != key {
      if i :| 0 <= i < |r| && r[i].key == k { assert r[i] in s; }
      if i :| 0 <= i < |s| && s[i].key == k { assert k != key ==> s[i] in r; }
    }
  }

  lemma KeysOfFront(x: Lru.Item, s: seq<Lru.Item>)
    ensures forall k :: Lru.Holds([x] + s, k) <==> k == x.key || Lru.Holds(s, k)
  {
    forall k ensures Lru.Holds([x] + s, k) <==> k == x.key || Lru.Holds(s, k) {
      if i :| 0 <= i < |s| && s[i].key == k { assert ([x] + s)[i + 1].key == k; }
      if k == x.key { assert ([x] + s)[0].key == k; }
    }
  }

  lemma KeysOfInit(s: seq<Lru.Item>)
    requires s != [] && Lru.Distinct(s)
    ensures var last := s[|s| - 1];
            forall k :: Lru.Holds(s[..|s| - 1], k) <==> Lru.Holds(s, k) && k != last.key
  {
    var n := |s| - 1;
    forall k ensures Lru.Holds(s[..n], k) <==> Lru.Holds(s, k) && k != s[n].key {
      if i :| 0 <= i < |s| && s[i].key == k && k != s[n].key { assert s[..n][i].key == k; }
    }
  }

  lemma SameKeysAfterMove(s: seq<Lru.Item>, e: Lru.Item, x: Lru.Item)
    requires Lru.Distinct(s) && e in s && x.key == e.key
    ensures forall k :: Lru.Holds([x] + Lru.Remove(s, e.key), k) <==> Lru.Holds(s, k)
    ensures forall y :: y in Lru.Remove(s, e.key) ==> y in s && y.key != e.key
  {
    KeysOfRemove(s, e.key);
    KeysOfFront(x, Lru.Remove(s, e.key));
  }

  /** Client key to content hash. */
  class ETagCache {
    var entries: map<string, string>

    constructor ()
      ensures entries == map[]
    {
      entries := map[];
    }

    method Get(key: string) returns (hash: string, ok: bool)
      ensures ok <==> key in entries
      ensures ok ==> hash == entries[key]
    {
      if key in entries { return entries[key], true; }
      return "", false;
    }

    method Set(key: string, hash: string)
      modifies this
      ensures entries == old(entries)[key := hash]
    {
      entries := entries[key := hash];
    }

    method Invalidate(key: string)
      modifies this
      ensures entries == old(entries) - {key}
    {
      entries := entries - {key};
    }

    method InvalidateAll()
      modifies this
      ensures entries == map[]
    {
      entries := map[];
    }
  }

  /** The extracted policies of the global tier and of each namespace tier. */
  class PolicyCache {
    var global: Option<seq<Policy>>
    var ns: map<string, seq<Policy>>

    constructor ()
      ensures global == None && ns == map[]
    {
      global, ns := None, map[];
    }

    method SetGlobal(policies: seq<Policy>)
      modifies this
      ensures global == Some(policies) && ns == old(ns)
    {
      global := Some(policies);
    }

    method InvalidateGlobal()
      modifies this
      ensures global == None && ns == old(ns)
    {
      global := None;
    }

    method SetNamespace(name: string, policies: seq<Policy>)
      modifies this
      ensures ns == old(ns)[name := policies] && global == old(global)
    {
      ns := ns[name := policies];
    }

    method InvalidateNamespace(name: string)
      modifies this
      ensures ns == old(ns) - {name} && global == old(global)
    {
      ns := ns - {name};
    }
  }
}
