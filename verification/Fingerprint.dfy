/** The cache of recent messages: entries expire after a time to live, lazily and in the background. */
module Fingerprint {
  import opened Text

  type Cache = map<string, int>

  function Live(cache: Cache, now: int): Cache {
    map f | f in cache && now <= cache[f] :: cache[f]
  }

  class FingerprintCache {
    const ttl: int
    var fingerprints: Cache

    constructor (ttl: int)
      ensures this.ttl == ttl && fingerprints == map[]
    {
      this.ttl, fingerprints := ttl, map[];
    }

    method Add(fingerprint: string, now: int)
      modifies this
      ensures fingerprints == old(fingerprints)[fingerprint := now + ttl]
    {
      fingerprints := fingerprints[fingerprint := now + ttl];
    }

    method Exists(fingerprint: string, now: int) returns (found: bool)
      modifies this
      ensures found <==> fingerprint in Live(old(fingerprints), now)
      ensures fingerprints == if found then old(fingerprints) else old(fingerprints) - {fingerprint}
    {
      if fingerprint !in fingerprints {
        assert fingerprints == fingerprints - {fingerprint};
        return false;
      }
      if now > fingerprints[fingerprint] {
        fingerprints := fingerprints - {fingerprint};
        return false;
      }
      return true;
    }

    method Cleanup(now: int)
      modifies this
      ensures fingerprints == Live(old(fingerprints), now)
    {
      var rest := fingerprints.Keys;
      while rest != {}
        invariant rest <= fingerprints.Keys <= old(fingerprints).Keys
        invariant forall f :: f in fingerprints ==> fingerprints[f] == old(fingerprints)[f]
        invariant forall f :: f in old(fingerprints) && f !in rest ==>
          (f in fingerprints <==> now <= old(fingerprints)[f])
        invariant forall f :: f in rest ==> f in fingerprints
        decreases rest
      {
        var f :| f in rest;
        rest := rest - {f};
        if now > fingerprints[f] {
          fingerprints := fingerprints - {f};
        }
      }
    }

    method Clear()
      modifies this
      ensures fingerprints == map[]
    {
      fingerprints := map[];
    }
  }

  // What the cache means over a run

  datatype Event =
    | Added(fingerprint: string, at: int)
    | Checked(fingerprint: string, at: int)
    | Cleaned(at: int)
    | Cleared(at: int)

  /** The clock does not run backwards. */
  ghost predicate Timed(events: seq<Event>) {
    forall i, j :: 0 <= i <= j < |events| ==> events[i].at <= events[j].at
  }

  /** The contents of the cache after a run of its operations. */
  function After(ttl: int, events: seq<Event>): Cache {
    if events == [] then map[]
    else
      var cache := After(ttl, events[..|events| - 1]);
      match events[|events| - 1]
      case Added(f, now) => cache[f := now + ttl]
      case Checked(f, now) => if f in Live(cache, now) then cache else cache - {f}
      case Cleaned(now) => Live(cache, now)
      case Cleared(_) => map[]
  }

  /** A fingerprint was added at most ttl ago, and the cache was not cleared since. */
  ghost predicate Recent(ttl: int, events: seq<Event>, fingerprint: string, now: int) {
    exists j :: 0 <= j < |events| && events[j].Added? && events[j].fingerprint == fingerprint
      && now <= events[j].at + ttl
      && forall i :: j < i < |events| ==> !events[i].Cleared?
  }

  /** The time of the last addition since the cache was cleared. */
  function LastAdd(events: seq<Event>, fingerprint: string): Option<int> {
    if events == [] then None
    else
      match events[|events| - 1]
      case Added(f, at) => if f == fingerprint then Some(at) else LastAdd(events[..|events| - 1], fingerprint)
      case Cleared(_) => None
      case _ => LastAdd(events[..|events| - 1], fingerprint)
  }

  lemma {:induction false} LastAddIsRecent(ttl: int, events: seq<Event>, fingerprint: string, now: int)
    requires Timed(events)
    ensures Recent(ttl, events, fingerprint, now) <==>
      LastAdd(events, fingerprint).Some? && now <= LastAdd(events, fingerprint).value + ttl
    ensures LastAdd(events, fingerprint).Some? ==>
      exists j :: 0 <= j < |events| && events[j] == Added(fingerprint, LastAdd(events, fingerprint).value)
  {
    if events != [] {
      var n := |events| - 1;
      var init := events[..n];
      LastAddIsRecent(ttl, init, fingerprint, now);
      assert forall j :: 0 <= j < n ==> init[j] == events[j];
      if events[n].Added? && events[n].fingerprint == fingerprint {
        assert events[n] == Added(fingerprint, LastAdd(events, fingerprint).value);
      } else if !events[n].Cleared? {
        if LastAdd(init, fingerprint).Some? {
          var j :| 0 <= j < n && init[j] == Added(fingerprint, LastAdd(init, fingerprint).value);
          assert events[j] == Added(fingerprint, LastAdd(events, fingerprint).value);
        }
        RecentLater(ttl, events, fingerprint, now);
      }
    }
  }

  lemma RecentLater(ttl: int, events: seq<Event>, fingerprint: string, now: int)
    requires events != [] && !events[|events| - 1].Cleared?
    requires !(events[|events| - 1].Added? && events[|events| - 1].fingerprint == fingerprint)
    ensures Recent(ttl, events, fingerprint, now) <==> Recent(ttl, events[..|events| - 1], fingerprint, now)
  {
  }

  /** What the cache holds is the last addition; what it no longer holds has expired. */
  lemma {:induction false} CacheInvariant(ttl: int, events: seq<Event>, fingerprint: string)
    requires Timed(events)
    ensures var cache, last := After(ttl, events), LastAdd(events, fingerprint);
      && (fingerprint in cache ==> last.Some? && cache[fingerprint] == last.value + ttl)
      && (last.Some? && fingerprint !in cache ==> last.value + ttl < events[|events| - 1].at)
  {
    if events != [] {
      var init := events[..|events| - 1];
      CacheInvariant(ttl, init, fingerprint);
      assert init != [] ==> init[|init| - 1].at <= events[|events| - 1].at;
    }
  }

  /** Lookups answer as if nothing were ever deleted: was it added at most ttl ago? */
  lemma CacheAnswersRecent(ttl: int, events: seq<Event>, fingerprint: string, now: int)
    requires Timed(events + [Checked(fingerprint, now)])
    ensures fingerprint in Live(After(ttl, events), now) <==> Recent(ttl, events, fingerprint, now)
  {
    var all := events + [Checked(fingerprint, now)];
    assert forall i :: 0 <= i < |events| ==> all[i] == events[i];
    assert Timed(events);
    assert events != [] ==> all[|events| - 1].at <= all[|events|].at;
    CacheInvariant(ttl, events, fingerprint);
    LastAddIsRecent(ttl, events, fingerprint, now);
  }
}
