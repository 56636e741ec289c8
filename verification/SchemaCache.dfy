/** The TTL cache in front of introspection. Times are milliseconds. */
module SchemaCache {
  import opened Sequences
  import opened SchemaTypes

  /** A snapshot, numbered by the introspection that read it. */
  datatype Snapshot = Snapshot(introspection: nat, schema: DatabaseSchema)

  datatype CacheState = CacheState(snapshot: Option<Snapshot>, expiresAt: nat)

  const EMPTY := CacheState(None, 0)

  /** What `get` answers. */
  function Cached(c: CacheState, ttlMs: nat, now: nat): (r: Option<Snapshot>)
  {
    if ttlMs == 0 || now >= c.expiresAt then None else c.snapshot
  }

  /** What `get` leaves behind: an expired entry is dropped as it is found. */
  function AfterGet(c: CacheState, ttlMs: nat, now: nat): (r: CacheState)
  {
    if ttlMs > 0 && c.snapshot.Some? && now >= c.expiresAt then EMPTY else c
  }

  function AfterSet(c: CacheState, ttlMs: nat, now: nat, snapshot: Snapshot): (r: CacheState)
  {
    if ttlMs == 0 then c else CacheState(Some(snapshot), now + ttlMs)
  }

  datatype CacheStatus = CacheStatus(enabled: bool, cached: bool, expiresAt: Option<nat>)

  class SchemaCacheService {
    const ttlMs: nat
    var snapshot: Option<Snapshot>
    var expiresAt: nat

    constructor (cacheTtlSeconds: nat)
      ensures ttlMs == cacheTtlSeconds * 1000 && State() == EMPTY
    {
      ttlMs := cacheTtlSeconds * 1000;
      snapshot, expiresAt := None, 0;
    }

    function State(): (r: CacheState)
      reads this
    {
      CacheState(snapshot, expiresAt)
    }

    method Get(now: nat) returns (found: Option<Snapshot>)
      modifies this
      ensures found == Cached(old(State()), ttlMs, now)
      ensures State() == AfterGet(old(State()), ttlMs, now)
    {
      if ttlMs == 0 || snapshot.None? {
        return None;
      }
      if now >= expiresAt {
        snapshot, expiresAt := None, 0;
        return None;
      }
      return snapshot;
    }

    method Set(now: nat, loaded: Snapshot)
      modifies this
      ensures State() == AfterSet(old(State()), ttlMs, now, loaded)
    {
      if ttlMs == 0 {
        return;
      }
      snapshot := Some(loaded);
      expiresAt := now + ttlMs;
    }

    method Invalidate()
      modifies this
      ensures State() == EMPTY
    {
      snapshot, expiresAt := None, 0;
    }

    method Status(now: nat) returns (status: CacheStatus)
      modifies this
      ensures State() == AfterGet(old(State()), ttlMs, now)
      ensures status.enabled <==> ttlMs > 0
      ensures status.cached <==> Cached(old(State()), ttlMs, now).Some?
      ensures status.expiresAt == if status.cached then Some(old(expiresAt)) else None
    {
      var found := Get(now);
      status := CacheStatus(ttlMs > 0, found.Some?, if found.Some? then Some(expiresAt) else None);
    }
  }
}
