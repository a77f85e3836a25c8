/** The cache of recently used sessions before the store. */
module SessionManager {
  import opened Options
  import opened PyText
  import opened SessionStore
  import opened Recency

  class SessionManager {
    const maxSessions: nat
    const store: Store
    /** The keys of the ordered dictionary, oldest first, and its values. */
    var order: seq<string>
    var cache: map<string, Session>
    /** Every use and deletion so far. */
    ghost var log: seq<Use>
    /** What each session was when it was last created, loaded or saved here. */
    ghost var synced: map<string, Loaded>

    ghost predicate CacheValid()
      reads this
    {
      && maxSessions >= 1
      && Tracks(order, cache.Keys, log)
      && forall id :: id in cache ==> cache[id].id == id
    }

    /** The store still has what each cached session was loaded from or saved as. */
    ghost predicate InStep()
      reads this, store
    {
      forall id :: id in cache ==> id in synced && store.Holds(id, synced[id])
    }

    ghost predicate Valid()
      reads this, store
    {
      CacheValid() && |order| <= maxSessions && InStep()
    }

    /** A session not changed since it was loaded or saved agrees with the store. */
    lemma UnmodifiedAgrees(id: string)
      requires Valid() && id in cache && Loaded(cache[id].info, cache[id].messages) == synced[id]
      ensures cache[id].messages == store.Stored(id)
      ensures id in store.sessions ==> cache[id].info == store.sessions[id]
    {
    }

    constructor (store: Store, maxSessions: int)
      ensures Valid() && fresh(this) && this.store == store && cache == map[]
      ensures this.maxSessions == Max(1, maxSessions)
    {
      this.store, this.maxSessions := store, Max(1, maxSessions);
      order, cache, log, synced := [], map[], [], map[];
    }

    /** `_evict_if_needed`.  The newest session always stays. */
    method EvictIfNeeded()
      requires CacheValid()
      modifies this`order, this`cache
      ensures CacheValid() && |order| == Min(|old(order)|, maxSessions)
      ensures |old(order)| <= maxSessions ==> cache == old(cache)
      ensures cache.Keys <= old(cache).Keys
      ensures forall id :: id in cache ==> cache[id] == old(cache)[id]
      ensures old(order) != [] ==> old(order)[|old(order)| - 1] in cache
    {
      hide Tracks;
      if order != [] { LastIsTracked(order, cache.Keys, log); }
      while |order| > maxSessions
        invariant CacheValid() && Min(|old(order)|, maxSessions) <= |order| <= |old(order)|
        invariant |old(order)| <= maxSessions ==> cache == old(cache)
        invariant cache.Keys <= old(cache).Keys
        invariant forall id :: id in cache ==> cache[id] == old(cache)[id]
        invariant order != [] ==>
          order[|order| - 1] == old(order)[|old(order)| - 1] && order[|order| - 1] in cache
        decreases |order|
      {
        TrackEvict(order, cache.Keys, log);
        cache := cache - {order[0]};
        order := order[1..];
      }
    }

    /** Puts a session at the end of the cache and makes room. */
    method Put(session: Session)
      requires CacheValid()
      modifies this`order, this`cache, this`log
      ensures CacheValid()
      ensures |order| == Min(maxSessions, |old(order)| + if session.id in old(cache) then 0 else 1)
      ensures log == old(log) + [Used(session.id)]
      ensures session.id in cache && cache[session.id] == session
      ensures cache.Keys <= old(cache).Keys + {session.id}
      ensures forall id :: id in cache && id != session.id ==> cache[id] == old(cache)[id]
      ensures session.id in old(cache) && |old(order)| <= maxSessions ==>
        cache.Keys == old(cache).Keys
    {
      hide Tracks;
      hide Touch;
      var id := session.id;
      TrackTouch(order, cache.Keys, log, id);
      cache, order, log := cache[id := session], Touch(order, id), log + [Used(id)];
      assert cache.Keys == old(cache).Keys + {id};
      EvictIfNeeded();
    }

    method GetOrCreate(id: string, initial: Info) returns (session: Session)
      requires Valid()
      modifies this
      ensures Valid() && log == old(log) + [Used(id)]
      ensures session.id == id && id in cache && cache[id] == session
      ensures |order| == Min(maxSessions, |old(order)| + if id in old(cache) then 0 else 1)
      ensures id in old(cache) ==> session == old(cache)[id] && synced == old(synced)
                                   && cache == old(cache)
      ensures id !in old(cache) ==>
        && fresh(session)
        && session.messages == store.Stored(id)
        && session.info == (if id in store.sessions then store.sessions[id] else initial)
        && synced == old(synced)[id := Loaded(session.info, session.messages)]
    {
      hide Tracks;
      hide Store.Stored;
      hide Store.RowsFor;
      if id in cache {
        session := cache[id];
      } else {
        var loaded := store.LoadSession(id);
        match loaded {
          case None => session := new Session(id, [], initial);
          case Some(l) => session := new Session(id, l.messages, l.info);
        }
        synced := synced[id := Loaded(session.info, session.messages)];
      }
      Put(session);
    }

    method Save(session: Session)
      requires Valid()
      modifies this, store
      ensures Valid() && log == old(log) + [Used(session.id)]
      ensures session.id in cache && cache[session.id] == session
      ensures |order| == Min(maxSessions, |old(order)| + if session.id in old(cache) then 0 else 1)
      ensures store.Stored(session.id) == session.messages
      ensures forall other :: other != session.id ==> store.Stored(other) == old(store.Stored(other))
      ensures session.id in store.sessions
      ensures store.sessions[session.id] == session.info.(createdAt := store.sessions[session.id].createdAt)
      ensures session.id in old(store.sessions) ==>
        store.sessions[session.id].createdAt == old(store.sessions)[session.id].createdAt
      ensures session.id !in old(store.sessions) ==> store.sessions[session.id] == session.info
      ensures synced == old(synced)[session.id := Loaded(store.sessions[session.id], session.messages)]
    {
      hide Tracks;
      hide Store.Stored;
      hide Store.RowsFor;
      hide Store.Holds;
      Put(session);
      assert forall id :: id in cache && id != session.id ==> id in old(cache);
      store.SaveSession(session);
      synced := synced[session.id := Loaded(store.sessions[session.id], session.messages)];
      forall id | id in cache ensures id in synced && store.Holds(id, synced[id]) {
        if id != session.id { assert old(store.Holds(id, synced[id])); }
      }
    }

    method Delete(id: string) returns (existed: bool)
      requires Valid()
      modifies this, store
      ensures Valid() && log == old(log) + [Dropped(id)]
      ensures cache == old(cache) - {id}
      ensures existed <==> id in old(store.sessions)
      ensures store.Stored(id) == [] && id !in store.sessions
      ensures forall other :: other != id ==> store.Stored(other) == old(store.Stored(other))
    {
      hide Tracks;
      hide Touch;
      hide Without;
      TrackDrop(order, cache.Keys, log, id);
      order := Without(order, id);
      cache := cache - {id};
      assert cache.Keys == old(cache).Keys - {id};
      log := log + [Dropped(id)];
      existed := store.DeleteSession(id);
    }

    /** The sessions evicted are those not used for longest. */
    lemma EvictsLeastRecentlyUsed(gone: string, kept: string)
      requires Valid() && LastUse(log, gone) >= 0 && gone !in cache && kept in cache
      ensures LastUse(log, gone) < LastUse(log, kept)
    {
      TrackedAreNewest(order, cache.Keys, log, gone, kept);
    }
  }
}
