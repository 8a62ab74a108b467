/** The session manager itself: a map of shared, mutable session objects over a Redis store.
    Each method is proved to do to cache and store what the functions of Sessions say. */
module SessionManager {
  import opened Sessions

  /** A session object. Callers and the cache share it, and a charge mutates it in place. */
  class Session {
    const mainWallet: string
    const sessionKey: string
    const spendLimit: real
    var spentAmount: real
    const expiresAt: int
    const createdAt: int
    var lastUsedAt: int
    var isActive: bool
    const registration: nat

    constructor (s: SessionData)
      ensures Value() == s
    {
      mainWallet, sessionKey, spendLimit := s.mainWallet, s.sessionKey, s.spendLimit;
      spentAmount, expiresAt, createdAt := s.spentAmount, s.expiresAt, s.createdAt;
      lastUsedAt, isActive, registration := s.lastUsedAt, s.isActive, s.registration;
    }

    function Value(): SessionData
      reads this
    {
      SessionData(mainWallet, sessionKey, spendLimit, spentAmount, expiresAt, createdAt, lastUsedAt, isActive, registration)
    }
  }

  /** The store: session records with a time to live, and nonces. How a write ends is the environment's choice. */
  class Redis {
    var records: map<string, Record>
    var nonces: map<string, nat>

    constructor ()
      ensures records == map[] && nonces == map[]
    {
      records, nonces := map[], map[];
    }

    method Set(s: SessionData, now: int, write: Write) returns (ok: bool)
      modifies this
      ensures nonces == old(nonces) && records == Stored(old(records), s, now, write)
      ensures ok == write.Acknowledged?
    {
      if write.Refused? {
        return false;
      }
      var deadline := s.expiresAt;
      if s.expiresAt - now <= 0 {
        deadline := now + HOUR;
      }
      records := records[s.sessionKey := Record(s, deadline)];
      return write.Acknowledged?;
    }

    method Incr(wallet: string, write: Write) returns (ok: bool)
      modifies this
      ensures records == old(records)
      ensures nonces == if write.Refused? then old(nonces) else old(nonces)[wallet := Nonce(old(nonces), wallet) + 1]
      ensures ok == write.Acknowledged?
    {
      if write.Refused? {
        return false;
      }
      nonces := nonces[wallet := (if wallet in nonces then nonces[wallet] else 0) + 1];
      return write.Acknowledged?;
    }
  }

  class SessionManager {
    var cache: map<string, Session>
    const redis: Redis
    var issued: seq<Issue>

    /** No two keys share a session object. */
    ghost predicate Valid()
      reads this
    {
      forall i, j :: i in cache && j in cache && i != j ==> cache[i] != cache[j]
    }

    ghost function View(): State
      reads this, cache.Values, redis
    {
      State(map k | k in cache :: cache[k].Value(), redis.records, redis.nonces, issued)
    }

    /** Caching an object, while the others keep their values, changes one entry of the view. */
    twostate lemma Cached(key: string, new session: Session)
      requires old(Valid()) && cache == old(cache)[key := session]
      requires forall k :: k in old(cache) ==> old(cache)[k] != session && old(cache)[k].Value() == old(cache[k].Value())
      ensures Valid() && View().cache == old(View()).cache[key := session.Value()]
    {
      assert forall k :: k in cache ==> k == key || cache[k] == old(cache)[k];
    }

    constructor ()
      ensures Valid() && View() == EMPTY && fresh(redis)
    {
      cache, issued := map[], [];
      redis := new Redis();
    }

    method LoadSession(key: string, now: int, reachable: bool) returns (result: Result)
      ensures result == Load(View(), key, now, reachable)
    {
      if !reachable {
        return Err(Unreachable);
      }
      if key !in redis.records || redis.records[key].deadline <= now {
        return Err(NotFound);
      }
      return Ok(redis.records[key].session);
    }

    /** Write a session to Redis and, when the write is acknowledged, put it in the cache. */
    method StoreAndCache(key: string, session: Session, now: int, write: Write) returns (ok: bool)
      requires Valid() && forall k :: k in cache && k != key ==> cache[k] != session
      modifies this`cache, redis
      ensures Valid() && ok == write.Acknowledged?
      ensures redis.nonces == old(redis.nonces)
      ensures redis.records == Stored(old(redis.records), session.Value(), now, write)
      ensures cache == if ok then old(cache)[key := session] else old(cache)
    {
      ok := redis.Set(session.Value(), now, write);
      if ok {
        cache := cache[key := session];
      }
    }

    /** Make the session of a counted registration, store it and cache it. */
    method OpenSession(request: Request, now: int, store: Write) returns (result: Result)
      requires Valid()
      modifies this, redis
      ensures Valid() && redis.nonces == old(redis.nonces)
      ensures issued == old(issued) + [Issue(request.sessionKey, request.spendLimit)]
      ensures var s := NewSession(|old(issued)|, request, now);
              && redis.records == Stored(old(redis.records), s, now, store)
              && View().cache == (if store.Acknowledged? then old(View()).cache[request.sessionKey := s] else old(View()).cache)
              && result == (if store.Acknowledged? then Ok(s) else Err(StoreFailed))
      ensures result.Ok? ==> request.sessionKey in cache && cache[request.sessionKey].Value() == result.session
                             && fresh(cache[request.sessionKey])
    {
      hide Stored;
      var session := new Session(NewSession(|issued|, request, now));
      issued := issued + [Issue(request.sessionKey, request.spendLimit)];
      var stored := StoreAndCache(request.sessionKey, session, now, store);
      if !stored {
        return Err(StoreFailed);
      }
      return Ok(session.Value());
    }

    method RegisterSession(request: Request, now: int, reachable: bool, incr: Write, store: Write)
      returns (result: Result)
      requires Valid()
      modifies this, redis
      ensures Valid()
      ensures (View(), result) == Register(old(View()), request, now, reachable, incr, store)
      ensures result.Ok? ==> request.sessionKey in cache && cache[request.sessionKey].Value() == result.session
                             && fresh(cache[request.sessionKey])
    {
      hide Stored, NewSession;
      if !reachable {
        return Err(Unreachable);
      }
      var nonce := if request.mainWallet in redis.nonces then redis.nonces[request.mainWallet] else 0;
      if nonce !in request.signedNonces {
        return Err(InvalidSignature);
      }
      var counted := redis.Incr(request.mainWallet, incr);
      assert View().cache == old(View()).cache;
      if !counted {
        return Err(NonceFailed);
      }
      result := OpenSession(request, now, store);
    }

    /** On success the cache holds, under the key, the object that was validated. */
    method ValidateSession(key: string, now: int, reachable: bool) returns (result: Result)
      requires Valid()
      modifies this
      ensures Valid() && redis.records == old(redis.records) && issued == old(issued)
      ensures (View(), result) == Validate(old(View()), key, now, reachable)
      ensures result.Ok? ==> key in cache && cache[key].Value() == result.session
      ensures forall k :: k in cache ==> (k in old(cache) && cache[k] == old(cache[k])) || fresh(cache[k])
      ensures forall k :: k in old(cache) ==> k in cache
    {
      if key in cache {
        var session := cache[key];
        if session.isActive && now < session.expiresAt {
          return Ok(session.Value());
        }
      }
      result := LoadSession(key, now, reachable);
      if result.Err? {
        return;
      }
      if !result.session.isActive {
        return Err(Revoked);
      }
      if now > result.session.expiresAt {
        return Err(Expired);
      }
      CacheLoaded(key, result.session);
    }

    method CacheLoaded(key: string, loaded: SessionData)
      requires Valid()
      modifies this`cache
      ensures Valid() && View().cache == old(View()).cache[key := loaded]
      ensures key in cache && cache[key].Value() == loaded && fresh(cache[key])
      ensures forall k :: k in cache && k != key ==> k in old(cache) && cache[k] == old(cache[k])
      ensures forall k :: k in old(cache) ==> k in cache
    {
      var session := new Session(loaded);
      cache := cache[key := session];
      Cached(key, session);
    }

    /** The charge is made on the shared object before the write; a failed write does not take it back. */
    method ChargeObject(key: string, session: Session, amount: real, now: int, write: Write) returns (ok: bool)
      requires Valid() && key in cache && cache[key] == session
      modifies this`cache, session, redis
      ensures Valid() && ok == write.Acknowledged?
      ensures session.Value() == old(session.Value()).(spentAmount := old(session.spentAmount) + amount, lastUsedAt := now)
      ensures View() == old(View()).(cache := old(View()).cache[key := session.Value()],
                                     redis := Stored(old(View()).redis, session.Value(), now, write))
    {
      hide Stored;
      session.spentAmount := session.spentAmount + amount;
      session.lastUsedAt := now;
      ok := StoreAndCache(key, session, now, write);
      assert cache == old(cache);
      assert View().cache == old(View()).cache[key := session.Value()];
    }

    method ValidateAndCharge(key: string, amount: real, now: int, reachable: bool, write: Write)
      returns (result: Result)
      requires Valid()
      modifies this, cache.Values, redis
      ensures Valid()
      ensures (View(), result) == Charge(old(View()), key, amount, now, reachable, write)
    {
      hide Stored, Validate;
      result := ValidateSession(key, now, reachable);
      if result.Err? {
        return;
      }
      var session := cache[key];
      if session.spentAmount + amount > session.spendLimit {
        return Err(LimitExceeded);
      }
      var stored := ChargeObject(key, session, amount, now, write);
      if !stored {
        return Err(StoreFailed);
      }
      return Ok(session.Value());
    }

    /** Deactivate the loaded session, store it, and drop the key from the cache when the write is acknowledged. */
    method Deactivate(key: string, loaded: SessionData, now: int, write: Write) returns (result: Result)
      requires Valid()
      modifies this`cache, redis
      ensures Valid() && redis.nonces == old(redis.nonces)
      ensures var s := loaded.(isActive := false);
              && redis.records == Stored(old(redis.records), s, now, write)
              && cache == (if write.Acknowledged? then old(cache) - {key} else old(cache))
              && result == (if write.Acknowledged? then Ok(s) else Err(StoreFailed))
    {
      hide Stored;
      var session := new Session(loaded);
      session.isActive := false;
      var stored := redis.Set(session.Value(), now, write);
      if !stored {
        return Err(StoreFailed);
      }
      cache := cache - {key};
      return Ok(session.Value());
    }

    method RevokeSession(wallet: string, key: string, now: int, reachable: bool, write: Write)
      returns (result: Result)
      requires Valid()
      modifies this, redis
      ensures Valid()
      ensures (View(), result) == Revoke(old(View()), wallet, key, now, reachable, write)
    {
      hide Stored, Load;
      result := LoadSession(key, now, reachable);
      if result.Err? {
        return;
      }
      if result.session.mainWallet != wallet {
        return Err(NotOwner);
      }
      result := Deactivate(key, result.session, now, write);
      assert View().cache == if write.Acknowledged? then old(View()).cache - {key} else old(View()).cache;
    }
  }
}
