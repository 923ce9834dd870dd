/** `has_valid_auth`: accepted credentials are remembered for an hour. */
module AuthCaches {
  import opened CString
  import opened Auth
  import opened HashMaps

  /** What the database does when it is asked during a call: the rows of its user table,
      and whether the query comes back with a result set at all. */
  datatype Db = Db(answers: bool, users: map<string, string>)

  /** One call: the request, the two readings of the clock, and the database at that time. */
  datatype Call = Call(request: string, now: int, storeTime: int, db: Db)

  /** The check without the cache: the database has the password that the credentials carry. */
  ghost predicate Matches(b64: string, db: Db) {
    match UserFromB64Spec(b64)
    case None => false
    case Some(u) => db.answers && u.username in db.users && db.users[u.username] == u.password
  }

  ghost predicate Uncached(request: string, db: Db) {
    Credentials(request).Some? && Matches(Credentials(request).value, db)
  }

  ghost predicate Alive(cache: map<string, int>, b64: string, now: int) {
    b64 in cache && cache[b64] > now
  }

  ghost predicate Grants(cache: map<string, int>, call: Call) {
    match Credentials(call.request)
    case None => false
    case Some(b64) => Alive(cache, b64, call.now) || Matches(b64, call.db)
  }

  /** The cache after a call. */
  ghost function Updated(cache: map<string, int>, call: Call): map<string, int> {
    match Credentials(call.request)
    case None => cache
    case Some(b64) =>
      if Alive(cache, b64, call.now) then cache
      else if Matches(b64, call.db) then cache[b64 := call.storeTime + CACHE_TTL]
      else cache - {b64}
  }

  /** The cache after a history of calls that began with an empty one. */
  ghost function After(calls: seq<Call>): map<string, int> {
    if calls == [] then map[] else Updated(After(calls[..|calls| - 1]), calls[|calls| - 1])
  }

  /** The answer of call `i` of a history. */
  ghost predicate Granted(calls: seq<Call>, i: nat)
    requires i < |calls|
  {
    Grants(After(calls[..i]), calls[i])
  }

  class AuthCache {
    var cache: HashMap?<int>
    ghost var calls: seq<Call>
    ghost var Repr: set<object>

    ghost predicate Valid()
      reads this, Repr
      ensures Valid() ==> this in Repr
    {
      && this in Repr
      && (cache == null ==> After(calls) == map[])
      && (cache != null ==>
            && cache in Repr && cache.Repr <= Repr && this !in cache.Repr
            && cache.Valid() && cache.M == After(calls))
    }

    constructor ()
      ensures Valid() && fresh(Repr) && calls == []
    {
      cache := null;
      calls := [];
      Repr := {this};
    }

    method HasValidAuth(request: string, now: int, storeTime: int, db: Db) returns (granted: bool)
      requires Valid()
      modifies Repr
      ensures Valid() && fresh(Repr - old(Repr))
      ensures calls == old(calls) + [Call(request, now, storeTime, db)]
      ensures granted <==> Granted(calls, |calls| - 1)
    {
      hide Credentials, Matches, Alive, After, Granted, HashMap.Valid;
      ghost var call := Call(request, now, storeTime, db);
      AfterOneMore(calls, call);
      CreateCache();
      calls := calls + [call];
      var b64 := ExtractBasicAuthB64(request);
      if b64.None? {
        granted := false;
      } else {
        granted := Consult(b64.value, now, storeTime, db);
      }
    }

    /** The map is created by the first call. */
    method CreateCache()
      requires Valid()
      modifies this`cache, this`Repr
      ensures Valid() && cache != null && fresh(Repr - old(Repr)) && old(Repr) <= Repr
    {
      if cache == null {
        cache := new HashMap();
        Repr := Repr + cache.Repr;
      }
    }

    /** The part of the call that follows the extraction of the credentials. */
    method Consult(b64: string, now: int, storeTime: int, db: Db) returns (granted: bool)
      requires this in Repr && cache != null && cache in Repr && cache.Repr <= Repr && this !in cache.Repr
      requires cache.Valid()
      modifies this`Repr, cache.Repr
      ensures cache.Valid() && cache.Repr <= Repr && this !in cache.Repr && fresh(Repr - old(Repr)) && old(Repr) <= Repr
      ensures granted <==> Alive(old(cache.M), b64, now) || Matches(b64, db)
      ensures cache.M == if Alive(old(cache.M), b64, now) then old(cache.M)
                         else if Matches(b64, db) then old(cache.M)[b64 := storeTime + CACHE_TTL]
                         else old(cache.M) - {b64}
    {
      hide Matches, HashMap.Valid;
      var ttl := cache.Get(b64);
      if ttl.Some? {
        if ttl.value > now {
          return true;
        }
        cache.Remove(b64);
      }
      granted := LookUp(b64, db);
      if granted {
        cache.Add(b64, storeTime + CACHE_TTL);
        Repr := Repr + cache.Repr;
      }
    }
  }

  /** The user table has the password that the credentials carry. */
  method LookUp(b64: string, db: Db) returns (valid: bool)
    ensures valid <==> Matches(b64, db)
  {
    var user := UserFromB64(b64);
    if user.None? || !db.answers || user.value.username !in db.users {
      return false;
    }
    valid := user.value.password == db.users[user.value.username];
  }

  lemma AfterOneMore(calls: seq<Call>, call: Call)
    ensures After(calls + [call]) == Updated(After(calls), call)
    ensures Granted(calls + [call], |calls|) <==> Grants(After(calls), call)
  {
    hide Credentials, Matches, Grants, Updated;
    assert (calls + [call])[..|calls|] == calls;
  }

  // ---------- histories ----------

  /** Call `j` looked `b64` up in the user table, and found it. */
  ghost predicate Vouches(calls: seq<Call>, j: nat, b64: string)
    requires j < |calls|
  {
    && Credentials(calls[j].request) == Some(b64)
    && !Alive(After(calls[..j]), b64, calls[j].now)
    && Matches(b64, calls[j].db)
  }

  lemma VouchesInPrefix(calls: seq<Call>, n: nat, j: nat, b64: string)
    requires j < n <= |calls|
    ensures Vouches(calls[..n], j, b64) <==> Vouches(calls, j, b64)
  {
    assert calls[..n][..j] == calls[..j];
  }

  /** Every entry was stored by a call that looked its key up, and expires an hour after it. */
  lemma {:induction false} EntryVouched(calls: seq<Call>, b64: string) returns (j: nat)
    requires b64 in After(calls)
    ensures j < |calls| && Vouches(calls, j, b64) && After(calls)[b64] == calls[j].storeTime + CACHE_TTL
  {
    hide Credentials, Matches;
    var last := |calls| - 1;
    if Vouches(calls, last, b64) {
      j := last;
    } else {
      j := EntryVouched(calls[..last], b64);
      VouchesInPrefix(calls, last, j, b64);
    }
  }

  /** Call `j` looked up the credentials of call `i`: in that very call, or less than an hour before. */
  ghost predicate Backs(calls: seq<Call>, j: nat, i: nat)
    requires i < |calls|
  {
    && j <= i && Credentials(calls[i].request).Some? && Vouches(calls, j, Credentials(calls[i].request).value)
    && (j < i ==> calls[i].now < calls[j].storeTime + CACHE_TTL)
  }

  /** Soundness: every request that is granted is backed by a lookup that found its credentials. */
  lemma GrantIsBacked(calls: seq<Call>, i: nat)
    requires i < |calls|
    ensures Granted(calls, i) ==> exists j :: Backs(calls, j, i)
  {
    hide Credentials, Matches;
    if Granted(calls, i) {
      var b64 := Credentials(calls[i].request).value;
      if Alive(After(calls[..i]), b64, calls[i].now) {
        var j := EntryVouched(calls[..i], b64);
        VouchesInPrefix(calls, i, j, b64);
        assert Backs(calls, j, i);
      } else {
        assert Backs(calls, i, i);
      }
    }
  }

  /** A new match always stores its own expiry: the entry it replaces was removed first. */
  lemma MatchIsStored(calls: seq<Call>, i: nat, b64: string)
    requires i < |calls|
    ensures Vouches(calls, i, b64) ==>
              b64 in After(calls[..i + 1]) && After(calls[..i + 1])[b64] == calls[i].storeTime + CACHE_TTL
  {
    assert calls[..i + 1][..i] == calls[..i];
  }

  /** Transparency: over a user table that never changes and always answers, no caller can
      tell the cache from the lookup. */
  lemma CacheIsTransparent(calls: seq<Call>, users: map<string, string>, i: nat)
    requires forall k :: 0 <= k < |calls| ==> calls[k].db == Db(true, users)
    requires i < |calls|
    ensures Granted(calls, i) <==> Uncached(calls[i].request, calls[i].db)
  {
    if Granted(calls, i) {
      GrantIsBacked(calls, i);
    }
  }

  /** Removing a user from the table takes effect within the hour: once it has not matched
      for that long, its credentials are refused. */
  lemma RevocationTakesEffect(calls: seq<Call>, i: nat, b64: string)
    requires i < |calls| && Credentials(calls[i].request) == Some(b64) && !Matches(b64, calls[i].db)
    requires forall j :: 0 <= j < i && Matches(b64, calls[j].db) ==> calls[i].now >= calls[j].storeTime + CACHE_TTL
    ensures !Granted(calls, i)
  {
    if Granted(calls, i) {
      GrantIsBacked(calls, i);
    }
  }
}
