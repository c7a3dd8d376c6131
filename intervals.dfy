/** The interval table of src/intervals.ts: a Redis keyspace mapping
    `"intervals:" + userId` to the text of the user's next fire time. The
    Redis database is a `map<string, string>`; keys outside the prefix belong
    to other parts of the program and are never touched here. */
module Intervals {
  import opened JsNumbers

  datatype Option<T> = None | Some(value: T)

  /** One row of `getAllIntervals`: both numbers come out of `parseInt`. */
  datatype Interval = Interval(userId: ParsedInt, start: ParsedInt)

  const Prefix: string := "intervals:"

  /** The Redis key of a user's entry. */
  function Key(userId: int): string {
    Prefix + IntToString(userId)
  }

  /** The keys the pattern `intervals:*` matches. */
  function MatchingKeys(redis: map<string, string>): set<string> {
    set k | k in redis && Prefix <= k
  }

  /** A listed key and its value as a row: the user id is what is left of the
      key once the prefix is removed (`replace` removes the first occurrence,
      which for a matching key is the prefix itself). */
  function Decode(key: string, value: string): Interval
    requires Prefix <= key
  {
    Interval(KeyUser(key), ParseInt(value))
  }

  /** What `getInterval` answers for the table `redis`. */
  function Lookup(redis: map<string, string>, userId: int): Option<ParsedInt> {
    if Key(userId) in redis then Some(ParseInt(redis[Key(userId)])) else None
  }

  /** The table after `setInterval(userId, start)`. */
  function Stored(redis: map<string, string>, userId: int, start: int): map<string, string> {
    redis[Key(userId) := IntToString(start)]
  }

  /** The table after `removeInterval(userId)`. */
  function Removed(redis: map<string, string>, userId: int): map<string, string> {
    redis - {Key(userId)}
  }

  /** The user id an entry key stands for. */
  function KeyUser(key: string): ParsedInt
    requires Prefix <= key
  {
    ParseInt(key[|Prefix|..])
  }

  /** Every matching key is the key of the user it decodes to, and holds the
      text of an integer: what a table written only by this class looks like. */
  ghost predicate WellFormed(redis: map<string, string>) {
    forall k :: k in redis && Prefix <= k ==>
      KeyUser(k).Int? && Key(KeyUser(k).value) == k && IsCanonicalInt(redis[k])
  }

  /** The matching keys that decode to `userId`. */
  function KeysOf(redis: map<string, string>, userId: int): set<string> {
    set k | k in redis && Prefix <= k && KeyUser(k) == Int(userId)
  }

  /** `rows` is a listing of `redis` in the order of `keys`: every matching
      key exactly once, each with its decoded row. */
  ghost predicate IsListing(redis: map<string, string>, keys: seq<string>, rows: seq<Interval>) {
    && (forall k :: k in keys <==> k in MatchingKeys(redis))
    && (forall i, j :: 0 <= i < j < |keys| ==> keys[i] != keys[j])
    && |rows| == |keys|
    && (forall i :: 0 <= i < |keys| ==> keys[i] in redis && Prefix <= keys[i] && rows[i] == Decode(keys[i], redis[keys[i]]))
  }

  // ---------------------------------------------------------------------
  // The key encoding

  /** A key starts with the prefix and decodes back to its user. */
  lemma KeyDecodes(userId: int)
    ensures Prefix <= Key(userId)
    ensures KeyUser(Key(userId)) == Int(userId)
  {
    assert Key(userId)[|Prefix|..] == IntToString(userId);
    ParseIntOfIntToString(userId);
  }

  /** Distinct users have distinct keys. */
  lemma KeyInjective(u: int, v: int)
    requires Key(u) == Key(v)
    ensures u == v
  {
    KeyDecodes(u);
    KeyDecodes(v);
  }

  // ---------------------------------------------------------------------
  // Single operations

  /** After `setInterval(u, t)` the entry is set and `getInterval(u)` reads `t`. */
  lemma SetThenGet(redis: map<string, string>, userId: int, start: int)
    ensures Key(userId) in Stored(redis, userId, start)
    ensures Lookup(Stored(redis, userId, start), userId) == Some(Int(start))
  {
    ParseIntOfIntToString(start);
  }

  /** `setInterval` is an upsert: a second call overwrites the first. */
  lemma SetOverwrites(redis: map<string, string>, userId: int, t1: int, t2: int)
    ensures Stored(Stored(redis, userId, t1), userId, t2) == Stored(redis, userId, t2)
    ensures Lookup(Stored(Stored(redis, userId, t1), userId, t2), userId) == Some(Int(t2))
  {
    var k := Key(userId);
    assert redis[k := IntToString(t1)][k := IntToString(t2)] == redis[k := IntToString(t2)];
    SetThenGet(redis, userId, t2);
  }

  /** After `removeInterval(u)` the entry is gone, and removing an absent
      entry changes nothing. */
  lemma RemoveThenGet(redis: map<string, string>, userId: int)
    ensures Key(userId) !in Removed(redis, userId)
    ensures Lookup(Removed(redis, userId), userId) == None
    ensures Key(userId) !in redis ==> Removed(redis, userId) == redis
  {
  }

  /** `getInterval(u)` is `undefined` exactly when no key for `u` exists. */
  lemma LookupUndefinedIff(redis: map<string, string>, userId: int)
    ensures Lookup(redis, userId).None? <==> Key(userId) !in redis
  {
  }

  /** Setting or removing one user's entry leaves every other user's entry as
      it was. */
  lemma OthersUnchanged(redis: map<string, string>, u: int, v: int, start: int)
    requires u != v
    ensures Lookup(Stored(redis, u, start), v) == Lookup(redis, v)
    ensures Lookup(Removed(redis, u), v) == Lookup(redis, v)
  {
    if Key(u) == Key(v) {
      KeyInjective(u, v);
    }
  }

  /** Writes through this class keep the table well formed. */
  lemma StoredWellFormed(redis: map<string, string>, userId: int, start: int)
    requires WellFormed(redis)
    ensures WellFormed(Stored(redis, userId, start))
    ensures WellFormed(Removed(redis, userId))
  {
    KeyDecodes(userId);
    IntToStringIsCanonical(start);
  }

  /** In a well-formed table a user has at most one key, and only its own. */
  lemma {:induction false} KeysOfWellFormed(redis: map<string, string>, userId: int)
    requires WellFormed(redis)
    ensures KeysOf(redis, userId) == if Key(userId) in redis then {Key(userId)} else {}
  {
    KeyDecodes(userId);
    forall k | k in KeysOf(redis, userId)
      ensures k == Key(userId)
    {
    }
  }

  /** After `setInterval(u, t)` a well-formed table holds exactly one key for `u`. */
  lemma SetLeavesOneKey(redis: map<string, string>, userId: int, start: int)
    requires WellFormed(redis)
    ensures KeysOf(Stored(redis, userId, start), userId) == {Key(userId)}
  {
    StoredWellFormed(redis, userId, start);
    KeysOfWellFormed(Stored(redis, userId, start), userId);
  }

  // ---------------------------------------------------------------------
  // The listing

  /** In a well-formed table each listed row carries its key's user and that
      user's stored time. */
  lemma ListingDecodes(redis: map<string, string>, keys: seq<string>, rows: seq<Interval>, i: nat)
    requires WellFormed(redis) && IsListing(redis, keys, rows)
    requires i < |rows|
    ensures rows[i].userId.Int? && Key(rows[i].userId.value) == keys[i]
    ensures Lookup(redis, rows[i].userId.value) == Some(rows[i].start) && rows[i].start.Int?
  {
    assert keys[i] in MatchingKeys(redis);
  }

  /** Every stored user appears in the listing, with its time, whatever
      else the table holds. */
  lemma ListingCovers(redis: map<string, string>, keys: seq<string>, rows: seq<Interval>, userId: int)
    requires IsListing(redis, keys, rows)
    requires Key(userId) in redis
    ensures exists i :: 0 <= i < |rows| && rows[i] == Interval(Int(userId), ParseInt(redis[Key(userId)]))
  {
    KeyDecodes(userId);
    assert Key(userId) in MatchingKeys(redis);
    var i :| 0 <= i < |keys| && keys[i] == Key(userId);
    assert rows[i] == Interval(Int(userId), ParseInt(redis[Key(userId)]));
  }

  /** A well-formed listing names each user at most once. */
  lemma ListingDistinctUsers(redis: map<string, string>, keys: seq<string>, rows: seq<Interval>)
    requires WellFormed(redis) && IsListing(redis, keys, rows)
    ensures forall i, j :: 0 <= i < j < |rows| ==> rows[i].userId != rows[j].userId
  {
    forall i, j | 0 <= i < j < |rows|
      ensures rows[i].userId != rows[j].userId
    {
      ListingDecodes(redis, keys, rows, i);
      ListingDecodes(redis, keys, rows, j);
    }
  }

  // ---------------------------------------------------------------------
  // The class

  /** `IntervalHandler`: the operations on the table, over the Redis
      database held in `client`. */
  class IntervalHandler {
    var client: map<string, string>

    /** Connecting to a database that already holds `contents`. */
    constructor (contents: map<string, string>)
      ensures client == contents
    {
      client := contents;
    }

    /** `isIntervalSet`: `EXISTS` counts the key, and the answer is a
        positive count. */
    method IsIntervalSet(userId: int) returns (isSet: bool)
      ensures isSet <==> Key(userId) in client
    {
      var count := if Key(userId) in client then 1 else 0;
      isSet := count > 0;
    }

    /** `getInterval`: `undefined` when no entry exists, otherwise the parsed
        stored text. */
    method GetInterval(userId: int) returns (r: Option<ParsedInt>)
      ensures r.None? <==> Key(userId) !in client
      ensures r == Lookup(client, userId)
    {
      var isSet := IsIntervalSet(userId);
      if isSet {
        var interval := client[Key(userId)];
        return Some(ParseInt(interval));
      }
      return None;
    }

    /** `setInterval`: `SET` writes the number's text under the user's key. */
    method SetInterval(userId: int, interval: int)
      modifies this
      ensures client == Stored(old(client), userId, interval)
    {
      client := client[Key(userId) := IntToString(interval)];
    }

    /** `removeInterval`: `DEL` of the user's key. */
    method RemoveInterval(userId: int)
      modifies this
      ensures client == Removed(old(client), userId)
    {
      client := client - {Key(userId)};
    }

    /** `KEYS intervals:*`: every matching key once, in the order Redis
        returns them (any order). */
    method Keys() returns (keys: seq<string>)
      ensures forall k :: k in keys <==> k in MatchingKeys(client)
      ensures forall i, j :: 0 <= i < j < |keys| ==> keys[i] != keys[j]
      ensures |keys| == |MatchingKeys(client)|
    {
      var pending := MatchingKeys(client);
      ghost var all := pending;
      keys := [];
      while pending != {}
        invariant pending <= all
        invariant forall k :: k in keys <==> k in all && k !in pending
        invariant forall i, j :: 0 <= i < j < |keys| ==> keys[i] != keys[j]
        invariant |keys| + |pending| == |all|
        decreases pending
      {
        var key :| key in pending;
        assert key !in keys;
        keys := keys + [key];
        pending := pending - {key};
      }
    }

    /** `getAllIntervals`: the matching keys, then one row per key, in the
        order of the keys. */
    method GetAllIntervals() returns (rows: seq<Interval>, ghost keys: seq<string>)
      ensures IsListing(client, keys, rows)
      ensures |rows| == |MatchingKeys(client)|
    {
      var found := Keys();
      keys := found;
      rows := [];
      for i := 0 to |found|
        invariant |rows| == i
        invariant forall j :: 0 <= j < i ==>
          found[j] in client && Prefix <= found[j] && rows[j] == Decode(found[j], client[found[j]])
      {
        assert found[i] in MatchingKeys(client);
        var interval := client[found[i]];
        rows := rows + [Decode(found[i], interval)];
      }
    }
  }
}
