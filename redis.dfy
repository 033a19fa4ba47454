/** The key-value store the verification protocol runs against: the part of
    Redis's behaviour that the commands INCR, EXPIRE, TTL, HGETALL, HMSET,
    EXISTS and DEL exhibit, over a map from keys to entries with an optional
    time to live.  Connectivity failures are injected per command: a command
    given a fault returns that error and changes nothing. */
module Redis {
  import opened Wrappers

  /** A value at a key: the integer string INCR maintains, or a hash. */
  datatype Value = Counter(n: int) | Hash(fields: map<string, string>)

  /** Remaining time to live in seconds; NoExpiry is a persistent key. */
  datatype Ttl = NoExpiry | ExpiresIn(seconds: nat)

  datatype Entry = Entry(value: Value, ttl: Ttl)

  type Db = map<string, Entry>

  /** Nil is the client's "no reply" error (redis.Nil); Down stands for a
      connection failure or timeout; WrongType and Overflow are the server's
      own errors for INCR/HGETALL/HMSET on the wrong kind of value and for an
      increment past the 64-bit range. */
  datatype StoreError = Nil | Down | WrongType | Overflow

  datatype Reply<T> = Ok(value: T) | Err(error: StoreError)

  const MaxInt64: int := 0x7fff_ffff_ffff_ffff

  /** One hour, the expiry every key of the protocol is given. */
  const Hour: nat := 3600

  /** The reply of a command that an injected fault may replace. */
  function Faulted<T>(fault: Option<StoreError>, reply: Reply<T>): (r: Reply<T>)
    ensures fault.Some? ==> r == Err(fault.value)
    ensures fault.None? ==> r == reply
  {
    if fault.Some? then Err(fault.value) else reply
  }

  /** INCR: a missing key counts as 0; a hash is the wrong type; the 64-bit
      maximum cannot be incremented. */
  function IncrReply(db: Db, key: string): (r: Reply<int>)
    ensures r.Ok? <==> key !in db || (db[key].value.Counter? && db[key].value.n < MaxInt64)
    ensures r.Ok? ==> r.value == 1 + (if key in db then db[key].value.n else 0)
  {
    if key !in db then Ok(1)
    else match db[key].value
      case Counter(n) => if n < MaxInt64 then Ok(n + 1) else Err(Overflow)
      case Hash(_) => Err(WrongType)
  }

  /** The store after INCR set the counter to v: a new key has no expiry, an
      existing one keeps its own. */
  function Incremented(db: Db, key: string, v: int): (r: Db)
    ensures r.Keys == db.Keys + {key} && r[key].value == Counter(v)
    ensures r[key].ttl == if key in db then db[key].ttl else NoExpiry
    ensures forall k :: k in db && k != key ==> r[k] == db[k]
  {
    db[key := Entry(Counter(v), if key in db then db[key].ttl else NoExpiry)]
  }

  /** EXPIRE: gives an existing key a fresh time to live; a missing key is
      left missing (the command then replies false). */
  function Expired(db: Db, key: string, seconds: nat): (r: Db)
    ensures r.Keys == db.Keys
    ensures key in db ==> r[key] == Entry(db[key].value, ExpiresIn(seconds))
    ensures forall k :: k in db && k != key ==> r[k] == db[k]
  {
    if key in db then db[key := db[key].(ttl := ExpiresIn(seconds))] else db
  }

  /** TTL: -2 for a missing key, -1 for a key without expiry, otherwise the
      remaining seconds; negative exactly when no expiry is pending. */
  function TtlReply(db: Db, key: string): (t: int)
    ensures t < 0 <==> key !in db || db[key].ttl == NoExpiry
  {
    if key !in db then -2
    else match db[key].ttl
      case NoExpiry => -1
      case ExpiresIn(s) => s
  }

  /** HGETALL: a missing key reads as the empty hash; a counter is the wrong
      type. */
  function HGetAllReply(db: Db, key: string): (r: Reply<map<string, string>>)
    ensures r.Ok? <==> key !in db || db[key].value.Hash?
    ensures r.Ok? ==> r.value == if key in db then db[key].value.fields else map[]
  {
    if key !in db then Ok(map[])
    else match db[key].value
      case Hash(fields) => Ok(fields)
      case Counter(_) => Err(WrongType)
  }

  /** HMSET's reply: it fails only on a counter. */
  function HMSetReply(db: Db, key: string): (r: Reply<bool>)
    ensures r.Ok? <==> key !in db || db[key].value.Hash?
  {
    if key in db && db[key].value.Counter? then Err(WrongType) else Ok(true)
  }

  /** The store after HMSET: the given fields overwrite those of the same
      name, the others and the expiry stay; a new key has no expiry. */
  function HashSet(db: Db, key: string, fields: map<string, string>): (r: Db)
    requires key !in db || db[key].value.Hash?
    ensures r.Keys == db.Keys + {key}
    ensures r[key].value.Hash? && fields.Keys <= r[key].value.fields.Keys
    ensures forall f :: f in fields ==> r[key].value.fields[f] == fields[f]
    ensures key in db ==> r[key].ttl == db[key].ttl
    ensures forall k :: k in db && k != key ==> r[k] == db[k]
  {
    if key in db then db[key := Entry(Hash(db[key].value.fields + fields), db[key].ttl)]
    else db[key := Entry(Hash(fields), NoExpiry)]
  }

  /** DEL: removes every listed key. */
  function Deleted(db: Db, keys: seq<string>): (r: Db)
    ensures r.Keys == db.Keys - set k | k in keys
    ensures forall k :: k in r ==> r[k] == db[k]
  {
    map k | k in db && k !in keys :: db[k]
  }

  /** The passing of `elapsed` seconds: keys whose time to live runs out are
      gone, the others have that much less left. */
  function Lapse(db: Db, elapsed: nat): (r: Db)
    ensures forall k :: k in db && db[k].ttl.ExpiresIn? && db[k].ttl.seconds <= elapsed ==> k !in r
    ensures forall k :: k in db && db[k].ttl == NoExpiry ==> k in r && r[k] == db[k]
  {
    map k | k in db && (db[k].ttl.NoExpiry? || db[k].ttl.seconds > elapsed) ::
      match db[k].ttl
      case NoExpiry => db[k]
      case ExpiresIn(s) => db[k].(ttl := ExpiresIn(s - elapsed))
  }

  /** The client handle: its state is the store's content; each method is one
      command, with the fault the environment injects into it. */
  class RedisClient {
    var db: Db

    constructor (db0: Db)
      ensures db == db0
    {
      db := db0;
    }

    method Incr(key: string, fault: Option<StoreError>) returns (r: Reply<int>)
      modifies this
      ensures r == Faulted(fault, IncrReply(old(db), key))
      ensures db == if r.Ok? then Incremented(old(db), key, r.value) else old(db)
    {
      r := Faulted(fault, IncrReply(db, key));
      if r.Ok? {
        db := Incremented(db, key, r.value);
      }
    }

    method Expire(key: string, seconds: nat, fault: Option<StoreError>) returns (r: Reply<bool>)
      modifies this
      ensures r == Faulted(fault, Ok(key in old(db)))
      ensures db == if r.Ok? then Expired(old(db), key, seconds) else old(db)
    {
      r := Faulted(fault, Ok(key in db));
      if r.Ok? {
        db := Expired(db, key, seconds);
      }
    }

    method TTL(key: string, fault: Option<StoreError>) returns (r: Reply<int>)
      ensures r == Faulted(fault, Ok(TtlReply(db, key)))
    {
      r := Faulted(fault, Ok(TtlReply(db, key)));
    }

    method HGetAll(key: string, fault: Option<StoreError>) returns (r: Reply<map<string, string>>)
      ensures r == Faulted(fault, HGetAllReply(db, key))
    {
      r := Faulted(fault, HGetAllReply(db, key));
    }

    method HMSet(key: string, fields: map<string, string>, fault: Option<StoreError>) returns (r: Reply<bool>)
      modifies this
      ensures r == Faulted(fault, HMSetReply(old(db), key))
      ensures db == if r.Ok? then HashSet(old(db), key, fields) else old(db)
    {
      r := Faulted(fault, HMSetReply(db, key));
      if r.Ok? {
        db := HashSet(db, key, fields);
      }
    }

    method Exists(key: string, fault: Option<StoreError>) returns (r: Reply<bool>)
      ensures r == Faulted(fault, Ok(key in db))
    {
      r := Faulted(fault, Ok(key in db));
    }

    method Del(keys: seq<string>, fault: Option<StoreError>) returns (r: Reply<nat>)
      modifies this
      ensures fault.Some? ==> r == Err(fault.value) && db == old(db)
      ensures fault.None? ==> db == Deleted(old(db), keys) && r == Ok(|old(db).Keys - db.Keys|)
    {
      if fault.Some? {
        r := Err(fault.value);
      } else {
        var before := db;
        db := Deleted(db, keys);
        r := Ok(|before.Keys - db.Keys|);
      }
    }
  }
}
