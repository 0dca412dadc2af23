/**
 * The Redis commands the services issue (GET, SET with expiry, INCR, DEL,
 * EXPIRE) over a keyspace of string values. Expiry is not driven by a clock:
 * a key with a time-to-live disappears when the explicit `Lapse` step is
 * taken. When the server is down every command fails and changes nothing.
 */
module Cache {
  import opened Wrappers
  import Strconv

  /** A stored value and, for a volatile key, its time-to-live in seconds. */
  datatype Item = Item(value: string, ttl: Option<int>)

  type Keyspace = map<string, Item>

  /** The outcome of GET: the value, a miss (redis.Nil), or a failure to reach the server. */
  datatype Reply = Hit(value: string) | Miss | Fault

  /** SET key value EX seconds; an expiration of 0 makes the key persistent. */
  function Put(ks: Keyspace, key: string, value: string, seconds: int): (r: Keyspace)
    ensures r.Keys == ks.Keys + {key} && r[key].value == value
    ensures forall k :: k in ks && k != key ==> r[k] == ks[k]
  {
    ks[key := Item(value, if seconds > 0 then Some(seconds) else None)]
  }

  /**
   * INCR key: an absent key counts as 0; a value that is not a decimal
   * integer makes the command fail; the time-to-live is kept.
   */
  function Incremented(ks: Keyspace, key: string): (r: Option<(Keyspace, int)>)
    ensures r.Some? ==> r.value.0.Keys == ks.Keys + {key}
    ensures r.Some? ==> forall k :: k in ks && k != key ==> r.value.0[k] == ks[k]
    ensures r.Some? ==> Strconv.Atoi(r.value.0[key].value) == Some(r.value.1)
    ensures r.Some? && key in ks ==> r.value.0[key].ttl == ks[key].ttl
  {
    if key !in ks then
      Strconv.AtoiItoa(1);
      Some((ks[key := Item(Strconv.Itoa(1), None)], 1))
    else match Strconv.Atoi(ks[key].value)
      case None => None
      case Some(n) =>
        Strconv.AtoiItoa(n + 1);
        Some((ks[key := ks[key].(value := Strconv.Itoa(n + 1))], n + 1))
  }

  /** The keyspace after INCR key, which changes nothing when the value is not a number. */
  function AfterIncr(ks: Keyspace, key: string): (r: Keyspace)
    ensures Incremented(ks, key).None? ==> r == ks
    ensures Incremented(ks, key).Some? ==> key in r && CountIn(r, key) == CountIn(ks, key) + 1
    ensures forall k :: k in ks && k != key ==> k in r && r[k] == ks[k]
  {
    match Incremented(ks, key)
    case Some(p) => IncrementAddsOne(ks, key); p.0
    case None => ks
  }

  /** EXPIRE key seconds: only an existing key gets a time-to-live. */
  function WithExpiry(ks: Keyspace, key: string, seconds: int): (r: Keyspace)
    ensures r.Keys == ks.Keys
    ensures key in ks ==> r[key] == Item(ks[key].value, Some(seconds))
    ensures forall k :: k in ks && k != key ==> r[k] == ks[k]
  {
    if key in ks then ks[key := ks[key].(ttl := Some(seconds))] else ks
  }

  /** GET key followed by go-redis's Int() with the error dropped: a miss or a non-number reads as 0. */
  function CountIn(ks: Keyspace, key: string): int {
    if key !in ks then 0
    else match Strconv.Atoi(ks[key].value)
      case Some(n) => n
      case None => 0
  }

  /** The count after an increment is one more than the count before it. */
  lemma IncrementAddsOne(ks: Keyspace, key: string)
    requires Incremented(ks, key).Some?
    ensures Incremented(ks, key).value.1 == CountIn(ks, key) + 1
    ensures CountIn(Incremented(ks, key).value.0, key) == CountIn(ks, key) + 1
  {
  }

  class Redis {
    var keys: Keyspace
    var up: bool

    constructor (up: bool)
      ensures keys == map[] && this.up == up
    {
      keys := map[];
      this.up := up;
    }

    function Get(key: string): (r: Reply)
      reads this
      ensures !up ==> r == Fault
      ensures up ==> (r.Hit? <==> key in keys) && (r.Miss? <==> key !in keys)
      ensures r.Hit? ==> r.value == keys[key].value
    {
      if !up then Fault else if key in keys then Hit(keys[key].value) else Miss
    }

    /** GET followed by Int() with the error dropped. */
    function Count(key: string): int
      reads this
    {
      if up then CountIn(keys, key) else 0
    }

    method Set(key: string, value: string, seconds: int) returns (ok: bool)
      modifies this
      ensures up == old(up) && ok == up
      ensures keys == if ok then Put(old(keys), key, value, seconds) else old(keys)
      ensures !ok ==> unchanged(this)
    {
      ok := up;
      if ok {
        keys := Put(keys, key, value, seconds);
      }
    }

    /** INCR: the new count, or None when the server is down or the value is not a number. */
    method Incr(key: string) returns (count: Option<int>)
      modifies this
      ensures up == old(up)
      ensures count.Some? <==> old(up) && Incremented(old(keys), key).Some?
      ensures count.Some? ==> Some((keys, count.value)) == Incremented(old(keys), key)
      ensures count.None? ==> unchanged(this)
      ensures keys == if old(up) then AfterIncr(old(keys), key) else old(keys)
    {
      if up {
        match Incremented(keys, key)
        case Some(r) =>
          keys := r.0;
          count := Some(r.1);
        case None =>
          count := None;
      } else {
        count := None;
      }
    }

    method Del(key: string)
      modifies this
      ensures up == old(up)
      ensures keys == if up then old(keys) - {key} else old(keys)
      ensures !up ==> unchanged(this)
    {
      if up {
        keys := keys - {key};
      }
    }

    method Expire(key: string, seconds: int)
      modifies this
      ensures up == old(up)
      ensures keys == if up then WithExpiry(old(keys), key, seconds) else old(keys)
      ensures !up ==> unchanged(this)
    {
      if up {
        keys := WithExpiry(keys, key, seconds);
      }
    }

    /** Time passes until the key's time-to-live runs out. */
    method Lapse(key: string)
      requires key in keys && keys[key].ttl.Some?
      modifies this
      ensures up == old(up)
      ensures keys == old(keys) - {key}
    {
      keys := keys - {key};
    }
  }
}
