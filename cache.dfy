/** The persistent key-value store that holds the streaming checkpoint
    (bank2mqtt/cache.py). The shelve file is modelled by its contents, a map
    that the mutating methods reassign. */
module CacheStore {

  import opened Common

  /** Python's `KeyError`, raised by `cache[key]` and `del cache[key]`. */
  datatype KeyError = KeyError(key: string)

  class Cache {
    /** The contents of the lazily opened shelf. */
    var shelf: map<string, Value>

    /** Opening a cache finds whatever an earlier process left in its file. */
    constructor (persisted: map<string, Value>)
      ensures shelf == persisted
    {
      shelf := persisted;
    }

    /** `set(key, value)`: stores `value` under `key`, nothing else changes. */
    method Set(key: string, value: Value)
      modifies this
      ensures shelf == old(shelf)[key := value]
    {
      shelf := shelf[key := value];
    }

    /** `get(key, default)` */
    method Get(key: string, default: Value) returns (v: Value)
      ensures key in shelf ==> v == shelf[key]
      ensures key !in shelf ==> v == default
    {
      v := Lookup(shelf, key, default);
    }

    /** `delete(key)`: reports whether the key existed and removes it. */
    method Delete(key: string) returns (existed: bool)
      modifies this
      ensures existed <==> key in old(shelf)
      ensures shelf == old(shelf) - {key}
    {
      if key in shelf {
        shelf := shelf - {key};
        existed := true;
      } else {
        existed := false;
      }
    }

    /** `exists(key)` */
    method Exists(key: string) returns (b: bool)
      ensures b <==> key in shelf
    {
      b := key in shelf;
    }

    /** `clear()` */
    method Clear()
      modifies this
      ensures shelf == map[]
    {
      shelf := map[];
    }

    /** `keys()`, as the set of keys (the shelf's iteration order is not modelled). */
    method Keys() returns (ks: set<string>)
      ensures forall k :: k in ks <==> k in shelf
    {
      ks := shelf.Keys;
    }

    /** `to_dict()` */
    method ToDict() returns (d: map<string, Value>)
      ensures d.Keys == shelf.Keys
      ensures forall k :: k in d ==> d[k] == shelf[k]
    {
      d := shelf;
    }

    /** `cache[key]`: a stored `None` is returned; only an absent key raises. */
    method GetItem(key: string) returns (r: Result<Value, KeyError>)
      ensures r.Err? <==> key !in shelf
      ensures r.Ok? ==> r.value == shelf[key]
      ensures r.Err? ==> r.error == KeyError(key)
    {
      var v := Get(key, Null);
      if v == Null {
        var present := Exists(key);
        if !present {
          return Err(KeyError(key));
        }
      }
      return Ok(v);
    }

    /** `cache[key] = value` */
    method SetItem(key: string, value: Value)
      modifies this
      ensures shelf == old(shelf)[key := value]
    {
      Set(key, value);
    }

    /** `del cache[key]`: raises exactly when the key is absent. */
    method DelItem(key: string) returns (o: Outcome<KeyError>)
      modifies this
      ensures o.Fail? <==> key !in old(shelf)
      ensures o.Fail? ==> o.error == KeyError(key)
      ensures shelf == old(shelf) - {key}
    {
      var existed := Delete(key);
      if !existed {
        return Fail(KeyError(key));
      }
      return Pass;
    }

    /** `key in cache` agrees with `exists(key)`. */
    method Contains(key: string) returns (b: bool)
      ensures b <==> key in shelf
    {
      b := Exists(key);
    }

    /** `len(cache)` */
    method Len() returns (n: nat)
      ensures n == |shelf|
    {
      n := |shelf|;
    }
  }

  /** After `set(k, v)`, `get(k, d)` returns `v`, `exists(k)` holds and every
      other key reads as before. */
  method SetThenRead(c: Cache, k: string, v: Value, d: Value, other: string)
    returns (got: Value, present: bool, otherBefore: Value, otherAfter: Value)
    requires other != k
    modifies c
    ensures got == v && present
    ensures otherAfter == otherBefore
  {
    otherBefore := c.Get(other, d);
    c.Set(k, v);
    got := c.Get(k, d);
    present := c.Exists(k);
    otherAfter := c.Get(other, d);
  }

  /** After `clear()`, the length is 0 and no key is present. */
  method ClearThenRead(c: Cache, k: string) returns (n: nat, present: bool, item: Result<Value, KeyError>)
    modifies c
    ensures n == 0 && !present
    ensures item == Err(KeyError(k))
  {
    c.Clear();
    n := c.Len();
    present := c.Contains(k);
    item := c.GetItem(k);
  }
}
