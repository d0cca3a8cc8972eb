/** The key-value store the handlers talk to: the in-memory fake whose
    get/set/exists/delete are the whole contract the service relies on. */
module Store {

  datatype Option<T> = None | Some(value: T)

  /** A dictionary from keys to string values, updated in place. */
  class FakeRedis {
    var store: map<string, string>

    constructor ()
      ensures store == map[]
    {
      store := map[];
    }

    /** The stored value for a present key, absent otherwise. */
    method Get(key: string) returns (r: Option<string>)
      ensures r.Some? <==> key in store
      ensures r.Some? ==> r.value == store[key]
    {
      r := if key in store then Some(store[key]) else None;
    }

    /** Stores `value` under `key`, overwriting any previous value. */
    method Set(key: string, value: string) returns (ok: bool)
      modifies this
      ensures store == old(store)[key := value]
      ensures ok
    {
      store := store[key := value];
      ok := true;
    }

    /** 1 when the key is present, 0 otherwise; nothing changes. */
    method Exists(key: string) returns (n: int)
      ensures n == 1 <==> key in store
      ensures n == 0 <==> key !in store
    {
      n := if key in store then 1 else 0;
    }

    /** Pops the key; 1 when something was removed, 0 when it was absent. */
    method Delete(key: string) returns (n: int)
      modifies this
      ensures n == 1 <==> key in old(store)
      ensures n == 0 <==> key !in old(store)
      ensures store == old(store) - {key}
    {
      var popped := if key in store then Some(store[key]) else None;
      store := store - {key};
      n := if popped.Some? then 1 else 0;
    }
  }
}
