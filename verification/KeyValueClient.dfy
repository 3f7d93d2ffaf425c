/** The client side of the key-value store.  An RPC is a call on the server object. */
module KeyValueClient {
  import opened Results
  import opened KeyValueDataStructure
  import opened KeyValueService

  /** All or nothing: the values of all keys, or null when one of them has none. */
  function Fetch(store: Store, keys: seq<string>): Option<seq<string>> {
    if forall i :: 0 <= i < |keys| ==> Values(store, keys[i]) != []
    then Some(AllValues(store, keys))
    else None
  }

  /** One key: null exactly when the key has no values. */
  function Lookup(store: Store, key: string): Option<seq<string>> {
    if Values(store, key) == [] then None else Some(Values(store, key))
  }

  lemma FetchOne(store: Store, key: string)
    ensures Fetch(store, [key]) == Lookup(store, key)
  {
    assert forall i :: 0 <= i < |[key]| ==> [key][i] == key;
    assert [key][..0] == [];
    assert Fetch(store, [key]).Some? <==> Values(store, [key][0]) != [];
    assert AllValues(store, [key]) == Values(store, key);
  }

  function Flatten(lists: seq<seq<string>>): seq<string> {
    if lists == [] then [] else lists[0] + Flatten(lists[1..])
  }

  lemma {:induction false} FlattenLast(lists: seq<seq<string>>, last: seq<string>)
    ensures Flatten(lists + [last]) == Flatten(lists) + last
  {
    if lists == [] {
      assert [last][1..] == [];
    } else {
      assert (lists + [last])[1..] == lists[1..] + [last];
      FlattenLast(lists[1..], last);
    }
  }

  lemma {:induction false} AllValuesFlatten(store: Store, keys: seq<string>, lists: seq<seq<string>>)
    requires |lists| == |keys|
    requires forall i :: 0 <= i < |keys| ==> keys[i] in store && lists[i] == store[keys[i]]
    ensures AllValues(store, keys) == Flatten(lists)
    decreases |keys|
  {
    if keys != [] {
      var n := |keys| - 1;
      AllValuesFlatten(store, keys[..n], lists[..n]);
      FlattenLast(lists[..n], lists[n]);
      assert lists == lists[..n] + [lists[n]];
    }
  }

  /** On every store that mutations can build, a null result means that some key is absent: a key that
      is present never looks missing.  Otherwise the result is the stored lists, one after another. */
  lemma FetchIsAllOrNothing(ops: seq<Op>, keys: seq<string>, lists: seq<seq<string>>)
    ensures var store := Replay(map[], ops);
            && (Fetch(store, keys) == None <==> exists i :: 0 <= i < |keys| && keys[i] !in store)
            && (|lists| == |keys| && (forall i :: 0 <= i < |keys| ==> keys[i] in store && lists[i] == store[keys[i]])
                ==> Fetch(store, keys) == Some(Flatten(lists)))
  {
    var store := Replay(map[], ops);
    ReplayNoEmptyLists(map[], ops);
    forall i | 0 <= i < |keys|
      ensures keys[i] in store <==> Values(store, keys[i]) != []
    {
    }
    if |lists| == |keys| && forall i :: 0 <= i < |keys| ==> keys[i] in store && lists[i] == store[keys[i]] {
      AllValuesFlatten(store, keys, lists);
    }
  }

  lemma StreamIsFetched(store: Store, keys: seq<string>, status: Status, replies: seq<string>)
    requires Streams(store, keys, status, replies)
    ensures Fetch(store, keys) == if status == OK then Some(replies) else None
  {
  }

  class KeyValueClient {
    const server: KeyValueStoreImpl

    constructor (server: KeyValueStoreImpl)
      ensures this.server == server
    {
      this.server := server;
    }

    method Put(key: string, val: string) returns (ok: bool)
      requires server.Valid()
      modifies server.storage, server.disk
      ensures server.Valid() && ok
      ensures server.State() == AfterOp(old(server.State()), Op.Put(key, val))
    {
      var status := server.Put(key, val);
      return status == OK;
    }

    method Get(keys: seq<string>) returns (result: Option<seq<string>>)
      ensures result == Fetch(server.storage.storageMap, keys)
    {
      var status, replies := server.Get(keys);
      var values := [];
      for i := 0 to |replies|
        invariant values == replies[..i]
      {
        values := values + [replies[i]];
      }
      assert values == replies;
      StreamIsFetched(server.storage.storageMap, keys, status, replies);
      if status != OK {
        return None;
      }
      return Some(values);
    }

    method GetOne(key: string) returns (result: Option<seq<string>>)
      ensures result == Lookup(server.storage.storageMap, key)
    {
      FetchOne(server.storage.storageMap, key);
      result := Get([key]);
    }

    method Remove(key: string) returns (ok: bool)
      requires server.Valid()
      modifies server.storage, server.disk
      ensures server.Valid() && ok
      ensures server.State() == AfterOp(old(server.State()), Op.Remove(key))
    {
      var status := server.Remove(key);
      return status == OK;
    }
  }
}
