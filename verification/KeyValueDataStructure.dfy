/** The multimap behind the key-value server: a list of values per key. */
module KeyValueDataStructure {
  type Store = map<string, seq<string>>

  /** The two mutations. */
  datatype Op = Put(key: string, value: string) | Remove(key: string)

  /** The list under a key; empty when the key is absent. */
  function Values(m: Store, key: string): seq<string> {
    if key in m then m[key] else []
  }

  function Apply(m: Store, op: Op): Store {
    match op
    case Put(k, v) => m[k := Values(m, k) + [v]]
    case Remove(k) => m - {k}
  }

  function Replay(m: Store, ops: seq<Op>): Store {
    if ops == [] then m else Apply(Replay(m, ops[..|ops| - 1]), ops[|ops| - 1])
  }

  /** The mutations of one key, in order. */
  function ForKey(ops: seq<Op>, key: string): seq<Op> {
    if ops == [] then []
    else ForKey(ops[..|ops| - 1], key) +
         if ops[|ops| - 1].key == key then [ops[|ops| - 1]] else []
  }

  /** No key is ever left with an empty list, so an empty list always means an absent key. */
  ghost predicate NoEmptyLists(m: Store) {
    forall k :: k in m ==> m[k] != []
  }

  lemma ReplayLast(m: Store, ops: seq<Op>, op: Op)
    ensures Replay(m, ops + [op]) == Apply(Replay(m, ops), op)
  {
    assert (ops + [op])[..|ops|] == ops;
  }

  lemma {:induction false} ReplayConcat(m: Store, first: seq<Op>, second: seq<Op>)
    ensures Replay(m, first + second) == Replay(Replay(m, first), second)
    decreases |second|
  {
    if second == [] {
      assert first + second == first;
    } else {
      var n := |second| - 1;
      ReplayConcat(m, first, second[..n]);
      assert first + second == (first + second[..n]) + [second[n]];
      ReplayLast(m, first + second[..n], second[n]);
    }
  }

  lemma {:induction false} ReplayNoEmptyLists(m: Store, ops: seq<Op>)
    requires NoEmptyLists(m)
    ensures NoEmptyLists(Replay(m, ops))
    decreases |ops|
  {
    if ops != [] {
      ReplayNoEmptyLists(m, ops[..|ops| - 1]);
    }
  }

  lemma ForKeyLast(ops: seq<Op>, op: Op, key: string)
    ensures ForKey(ops + [op], key) == ForKey(ops, key) + if op.key == key then [op] else []
  {
    assert (ops + [op])[..|ops|] == ops;
  }

  /** Replaying a list and replaying only the mutations of `key` leave the same list under `key`. */
  lemma {:induction false} ReplayPerKey(m: Store, ops: seq<Op>, key: string)
    ensures Values(Replay(m, ops), key) == Values(Replay(m, ForKey(ops, key)), key)
    decreases |ops|
  {
    if ops != [] {
      var front, last := ops[..|ops| - 1], ops[|ops| - 1];
      ReplayPerKey(m, front, key);
      if last.key == key {
        ReplayLast(m, ForKey(front, key), last);
      } else {
        assert ForKey(ops, key) == ForKey(front, key);
      }
    }
  }

  lemma SameValuesSameStore(a: Store, b: Store)
    requires NoEmptyLists(a) && NoEmptyLists(b)
    requires forall k :: Values(a, k) == Values(b, k)
    ensures a == b
  {
    forall k
      ensures k in a <==> k in b
    {
      assert Values(a, k) == Values(b, k);
    }
    forall k | k in a
      ensures a[k] == b[k]
    {
      assert Values(a, k) == Values(b, k);
    }
  }

  /** The order of mutations on different keys is irrelevant: two lists with the same mutations of
      each key, in the same order, replay to the same map. */
  lemma ReplayIgnoresOtherKeys(m: Store, a: seq<Op>, b: seq<Op>)
    requires NoEmptyLists(m)
    requires forall k :: ForKey(a, k) == ForKey(b, k)
    ensures Replay(m, a) == Replay(m, b)
  {
    ReplayNoEmptyLists(m, a);
    ReplayNoEmptyLists(m, b);
    forall k
      ensures Values(Replay(m, a), k) == Values(Replay(m, b), k)
    {
      assert ForKey(a, k) == ForKey(b, k);
      ReplayPerKey(m, a, k);
      ReplayPerKey(m, b, k);
    }
    SameValuesSameStore(Replay(m, a), Replay(m, b));
  }

  predicate PutsOnly(ops: seq<Op>) {
    forall i :: 0 <= i < |ops| ==> ops[i].Put?
  }

  /** How often a value is stored is how often it was put. */
  lemma {:induction false} ValueCount(ops: seq<Op>, key: string, value: string)
    requires PutsOnly(ops)
    ensures multiset(Values(Replay(map[], ops), key))[value] == multiset(ops)[Put(key, value)]
    decreases |ops|
  {
    if ops == [] {
      assert Values(Replay(map[], ops), key) == [];
    } else {
      var front, last := ops[..|ops| - 1], ops[|ops| - 1];
      assert front + [last] == ops;
      assert PutsOnly(front) && last.Put?;
      ValueCount(front, key, value);
      ValueCountLast(front, last, key, value);
    }
  }

  lemma ValueCountLast(front: seq<Op>, last: Op, key: string, value: string)
    requires last.Put?
    requires multiset(Values(Replay(map[], front), key))[value] == multiset(front)[Put(key, value)]
    ensures multiset(Values(Replay(map[], front + [last]), key))[value] == multiset(front + [last])[Put(key, value)]
  {
    ReplayLast(map[], front, last);
    PutCount(Replay(map[], front), last, key, value);
    CountLast(front, last, Put(key, value));
  }

  lemma CountLast(ops: seq<Op>, last: Op, op: Op)
    ensures multiset(ops + [last])[op] == multiset(ops)[op] + if last == op then 1 else 0
  {
    assert multiset(ops + [last]) == multiset(ops) + multiset{last};
  }

  lemma PutCount(m: Store, op: Op, key: string, value: string)
    requires op.Put?
    ensures multiset(Values(Apply(m, op), key))[value]
         == multiset(Values(m, key))[value] + if op == Put(key, value) then 1 else 0
  {
    var before := Values(m, key);
    if op.key == key {
      assert Values(Apply(m, op), key) == before + [op.value];
      assert multiset(before + [op.value]) == multiset(before) + multiset{op.value};
    } else {
      assert Values(Apply(m, op), key) == before;
    }
  }

  /** The values put under a key, in order. */
  function ValuesPut(ops: seq<Op>, key: string): seq<string> {
    if ops == [] then [] else
      var last := ops[|ops| - 1];
      ValuesPut(ops[..|ops| - 1], key) + if last.Put? && last.key == key then [last.value] else []
  }

  lemma {:induction false} ValuesAppended(m: Store, ops: seq<Op>, key: string)
    requires Remove(key) !in ops
    ensures Values(Replay(m, ops), key) == Values(m, key) + ValuesPut(ops, key)
    decreases |ops|
  {
    if ops != [] {
      var front, last := ops[..|ops| - 1], ops[|ops| - 1];
      assert last in ops;
      ValuesAppended(m, front, key);
    }
  }

  /** After any history, a key holds the values put under it since it was last removed, in order. */
  lemma ValuesSinceRemoval(m: Store, before: seq<Op>, key: string, later: seq<Op>)
    requires Remove(key) !in later
    ensures Values(Replay(m, before + [Remove(key)] + later), key) == ValuesPut(later, key)
  {
    ReplayLast(m, before, Remove(key));
    ReplayConcat(m, before + [Remove(key)], later);
    ValuesAppended(Replay(m, before + [Remove(key)]), later, key);
  }

  class Storage {
    var storageMap: Store

    constructor ()
      ensures storageMap == map[]
    {
      storageMap := map[];
    }

    method Put(key: string, val: string) returns (ok: bool)
      modifies this
      ensures ok && storageMap == Apply(old(storageMap), Op.Put(key, val))
    {
      var notFindKey := key !in storageMap;
      if notFindKey {
        storageMap := storageMap[key := []];
      }
      storageMap := storageMap[key := storageMap[key] + [val]];
      return true;
    }

    method Get(key: string) returns (values: seq<string>)
      ensures values == Values(storageMap, key)
    {
      var getSucceed := key in storageMap;
      return if getSucceed then storageMap[key] else [];
    }

    /** Erasing an absent key also counts as success, so this never returns false. */
    method DeleteKey(key: string) returns (ok: bool)
      modifies this
      ensures ok && storageMap == Apply(old(storageMap), Op.Remove(key))
    {
      if key !in storageMap {
        assert storageMap == storageMap - {key};
        return true;
      }
      storageMap := storageMap - {key};
      return true;
    }
  }
}
