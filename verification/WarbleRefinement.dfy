/** The key-value store as a representation of the social network, and the whole stack as an
    implementation of it. */
module WarbleRefinement {
  import opened KeyValueDataStructure
  import opened KeyValueService
  import opened WarbleModel
  import opened SocialNetwork
  import opened WarbleService

  function Serialized(p: Platform, ws: seq<Warble>): seq<string> {
    seq(|ws|, i requires 0 <= i < |ws| => p.serialize(ws[i]))
  }

  /** What the store has to hold under a key. */
  function Stored(p: Platform, net: Network, key: string): seq<string> {
    if USER <= key then
      if key[|USER|..] in net.users then [key[|USER|..]] else []
    else if FOLLOWING <= key then
      Following(net.follows, key[|FOLLOWING|..])
    else if FOLLOWED_BY <= key then
      Followers(net.follows, key[|FOLLOWED_BY|..])
    else
      Serialized(p, WithId(net.posts, key))
  }

  ghost predicate Represents(p: Platform, store: Store, net: Network) {
    NoEmptyLists(store) && forall k :: Values(store, k) == Stored(p, net, k)
  }

  lemma ValuesAfterPut(store: Store, key: string, value: string, k: string)
    ensures Values(Apply(store, Put(key, value)), k) == Values(store, k) + if k == key then [value] else []
  {
  }

  /** A change of the network that adds one value under one key is carried out by one put. */
  lemma PutRepresents(p: Platform, store: Store, net: Network, key: string, value: string, net': Network)
    requires Represents(p, store, net)
    requires forall k :: Stored(p, net', k) == Stored(p, net, k) + if k == key then [value] else []
    ensures Represents(p, Apply(store, Put(key, value)), net')
  {
    forall k
      ensures Values(Apply(store, Put(key, value)), k) == Stored(p, net', k)
    {
      ValuesAfterPut(store, key, value, k);
    }
  }

  /** A key with a prefix is the key of the name after the prefix. */
  lemma KeyOfName(prefix: string, key: string)
    requires prefix <= key
    ensures prefix + key[|prefix|..] == key
  {
  }

  lemma RegisterRepresents(p: Platform, store: Store, net: Network, u: string)
    requires Represents(p, store, net) && u !in net.users
    ensures Represents(p, Apply(store, Put(UserKey(u), u)), net.(users := net.users + {u}))
  {
    var net' := net.(users := net.users + {u});
    forall k
      ensures Stored(p, net', k) == Stored(p, net, k) + if k == UserKey(u) then [u] else []
    {
      NameKeys(u);
      if USER <= k {
        KeyOfName(USER, k);
      }
    }
    PutRepresents(p, store, net, UserKey(u), u, net');
  }

  lemma WithIdLast(posts: seq<Warble>, w: Warble, id: string)
    ensures WithId(posts + [w], id) == WithId(posts, id) + if w.id == id then [w] else []
  {
    assert (posts + [w])[..|posts|] == posts;
  }

  lemma PostRepresents(p: Platform, store: Store, net: Network, w: Warble)
    requires Represents(p, store, net) && !IsNameKey(w.id)
    ensures Represents(p, Apply(store, Put(w.id, p.serialize(w))), net.(posts := net.posts + [w]))
  {
    var net' := net.(posts := net.posts + [w]);
    forall k
      ensures Stored(p, net', k) == Stored(p, net, k) + if k == w.id then [p.serialize(w)] else []
    {
      if !IsNameKey(k) {
        WithIdLast(net.posts, w, k);
      }
    }
    PutRepresents(p, store, net, w.id, p.serialize(w), net');
  }

  lemma FollowStored(p: Platform, net: Network, u: string, v: string, k: string)
    ensures Stored(p, net.(follows := net.follows + [Edge(u, v)]), k)
         == Stored(p, net, k) + (if k == FollowingKey(u) then [v] else [])
                              + (if k == FollowedByKey(v) then [u] else [])
  {
    var follows' := net.follows + [Edge(u, v)];
    assert follows'[..|net.follows|] == net.follows;
    NameKeys(u);
    NameKeys(v);
    PrefixesDisjoint(k);
    if FOLLOWING <= k {
      KeyOfName(FOLLOWING, k);
    } else if FOLLOWED_BY <= k {
      KeyOfName(FOLLOWED_BY, k);
    }
  }

  lemma FollowRepresents(p: Platform, store: Store, net: Network, u: string, v: string)
    requires Represents(p, store, net)
    ensures Represents(p, Apply(Apply(store, Put(FollowingKey(u), v)), Put(FollowedByKey(v), u)),
                       net.(follows := net.follows + [Edge(u, v)]))
  {
    var half := Apply(store, Put(FollowingKey(u), v));
    var full := Apply(half, Put(FollowedByKey(v), u));
    forall k
      ensures Values(full, k) == Stored(p, net.(follows := net.follows + [Edge(u, v)]), k)
    {
      ValuesAfterPut(store, FollowingKey(u), v, k);
      ValuesAfterPut(half, FollowedByKey(v), u, k);
      FollowStored(p, net, u, v, k);
    }
  }

  // ---- reads ----

  lemma UserPresent(p: Platform, store: Store, net: Network, u: string)
    requires Represents(p, store, net)
    ensures Present(store, UserKey(u)) <==> u in net.users
  {
    NameKeys(u);
    assert Values(store, UserKey(u)) == Stored(p, net, UserKey(u));
  }

  lemma IdPresent(p: Platform, store: Store, net: Network, id: string)
    requires Represents(p, store, net) && !IsNameKey(id)
    ensures Values(store, id) == Serialized(p, WithId(net.posts, id))
    ensures Present(store, id) <==> Posted(net.posts, id)
  {
    WithIdFirst(net.posts, id);
    assert Values(store, id) == Stored(p, net, id);
  }

  /** The id is the key of a name, and something is stored under it.  No post has such an id. */
  predicate NameKeyPresent(p: Platform, net: Network, id: string) {
    IsNameKey(id) && Stored(p, net, id) != []
  }

  lemma NameKeyNotPosted(p: Platform, net: Network, id: string)
    requires Inv(p, net) && IsNameKey(id)
    ensures !Posted(net.posts, id) && WithId(net.posts, id) == []
  {
    WithIdFirst(net.posts, id);
    if Posted(net.posts, id) {
      MintedId(p, net.posts[First(net.posts, id)]);
    }
  }

  lemma ParentShape(p: Platform, net: Network, id: string)
    requires Inv(p, net) && |WithId(net.posts, id)| == 1
    ensures !IsNameKey(WithId(net.posts, id)[0].parentId)
  {
    WithIdFirst(net.posts, id);
    var n := First(net.posts, id);
    var parentId := net.posts[n].parentId;
    if parentId != "" {
      var j :| 0 <= j < n && net.posts[..n][j].id == parentId;
      assert net.posts[j].id == Mint(p, net.posts[j]);
      MintedId(p, net.posts[j]);
    }
  }

  lemma RootHalts(p: Platform, store: Store, net: Network, id: string)
    requires Faithful(p) && Represents(p, store, net) && Inv(p, net)
    requires Single(store, id) && Held(p, store, id).parentId == ""
    ensures HaltsIn(p, store, id, 1) && WalkIn(p, store, id, 1) == [Held(p, store, id)]
  {
    IdPresent(p, store, net, "");
    NoPostWithEmptyId(net.posts);
    assert !Single(store, "");
    assert WalkIn(p, store, "", 0) == [];
  }

  lemma SingleHeld(p: Platform, store: Store, net: Network, id: string)
    requires Faithful(p) && Represents(p, store, net) && !IsNameKey(id)
    ensures Single(store, id) <==> |WithId(net.posts, id)| == 1
    ensures Single(store, id) ==> Held(p, store, id) == WithId(net.posts, id)[0]
  {
    IdPresent(p, store, net, id);
    if Single(store, id) {
      assert Values(store, id)[0] == p.serialize(WithId(net.posts, id)[0]);
    }
  }

  lemma ConsWalk(p: Platform, store: Store, id: string, rest: seq<Warble>)
    requires Single(store, id)
    requires var parentId := Held(p, store, id).parentId;
             HaltsIn(p, store, parentId, |rest|) && WalkIn(p, store, parentId, |rest|) == rest
    ensures HaltsIn(p, store, id, |rest| + 1)
    ensures WalkIn(p, store, id, |rest| + 1) == [Held(p, store, id)] + rest
  {
  }

  /** The loop of `Read` ends after one turn per warble of the abstract thread, with that thread,
      whatever the hash function does.  The id is any string but the key of a list or user that is there. */
  lemma {:induction false} WalkIsThread(p: Platform, store: Store, net: Network, id: string)
    requires Faithful(p) && Represents(p, store, net) && Inv(p, net) && !NameKeyPresent(p, net, id)
    ensures HaltsIn(p, store, id, |Thread(net.posts, id)|)
    ensures WalkIn(p, store, id, |Thread(net.posts, id)|) == Thread(net.posts, id)
    decreases First(net.posts, id)
  {
    if IsNameKey(id) {
      NameKeyNotPosted(p, net, id);
      assert Values(store, id) == Stored(p, net, id);
    } else {
      SingleHeld(p, store, net, id);
      if Single(store, id) {
        ParentShape(p, net, id);
        if Held(p, store, id).parentId == "" {
          RootHalts(p, store, net, id);
        } else {
          ParentIsEarlier(net.posts, id);
          WalkIsThread(p, store, net, Held(p, store, id).parentId);
          ConsWalk(p, store, id, Thread(net.posts, Held(p, store, id).parentId));
        }
      }
    }
  }

  /** A read from any id, even the key of a name, ends unless there is one value under it and that value
      parses to a warble that answers the key of a name that is there. */
  lemma AnyKeyHalts(p: Platform, store: Store, net: Network, id: string)
    requires Faithful(p) && Represents(p, store, net) && Inv(p, net)
    requires |Stored(p, net, id)| == 1 ==> !NameKeyPresent(p, net, p.parse(Stored(p, net, id)[0]).parentId)
    ensures Halts(p, store, id)
  {
    assert Values(store, id) == Stored(p, net, id);
    if Single(store, id) {
      var parentId := p.parse(Stored(p, net, id)[0]).parentId;
      WalkIsThread(p, store, net, parentId);
      var n := |Thread(net.posts, parentId)|;
      assert HaltsIn(p, store, id, n + 1);
    } else {
      assert HaltsIn(p, store, id, 0);
    }
  }

  /** A registered user replies to, or reads, the key of a name under which something is stored.  The
      service mistakes that for a warble. */
  predicate NamesPresentKey(p: Platform, net: Network, call: Call) {
    call.username in net.users &&
    match call
    case Post(_, _, parentId, _, _) => NameKeyPresent(p, net, parentId)
    case Read(_, id) => NameKeyPresent(p, net, id)
    case _ => false
  }

  /** One call on a store that represents a network, with the exact condition: it returns and answers as
      the abstract network does if and only if it does not name the key of a name that is there; and then
      it leaves a store that represents the next network. */
  lemma CallRefines(p: Platform, store: Store, net: Network, call: Call)
    requires Faithful(p) && Represents(p, store, net) && Inv(p, net)
    ensures var e, r := Decide(p, store, call), NetStep(p, net, call);
            && (e.Finished? && e.response == r.response <==> !NamesPresentKey(p, net, call))
            && (!NamesPresentKey(p, net, call) ==> Represents(p, Replay(store, e.puts), r.net))
  {
    UserPresent(p, store, net, call.username);
    match call
    case RegisterUser(u) =>
      if u !in net.users {
        RegisterRepresents(p, store, net, u);
        ReplayOne(store, Put(UserKey(u), u));
      }
    case Post(_, _, _, _, _) => PostRefines(p, store, net, call);
    case Follow(u, v) =>
      UserPresent(p, store, net, v);
      if u in net.users && v in net.users && u != v {
        FollowRepresents(p, store, net, u, v);
        ReplayTwo(store, Put(FollowingKey(u), v), Put(FollowedByKey(v), u));
      }
    case Read(_, _) => ReadRefines(p, store, net, call);
    case Profile(u) =>
      NameKeys(u);
      assert Values(store, FollowingKey(u)) == Stored(p, net, FollowingKey(u));
      assert Values(store, FollowedByKey(u)) == Stored(p, net, FollowedByKey(u));
  }

  /** A key is there exactly when a post has this id, or it is the key of a name that is there. */
  lemma KeyPresent(p: Platform, store: Store, net: Network, id: string)
    requires Represents(p, store, net) && Inv(p, net)
    ensures Present(store, id) <==> Posted(net.posts, id) || NameKeyPresent(p, net, id)
    ensures NameKeyPresent(p, net, id) ==> !Posted(net.posts, id) && id != ""
  {
    if IsNameKey(id) {
      NameKeyNotPosted(p, net, id);
      assert Values(store, id) == Stored(p, net, id);
    } else {
      IdPresent(p, store, net, id);
    }
  }

  lemma PostRefines(p: Platform, store: Store, net: Network, call: Call)
    requires Faithful(p) && Represents(p, store, net) && Inv(p, net) && call.Post?
    requires Present(store, UserKey(call.username)) <==> call.username in net.users
    ensures var e, r := Decide(p, store, call), NetStep(p, net, call);
            && (e.Finished? && e.response == r.response <==> !NamesPresentKey(p, net, call))
            && (!NamesPresentKey(p, net, call) ==> Represents(p, Replay(store, e.puts), r.net))
  {
    var Post(u, text, parentId, seconds, useconds) := call;
    KeyPresent(p, store, net, parentId);
    if u in net.users && (parentId == "" || Posted(net.posts, parentId)) {
      var w := NewWarble(p, u, text, parentId, seconds, useconds);
      NewWarbleMinted(p, u, text, parentId, seconds, useconds);
      PostRepresents(p, store, net, w);
      ReplayOne(store, Put(w.id, p.serialize(w)));
    }
  }

  lemma ReadRefines(p: Platform, store: Store, net: Network, call: Call)
    requires Faithful(p) && Represents(p, store, net) && Inv(p, net) && call.Read?
    requires Present(store, UserKey(call.username)) <==> call.username in net.users
    ensures var e, r := Decide(p, store, call), NetStep(p, net, call);
            && (e.Finished? && e.response == r.response <==> !NamesPresentKey(p, net, call))
            && (!NamesPresentKey(p, net, call) ==> Represents(p, Replay(store, e.puts), r.net))
  {
    KeyPresent(p, store, net, call.warbleId);
    if !NameKeyPresent(p, net, call.warbleId) {
      WalkIsThread(p, store, net, call.warbleId);
      WalkIs(p, store, call.warbleId, |Thread(net.posts, call.warbleId)|);
    }
  }

  lemma ReplayOne(store: Store, op: Op)
    ensures Replay(store, [op]) == Apply(store, op)
  {
    ReplayLast(store, [], op);
    assert [] + [op] == [op];
  }

  lemma ReplayTwo(store: Store, first: Op, second: Op)
    ensures Replay(store, [first, second]) == Apply(Apply(store, first), second)
  {
    ReplayOne(store, first);
    ReplayLast(store, [first], second);
    assert [first] + [second] == [first, second];
  }

  /** The contract of the service's methods, read on the abstract network: whatever server object a call
      runs on, if its map represents a network, the call answers as that network does exactly when it does
      not name the key of a name that is there, and then the new map represents the next network. */
  lemma ServedRefines(p: Platform, before: Server, call: Call, after: Server, response: Response, net: Network)
    requires Faithful(p) && Represents(p, before.store, net) && Inv(p, net)
    requires Served(p, before, call, after, response)
    ensures response == NetStep(p, net, call).response <==> !NamesPresentKey(p, net, call)
    ensures !NamesPresentKey(p, net, call) ==> Represents(p, after.store, NetStep(p, net, call).net)
    ensures Inv(p, NetStep(p, net, call).net)
  {
    CallRefines(p, before.store, net, call);
    NetStepKeepsInv(p, net, call);
    AfterOpsStore(before, Decide(p, before.store, call).puts);
  }
}
