/** The warble service on top of the key-value client. */
module WarbleService {
  import opened Results
  import opened Decimal
  import opened KeyValueDataStructure
  import opened KeyValueService
  import opened KeyValueClient
  import opened WarbleModel

  /** What a call does to the store: it sends these mutations and answers, or it never returns. */
  datatype Effect = Finished(puts: seq<Op>, response: Response) | Diverges

  predicate Present(store: Store, key: string) {
    Values(store, key) != []
  }

  // ---- the walk of Read ----

  /** The walk goes on from a key that holds exactly one value. */
  predicate Single(store: Store, id: string) {
    |Values(store, id)| == 1
  }

  function Held(p: Platform, store: Store, id: string): Warble
    requires Single(store, id)
  {
    p.parse(Values(store, id)[0])
  }

  predicate HaltsIn(p: Platform, store: Store, id: string, n: nat)
    decreases n
  {
    Single(store, id) ==> n > 0 && HaltsIn(p, store, Held(p, store, id).parentId, n - 1)
  }

  /** The warbles met in the first `n` turns of the loop. */
  function WalkIn(p: Platform, store: Store, id: string, n: nat): seq<Warble>
    decreases n
  {
    if Single(store, id) && n > 0
    then [Held(p, store, id)] + WalkIn(p, store, Held(p, store, id).parentId, n - 1)
    else []
  }

  ghost predicate Halts(p: Platform, store: Store, id: string) {
    exists n: nat :: HaltsIn(p, store, id, n)
  }

  ghost function Walk(p: Platform, store: Store, id: string): seq<Warble>
    requires Halts(p, store, id)
  {
    var n: nat :| HaltsIn(p, store, id, n);
    WalkIn(p, store, id, n)
  }

  /** However many turns are allowed, once the walk halts its result is the same. */
  lemma {:induction false} WalkInAgrees(p: Platform, store: Store, id: string, m: nat, n: nat)
    requires HaltsIn(p, store, id, m) && HaltsIn(p, store, id, n)
    ensures WalkIn(p, store, id, m) == WalkIn(p, store, id, n)
    decreases m
  {
    if Single(store, id) {
      WalkInAgrees(p, store, Held(p, store, id).parentId, m - 1, n - 1);
    }
  }

  /** Where the walk halts, it is the warble found and the walk from its parent. */
  lemma WalkInStep(p: Platform, store: Store, id: string, n: nat)
    requires Single(store, id) && HaltsIn(p, store, id, n)
    requires HaltsIn(p, store, Held(p, store, id).parentId, n)
    ensures WalkIn(p, store, id, n)
         == [Held(p, store, id)] + WalkIn(p, store, Held(p, store, id).parentId, n)
  {
    WalkInAgrees(p, store, Held(p, store, id).parentId, n - 1, n);
  }

  lemma WalkIs(p: Platform, store: Store, id: string, n: nat)
    requires HaltsIn(p, store, id, n)
    ensures Halts(p, store, id) && Walk(p, store, id) == WalkIn(p, store, id, n)
  {
    var m: nat :| HaltsIn(p, store, id, m) && Walk(p, store, id) == WalkIn(p, store, id, m);
    WalkInAgrees(p, store, id, m, n);
  }

  // ---- the calls as functions of the store ----

  ghost function Decide(p: Platform, store: Store, call: Call): Effect {
    match call
    case RegisterUser(u) =>
      if Present(store, UserKey(u)) then
        Finished([], Response(ALREADY_EXISTS, RegisterUserReply))
      else
        Finished([Put(UserKey(u), u)], Response(OK, RegisterUserReply))
    case Post(u, text, parentId, seconds, useconds) =>
      if !Present(store, UserKey(u)) || (parentId != "" && !Present(store, parentId)) then
        Finished([], Response(NOT_FOUND, WarbleReply(None)))
      else
        var w := NewWarble(p, u, text, parentId, seconds, useconds);
        Finished([Put(w.id, p.serialize(w))], Response(OK, WarbleReply(Some(w))))
    case Follow(u, v) =>
      if !Present(store, UserKey(u)) || !Present(store, UserKey(v)) || u == v then
        Finished([], Response(NOT_FOUND, FollowReply))
      else
        Finished([Put(FollowingKey(u), v), Put(FollowedByKey(v), u)], Response(OK, FollowReply))
    case Read(u, id) =>
      if !Present(store, UserKey(u)) || !Present(store, id) then
        Finished([], Response(NOT_FOUND, ReadReply([])))
      else if Halts(p, store, id) then
        Finished([], Response(OK, ReadReply(Walk(p, store, id))))
      else
        Diverges
    case Profile(u) =>
      if !Present(store, UserKey(u)) then
        Finished([], Response(NOT_FOUND, ProfileReply([], [])))
      else
        Finished([], Response(OK, ProfileReply(Values(store, FollowedByKey(u)), Values(store, FollowingKey(u)))))
  }

  /** The server before and after a call, and its answer, are as `Decide` says. */
  ghost predicate Served(p: Platform, before: Server, call: Call, after: Server, response: Response) {
    var effect := Decide(p, before.store, call);
    effect.Finished? && response == effect.response && after == AfterOps(before, effect.puts)
  }

  lemma NoPuts(s: Server)
    ensures AfterOps(s, []) == s
  {
  }

  lemma OnePut(s: Server, op: Op)
    ensures AfterOps(s, [op]) == AfterOp(s, op)
  {
    assert [op][..0] == [];
  }

  lemma TwoPuts(s: Server, first: Op, second: Op)
    ensures AfterOps(s, [first, second]) == AfterOp(AfterOp(s, first), second)
  {
    assert [first, second][..1] == [first];
    OnePut(s, first);
  }

  // ---- the service ----

  class WarbleService {
    static method RegisterUser(p: Platform, username: string, kvclient: KeyValueClient) returns (response: Response)
      requires kvclient.server.Valid()
      modifies kvclient.server.storage, kvclient.server.disk
      ensures kvclient.server.Valid()
      ensures Served(p, old(kvclient.server.State()), Call.RegisterUser(username), kvclient.server.State(), response)
    {
      var found := kvclient.GetOne(UserKey(username));
      if found != None {
        return Response(ALREADY_EXISTS, RegisterUserReply);
      }
      OnePut(kvclient.server.State(), Op.Put(UserKey(username), username));
      var _ := kvclient.Put(UserKey(username), username);
      return Response(OK, RegisterUserReply);
    }

    /** The two numbers are the time of day, which the source asks for on its way. */
    static method WarbleMethod(p: Platform, username: string, text: string, parentId: string,
                               seconds: int64, useconds: int64, kvclient: KeyValueClient)
      returns (response: Response)
      requires kvclient.server.Valid()
      modifies kvclient.server.storage, kvclient.server.disk
      ensures kvclient.server.Valid()
      ensures Served(p, old(kvclient.server.State()), Post(username, text, parentId, seconds, useconds),
                     kvclient.server.State(), response)
    {
      var user := kvclient.GetOne(UserKey(username));
      if user == None {
        return Response(NOT_FOUND, WarbleReply(None));
      }
      if |parentId| != 0 {
        var parent := kvclient.GetOne(parentId);
        if parent == None {
          return Response(NOT_FOUND, WarbleReply(None));
        }
      }
      var warble := Warble(username, text, "", parentId, seconds, useconds);
      var serializedWarbleId := p.serialize(warble);
      var warbleId := Print(p.hash(serializedWarbleId));
      warble := warble.(id := warbleId);
      assert warble == NewWarble(p, username, text, parentId, seconds, useconds) by {
        assert Warble(username, text, "", parentId, seconds, useconds).(id := "")
            == Warble(username, text, "", parentId, seconds, useconds);
      }
      OnePut(kvclient.server.State(), Op.Put(warbleId, p.serialize(warble)));
      var _ := kvclient.Put(warbleId, p.serialize(warble));
      return Response(OK, WarbleReply(Some(warble)));
    }

    static method Follow(p: Platform, username: string, toFollow: string, kvclient: KeyValueClient)
      returns (response: Response)
      requires kvclient.server.Valid()
      modifies kvclient.server.storage, kvclient.server.disk
      ensures kvclient.server.Valid()
      ensures Served(p, old(kvclient.server.State()), Call.Follow(username, toFollow),
                     kvclient.server.State(), response)
    {
      var user := kvclient.GetOne(UserKey(username));
      var userToFollow := kvclient.GetOne(UserKey(toFollow));
      if user == None || userToFollow == None {
        return Response(NOT_FOUND, FollowReply);
      }
      if username == toFollow {
        return Response(NOT_FOUND, FollowReply);
      }
      TwoPuts(kvclient.server.State(), Op.Put(FollowingKey(username), toFollow),
              Op.Put(FollowedByKey(toFollow), username));
      var _ := kvclient.Put(FollowingKey(username), toFollow);
      var _ := kvclient.Put(FollowedByKey(toFollow), username);
      return Response(OK, FollowReply);
    }

    /** Total exactly where the call returns at all. */
    static method Read(p: Platform, username: string, id: string, kvclient: KeyValueClient)
      returns (response: Response)
      requires Decide(p, kvclient.server.storage.storageMap, Call.Read(username, id)) != Diverges
      ensures Served(p, kvclient.server.State(), Call.Read(username, id), kvclient.server.State(), response)
    {
      ghost var store := kvclient.server.storage.storageMap;
      var warbleId := id;
      var user := kvclient.GetOne(UserKey(username));
      if user == None {
        return Response(NOT_FOUND, ReadReply([]));
      }
      var serializedWarbles := kvclient.GetOne(warbleId);
      if serializedWarbles == None {
        return Response(NOT_FOUND, ReadReply([]));
      }
      ghost var left: nat :| HaltsIn(p, store, id, left);
      WalkIs(p, store, id, left);
      var warbles := [];
      while serializedWarbles != None && |serializedWarbles.value| == 1
        invariant serializedWarbles == Lookup(store, warbleId)
        invariant HaltsIn(p, store, warbleId, left)
        invariant warbles + WalkIn(p, store, warbleId, left) == Walk(p, store, id)
        decreases left
      {
        var newWarble := p.parse(serializedWarbles.value[0]);
        warbles := warbles + [newWarble];
        warbleId := newWarble.parentId;
        left := left - 1;
        serializedWarbles := kvclient.GetOne(warbleId);
      }
      assert warbles + [] == warbles;
      NoPuts(kvclient.server.State());
      return Response(OK, ReadReply(warbles));
    }

    static method Profile(p: Platform, username: string, kvclient: KeyValueClient) returns (response: Response)
      ensures Served(p, kvclient.server.State(), Call.Profile(username), kvclient.server.State(), response)
    {
      var user := kvclient.GetOne(UserKey(username));
      if user == None {
        return Response(NOT_FOUND, ProfileReply([], []));
      }
      var followingUsernames := kvclient.GetOne(FollowingKey(username));
      var followedByUsernames := kvclient.GetOne(FollowedByKey(username));
      var following, followers := [], [];
      if followingUsernames != None {
        for i := 0 to |followingUsernames.value|
          invariant following == followingUsernames.value[..i]
        {
          following := following + [followingUsernames.value[i]];
        }
      }
      if followedByUsernames != None {
        for i := 0 to |followedByUsernames.value|
          invariant followers == followedByUsernames.value[..i]
        {
          followers := followers + [followedByUsernames.value[i]];
        }
      }
      assert following == Values(kvclient.server.storage.storageMap, FollowingKey(username));
      assert followers == Values(kvclient.server.storage.storageMap, FollowedByKey(username));
      return Response(OK, ProfileReply(followers, following));
    }
  }
}
