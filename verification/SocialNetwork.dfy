/** The abstract social network that the stack implements: who is registered, who followed whom in
    what order, and what was posted in what order.  No keys, no encodings, no log. */
module SocialNetwork {
  import opened Results
  import opened Decimal
  import opened Search
  import opened WarbleModel

  datatype Edge = Edge(follower: string, followee: string)

  datatype Network = Network(users: set<string>, follows: seq<Edge>, posts: seq<Warble>)

  const EMPTY := Network({}, [], [])

  function Following(follows: seq<Edge>, user: string): seq<string> {
    if follows == [] then [] else
      var last := follows[|follows| - 1];
      Following(follows[..|follows| - 1], user) + if last.follower == user then [last.followee] else []
  }

  function Followers(follows: seq<Edge>, user: string): seq<string> {
    if follows == [] then [] else
      var last := follows[|follows| - 1];
      Followers(follows[..|follows| - 1], user) + if last.followee == user then [last.follower] else []
  }

  function WithId(posts: seq<Warble>, id: string): seq<Warble> {
    if posts == [] then [] else
      var last := posts[|posts| - 1];
      WithId(posts[..|posts| - 1], id) + if last.id == id then [last] else []
  }

  /** The position of the first post with this id, or the number of posts. */
  function First(posts: seq<Warble>, id: string): (n: nat)
    ensures n <= |posts|
    ensures n < |posts| ==> posts[n].id == id
    ensures forall i :: 0 <= i < n ==> posts[i].id != id
  {
    FirstWhere(posts, (w: Warble) => w.id == id)
  }

  predicate Posted(posts: seq<Warble>, id: string) {
    exists i :: 0 <= i < |posts| && posts[i].id == id
  }

  /** Ids are not empty, and a parent was posted before its reply. */
  ghost predicate Grounded(posts: seq<Warble>) {
    forall i :: 0 <= i < |posts| ==>
      posts[i].id != "" && (posts[i].parentId == "" || Posted(posts[..i], posts[i].parentId))
  }

  lemma {:induction false} WithIdFirst(posts: seq<Warble>, id: string)
    ensures WithId(posts, id) == [] <==> !Posted(posts, id)
    ensures Posted(posts, id) <==> First(posts, id) < |posts|
    ensures Posted(posts, id) ==> WithId(posts, id)[0] == posts[First(posts, id)]
    ensures forall w :: w in WithId(posts, id) ==> w.id == id
    decreases |posts|
  {
    if posts != [] {
      WithIdFirst(posts[..|posts| - 1], id);
      PostedLast(posts, id);
      FirstOfLonger(posts, id);
    }
  }

  lemma PostedLast(posts: seq<Warble>, id: string)
    requires posts != []
    ensures Posted(posts, id) <==> Posted(posts[..|posts| - 1], id) || posts[|posts| - 1].id == id
    ensures Posted(posts, id) <==> First(posts, id) < |posts|
  {
    var front := posts[..|posts| - 1];
    if Posted(front, id) {
      var i :| 0 <= i < |front| && front[i].id == id;
      assert posts[i].id == id;
    }
    if Posted(posts, id) {
      var i :| 0 <= i < |posts| && posts[i].id == id;
      assert i < |front| ==> front[i].id == id;
    }
  }

  lemma FirstOfLonger(posts: seq<Warble>, id: string)
    requires posts != []
    ensures var m := First(posts[..|posts| - 1], id);
            First(posts, id) == if m < |posts| - 1 || posts[|posts| - 1].id == id then m else |posts|
  {
  }

  lemma ParentIsEarlier(posts: seq<Warble>, id: string)
    requires Grounded(posts) && |WithId(posts, id)| == 1 && WithId(posts, id)[0].parentId != ""
    ensures var parent := WithId(posts, id)[0].parentId;
            Posted(posts, parent) && First(posts, parent) < First(posts, id)
  {
    WithIdFirst(posts, id);
    var n := First(posts, id);
    var parent := posts[n].parentId;
    var i :| 0 <= i < n && posts[..n][i].id == parent;
    assert posts[i].id == parent;
  }

  /** The thread that starts at an id: the one post with that id, then the thread of its parent.  It
      stops at an id that several posts share. */
  ghost function Thread(posts: seq<Warble>, id: string): seq<Warble>
    requires Grounded(posts)
    decreases First(posts, id)
  {
    if |WithId(posts, id)| != 1 then [] else
      var w := WithId(posts, id)[0];
      if w.parentId == "" then [w] else
        ParentIsEarlier(posts, id);
        [w] + Thread(posts, w.parentId)
  }

  datatype Result = Result(net: Network, response: Response)

  /** One call.  `p` only supplies the ids of new posts. */
  ghost function NetStep(p: Platform, net: Network, call: Call): Result
    requires Grounded(net.posts)
  {
    match call
    case RegisterUser(u) =>
      if u in net.users then Result(net, Response(ALREADY_EXISTS, RegisterUserReply))
      else Result(net.(users := net.users + {u}), Response(OK, RegisterUserReply))
    case Post(u, text, parentId, seconds, useconds) =>
      if u !in net.users || (parentId != "" && !Posted(net.posts, parentId)) then
        Result(net, Response(NOT_FOUND, WarbleReply(None)))
      else
        var w := NewWarble(p, u, text, parentId, seconds, useconds);
        Result(net.(posts := net.posts + [w]), Response(OK, WarbleReply(Some(w))))
    case Follow(u, v) =>
      if u !in net.users || v !in net.users || u == v then Result(net, Response(NOT_FOUND, FollowReply))
      else Result(net.(follows := net.follows + [Edge(u, v)]), Response(OK, FollowReply))
    case Read(u, id) =>
      if u !in net.users || !Posted(net.posts, id) then Result(net, Response(NOT_FOUND, ReadReply([])))
      else Result(net, Response(OK, ReadReply(Thread(net.posts, id))))
    case Profile(u) =>
      if u !in net.users then Result(net, Response(NOT_FOUND, ProfileReply([], [])))
      else Result(net, Response(OK, ProfileReply(Followers(net.follows, u), Following(net.follows, u))))
  }

  /** What holds of every reachable network. */
  ghost predicate Inv(p: Platform, net: Network) {
    && Grounded(net.posts)
    && (forall i :: 0 <= i < |net.posts| ==>
          net.posts[i].id == Mint(p, net.posts[i]) && net.posts[i].username in net.users)
    && (forall i :: 0 <= i < |net.follows| ==>
          && net.follows[i].follower in net.users
          && net.follows[i].followee in net.users
          && net.follows[i].follower != net.follows[i].followee)
  }

  lemma GroundedPost(posts: seq<Warble>, w: Warble)
    requires Grounded(posts) && w.id != "" && (w.parentId == "" || Posted(posts, w.parentId))
    ensures Grounded(posts + [w])
  {
    var all := posts + [w];
    forall i | 0 <= i < |all|
      ensures all[i].id != "" && (all[i].parentId == "" || Posted(all[..i], all[i].parentId))
    {
      assert i < |posts| ==> all[..i] == posts[..i];
      assert all[..|posts|] == posts;
    }
  }

  lemma NewWarbleMinted(p: Platform, u: string, text: string, parentId: string, seconds: int64, useconds: int64)
    ensures var w := NewWarble(p, u, text, parentId, seconds, useconds);
            w.id == Mint(p, w) && w.id != "" && !IsNameKey(w.id)
  {
    var w := NewWarble(p, u, text, parentId, seconds, useconds);
    assert w.(id := "") == Warble(u, text, "", parentId, seconds, useconds);
    MintedId(p, w);
  }

  lemma NetStepKeepsInv(p: Platform, net: Network, call: Call)
    requires Inv(p, net)
    ensures Inv(p, NetStep(p, net, call).net)
  {
    match call
    case Post(u, text, parentId, seconds, useconds) =>
      if u in net.users && (parentId == "" || Posted(net.posts, parentId)) {
        NewWarbleMinted(p, u, text, parentId, seconds, useconds);
        GroundedPost(net.posts, NewWarble(p, u, text, parentId, seconds, useconds));
      }
    case RegisterUser(_) =>
    case Follow(_, _) =>
    case Read(_, _) =>
    case Profile(_) =>
  }

  // ---- threads ----

  /** A thread from its two ends and its links, without recursion: it starts at `id`, each warble
      answers the next one, every warble is the only post with its id, and it goes on until there is
      no parent or the parent's id is shared. */
  ghost predicate IsThread(posts: seq<Warble>, id: string, t: seq<Warble>) {
    if t == [] then |WithId(posts, id)| != 1 else
      var end := t[|t| - 1].parentId;
      && t[0].id == id
      && (forall i :: 0 <= i < |t| ==> WithId(posts, t[i].id) == [t[i]])
      && (forall i :: 0 < i < |t| ==> t[i].id == t[i - 1].parentId)
      && (end == "" || |WithId(posts, end)| > 1)
  }

  lemma NoPostWithEmptyId(posts: seq<Warble>)
    requires Grounded(posts)
    ensures WithId(posts, "") == []
  {
    WithIdFirst(posts, "");
  }

  lemma {:induction false} ThreadIsThread(posts: seq<Warble>, id: string)
    requires Grounded(posts)
    ensures IsThread(posts, id, Thread(posts, id))
    decreases First(posts, id)
  {
    WithIdFirst(posts, id);
    if |WithId(posts, id)| == 1 {
      var w := WithId(posts, id)[0];
      if w.parentId != "" {
        ParentIsEarlier(posts, id);
        ThreadIsThread(posts, w.parentId);
        WithIdFirst(posts, w.parentId);
        ConsIsThread(posts, w, Thread(posts, w.parentId));
      }
    }
  }

  lemma ConsIsThread(posts: seq<Warble>, w: Warble, tail: seq<Warble>)
    requires WithId(posts, w.id) == [w] && w.parentId != "" && WithId(posts, w.parentId) != []
    requires IsThread(posts, w.parentId, tail)
    ensures IsThread(posts, w.id, [w] + tail)
  {
    var t := [w] + tail;
    forall i | 0 <= i < |t|
      ensures WithId(posts, t[i].id) == [t[i]]
    {
      assert i > 0 ==> t[i] == tail[i - 1];
    }
    forall i | 0 < i < |t|
      ensures t[i].id == t[i - 1].parentId
    {
      assert t[i] == tail[i - 1] && (i > 1 ==> t[i - 1] == tail[i - 2]);
    }
    assert tail != [] ==> t[|t| - 1] == tail[|tail| - 1];
  }

  lemma {:induction false} ThreadIsUnique(posts: seq<Warble>, id: string, t: seq<Warble>)
    requires Grounded(posts) && IsThread(posts, id, t)
    ensures t == Thread(posts, id)
    decreases First(posts, id)
  {
    if t != [] {
      var w := t[0];
      if w.parentId == "" {
        NoPostWithEmptyId(posts);
        ParentOfFirst(posts, id, t);
      } else {
        ParentIsEarlier(posts, id);
        TailIsThread(posts, id, t);
        ThreadIsUnique(posts, w.parentId, t[1..]);
        assert t == [w] + t[1..];
      }
    }
  }

  lemma ParentOfFirst(posts: seq<Warble>, id: string, t: seq<Warble>)
    requires IsThread(posts, id, t)
    ensures |t| > 1 ==> WithId(posts, t[0].parentId) != []
  {
    assert |t| > 1 ==> WithId(posts, t[1].id) == [t[1]];
  }

  lemma TailIsThread(posts: seq<Warble>, id: string, t: seq<Warble>)
    requires IsThread(posts, id, t) && t != []
    ensures t[0].parentId != "" ==> IsThread(posts, t[0].parentId, t[1..])
  {
    var tail := t[1..];
    if tail != [] {
      assert forall i :: 0 <= i < |tail| ==> tail[i] == t[i + 1];
      assert tail[|tail| - 1] == t[|t| - 1];
    }
  }

  /** The recursive thread and the one described by its links are the same. */
  lemma ThreadCharacterized(posts: seq<Warble>, id: string, t: seq<Warble>)
    requires Grounded(posts)
    ensures t == Thread(posts, id) <==> IsThread(posts, id, t)
  {
    ThreadIsThread(posts, id);
    if IsThread(posts, id, t) {
      ThreadIsUnique(posts, id, t);
    }
  }

  ghost predicate DistinctIds(posts: seq<Warble>) {
    forall i, j :: 0 <= i < j < |posts| ==> posts[i].id != posts[j].id
  }

  lemma DistinctIdsFront(posts: seq<Warble>)
    requires DistinctIds(posts) && posts != []
    ensures DistinctIds(posts[..|posts| - 1])
    ensures !Posted(posts[..|posts| - 1], posts[|posts| - 1].id)
  {
    var front := posts[..|posts| - 1];
    assert forall i :: 0 <= i < |front| ==> front[i] == posts[i];
  }

  lemma {:induction false} DistinctIdsAtMostOne(posts: seq<Warble>, id: string)
    requires DistinctIds(posts)
    ensures |WithId(posts, id)| <= 1
    decreases |posts|
  {
    if posts != [] {
      var front := posts[..|posts| - 1];
      DistinctIdsFront(posts);
      DistinctIdsAtMostOne(front, id);
      WithIdFirst(front, id);
    }
  }

  /** Without hash collisions every thread of a posted id ends at a warble that answers nothing. */
  lemma ThreadEndsAtRoot(posts: seq<Warble>, id: string)
    requires Grounded(posts) && DistinctIds(posts) && Posted(posts, id)
    ensures var t := Thread(posts, id);
            t != [] && t[0].id == id && t[|t| - 1].parentId == ""
  {
    WithIdFirst(posts, id);
    DistinctIdsAtMostOne(posts, id);
    ThreadIsThread(posts, id);
    var t := Thread(posts, id);
    DistinctIdsAtMostOne(posts, t[|t| - 1].parentId);
  }

  ghost predicate GoesBack(posts: seq<Warble>, t: seq<Warble>) {
    forall i, j :: 0 <= i < j < |t| ==> First(posts, t[j].id) < First(posts, t[i].id)
  }

  lemma GoesBackCons(posts: seq<Warble>, w: Warble, tail: seq<Warble>)
    requires GoesBack(posts, tail)
    requires tail != [] ==> First(posts, tail[0].id) < First(posts, w.id)
    ensures GoesBack(posts, [w] + tail)
  {
    forall j | 0 < j < |tail|
      ensures First(posts, tail[j].id) < First(posts, w.id)
    {
      assert First(posts, tail[j].id) < First(posts, tail[0].id);
    }
    var t := [w] + tail;
    assert forall i :: 0 < i < |t| ==> t[i] == tail[i - 1];
  }

  /** Each warble of a thread was posted before the one that answers it. */
  lemma {:induction false} ThreadGoesBack(posts: seq<Warble>, id: string)
    requires Grounded(posts)
    ensures GoesBack(posts, Thread(posts, id))
    decreases First(posts, id)
  {
    if |WithId(posts, id)| == 1 {
      var w := WithId(posts, id)[0];
      WithIdFirst(posts, id);
      if w.parentId != "" {
        ParentIsEarlier(posts, id);
        ThreadGoesBack(posts, w.parentId);
        ThreadIsThread(posts, w.parentId);
        GoesBackCons(posts, w, Thread(posts, w.parentId));
      }
    }
  }

  /** The warbles before the first one with this id. */
  function CutBefore(t: seq<Warble>, id: string): seq<Warble> {
    if t == [] || t[0].id == id then [] else [t[0]] + CutBefore(t[1..], id)
  }

  lemma {:induction false} CutBeforeCuts(t: seq<Warble>, id: string)
    ensures CutBefore(t, id) <= t
    ensures CutBefore(t, id) == t <==> forall v :: v in t ==> v.id != id
  {
    if t != [] {
      assert t[0] in t;
      assert t == [t[0]] + t[1..];
      CutBeforeCuts(t[1..], id);
    }
  }

  /** What a new post does to a thread that exists already, whatever its id hashes to: the thread is
      cut where the new post's id occurs on it. */
  lemma {:induction false} ThreadAfterPost(posts: seq<Warble>, w: Warble, id: string)
    requires Grounded(posts) && Grounded(posts + [w]) && Posted(posts, id)
    ensures Thread(posts + [w], id) == CutBefore(Thread(posts, id), w.id)
    decreases First(posts, id)
  {
    var all := posts + [w];
    assert all[..|posts|] == posts;
    WithIdFirst(posts, id);
    if |WithId(posts, id)| == 1 && w.id != id {
      var v := WithId(posts, id)[0];
      assert WithId(all, id) == [v];
      if v.parentId != "" {
        ParentIsEarlier(posts, id);
        ThreadAfterPost(posts, w, v.parentId);
        var rest := Thread(posts, v.parentId);
        assert ([v] + rest)[1..] == rest;
      }
    }
  }

  /** A thread survives a post exactly when the new id is not the id of a warble on it. */
  lemma ThreadUnchangedByPost(posts: seq<Warble>, w: Warble, id: string)
    requires Grounded(posts) && Grounded(posts + [w]) && Posted(posts, id)
    ensures Thread(posts + [w], id) == Thread(posts, id)
       <==> forall v :: v in Thread(posts, id) ==> v.id != w.id
  {
    ThreadAfterPost(posts, w, id);
    CutBeforeCuts(Thread(posts, id), w.id);
  }

  lemma CutOnceMore(t: seq<Warble>, cut: seq<Warble>, news: seq<Warble>, w: Warble)
    requires cut <= t
    requires cut == t <==> forall u, v :: u in t && v in news ==> u.id != v.id
    ensures CutBefore(cut, w.id) <= t
    ensures CutBefore(cut, w.id) == t <==> forall u, v :: u in t && v in news + [w] ==> u.id != v.id
  {
    CutBeforeCuts(cut, w.id);
    if CutBefore(cut, w.id) == t {
      assert cut == t;
    }
    if forall u, v :: u in t && v in news + [w] ==> u.id != v.id {
      assert forall v :: v in news ==> v in news + [w];
      assert w in news + [w];
      assert cut == t;
    }
  }

  lemma StillPosted(posts: seq<Warble>, more: seq<Warble>, id: string)
    requires Posted(posts, id)
    ensures Posted(posts + more, id)
  {
    var i :| 0 <= i < |posts| && posts[i].id == id;
    assert (posts + more)[i].id == id;
  }

  lemma GroundedPrefix(posts: seq<Warble>, more: seq<Warble>)
    requires Grounded(posts + more)
    ensures Grounded(posts)
  {
    forall i | 0 <= i < |posts|
      ensures posts[i].id != "" && (posts[i].parentId == "" || Posted(posts[..i], posts[i].parentId))
    {
      assert (posts + more)[i] == posts[i] && (posts + more)[..i] == posts[..i];
    }
  }

  /** Any number of later posts: the old thread, cut at most; whole if and only if none of the new ids
      is the id of a warble on it. */
  lemma {:induction false} ThreadAfterPosts(posts: seq<Warble>, more: seq<Warble>, id: string)
    requires Grounded(posts) && Grounded(posts + more) && Posted(posts, id)
    ensures Thread(posts + more, id) <= Thread(posts, id)
    ensures Thread(posts + more, id) == Thread(posts, id)
       <==> forall v, w :: v in Thread(posts, id) && w in more ==> v.id != w.id
    decreases |more|
  {
    if more == [] {
      assert posts + more == posts;
    } else {
      var n := |more| - 1;
      var before := posts + more[..n];
      assert posts + more == before + [more[n]];
      GroundedPrefix(before, [more[n]]);
      StillPosted(posts, more[..n], id);
      ThreadAfterPosts(posts, more[..n], id);
      ThreadAfterPost(before, more[n], id);
      CutOnceMore(Thread(posts, id), Thread(before, id), more[..n], more[n]);
      assert more[..n] + [more[n]] == more;
    }
  }

  // ---- runs ----

  ghost function RunNet(p: Platform, net: Network, calls: seq<Call>): (r: Network)
    requires Inv(p, net)
    ensures Inv(p, r)
    decreases |calls|
  {
    if calls == [] then net else
      var before := RunNet(p, net, calls[..|calls| - 1]);
      NetStepKeepsInv(p, before, calls[|calls| - 1]);
      NetStep(p, before, calls[|calls| - 1]).net
  }

  ghost function Responses(p: Platform, net: Network, calls: seq<Call>): (r: seq<Response>)
    requires Inv(p, net)
    ensures |r| == |calls|
    decreases |calls|
  {
    if calls == [] then [] else
      var n := |calls| - 1;
      Responses(p, net, calls[..n]) + [NetStep(p, RunNet(p, net, calls[..n]), calls[n]).response]
  }

  /** The network that a trace of calls and answers tells of: the users registered, the follows
      accepted and the posts accepted, each with the arguments of the call, in the order of the calls. */
  function History(calls: seq<Call>, responses: seq<Response>): Network
    requires |calls| == |responses|
  {
    if calls == [] then EMPTY else
      var n := |calls| - 1;
      var net := History(calls[..n], responses[..n]);
      if responses[n].status != OK then net else
        match calls[n]
        case RegisterUser(u) => net.(users := net.users + {u})
        case Post(u, text, parentId, seconds, useconds) =>
          (match responses[n].reply
           case WarbleReply(Some(w)) =>
             net.(posts := net.posts + [Warble(u, text, w.id, parentId, seconds, useconds)])
           case _ => net)
        case Follow(u, v) => net.(follows := net.follows + [Edge(u, v)])
        case Read(_, _) => net
        case Profile(_) => net
  }

  /** The state of the network is exactly its observable history, so `Profile` lists all accepted
      follows in order and with repetitions, and `Read` walks the posts as they were made. */
  lemma {:induction false} NetworkIsHistory(p: Platform, calls: seq<Call>)
    ensures RunNet(p, EMPTY, calls) == History(calls, Responses(p, EMPTY, calls))
    decreases |calls|
  {
    if calls != [] {
      var n := |calls| - 1;
      NetworkIsHistory(p, calls[..n]);
      assert Responses(p, EMPTY, calls)[..n] == Responses(p, EMPTY, calls[..n]);
      if calls[n].Post? {
        var Post(u, text, parentId, seconds, useconds) := calls[n];
        NewWarbleHolds(p, u, text, parentId, seconds, useconds);
      }
    }
  }

  // ---- the answers, told by the earlier calls and answers alone ----

  /** A registration of this name was accepted. */
  predicate Registered(calls: seq<Call>, responses: seq<Response>, u: string)
    requires |calls| == |responses|
  {
    exists j :: 0 <= j < |calls| && calls[j] == RegisterUser(u) && responses[j].status == OK
  }

  predicate ReturnsId(call: Call, response: Response, id: string) {
    && call.Post? && response.status == OK
    && response.reply.WarbleReply? && response.reply.warble.Some? && response.reply.warble.value.id == id
  }

  /** A post was accepted and got this id. */
  predicate Returned(calls: seq<Call>, responses: seq<Response>, id: string)
    requires |calls| == |responses|
  {
    exists j :: 0 <= j < |calls| && ReturnsId(calls[j], responses[j], id)
  }

  /** Whom `u` followed, and who followed `u`, by accepted calls, in order and with repetitions. */
  function FollowsMade(calls: seq<Call>, responses: seq<Response>, u: string): seq<string>
    requires |calls| == |responses|
  {
    if calls == [] then [] else
      var n := |calls| - 1;
      FollowsMade(calls[..n], responses[..n], u)
      + if calls[n].Follow? && calls[n].username == u && responses[n].status == OK then [calls[n].toFollow] else []
  }

  function FollowsGot(calls: seq<Call>, responses: seq<Response>, u: string): seq<string>
    requires |calls| == |responses|
  {
    if calls == [] then [] else
      var n := |calls| - 1;
      FollowsGot(calls[..n], responses[..n], u)
      + if calls[n].Follow? && calls[n].toFollow == u && responses[n].status == OK then [calls[n].username] else []
  }

  /** What each call answers, after these calls and answers. */
  ghost predicate Explained(p: Platform, calls: seq<Call>, responses: seq<Response>, call: Call, r: Response)
    requires |calls| == |responses|
  {
    match call
    case RegisterUser(u) =>
      r == Response(if Registered(calls, responses, u) then ALREADY_EXISTS else OK, RegisterUserReply)
    case Post(u, text, parentId, seconds, useconds) =>
      if Registered(calls, responses, u) && (parentId == "" || Returned(calls, responses, parentId)) then
        var id := Print(p.hash(p.serialize(Warble(u, text, "", parentId, seconds, useconds))));
        r == Response(OK, WarbleReply(Some(Warble(u, text, id, parentId, seconds, useconds))))
      else
        r == Response(NOT_FOUND, WarbleReply(None))
    case Follow(u, v) =>
      var ok := Registered(calls, responses, u) && Registered(calls, responses, v) && u != v;
      r == Response(if ok then OK else NOT_FOUND, FollowReply)
    case Read(u, id) =>
      if Registered(calls, responses, u) && Returned(calls, responses, id) then
        && r.status == OK && r.reply.ReadReply?
        && IsThread(History(calls, responses).posts, id, r.reply.warbles)
      else
        r == Response(NOT_FOUND, ReadReply([]))
    case Profile(u) =>
      if Registered(calls, responses, u) then
        r == Response(OK, ProfileReply(FollowsGot(calls, responses, u), FollowsMade(calls, responses, u)))
      else
        r == Response(NOT_FOUND, ProfileReply([], []))
  }

  lemma RegisteredLast(calls: seq<Call>, responses: seq<Response>, u: string)
    requires |calls| == |responses| && calls != []
    ensures var n := |calls| - 1;
            Registered(calls, responses, u)
            <==> Registered(calls[..n], responses[..n], u) || (calls[n] == RegisterUser(u) && responses[n].status == OK)
  {
    var n := |calls| - 1;
    if Registered(calls, responses, u) {
      var j :| 0 <= j < |calls| && calls[j] == RegisterUser(u) && responses[j].status == OK;
      assert j < n ==> calls[..n][j] == calls[j] && responses[..n][j] == responses[j];
    }
    if Registered(calls[..n], responses[..n], u) {
      var j :| 0 <= j < n && calls[..n][j] == RegisterUser(u) && responses[..n][j].status == OK;
      assert calls[j] == RegisterUser(u) && responses[j].status == OK;
    }
  }

  lemma ReturnedLast(calls: seq<Call>, responses: seq<Response>, id: string)
    requires |calls| == |responses| && calls != []
    ensures var n := |calls| - 1;
            Returned(calls, responses, id)
            <==> Returned(calls[..n], responses[..n], id) || ReturnsId(calls[n], responses[n], id)
  {
    var n := |calls| - 1;
    if Returned(calls, responses, id) {
      var j :| 0 <= j < |calls| && ReturnsId(calls[j], responses[j], id);
      assert j < n ==> calls[..n][j] == calls[j] && responses[..n][j] == responses[j];
    }
    if Returned(calls[..n], responses[..n], id) {
      var j :| 0 <= j < n && ReturnsId(calls[..n][j], responses[..n][j], id);
      assert ReturnsId(calls[j], responses[j], id);
    }
  }

  lemma {:induction false} HistoryTells(calls: seq<Call>, responses: seq<Response>, u: string, id: string)
    requires |calls| == |responses|
    ensures u in History(calls, responses).users <==> Registered(calls, responses, u)
    ensures Posted(History(calls, responses).posts, id) <==> Returned(calls, responses, id)
    decreases |calls|
  {
    if calls != [] {
      var n := |calls| - 1;
      HistoryTells(calls[..n], responses[..n], u, id);
      RegisteredLast(calls, responses, u);
      ReturnedLast(calls, responses, id);
      var before, after := History(calls[..n], responses[..n]).posts, History(calls, responses).posts;
      if after != before {
        assert after[..|after| - 1] == before;
        PostedLast(after, id);
      }
    }
  }

  lemma ListsLast(follows: seq<Edge>, e: Edge, u: string)
    ensures Following(follows + [e], u) == Following(follows, u) + if e.follower == u then [e.followee] else []
    ensures Followers(follows + [e], u) == Followers(follows, u) + if e.followee == u then [e.follower] else []
  {
    assert (follows + [e])[..|follows|] == follows;
  }

  lemma HistoryFollows(calls: seq<Call>, responses: seq<Response>)
    requires |calls| == |responses| && calls != []
    ensures var n := |calls| - 1;
            History(calls, responses).follows
            == History(calls[..n], responses[..n]).follows
               + if calls[n].Follow? && responses[n].status == OK
                 then [Edge(calls[n].username, calls[n].toFollow)] else []
  {
  }

  lemma {:induction false} HistoryLists(calls: seq<Call>, responses: seq<Response>, u: string)
    requires |calls| == |responses|
    ensures Following(History(calls, responses).follows, u) == FollowsMade(calls, responses, u)
    ensures Followers(History(calls, responses).follows, u) == FollowsGot(calls, responses, u)
    decreases |calls|
  {
    if calls != [] {
      var n := |calls| - 1;
      var before := History(calls[..n], responses[..n]).follows;
      HistoryLists(calls[..n], responses[..n], u);
      HistoryFollows(calls, responses);
      if calls[n].Follow? && responses[n].status == OK {
        ListsLast(before, Edge(calls[n].username, calls[n].toFollow), u);
      } else {
        assert before + [] == before;
      }
    }
  }

  /** Every answer of the network is told by the calls and answers before it: a name can be registered
      once; a post needs its author and its parent and is returned as it was made; a follow needs two
      different users; a read returns the thread of the posts made; a profile lists the accepted follows. */
  lemma AnswersFollowHistory(p: Platform, calls: seq<Call>, call: Call)
    ensures Explained(p, calls, Responses(p, EMPTY, calls), call,
                      NetStep(p, RunNet(p, EMPTY, calls), call).response)
  {
    var responses, net := Responses(p, EMPTY, calls), RunNet(p, EMPTY, calls);
    NetworkIsHistory(p, calls);
    HistoryTells(calls, responses, call.username, "");
    match call
    case RegisterUser(_) =>
    case Post(u, text, parentId, seconds, useconds) =>
      HistoryTells(calls, responses, u, parentId);
      NewWarbleHolds(p, u, text, parentId, seconds, useconds);
    case Follow(_, v) => HistoryTells(calls, responses, v, "");
    case Read(u, id) =>
      HistoryTells(calls, responses, u, id);
      ThreadIsThread(net.posts, id);
    case Profile(u) => HistoryLists(calls, responses, u);
  }

  /** The posts that a run adds. */
  ghost function NewPosts(p: Platform, net: Network, calls: seq<Call>): seq<Warble>
    requires Inv(p, net)
  {
    var posts := RunNet(p, net, calls).posts;
    if |net.posts| <= |posts| then posts[|net.posts|..] else []
  }

  lemma {:induction false} RunOnlyAdds(p: Platform, net: Network, calls: seq<Call>)
    requires Inv(p, net)
    ensures net.posts <= RunNet(p, net, calls).posts
    ensures net.users <= RunNet(p, net, calls).users
    decreases |calls|
  {
    if calls != [] {
      RunOnlyAdds(p, net, calls[..|calls| - 1]);
    }
  }

  /** Threads never change: whatever calls come in between, the answer to `Read` of a posted id is
      the old thread, cut at most where later posts were given the id of a warble on it.  So it is
      unchanged if and only if none of them was. */
  lemma {:induction false} ThreadsNeverChange(p: Platform, net: Network, calls: seq<Call>, id: string)
    requires Inv(p, net) && Posted(net.posts, id)
    ensures Posted(RunNet(p, net, calls).posts, id)
    ensures Thread(RunNet(p, net, calls).posts, id) <= Thread(net.posts, id)
    ensures Thread(RunNet(p, net, calls).posts, id) == Thread(net.posts, id)
       <==> forall v, w :: v in Thread(net.posts, id) && w in NewPosts(p, net, calls) ==> v.id != w.id
  {
    RunOnlyAdds(p, net, calls);
    var more := NewPosts(p, net, calls);
    assert RunNet(p, net, calls).posts == net.posts + more;
    StillPosted(net.posts, more, id);
    ThreadAfterPosts(net.posts, more, id);
  }
}
