/** The calls of the warble service as sequences of requests to the key-value store, one client at a
    time: what each request puts and where it leaves the call. */
module WarbleFlows {
  import opened Results
  import opened KeyValueDataStructure
  import opened WarbleModel
  import opened WarbleService
  import opened PutHistory

  /** How far the call of one client has come, with what it carries to its next request.  `since` and
      `until` are history: the puts at the first and at the last turn of a read. */
  datatype Flow =
    | Idle
    | Registering(user: string)
    | CheckingParent(user: string, text: string, parentId: string)
    | Posting(user: string, text: string, parentId: string)
    | CheckingFollowee(user: string, toFollow: string, userFound: bool)
    | Following(user: string, toFollow: string)
    | FollowedHalf(user: string, toFollow: string)
    | StartingRead(start: string)
    | Walking(start: string, next: string, warbles: seq<Warble>, since: seq<Op>)
    | Answered(start: string, warbles: seq<Warble>, since: seq<Op>, until: seq<Op>)

  /** One request to the store, or the local steps between two requests; or the end of a call whose
      process stops, or whose next request fails, before it is carried out. */
  datatype Action =
    | BeginRegister(c: nat, user: string)
    | PutUser(c: nat)
    | BeginPost(c: nat, user: string, text: string, parentId: string)
    | CheckParent(c: nat)
    | PutWarble(c: nat, seconds: int64, useconds: int64)
    | BeginFollow(c: nat, user: string, toFollow: string)
    | CheckFollowee(c: nat)
    | PutFollowing(c: nat)
    | PutFollowedBy(c: nat)
    | BeginRead(c: nat, user: string, id: string)
    | Turn(c: nat)
    | Abandon(c: nat)

  /** The calls in progress; a client not in the map is idle. */
  type Flows = map<nat, Flow>

  function FlowOf(flows: Flows, c: nat): Flow {
    if c in flows then flows[c] else Idle
  }

  predicate Free(flow: Flow) {
    flow.Idle? || flow.Answered?
  }

  /** A client has one call at a time. */
  predicate CanAct(flow: Flow, a: Action) {
    match a
    case BeginRegister(_, _) => Free(flow)
    case PutUser(_) => flow.Registering?
    case BeginPost(_, _, _, _) => Free(flow)
    case CheckParent(_) => flow.CheckingParent?
    case PutWarble(_, _, _) => flow.Posting?
    case BeginFollow(_, _, _) => Free(flow)
    case CheckFollowee(_) => flow.CheckingFollowee?
    case PutFollowing(_) => flow.Following?
    case PutFollowedBy(_) => flow.FollowedHalf?
    case BeginRead(_, _, _) => Free(flow)
    case Turn(_) => flow.Walking? || flow.StartingRead?
    case Abandon(_) => true
  }

  /** A supplied id is the key of a name, and something is stored under it. */
  predicate NamesKey(store: Store, id: string) {
    IsNameKey(id) && Present(store, id)
  }

  /** The action lets a reply to the key of a name pass. */
  predicate AnswersName(store: Store, flow: Flow, a: Action) {
    a.CheckParent? && flow.CheckingParent? && NamesKey(store, flow.parentId)
  }

  /** What the action puts into the store, if anything. */
  function PutOf(p: Platform, flow: Flow, a: Action): (r: seq<Op>)
    requires CanAct(flow, a)
    ensures |r| <= 1
  {
    match a
    case PutUser(_) => [Put(UserKey(flow.user), flow.user)]
    case PutWarble(_, seconds, useconds) =>
      var warble := NewWarble(p, flow.user, flow.text, flow.parentId, seconds, useconds);
      [Put(warble.id, p.serialize(warble))]
    case PutFollowing(_) => [Put(FollowingKey(flow.user), flow.toFollow)]
    case PutFollowedBy(_) => [Put(FollowedByKey(flow.toFollow), flow.user)]
    case _ => []
  }

  /** The id that the next turn of a read asks for, and the warbles read so far. */
  function NextId(flow: Flow): string
    requires flow.StartingRead? || flow.Walking?
  {
    if flow.StartingRead? then flow.start else flow.next
  }

  function Met(flow: Flow): seq<Warble>
    requires flow.StartingRead? || flow.Walking?
  {
    if flow.StartingRead? then [] else flow.warbles
  }

  function Since(history: seq<Op>, flow: Flow): seq<Op>
    requires flow.StartingRead? || flow.Walking?
  {
    if flow.StartingRead? then history else flow.since
  }

  /** Where the client stands after the action on this store, which has this history. */
  function FlowAfter(p: Platform, store: Store, history: seq<Op>, flow: Flow, a: Action): Flow
    requires CanAct(flow, a)
  {
    match a
    case BeginRegister(_, u) => if Present(store, UserKey(u)) then Idle else Registering(u)
    case PutUser(_) => Idle
    case BeginPost(_, u, text, parentId) =>
      if Present(store, UserKey(u)) then CheckingParent(u, text, parentId) else Idle
    case CheckParent(_) =>
      if flow.parentId != "" && !Present(store, flow.parentId) then Idle
      else Posting(flow.user, flow.text, flow.parentId)
    case PutWarble(_, _, _) => Idle
    case BeginFollow(_, u, v) => CheckingFollowee(u, v, Present(store, UserKey(u)))
    case CheckFollowee(_) =>
      if flow.userFound && Present(store, UserKey(flow.toFollow)) && flow.user != flow.toFollow
      then Following(flow.user, flow.toFollow) else Idle
    case PutFollowing(_) => FollowedHalf(flow.user, flow.toFollow)
    case PutFollowedBy(_) => Idle
    case BeginRead(_, u, id) => if Present(store, UserKey(u)) then StartingRead(id) else Idle
    case Turn(_) =>
      if Single(store, NextId(flow)) then
        var warble := Held(p, store, NextId(flow));
        Walking(flow.start, warble.parentId, Met(flow) + [warble], Since(history, flow))
      else
        Answered(flow.start, Met(flow), Since(history, flow), history)
    case Abandon(_) => Idle
  }

  // ---- what a call refers to ----

  /** None of the ids that a walk has found is the key of a name. */
  predicate WalksIds(flow: Flow)
    requires flow.Walking?
  {
    !IsNameKey(flow.start) && forall i :: 0 <= i < |flow.warbles| - 1 ==> !IsNameKey(flow.warbles[i].parentId)
  }

  predicate Known(history: seq<Op>, id: string) {
    id == "" || HasKey(history, id)
  }

  /** What the call has checked, or is about to ask for, was put some time. */
  predicate RefersBack(history: seq<Op>, flow: Flow) {
    match flow
    case CheckingParent(u, _, _) => HasKey(history, UserKey(u))
    case Posting(u, _, parentId) => HasKey(history, UserKey(u)) && Known(history, parentId)
    case CheckingFollowee(u, v, found) => found ==> HasKey(history, UserKey(u))
    case Following(u, v) => u != v && HasKey(history, UserKey(u)) && HasKey(history, UserKey(v))
    case FollowedHalf(u, v) => u != v && HasKey(history, UserKey(u)) && HasKey(history, UserKey(v))
    case Walking(_, next, warbles, _) =>
      && warbles != [] && warbles[|warbles| - 1].parentId == next
      && (WalksIds(flow) ==> Known(history, next))
    case _ => true
  }

  lemma RefersBackMore(history: seq<Op>, more: seq<Op>, flow: Flow)
    requires RefersBack(history, flow)
    ensures RefersBack(history + more, flow)
  {
    forall k | HasKey(history, k)
      ensures HasKey(history + more, k)
    {
      HasKeyMore(history, more, k);
    }
  }

  /** Everything in the store was put some time, and so were the parents of the warbles in it. */
  ghost predicate StoreOfPast(p: Platform, store: Store, history: seq<Op>) {
    && (forall k :: Present(store, k) ==> HasKey(history, k))
    && (forall k :: Single(store, k) && !IsNameKey(k) ==> Known(history, Held(p, store, k).parentId))
  }

  lemma FlowRefersBack(p: Platform, store: Store, history: seq<Op>, flow: Flow, a: Action)
    requires CanAct(flow, a) && RefersBack(history, flow) && StoreOfPast(p, store, history)
    ensures RefersBack(history, FlowAfter(p, store, history, flow, a))
  {
    if a.Turn? && Single(store, NextId(flow)) {
      TurnWalks(p, store, history, flow, a);
    }
  }

  /** One more turn that finds a warble. */
  lemma TurnWalks(p: Platform, store: Store, history: seq<Op>, flow: Flow, a: Action)
    requires CanAct(flow, a) && RefersBack(history, flow) && a.Turn? && Single(store, NextId(flow))
    ensures var after := FlowAfter(p, store, history, flow, a);
            && after.warbles == Met(flow) + [Held(p, store, NextId(flow))]
            && after.next == Held(p, store, NextId(flow)).parentId
            && (WalksIds(after) ==> !IsNameKey(NextId(flow)))
            && (WalksIds(after) && flow.Walking? ==> WalksIds(flow))
  {
    var after := FlowAfter(p, store, history, flow, a);
    assert forall i :: 0 <= i < |Met(flow)| ==> after.warbles[i] == Met(flow)[i];
  }

  /** The put of a call that refers back is one the service makes, with all that it refers to. */
  lemma {:induction false} PutIsServed(p: Platform, history: seq<Op>, flow: Flow, a: Action)
    requires Faithful(p) && CanAct(flow, a) && RefersBack(history, flow)
    ensures forall op :: op in PutOf(p, flow, a) ==> ServedPut(p, history, op)
    ensures (flow.Posting? ==> !IsNameKey(flow.parentId)) ==>
              forall op :: op in PutOf(p, flow, a) ==> AnswersNoName(p, op)
  {
    match a
    case PutUser(_) => NameKeys(flow.user);
    case PutWarble(_, seconds, useconds) =>
      var warble := NewWarble(p, flow.user, flow.text, flow.parentId, seconds, useconds);
      MintedId(p, warble);
      assert warble.(id := "") == Warble(flow.user, flow.text, "", flow.parentId, seconds, useconds);
    case PutFollowing(_) => NameKeys(flow.user);
    case PutFollowedBy(_) => NameKeys(flow.toFollow);
    case _ =>
  }

  lemma OnlyTurnsWalk(p: Platform, store: Store, history: seq<Op>, flow: Flow, a: Action)
    requires CanAct(flow, a) && flow.Walking? && FlowAfter(p, store, history, flow, a).Walking?
    ensures a.Turn?
  {
  }

  // ---- a call that runs alone ----

  function Turns(c: nat, n: nat): seq<Action> {
    if n == 0 then [] else [Turn(c)] + Turns(c, n - 1)
  }

  /** The requests of a call, one after the other; those that the call does not get to have no effect.  A
      read takes one turn more than it finds warbles. */
  function Steps(c: nat, call: Call, turns: nat): seq<Action> {
    match call
    case RegisterUser(u) => [BeginRegister(c, u), PutUser(c)]
    case Post(u, text, parentId, seconds, useconds) =>
      [BeginPost(c, u, text, parentId), CheckParent(c), PutWarble(c, seconds, useconds)]
    case Follow(u, v) => [BeginFollow(c, u, v), CheckFollowee(c), PutFollowing(c), PutFollowedBy(c)]
    case Read(u, id) => [BeginRead(c, u, id)] + Turns(c, turns + 1)
    case Profile(_) => []
  }

  /** What a client has put since its call began, and where it stands. */
  datatype Local = Local(puts: seq<Op>, flow: Flow)

  function LocalStep(p: Platform, store: Store, history: seq<Op>, l: Local, a: Action): Local {
    if CanAct(l.flow, a) then Local(l.puts + PutOf(p, l.flow, a), FlowAfter(p, store, history, l.flow, a)) else l
  }

  function LocalRun(p: Platform, store: Store, history: seq<Op>, l: Local, actions: seq<Action>): Local
    decreases |actions|
  {
    if actions == [] then l
    else LocalRun(p, store, history, LocalStep(p, store, history, l, actions[0]), actions[1..])
  }

  lemma {:induction false} TurnsDone(p: Platform, store: Store, history: seq<Op>, l: Local, c: nat, n: nat)
    requires Free(l.flow)
    ensures LocalRun(p, store, history, l, Turns(c, n)) == l
    decreases n
  {
    if n > 0 {
      TurnsDone(p, store, history, l, c, n - 1);
      assert Turns(c, n)[1..] == Turns(c, n - 1);
    }
  }

  lemma {:induction false} TurnsAlone(p: Platform, store: Store, history: seq<Op>, l: Local, c: nat, n: nat)
    requires l.flow.StartingRead? || l.flow.Walking?
    requires HaltsIn(p, store, NextId(l.flow), n)
    ensures LocalRun(p, store, history, l, Turns(c, n + 1))
         == Local(l.puts, Answered(l.flow.start, Met(l.flow) + WalkIn(p, store, NextId(l.flow), n),
                                   Since(history, l.flow), history))
    decreases n
  {
    var next := LocalStep(p, store, history, l, Turn(c));
    assert Turns(c, n + 1)[1..] == Turns(c, n) && Turns(c, n + 1)[0] == Turn(c);
    assert next.puts == l.puts;
    if Single(store, NextId(l.flow)) {
      TurnsAlone(p, store, history, next, c, n - 1);
      WalkOneMore(p, store, Met(l.flow), NextId(l.flow), n);
    } else {
      TurnsDone(p, store, history, next, c, n);
      assert Met(l.flow) + [] == Met(l.flow);
    }
  }

  lemma WalkOneMore(p: Platform, store: Store, met: seq<Warble>, id: string, n: nat)
    requires Single(store, id) && n > 0
    ensures met + WalkIn(p, store, id, n)
         == met + [Held(p, store, id)] + WalkIn(p, store, Held(p, store, id).parentId, n - 1)
  {
  }

  /** Where a call ends that answers like this. */
  ghost predicate EndsAs(call: Call, response: Response, history: seq<Op>, flow: Flow) {
    if !call.Read? then
      flow == Idle
    else if response.status == OK then
      response.reply.ReadReply? && flow == Answered(call.warbleId, response.reply.warbles, history, history)
    else
      flow == Idle || flow == Answered(call.warbleId, [], history, history)
  }

  lemma RunStep(p: Platform, store: Store, history: seq<Op>, l: Local, a: Action, rest: seq<Action>)
    ensures LocalRun(p, store, history, l, [a] + rest)
         == LocalRun(p, store, history, LocalStep(p, store, history, l, a), rest)
  {
    assert ([a] + rest)[1..] == rest;
  }

  lemma RegisterAlone(p: Platform, store: Store, history: seq<Op>, flow: Flow, c: nat, u: string)
    requires Free(flow)
    ensures LocalRun(p, store, history, Local([], flow), Steps(c, Call.RegisterUser(u), 0))
         == Local(Decide(p, store, Call.RegisterUser(u)).puts, Idle)
  {
    var begin, put := BeginRegister(c, u), PutUser(c);
    RunStep(p, store, history, Local([], flow), begin, [put]);
    RunStep(p, store, history, LocalStep(p, store, history, Local([], flow), begin), put, []);
    assert [begin] + [put] == Steps(c, Call.RegisterUser(u), 0) && [put] + [] == [put];
  }

  lemma PostAlone(p: Platform, store: Store, history: seq<Op>, flow: Flow, c: nat, call: Call)
    requires Free(flow) && call.Post?
    ensures LocalRun(p, store, history, Local([], flow), Steps(c, call, 0)) == Local(Decide(p, store, call).puts, Idle)
  {
    var begin, check := BeginPost(c, call.username, call.text, call.parentId), CheckParent(c);
    var put := PutWarble(c, call.seconds, call.useconds);
    var l1 := LocalStep(p, store, history, Local([], flow), begin);
    var l2 := LocalStep(p, store, history, l1, check);
    RunStep(p, store, history, Local([], flow), begin, [check, put]);
    RunStep(p, store, history, l1, check, [put]);
    RunStep(p, store, history, l2, put, []);
    assert [begin] + [check, put] == Steps(c, call, 0) && [check] + [put] == [check, put] && [put] + [] == [put];
  }

  lemma FollowChecks(p: Platform, store: Store, history: seq<Op>, flow: Flow, c: nat, u: string, v: string)
    requires Free(flow)
    ensures var checked := FlowAfter(p, store, history, CheckingFollowee(u, v, Present(store, UserKey(u))),
                                     CheckFollowee(c));
            LocalRun(p, store, history, Local([], flow), Steps(c, Call.Follow(u, v), 0))
            == LocalRun(p, store, history, Local([], checked), [PutFollowing(c), PutFollowedBy(c)])
  {
    var begin, check, puts := BeginFollow(c, u, v), CheckFollowee(c), [PutFollowing(c), PutFollowedBy(c)];
    var l1 := LocalStep(p, store, history, Local([], flow), begin);
    assert l1 == Local([], CheckingFollowee(u, v, Present(store, UserKey(u))));
    RunStep(p, store, history, Local([], flow), begin, [check] + puts);
    RunStep(p, store, history, l1, check, puts);
    assert [begin] + ([check] + puts) == Steps(c, Call.Follow(u, v), 0);
    assert LocalStep(p, store, history, l1, check).puts == [];
  }

  lemma FollowPuts(p: Platform, store: Store, history: seq<Op>, flow: Flow, c: nat)
    requires flow.Following? || flow.Idle?
    ensures LocalRun(p, store, history, Local([], flow), [PutFollowing(c), PutFollowedBy(c)])
         == Local(if flow.Idle? then []
                  else [Put(FollowingKey(flow.user), flow.toFollow), Put(FollowedByKey(flow.toFollow), flow.user)],
                  Idle)
  {
    var first, second := PutFollowing(c), PutFollowedBy(c);
    RunStep(p, store, history, Local([], flow), first, [second]);
    RunStep(p, store, history, LocalStep(p, store, history, Local([], flow), first), second, []);
    assert [first] + [second] == [first, second] && [second] + [] == [second];
  }

  lemma FollowAlone(p: Platform, store: Store, history: seq<Op>, flow: Flow, c: nat, u: string, v: string)
    requires Free(flow)
    ensures LocalRun(p, store, history, Local([], flow), Steps(c, Call.Follow(u, v), 0))
         == Local(Decide(p, store, Call.Follow(u, v)).puts, Idle)
  {
    FollowChecks(p, store, history, flow, c, u, v);
    FollowPuts(p, store, history,
               FlowAfter(p, store, history, CheckingFollowee(u, v, Present(store, UserKey(u))), CheckFollowee(c)), c);
  }

  lemma ReadStarts(p: Platform, store: Store, history: seq<Op>, flow: Flow, c: nat, u: string, id: string, turns: nat)
    requires Free(flow)
    ensures LocalRun(p, store, history, Local([], flow), Steps(c, Call.Read(u, id), turns))
         == LocalRun(p, store, history, Local([], if Present(store, UserKey(u)) then StartingRead(id) else Idle),
                     Turns(c, turns + 1))
  {
    var begin := BeginRead(c, u, id);
    RunStep(p, store, history, Local([], flow), begin, Turns(c, turns + 1));
    assert LocalStep(p, store, history, Local([], flow), begin).puts == [];
  }

  lemma ReadAlone(p: Platform, store: Store, history: seq<Op>, flow: Flow, c: nat, u: string, id: string, turns: nat)
    requires Free(flow) && HaltsIn(p, store, id, turns)
    ensures LocalRun(p, store, history, Local([], flow), Steps(c, Call.Read(u, id), turns))
         == Local([], if Present(store, UserKey(u)) then Answered(id, WalkIn(p, store, id, turns), history, history)
                      else Idle)
  {
    ReadStarts(p, store, history, flow, c, u, id, turns);
    if Present(store, UserKey(u)) {
      TurnsAlone(p, store, history, Local([], StartingRead(id)), c, turns);
      assert [] + WalkIn(p, store, id, turns) == WalkIn(p, store, id, turns);
    } else {
      TurnsDone(p, store, history, Local([], Idle), c, turns + 1);
    }
  }

  /** Run alone, the requests of a call put what the call puts, and end with its answer. */
  lemma CallAlone(p: Platform, store: Store, history: seq<Op>, flow: Flow, c: nat, call: Call, turns: nat)
    requires Free(flow) && !call.Profile?
    requires call.Read? ==> HaltsIn(p, store, call.warbleId, turns)
    ensures var l := LocalRun(p, store, history, Local([], flow), Steps(c, call, turns));
            var e := Decide(p, store, call);
            e.Finished? && l.puts == e.puts && EndsAs(call, e.response, history, l.flow)
  {
    match call
    case RegisterUser(u) => RegisterAlone(p, store, history, flow, c, u);
    case Post(_, _, _, _, _) => PostAlone(p, store, history, flow, c, call);
    case Follow(u, v) => FollowAlone(p, store, history, flow, c, u, v);
    case Read(u, id) =>
      ReadAlone(p, store, history, flow, c, u, id, turns);
      WalkIs(p, store, id, turns);
  }

  /** The action does not look at the store. */
  predicate Blind(a: Action) {
    a.PutUser? || a.PutWarble? || a.PutFollowing? || a.PutFollowedBy?
  }

  /** The actions of client `c` only, and nothing is looked up once something was put. */
  predicate ChecksFirst(c: nat, actions: seq<Action>) {
    && (forall i :: 0 <= i < |actions| ==> actions[i].c == c && !actions[i].Abandon?)
    && (forall i, j :: 0 <= i < j < |actions| && Blind(actions[i]) ==> Blind(actions[j]))
  }

  lemma {:induction false} TurnsOnly(c: nat, n: nat)
    ensures forall i :: 0 <= i < |Turns(c, n)| ==> Turns(c, n)[i] == Turn(c)
    decreases n
  {
    if n > 0 {
      TurnsOnly(c, n - 1);
    }
  }

  lemma StepsCheckFirst(c: nat, call: Call, turns: nat)
    ensures ChecksFirst(c, Steps(c, call, turns))
  {
    TurnsOnly(c, turns + 1);
  }

  lemma BlindStep(p: Platform, store: Store, history: seq<Op>, other: Store, later: seq<Op>, flow: Flow, a: Action)
    requires CanAct(flow, a) && Blind(a)
    ensures FlowAfter(p, store, history, flow, a) == FlowAfter(p, other, later, flow, a)
  {
  }

  lemma OnlyBlindPuts(p: Platform, flow: Flow, a: Action)
    requires CanAct(flow, a)
    ensures !Blind(a) ==> PutOf(p, flow, a) == []
  {
  }
}
