/** Warble calls that run at the same time.  Every call is a sequence of requests to the key-value
    store, and the requests of different calls interleave freely.  A call may be abandoned between any
    two requests, and the key-value server may be restarted. */
module WarbleInterleaving {
  import opened Results
  import opened KeyValueDataStructure
  import opened KeyValueLog
  import opened KeyValueService
  import opened WarbleModel
  import opened WarbleService
  import opened PutHistory
  import opened WarbleFlows

  /** All puts so far, in order, and the calls in progress.  `abandoned` is history: the second puts of
      Follow that never came. */
  datatype World = World(puts: seq<Op>, flows: Flows, abandoned: multiset<Op>)

  const NEW_WORLD := World([], map[], multiset{})

  function StoreOf(w: World): Store {
    Replay(map[], w.puts)
  }

  datatype Event = Act(a: Action) | Reload

  /** The second put that an abandoned Follow leaves out. */
  function LeftOut(flow: Flow, a: Action): multiset<Op> {
    if a.Abandon? && flow.FollowedHalf?
    then multiset{Put(FollowedByKey(flow.toFollow), flow.user)} else multiset{}
  }

  function Perform(p: Platform, w: World, a: Action): World
    requires CanAct(FlowOf(w.flows, a.c), a)
  {
    var flow := FlowOf(w.flows, a.c);
    World(w.puts + PutOf(p, flow, a), w.flows[a.c := FlowAfter(p, StoreOf(w), w.puts, flow, a)],
          w.abandoned + LeftOut(flow, a))
  }

  /** The server comes up again when its log can be read back. */
  predicate Enabled(w: World, e: Event) {
    match e
    case Act(a) => CanAct(FlowOf(w.flows, a.c), a)
    case Reload => AllFit(w.puts)
  }

  /** After a restart the server holds what the loader gets out of the log. */
  function Do(p: Platform, w: World, e: Event): World
    requires Enabled(w, e)
  {
    match e
    case Act(a) => Perform(p, w, a)
    case Reload => w.(puts := FittingPrefix(w.puts))
  }

  /** A schedule: any list of events, of which the disabled ones have no effect. */
  function Exec(p: Platform, w: World, events: seq<Event>): World {
    if events == [] then w else
      var before, e := Exec(p, w, events[..|events| - 1]), events[|events| - 1];
      if Enabled(before, e) then Do(p, before, e) else before
  }

  /** A restart between any two requests changes nothing, and is what a start over the bytes of the log
      does. */
  lemma RestartBetweenRequests(p: Platform, w: World, stale: char)
    ensures Start(true, PrintLog(w.puts), stale)
         == if Enabled(w, Reload)
            then Some(Server(StoreOf(Do(p, w, Reload)), true, PrintLog(Do(p, w, Reload).puts))) else None
    ensures Enabled(w, Reload) ==> Do(p, w, Reload) == w
  {
    StartOverLog(w.puts, stale);
    if AllFit(w.puts) {
      AllOfFitting(w.puts);
    }
  }

  lemma {:induction false} AllOfFitting(ops: seq<Op>)
    requires AllFit(ops)
    ensures FittingPrefix(ops) == ops
  {
    if ops != [] {
      AllOfFitting(ops[1..]);
    }
  }

  // ---- what every event keeps ----

  /** Every put is one the service makes, and every call in progress refers to what was put. */
  ghost predicate Served(p: Platform, w: World) {
    ServedPuts(p, w.puts) && forall c: nat :: RefersBack(w.puts, FlowOf(w.flows, c))
  }

  lemma StoreIsPast(p: Platform, puts: seq<Op>)
    requires Faithful(p) && ServedPuts(p, puts)
    ensures StoreOfPast(p, Replay(map[], puts), puts)
  {
    var store := Replay(map[], puts);
    ServedPutsOnly(p, puts);
    forall k | Present(store, k)
      ensures HasKey(puts, k)
    {
      ValuesOfPuts(puts, k);
    }
    forall k | Single(store, k) && !IsNameKey(k)
      ensures Known(puts, Held(p, store, k).parentId)
    {
      HeldWarble(p, puts, k);
    }
  }

  lemma PutKeepsServed(p: Platform, w: World, a: Action)
    requires Faithful(p) && Served(p, w) && CanAct(FlowOf(w.flows, a.c), a)
    ensures ServedPuts(p, w.puts + PutOf(p, FlowOf(w.flows, a.c), a))
  {
    var put := PutOf(p, FlowOf(w.flows, a.c), a);
    PutIsServed(p, w.puts, FlowOf(w.flows, a.c), a);
    if put == [] {
      assert w.puts + put == w.puts;
    } else {
      assert put[0] in put && put == [put[0]];
      ServedPutsMore(p, w.puts, put[0]);
    }
  }

  lemma PerformKeepsServed(p: Platform, w: World, a: Action)
    requires Faithful(p) && Served(p, w) && CanAct(FlowOf(w.flows, a.c), a)
    ensures Served(p, Perform(p, w, a))
  {
    var t, flow := Perform(p, w, a), FlowOf(w.flows, a.c);
    PutKeepsServed(p, w, a);
    StoreIsPast(p, w.puts);
    FlowRefersBack(p, StoreOf(w), w.puts, flow, a);
    forall c: nat
      ensures RefersBack(t.puts, FlowOf(t.flows, c))
    {
      RefersBackMore(w.puts, PutOf(p, flow, a),
                     if c == a.c then FlowAfter(p, StoreOf(w), w.puts, flow, a) else FlowOf(w.flows, c));
    }
  }

  /** Every request of every call, whatever ids it names, every abandoned call and every restart. */
  lemma DoKeepsServed(p: Platform, w: World, e: Event)
    requires Faithful(p) && Served(p, w) && Enabled(w, e)
    ensures Served(p, Do(p, w, e))
  {
    match e
    case Act(a) => PerformKeepsServed(p, w, a);
    case Reload => AllOfFitting(w.puts);
  }

  lemma {:induction false} ExecKeepsServed(p: Platform, w: World, events: seq<Event>)
    requires Faithful(p) && Served(p, w)
    ensures Served(p, Exec(p, w, events))
    decreases |events|
  {
    if events != [] {
      var before, e := Exec(p, w, events[..|events| - 1]), events[|events| - 1];
      ExecKeepsServed(p, w, events[..|events| - 1]);
      if Enabled(before, e) {
        DoKeepsServed(p, before, e);
      }
    }
  }

  lemma Reachable(p: Platform, events: seq<Event>)
    requires Faithful(p)
    ensures Served(p, Exec(p, NEW_WORLD, events))
  {
    ExecKeepsServed(p, NEW_WORLD, events);
  }

  // ---- a call that runs alone ----

  function Acts(actions: seq<Action>): seq<Event> {
    if actions == [] then [] else [Act(actions[0])] + Acts(actions[1..])
  }

  /** One more event, or none. */
  function Next(p: Platform, w: World, e: Event): World {
    if Enabled(w, e) then Do(p, w, e) else w
  }

  lemma ExecLast(p: Platform, w: World, events: seq<Event>, e: Event)
    ensures Exec(p, w, events + [e]) == Next(p, Exec(p, w, events), e)
  {
    assert (events + [e])[..|events|] == events;
  }

  lemma ExecLater(p: Platform, w: World, v: World, first: seq<Event>, second: seq<Event>, e: Event)
    requires Exec(p, w, first + second) == Exec(p, v, second)
    ensures Exec(p, w, first + (second + [e])) == Exec(p, v, second + [e])
  {
    ExecLast(p, w, first + second, e);
    ExecLast(p, v, second, e);
    assert first + second + [e] == first + (second + [e]);
  }

  lemma {:induction false} ExecConcat(p: Platform, w: World, first: seq<Event>, second: seq<Event>)
    ensures Exec(p, w, first + second) == Exec(p, Exec(p, w, first), second)
    decreases |second|
  {
    if second == [] {
      assert first + second == first;
    } else {
      var front, e := second[..|second| - 1], second[|second| - 1];
      assert front + [e] == second;
      ExecConcat(p, w, first, front);
      ExecLater(p, w, Exec(p, w, first), first, front, e);
    }
  }

  lemma ExecOne(p: Platform, w: World, e: Event)
    ensures Exec(p, w, [e]) == if Enabled(w, e) then Do(p, w, e) else w
  {
    assert [e][..0] == [];
  }

  /** What the client has done since `start`, seen by itself and in the world. */
  ghost predicate Mirrors(start: World, c: nat, w: World, l: Local) {
    && w.puts == start.puts + l.puts && w.abandoned == start.abandoned && FlowOf(w.flows, c) == l.flow
    && forall d: nat :: d != c ==> FlowOf(w.flows, d) == FlowOf(start.flows, d)
  }

  lemma MirrorStep(p: Platform, start: World, c: nat, w: World, l: Local, a: Action)
    requires Mirrors(start, c, w, l) && a.c == c && !a.Abandon? && (l.puts != [] ==> Blind(a))
    ensures Mirrors(start, c, Exec(p, w, [Act(a)]), LocalStep(p, StoreOf(start), start.puts, l, a))
  {
    ExecOne(p, w, Act(a));
    if CanAct(l.flow, a) {
      if l.puts == [] {
        assert w.puts == start.puts;
      } else {
        BlindStep(p, StoreOf(start), start.puts, StoreOf(w), w.puts, l.flow, a);
      }
      assert w.puts + PutOf(p, l.flow, a) == start.puts + (l.puts + PutOf(p, l.flow, a));
    }
  }

  lemma {:induction false} MirrorRun(p: Platform, start: World, c: nat, w: World, l: Local, actions: seq<Action>)
    requires Mirrors(start, c, w, l) && ChecksFirst(c, actions)
    requires l.puts != [] ==> forall i :: 0 <= i < |actions| ==> Blind(actions[i])
    ensures Mirrors(start, c, Exec(p, w, Acts(actions)), LocalRun(p, StoreOf(start), start.puts, l, actions))
    decreases |actions|
  {
    if actions != [] {
      var a, rest := actions[0], actions[1..];
      var v, m := Exec(p, w, [Act(a)]), LocalStep(p, StoreOf(start), start.puts, l, a);
      MirrorStep(p, start, c, w, l, a);
      assert forall i :: 0 <= i < |rest| ==> rest[i] == actions[i + 1];
      if CanAct(l.flow, a) {
        OnlyBlindPuts(p, l.flow, a);
      }
      MirrorRun(p, start, c, v, m, rest);
      ExecConcat(p, w, [Act(a)], Acts(rest));
    }
  }

  /** When nothing comes in between, the requests of a call put what the call puts, and a read ends with
      the answer of the call. */
  lemma CallRunsAlone(p: Platform, w: World, c: nat, call: Call, turns: nat)
    requires Free(FlowOf(w.flows, c)) && !call.Profile?
    requires call.Read? ==> HaltsIn(p, StoreOf(w), call.warbleId, turns)
    ensures var t, e := Exec(p, w, Acts(Steps(c, call, turns))), Decide(p, StoreOf(w), call);
            && e.Finished? && t.puts == w.puts + e.puts && t.abandoned == w.abandoned
            && EndsAs(call, e.response, w.puts, FlowOf(t.flows, c))
            && forall d: nat :: d != c ==> FlowOf(t.flows, d) == FlowOf(w.flows, d)
  {
    var flow := FlowOf(w.flows, c);
    CallAlone(p, StoreOf(w), w.puts, flow, c, call, turns);
    StepsCheckFirst(c, call, turns);
    assert w.puts + [] == w.puts;
    MirrorRun(p, w, c, w, Local([], flow), Steps(c, call, turns));
  }

  // ---- the keys ----

  /** In every reachable store each key is of exactly one kind, none is empty, and its values are what
      its kind says: a user's own name; names of other registered users; or, for an id, warbles that
      carry that id and whose content hashes to it. */
  lemma {:induction false} KeyLayout(p: Platform, events: seq<Event>, key: string)
    requires Faithful(p)
    requires key in StoreOf(Exec(p, NEW_WORLD, events))
    ensures var store := StoreOf(Exec(p, NEW_WORLD, events));
            && key != ""
            && !(USER <= key && FOLLOWING <= key)
            && !(USER <= key && FOLLOWED_BY <= key)
            && !(FOLLOWING <= key && FOLLOWED_BY <= key)
            && (IsNameKey(key) <==> !IsId(key))
            && (forall v :: v in store[key] ==> LegalValue(p, store, key, v))
  {
    var puts := Exec(p, NEW_WORLD, events).puts;
    Reachable(p, events);
    ServedPutsOnly(p, puts);
    PrefixesDisjoint(key);
    ReplayNoEmptyLists(map[], puts);
    ValuesOfPuts(puts, key);
    var n := FirstPut(puts, key);
    assert ServedPut(p, puts[..n], puts[n]);
    if !IsNameKey(key) {
      MintedId(p, p.parse(puts[n].value));
    } else if IsId(key) {
      DecimalIsNoNameKey(key);
    }
    forall v | v in StoreOf(Exec(p, NEW_WORLD, events))[key]
      ensures LegalValue(p, StoreOf(Exec(p, NEW_WORLD, events)), key, v)
    {
      StoredValueWasPut(p, puts, key, v);
    }
  }

  // ---- the two follow lists ----

  /** The clients between the two puts of Follow(user, toFollow). */
  function HalfDone(flows: map<nat, Flow>, user: string, toFollow: string): set<nat> {
    set c | c in flows && flows[c] == FollowedHalf(user, toFollow)
  }

  ghost predicate Conversed(w: World, u: string, v: string) {
    multiset(w.puts)[Put(FollowingKey(u), v)]
    == multiset(w.puts)[Put(FollowedByKey(v), u)] + |HalfDone(w.flows, u, v)| + w.abandoned[Put(FollowedByKey(v), u)]
  }

  lemma HalfDoneStep(flows: map<nat, Flow>, c: nat, flow: Flow, u: string, v: string)
    ensures var before, after := HalfDone(flows, u, v), HalfDone(flows[c := flow], u, v);
            && (c in before <==> FlowOf(flows, c) == FollowedHalf(u, v))
            && after == if flow == FollowedHalf(u, v) then before + {c} else before - {c}
  {
  }

  /** Only the two puts of Follow(u, v), or its end between them, count. */
  lemma FirstPutOfFollow(p: Platform, flow: Flow, a: Action, u: string, v: string)
    requires CanAct(flow, a)
    ensures PutOf(p, flow, a) == [Put(FollowingKey(u), v)] <==> a.PutFollowing? && flow == Flow.Following(u, v)
  {
    NameKeys(u);
    match a
    case PutUser(_) => NameKeys(flow.user);
    case PutFollowing(_) => NameKeys(flow.user);
    case PutFollowedBy(_) => NameKeys(flow.toFollow);
    case PutWarble(_, seconds, useconds) => PutWarbleKey(p, flow, seconds, useconds);
    case _ =>
  }

  lemma SecondPutOfFollow(p: Platform, flow: Flow, a: Action, u: string, v: string)
    requires CanAct(flow, a)
    ensures PutOf(p, flow, a) == [Put(FollowedByKey(v), u)] <==> a.PutFollowedBy? && flow == FollowedHalf(u, v)
  {
    NameKeys(v);
    match a
    case PutUser(_) => NameKeys(flow.user);
    case PutFollowing(_) => NameKeys(flow.user);
    case PutFollowedBy(_) => NameKeys(flow.toFollow);
    case PutWarble(_, seconds, useconds) => PutWarbleKey(p, flow, seconds, useconds);
    case _ =>
  }

  lemma PutWarbleKey(p: Platform, flow: Flow, seconds: int64, useconds: int64)
    requires flow.Posting?
    ensures !IsNameKey(NewWarble(p, flow.user, flow.text, flow.parentId, seconds, useconds).id)
  {
    MintedId(p, NewWarble(p, flow.user, flow.text, flow.parentId, seconds, useconds).(id := ""));
  }

  lemma HalfOfFollow(p: Platform, store: Store, history: seq<Op>, flow: Flow, a: Action, u: string, v: string)
    requires CanAct(flow, a)
    ensures FlowAfter(p, store, history, flow, a) == FollowedHalf(u, v)
       <==> a.PutFollowing? && flow == Flow.Following(u, v)
    ensures flow == FollowedHalf(u, v) ==> a.PutFollowedBy? || a.Abandon?
    ensures LeftOut(flow, a)[Put(FollowedByKey(v), u)] == if a.Abandon? && flow == FollowedHalf(u, v) then 1 else 0
  {
    NameKeys(v);
    if flow.FollowedHalf? {
      NameKeys(flow.toFollow);
    }
  }

  lemma PutsCount(puts: seq<Op>, put: seq<Op>, op: Op)
    requires |put| <= 1
    ensures multiset(puts + put)[op] == multiset(puts)[op] + if put == [op] then 1 else 0
  {
    assert multiset(puts + put) == multiset(puts) + multiset(put);
    if put != [] {
      assert put == [put[0]];
    }
  }

  lemma PerformKeepsConversed(p: Platform, w: World, a: Action, u: string, v: string)
    requires CanAct(FlowOf(w.flows, a.c), a) && Conversed(w, u, v)
    ensures Conversed(Perform(p, w, a), u, v)
  {
    var flow := FlowOf(w.flows, a.c);
    FirstPutOfFollow(p, flow, a, u, v);
    SecondPutOfFollow(p, flow, a, u, v);
    HalfOfFollow(p, StoreOf(w), w.puts, flow, a, u, v);
    HalfDoneStep(w.flows, a.c, FlowAfter(p, StoreOf(w), w.puts, flow, a), u, v);
    PutsCount(w.puts, PutOf(p, flow, a), Put(FollowingKey(u), v));
    PutsCount(w.puts, PutOf(p, flow, a), Put(FollowedByKey(v), u));
  }

  lemma {:induction false} ExecKeepsConversed(p: Platform, events: seq<Event>, u: string, v: string)
    ensures Conversed(Exec(p, NEW_WORLD, events), u, v)
    decreases |events|
  {
    if events != [] {
      var before, e := Exec(p, NEW_WORLD, events[..|events| - 1]), events[|events| - 1];
      ExecKeepsConversed(p, events[..|events| - 1], u, v);
      if Enabled(before, e) {
        match e
        case Act(a) => PerformKeepsConversed(p, before, a, u, v);
        case Reload => AllOfFitting(before.puts);
      }
    }
  }

  lemma {:induction false} ExecPutsOnly(p: Platform, events: seq<Event>)
    ensures PutsOnly(Exec(p, NEW_WORLD, events).puts)
    decreases |events|
  {
    if events != [] {
      var before, e := Exec(p, NEW_WORLD, events[..|events| - 1]), events[|events| - 1];
      ExecPutsOnly(p, events[..|events| - 1]);
      if Enabled(before, e) && e.Reload? {
        AllOfFitting(before.puts);
      }
    }
  }

  /** The two lists are converses of each other, repetitions counted, at every moment of every
      interleaving, up to the follows that are between their two puts and those that were abandoned
      there; the latter difference stays for ever. */
  lemma {:induction false} FollowListsAreConverses(p: Platform, events: seq<Event>, u: string, v: string)
    ensures multiset(Values(StoreOf(Exec(p, NEW_WORLD, events)), FollowingKey(u)))[v]
         == multiset(Values(StoreOf(Exec(p, NEW_WORLD, events)), FollowedByKey(v)))[u]
            + |HalfDone(Exec(p, NEW_WORLD, events).flows, u, v)|
            + Exec(p, NEW_WORLD, events).abandoned[Put(FollowedByKey(v), u)]
  {
    var w := Exec(p, NEW_WORLD, events);
    ExecPutsOnly(p, events);
    ExecKeepsConversed(p, events, u, v);
    ValueCount(w.puts, FollowingKey(u), v);
    ValueCount(w.puts, FollowedByKey(v), u);
  }

  // ---- Read ends ----

  /** A bound on the turns left: the time of the first put of the id to be asked for next. */
  function TurnsLeft(w: World, c: nat): nat
    requires FlowOf(w.flows, c).Walking?
  {
    var next := FlowOf(w.flows, c).next;
    if HasKey(w.puts, next) then 1 + FirstPut(w.puts, next) else 0
  }

  /** A turn that asks for an id lowers the bound, because the parent of a warble was first put strictly
      earlier. */
  lemma OwnTurn(p: Platform, w: World, c: nat)
    requires Faithful(p) && Served(p, w) && FlowOf(w.flows, c).Walking?
    requires var after := FlowOf(Perform(p, w, Turn(c)).flows, c); after.Walking? && WalksIds(after)
    ensures WalksIds(FlowOf(w.flows, c))
    ensures TurnsLeft(Perform(p, w, Turn(c)), c) < TurnsLeft(w, c)
  {
    var flow := FlowOf(w.flows, c);
    assert RefersBack(w.puts, flow);
    assert w.puts + [] == w.puts;
    TurnWalks(p, StoreOf(w), w.puts, flow, Turn(c));
    HeldWarble(p, w.puts, flow.next);
    NoEmptyKey(p, w.puts);
  }

  lemma NextStays(p: Platform, w: World, a: Action, c: nat)
    requires Faithful(p) && Served(p, w) && CanAct(FlowOf(w.flows, a.c), a) && a.c != c
    requires FlowOf(w.flows, c).Walking? && WalksIds(FlowOf(w.flows, c))
    ensures FlowOf(Perform(p, w, a).flows, c) == FlowOf(w.flows, c)
    ensures TurnsLeft(Perform(p, w, a), c) == TurnsLeft(w, c)
  {
    var put, next := PutOf(p, FlowOf(w.flows, a.c), a), FlowOf(w.flows, c).next;
    assert RefersBack(w.puts, FlowOf(w.flows, c));
    if next == "" {
      PutKeepsServed(p, w, a);
      NoEmptyKey(p, w.puts);
      NoEmptyKey(p, w.puts + put);
    } else {
      HasKeyMore(w.puts, put, next);
    }
  }

  /** No event raises the bound, and each turn of the walk lowers it, as long as the walk asks for ids and
      not for the keys of names. */
  lemma {:induction false} TurnsLeftDecrease(p: Platform, w: World, e: Event, c: nat)
    requires Faithful(p) && Served(p, w) && Enabled(w, e) && FlowOf(w.flows, c).Walking?
    requires var after := FlowOf(Do(p, w, e).flows, c); after.Walking? && WalksIds(after)
    ensures WalksIds(FlowOf(w.flows, c))
    ensures TurnsLeft(Do(p, w, e), c) + (if e == Act(Turn(c)) then 1 else 0) <= TurnsLeft(w, c)
  {
    match e
    case Act(a) =>
      if a.c == c {
        OnlyTurnsWalk(p, StoreOf(w), w.puts, FlowOf(w.flows, c), a);
        OwnTurn(p, w, c);
      } else {
        NextStays(p, w, a, c);
      }
    case Reload => AllOfFitting(w.puts);
  }

  /** The read of client `c` goes on through all of these events. */
  ghost predicate KeepsWalking(p: Platform, w: World, events: seq<Event>, c: nat) {
    FlowOf(Exec(p, w, events).flows, c).Walking? &&
    (events == [] || KeepsWalking(p, w, events[..|events| - 1], c))
  }

  lemma CountTurn(events: seq<Event>, c: nat)
    requires events != []
    ensures multiset(events)[Act(Turn(c))]
         == multiset(events[..|events| - 1])[Act(Turn(c))]
            + if events[|events| - 1] == Act(Turn(c)) then 1 else 0
  {
    var n := |events| - 1;
    assert events[..n] + [events[n]] == events;
    assert multiset(events) == multiset(events[..n]) + multiset{events[n]};
  }

  lemma WalkingCanTurn(w: World, c: nat)
    requires FlowOf(w.flows, c).Walking?
    ensures Enabled(w, Act(Turn(c)))
  {
  }

  /** `Read` ends, with posts, restarts and all other calls interleaved in any way, ids colliding in any
      way and others naming any ids: from any reachable moment of a walk, the walk takes at most
      `TurnsLeft` further turns, unless it comes to the key of a name itself. */
  lemma {:induction false} InterleavedReadEnds(p: Platform, w: World, events: seq<Event>, c: nat)
    requires Faithful(p) && Served(p, w) && FlowOf(w.flows, c).Walking?
    requires KeepsWalking(p, w, events, c) && WalksIds(FlowOf(Exec(p, w, events).flows, c))
    ensures WalksIds(FlowOf(w.flows, c))
    ensures multiset(events)[Act(Turn(c))] + TurnsLeft(Exec(p, w, events), c) <= TurnsLeft(w, c)
    decreases |events|
  {
    if events != [] {
      var n := |events| - 1;
      var before := Exec(p, w, events[..n]);
      ExecKeepsServed(p, w, events[..n]);
      WalkingCanTurn(before, c);
      if Enabled(before, events[n]) {
        TurnsLeftDecrease(p, before, events[n], c);
      }
      InterleavedReadEnds(p, w, events[..n], c);
      CountTurn(events, c);
    }
  }

  // ---- answers, when nobody replies to the key of a name ----

  /** The event lets a reply to the key of a name pass. */
  predicate Misleads(w: World, e: Event) {
    e.Act? && AnswersName(StoreOf(w), FlowOf(w.flows, e.a.c), e.a)
  }

  ghost predicate NeverMisleads(p: Platform, w: World, events: seq<Event>) {
    events == [] ||
    (var front := events[..|events| - 1];
     NeverMisleads(p, w, front) && !Misleads(Exec(p, w, front), events[|events| - 1]))
  }

  ghost predicate LegalFlow(p: Platform, puts: seq<Op>, flow: Flow) {
    RefersBack(puts, flow) &&
    match flow
    case Posting(_, _, parentId) => !IsNameKey(parentId)
    case Walking(start, next, warbles, since) =>
      && since <= puts && HasKey(since, start)
      && (!IsNameKey(start) ==>
            && !IsNameKey(next) && Known(since, next)
            && Chain(start, warbles, next) && KnownAt(p, since, warbles))
    case Answered(start, warbles, since, until) =>
      && since <= until <= puts
      && (Askable(until, start) ==> ThreadAt(p, until, start) <= warbles <= ThreadAt(p, since, start))
    case _ => true
  }

  ghost predicate Inv(p: Platform, w: World) {
    LegalPuts(p, w.puts) && forall c: nat :: LegalFlow(p, w.puts, FlowOf(w.flows, c))
  }

  lemma LegalFlowMore(p: Platform, puts: seq<Op>, more: seq<Op>, flow: Flow)
    requires LegalFlow(p, puts, flow)
    ensures LegalFlow(p, puts + more, flow)
  {
    RefersBackMore(puts, more, flow);
    assert puts <= puts + more;
  }

  lemma PutIsLegal(p: Platform, w: World, a: Action)
    requires Faithful(p) && Inv(p, w) && CanAct(FlowOf(w.flows, a.c), a)
    ensures LegalPuts(p, w.puts + PutOf(p, FlowOf(w.flows, a.c), a))
  {
    var flow := FlowOf(w.flows, a.c);
    var put := PutOf(p, flow, a);
    assert LegalFlow(p, w.puts, flow);
    PutIsServed(p, w.puts, flow, a);
    if put == [] {
      assert w.puts + put == w.puts;
    } else {
      assert put[0] in put && put == [put[0]];
      LegalPutsMore(p, w.puts, put[0]);
    }
  }

  lemma ChainMore(start: string, warbles: seq<Warble>, next: string, w: Warble)
    requires if warbles == [] then start == next else Chain(start, warbles, next)
    requires w.id == next
    ensures Chain(start, warbles + [w], w.parentId)
  {
  }

  lemma KnownMore(p: Platform, puts: seq<Op>, warbles: seq<Warble>, w: Warble)
    requires KnownAt(p, puts, warbles) && AloneAt(p, puts, w)
    ensures KnownAt(p, puts, warbles + [w])
  {
  }

  /** A turn that finds one warble: it was alone with its id already at the first turn. */
  lemma TurnFinds(p: Platform, puts: seq<Op>, since: seq<Op>, next: string)
    requires Faithful(p) && LegalPuts(p, puts) && Askable(puts, next) && since <= puts
    requires since == puts || HasKey(since, next)
    requires Single(Replay(map[], puts), next)
    ensures var w := Held(p, Replay(map[], puts), next);
            && AloneAt(p, since, w) && w.id == next
            && !IsNameKey(w.parentId) && (w.parentId == "" || HasKey(since, w.parentId))
  {
    var more := puts[|since|..];
    assert since + more == puts;
    SingleWasPut(p, puts, next);
    HeldBefore(p, since, more, next);
    LegalPutsPrefix(p, since, more);
    HeldIsLegal(p, puts, next);
    HeldIsLegal(p, since, next);
  }

  /** A turn that finds no warble, or several: the answer lies between the threads of the two times. */
  lemma TurnAnswers(p: Platform, puts: seq<Op>, since: seq<Op>, start: string, warbles: seq<Warble>, next: string)
    requires Faithful(p) && LegalPuts(p, puts) && since <= puts && Askable(puts, next)
    requires if warbles == [] then start == next && since == puts
             else Chain(start, warbles, next) && KnownAt(p, since, warbles)
    requires !Single(Replay(map[], puts), next)
    ensures Askable(puts, start) && ThreadAt(p, puts, start) <= warbles <= ThreadAt(p, since, start)
  {
    if warbles != [] {
      var more := puts[|since|..];
      assert since + more == puts;
      LegalPutsPrefix(p, since, more);
      ThreadWithinChain(p, since, more, start, warbles, next);
      ChainBeginsThread(p, since, start, warbles, next);
      assert AloneAt(p, since, warbles[0]);
      assert warbles + [] == warbles;
    }
  }

  lemma TurnIsLegal(p: Platform, w: World, c: nat)
    requires Faithful(p) && Inv(p, w) && CanAct(FlowOf(w.flows, c), Turn(c))
    requires RefersBack(w.puts, FlowAfter(p, StoreOf(w), w.puts, FlowOf(w.flows, c), Turn(c)))
    ensures LegalFlow(p, w.puts, FlowAfter(p, StoreOf(w), w.puts, FlowOf(w.flows, c), Turn(c)))
  {
    var flow := FlowOf(w.flows, c);
    assert LegalFlow(p, w.puts, flow);
    StartWasPut(p, w, flow);
    LegalPutsOnly(p, w.puts);
    ValuesOfPuts(w.puts, NextId(flow));
    if Askable(w.puts, flow.start) {
      if Single(StoreOf(w), NextId(flow)) {
        TurnGoesOn(p, w, flow);
      } else {
        TurnAnswers(p, w.puts, Since(w.puts, flow), flow.start, Met(flow), NextId(flow));
      }
    }
  }

  lemma StartWasPut(p: Platform, w: World, flow: Flow)
    requires LegalFlow(p, w.puts, flow) && (flow.StartingRead? || flow.Walking?)
    ensures flow.Walking? ==> HasKey(w.puts, flow.start)
  {
    if flow.Walking? {
      HasKeyMore(flow.since, w.puts[|flow.since|..], flow.start);
      assert flow.since + w.puts[|flow.since|..] == w.puts;
    }
  }

  lemma TurnGoesOn(p: Platform, w: World, flow: Flow)
    requires Faithful(p) && LegalPuts(p, w.puts) && LegalFlow(p, w.puts, flow) && (flow.StartingRead? || flow.Walking?)
    requires Single(StoreOf(w), NextId(flow)) && !IsNameKey(flow.start)
    ensures var warble, since := Held(p, StoreOf(w), NextId(flow)), Since(w.puts, flow);
            && !IsNameKey(warble.parentId) && Known(since, warble.parentId) && HasKey(since, flow.start)
            && Chain(flow.start, Met(flow) + [warble], warble.parentId) && KnownAt(p, since, Met(flow) + [warble])
  {
    var warble, since := Held(p, StoreOf(w), NextId(flow)), Since(w.puts, flow);
    NextIsKnown(p, w, flow);
    SingleWasPut(p, w.puts, NextId(flow));
    TurnFinds(p, w.puts, since, NextId(flow));
    ChainMore(flow.start, Met(flow), NextId(flow), warble);
    KnownMore(p, since, Met(flow), warble);
  }

  lemma NextIsKnown(p: Platform, w: World, flow: Flow)
    requires LegalPuts(p, w.puts) && LegalFlow(p, w.puts, flow) && (flow.StartingRead? || flow.Walking?)
    requires Single(StoreOf(w), NextId(flow)) && !IsNameKey(flow.start)
    ensures Since(w.puts, flow) == w.puts || HasKey(Since(w.puts, flow), NextId(flow))
  {
    SingleWasPut(p, w.puts, NextId(flow));
    LegalPutsOnly(p, w.puts);
    NoEmptyKey(p, w.puts);
  }

  lemma FlowIsLegal(p: Platform, w: World, a: Action)
    requires Faithful(p) && Inv(p, w) && CanAct(FlowOf(w.flows, a.c), a) && !Misleads(w, Act(a))
    ensures LegalFlow(p, w.puts, FlowAfter(p, StoreOf(w), w.puts, FlowOf(w.flows, a.c), a))
  {
    var flow := FlowOf(w.flows, a.c);
    assert LegalFlow(p, w.puts, flow);
    LegalPutsOnly(p, w.puts);
    StoreIsPast(p, w.puts);
    FlowRefersBack(p, StoreOf(w), w.puts, flow, a);
    if a.Turn? {
      TurnIsLegal(p, w, a.c);
      assert a == Turn(a.c);
    }
  }

  lemma PerformKeepsInv(p: Platform, w: World, a: Action)
    requires Faithful(p) && Inv(p, w) && CanAct(FlowOf(w.flows, a.c), a) && !Misleads(w, Act(a))
    ensures Inv(p, Perform(p, w, a))
  {
    var t, flow := Perform(p, w, a), FlowOf(w.flows, a.c);
    PutIsLegal(p, w, a);
    FlowIsLegal(p, w, a);
    forall c: nat
      ensures LegalFlow(p, t.puts, FlowOf(t.flows, c))
    {
      assert LegalFlow(p, w.puts, FlowOf(w.flows, c));
      LegalFlowMore(p, w.puts, PutOf(p, flow, a),
                    if c == a.c then FlowAfter(p, StoreOf(w), w.puts, flow, a) else FlowOf(w.flows, c));
    }
  }

  lemma DoKeepsInv(p: Platform, w: World, e: Event)
    requires Faithful(p) && Inv(p, w) && Enabled(w, e) && !Misleads(w, e)
    ensures Inv(p, Do(p, w, e))
  {
    match e
    case Act(a) => PerformKeepsInv(p, w, a);
    case Reload => AllOfFitting(w.puts);
  }

  lemma {:induction false} ExecKeepsInv(p: Platform, w: World, events: seq<Event>)
    requires Faithful(p) && Inv(p, w) && NeverMisleads(p, w, events)
    ensures Inv(p, Exec(p, w, events))
    decreases |events|
  {
    if events != [] {
      var before, e := Exec(p, w, events[..|events| - 1]), events[|events| - 1];
      ExecKeepsInv(p, w, events[..|events| - 1]);
      if Enabled(before, e) {
        DoKeepsInv(p, before, e);
      }
    }
  }

  /** The event begins a read of client `c`. */
  ghost predicate BeginsRead(p: Platform, events: seq<Event>, i: nat, c: nat) {
    && i < |events| && events[i].Act? && events[i].a.BeginRead? && events[i].a.c == c
    && Enabled(Exec(p, NEW_WORLD, events[..i]), events[i])
  }

  ghost predicate LastRead(p: Platform, events: seq<Event>, i: nat, c: nat) {
    BeginsRead(p, events, i, c) && forall j: nat :: i < j ==> !BeginsRead(p, events, j, c)
  }

  lemma LastReadMore(p: Platform, events: seq<Event>, i: nat, c: nat)
    requires events != [] && LastRead(p, events[..|events| - 1], i, c)
    requires !BeginsRead(p, events, |events| - 1, c)
    ensures LastRead(p, events, i, c)
  {
    var front := events[..|events| - 1];
    forall j: nat | j < |front|
      ensures BeginsRead(p, events, j, c) <==> BeginsRead(p, front, j, c)
    {
      assert front[..j] == events[..j] && front[j] == events[j];
    }
  }

  predicate Reading(flow: Flow) {
    flow.StartingRead? || flow.Walking? || flow.Answered?
  }

  /** What a read was asked for, and that its turns come after it was asked. */
  ghost predicate AskedIn(before: World, id: string, now: World, flow: Flow)
    requires Reading(flow)
  {
    && before.puts <= now.puts && flow.start == id
    && (!flow.StartingRead? ==> before.puts <= flow.since)
  }

  lemma PutsGrow(p: Platform, w: World, e: Event)
    requires Enabled(w, e)
    ensures w.puts <= Do(p, w, e).puts
  {
    if e.Reload? {
      AllOfFitting(w.puts);
    }
  }

  lemma FlowOfOthers(p: Platform, w: World, e: Event, c: nat)
    requires Enabled(w, e) && (e.Act? ==> e.a.c != c)
    ensures FlowOf(Do(p, w, e).flows, c) == FlowOf(w.flows, c)
  {
  }

  /** A read in progress or finished is about the id of the client's last `BeginRead`. */
  lemma {:induction false} ReadWasAsked(p: Platform, events: seq<Event>, c: nat) returns (i: nat)
    requires Reading(FlowOf(Exec(p, NEW_WORLD, events).flows, c))
    ensures LastRead(p, events, i, c)
    ensures var now := Exec(p, NEW_WORLD, events);
            AskedIn(Exec(p, NEW_WORLD, events[..i]), events[i].a.id, now, FlowOf(now.flows, c))
    decreases |events|
  {
    var n := |events| - 1;
    var front, e := events[..n], events[n];
    var before := Exec(p, NEW_WORLD, front);
    if BeginsRead(p, events, n, c) {
      i := n;
    } else {
      if Enabled(before, e) {
        PutsGrow(p, before, e);
        StillReading(p, before, e, c);
      }
      i := ReadWasAsked(p, front, c);
      LastReadMore(p, events, i, c);
      assert front[..i] == events[..i];
    }
  }

  lemma StillReading(p: Platform, w: World, e: Event, c: nat)
    requires Enabled(w, e) && Reading(FlowOf(Do(p, w, e).flows, c))
    requires !(e.Act? && e.a.BeginRead? && e.a.c == c)
    ensures var flow, after := FlowOf(w.flows, c), FlowOf(Do(p, w, e).flows, c);
            && Reading(flow) && after.start == flow.start
            && (after.StartingRead? ==> flow.StartingRead?)
            && (flow.StartingRead? && !after.StartingRead? ==> after.since == w.puts)
            && (!flow.StartingRead? ==> after.since == flow.since)
  {
    if e.Act? ==> e.a.c != c {
      FlowOfOthers(p, w, e, c);
    }
  }

  /** The answer of a read that ran while others went on, from an id that is not the key of a name that is
      there, when nobody replied to such a key: it begins the thread, of the id given at
      the last `BeginRead`, at the time of its first turn, and the thread at the time of its last turn begins
      it.  Both times lie within the call.  Those two threads, and with them the
      answer, are the same if and only if no put in between gave another value to an id on the thread. */
  lemma {:induction false} AnswerLiesBetweenThreads(p: Platform, events: seq<Event>, c: nat) returns (i: nat)
    requires Faithful(p) && NeverMisleads(p, NEW_WORLD, events)
    requires FlowOf(Exec(p, NEW_WORLD, events).flows, c).Answered?
    requires var flow := FlowOf(Exec(p, NEW_WORLD, events).flows, c); Askable(flow.until, flow.start)
    ensures LastRead(p, events, i, c)
    ensures var Answered(start, warbles, since, until) := FlowOf(Exec(p, NEW_WORLD, events).flows, c);
            var id := events[i].a.id;
            && start == id
            && Exec(p, NEW_WORLD, events[..i]).puts <= since <= until <= Exec(p, NEW_WORLD, events).puts
            && ThreadAt(p, until, id) <= warbles <= ThreadAt(p, since, id)
            && (ThreadAt(p, until, id) == ThreadAt(p, since, id)
                <==> !Touched(until[|since|..], ThreadAt(p, since, id)))
  {
    i := ReadWasAsked(p, events, c);
    var w := Exec(p, NEW_WORLD, events);
    var flow := FlowOf(w.flows, c);
    ExecKeepsInv(p, NEW_WORLD, events);
    assert LegalFlow(p, w.puts, flow);
    assert flow.until + w.puts[|flow.until|..] == w.puts;
    LegalPutsPrefix(p, flow.until, w.puts[|flow.until|..]);
    assert flow.since + flow.until[|flow.since|..] == flow.until;
    if ThreadAt(p, flow.since, flow.start) != [] {
      ThreadStaysUnlessTouched(p, flow.since, flow.until[|flow.since|..], flow.start);
    }
  }
}
