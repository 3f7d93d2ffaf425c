/** Warble calls of many clients over a key-value server that takes effect, appends, acknowledges and
    crashes on its own: the calls outlive the server.  A call need not wait for its put, because the
    service does not look at the outcome of a put; the runs in which it does are among these. */
module WarbleCrashes {
  import opened KeyValueDataStructure
  import KV = KeyValueConcurrency
  import opened WarbleModel
  import opened WarbleService
  import opened PutHistory
  import opened WarbleFlows
  import opened WarbleDurability

  /** What the server has done so far, and the calls in progress. */
  datatype World = World(actions: seq<KV.Action>, flows: Flows)

  const NEW_WORLD := World([], map[])

  /** A step of a call, or of the server.  The calls of the server's methods come from the clients. */
  datatype Event = Client(a: Action) | Server(s: KV.Action)

  function LiveStore(w: World): Store {
    KV.Exec(w.actions).live
  }

  predicate Enabled(w: World, e: Event) {
    match e
    case Client(a) => CanAct(FlowOf(w.flows, a.c), a)
    case Server(s) => !s.Invoke? && KV.Enabled(KV.Exec(w.actions), s)
  }

  /** A put is a call of the server; checks and turns look at the live map. */
  function Do(p: Platform, w: World, e: Event): World
    requires Enabled(w, e)
  {
    match e
    case Client(a) =>
      var flow := FlowOf(w.flows, a.c);
      World(w.actions + Sends(PutOf(p, flow, a)),
            w.flows[a.c := FlowAfter(p, LiveStore(w), Ever(w.actions), flow, a)])
    case Server(s) => w.(actions := w.actions + [s])
  }

  /** The calls of the server that these puts make. */
  function Sends(puts: seq<Op>): seq<KV.Action> {
    if puts == [] then [] else Sends(puts[..|puts| - 1]) + [KV.Invoke(puts[|puts| - 1])]
  }

  lemma SendsOne(put: seq<Op>)
    requires |put| <= 1
    ensures Sends(put) == if put == [] then [] else [KV.Invoke(put[0])]
  {
    if put != [] {
      assert put[..0] == [];
    }
  }

  /** A schedule: any list of events, of which the disabled ones have no effect. */
  function Exec(p: Platform, w: World, events: seq<Event>): World {
    if events == [] then w else
      var before, e := Exec(p, w, events[..|events| - 1]), events[|events| - 1];
      if Enabled(before, e) then Do(p, before, e) else before
  }

  // ---- what the service refers to ----

  /** Each put that was sent refers to what took effect before, and so does each call in progress. */
  ghost predicate Served(p: Platform, w: World) {
    ServedWhenMade(p, w.actions) && forall c: nat :: RefersBack(Ever(w.actions), FlowOf(w.flows, c))
  }

  lemma LiveIsPast(p: Platform, w: World)
    requires Faithful(p) && Served(p, w)
    ensures StoreOfPast(p, LiveStore(w), Ever(w.actions))
  {
    var applied, ever := KV.Exec(w.actions).applied, Ever(w.actions);
    ExecEverServed(p, w.actions);
    KV.ExecInv(w.actions);
    ServedPutsOnly(p, ever);
    PartPutsOnly(ever, applied);
    KeysOfPart(applied, ever);
    forall k | Present(LiveStore(w), k)
      ensures HasKey(ever, k)
    {
      ValuesOfPuts(applied, k);
    }
    forall k | Single(LiveStore(w), k) && !IsNameKey(k)
      ensures Known(ever, Held(p, LiveStore(w), k).parentId)
    {
      HeldIsKnown(p, ever, applied, k);
    }
  }

  /** The parent of any warble in the map took effect some time, even if it was lost. */
  lemma HeldIsKnown(p: Platform, ever: seq<Op>, applied: seq<Op>, id: string)
    requires Faithful(p) && ServedPuts(p, ever) && PutsOnly(applied) && forall op :: op in applied ==> op in ever
    requires Single(Replay(map[], applied), id) && !IsNameKey(id)
    ensures Known(ever, Held(p, Replay(map[], applied), id).parentId)
  {
    ValuesOfPuts(applied, id);
    var op := applied[FirstPut(applied, id)];
    assert op in ever;
    var n :| 0 <= n < |ever| && ever[n] == op;
    assert ServedPut(p, ever[..n], ever[n]);
    EarlierKey(ever, n, p.parse(op.value).parentId);
  }

  lemma {:induction false} EverAfterServer(actions: seq<KV.Action>, a: KV.Action)
    ensures Ever(actions + [a])
         == Ever(actions) + if a.ApplyToMap? && KV.Enabled(KV.Exec(actions), a) then [a.op] else []
    ensures KV.Exec(actions + [a])
         == if KV.Enabled(KV.Exec(actions), a) then KV.Do(KV.Exec(actions), a) else KV.Exec(actions)
  {
    assert (actions + [a])[..|actions|] == actions;
  }

  lemma ServedOneMore(p: Platform, actions: seq<KV.Action>, a: KV.Action)
    requires ServedWhenMade(p, actions) && (a.Invoke? ==> ServedPut(p, Ever(actions), a.op))
    ensures ServedWhenMade(p, actions + [a])
  {
    assert (actions + [a])[..|actions|] == actions;
  }

  lemma SendKeepsServed(p: Platform, actions: seq<KV.Action>, put: seq<Op>)
    requires ServedWhenMade(p, actions) && |put| <= 1
    requires forall op :: op in put ==> ServedPut(p, Ever(actions), op)
    ensures ServedWhenMade(p, actions + Sends(put)) && Ever(actions + Sends(put)) == Ever(actions)
  {
    SendsOne(put);
    if put == [] {
      assert actions + Sends(put) == actions;
    } else {
      assert put[0] in put;
      ServedOneMore(p, actions, KV.Invoke(put[0]));
      EverAfterServer(actions, KV.Invoke(put[0]));
    }
  }

  lemma ClientKeepsServed(p: Platform, w: World, a: Action)
    requires Faithful(p) && Served(p, w) && Enabled(w, Client(a))
    ensures Served(p, Do(p, w, Client(a))) && Ever(Do(p, w, Client(a)).actions) == Ever(w.actions)
  {
    var flow, t := FlowOf(w.flows, a.c), Do(p, w, Client(a));
    var put := PutOf(p, flow, a);
    LiveIsPast(p, w);
    PutIsServed(p, Ever(w.actions), flow, a);
    FlowRefersBack(p, LiveStore(w), Ever(w.actions), flow, a);
    SendKeepsServed(p, w.actions, put);
    forall c: nat
      ensures RefersBack(Ever(t.actions), FlowOf(t.flows, c))
    {
      assert c != a.c ==> FlowOf(t.flows, c) == FlowOf(w.flows, c);
    }
  }

  lemma ServerKeepsServed(p: Platform, w: World, s: KV.Action)
    requires Served(p, w) && Enabled(w, Server(s))
    ensures Served(p, Do(p, w, Server(s))) && Ever(w.actions) <= Ever(Do(p, w, Server(s)).actions)
  {
    EverAfterServer(w.actions, s);
    ServedOneMore(p, w.actions, s);
    forall c: nat
      ensures RefersBack(Ever(w.actions + [s]), FlowOf(w.flows, c))
    {
      RefersBackMore(Ever(w.actions), if s.ApplyToMap? then [s.op] else [], FlowOf(w.flows, c));
      assert Ever(w.actions) + [] == Ever(w.actions);
    }
  }

  lemma DoKeepsServed(p: Platform, w: World, e: Event)
    requires Faithful(p) && Served(p, w) && Enabled(w, e)
    ensures Served(p, Do(p, w, e)) && Ever(w.actions) <= Ever(Do(p, w, e).actions)
  {
    match e
    case Client(a) => ClientKeepsServed(p, w, a);
    case Server(s) => ServerKeepsServed(p, w, s);
  }

  /** Whatever clients do and whenever the server crashes, each put that the service sends refers to users
      and warbles that took effect before, although they may have been lost since. */
  lemma {:induction false} ServiceIsServed(p: Platform, w: World, events: seq<Event>)
    requires Faithful(p) && Served(p, w)
    ensures Served(p, Exec(p, w, events))
    decreases |events|
  {
    if events != [] {
      var before, e := Exec(p, w, events[..|events| - 1]), events[|events| - 1];
      ServiceIsServed(p, w, events[..|events| - 1]);
      if Enabled(before, e) {
        DoKeepsServed(p, before, e);
      }
    }
  }

  // ---- a call that runs alone ----

  function Clients(actions: seq<Action>): seq<Event> {
    if actions == [] then [] else [Client(actions[0])] + Clients(actions[1..])
  }

  function Next(p: Platform, w: World, e: Event): World {
    if Enabled(w, e) then Do(p, w, e) else w
  }

  lemma ExecLast(p: Platform, w: World, events: seq<Event>, e: Event)
    ensures Exec(p, w, events + [e]) == Next(p, Exec(p, w, events), e)
  {
    assert (events + [e])[..|events|] == events;
  }

  lemma ExecLater(p: Platform, w: World, v: World, first: seq<Event>, second: seq<Event>, e: Event)
    requires Exec(p, w, first + second) == Exec(p, v, second)
    ensures Exec(p, w, first + (second + [e])) == Exec(p, v, second + [e])
  {
    ExecLast(p, w, first + second, e);
    ExecLast(p, v, second, e);
    assert first + second + [e] == first + (second + [e]);
  }

  lemma {:induction false} ExecConcat(p: Platform, w: World, first: seq<Event>, second: seq<Event>)
    ensures Exec(p, w, first + second) == Exec(p, Exec(p, w, first), second)
    decreases |second|
  {
    if second == [] {
      assert first + second == first;
    } else {
      var front, e := second[..|second| - 1], second[|second| - 1];
      assert front + [e] == second;
      ExecConcat(p, w, first, front);
      ExecLater(p, w, Exec(p, w, first), first, front, e);
    }
  }

  /** What the client has sent since `start`, seen by itself and in the world; the server has not moved. */
  ghost predicate Mirrors(start: World, c: nat, w: World, l: Local) {
    && w.actions == start.actions + Sends(l.puts) && FlowOf(w.flows, c) == l.flow
    && LiveStore(w) == LiveStore(start) && Ever(w.actions) == Ever(start.actions)
    && forall d: nat :: d != c ==> FlowOf(w.flows, d) == FlowOf(start.flows, d)
  }

  lemma SendsMore(puts: seq<Op>, op: Op)
    ensures Sends(puts + [op]) == Sends(puts) + [KV.Invoke(op)]
  {
    assert (puts + [op])[..|puts|] == puts;
  }

  lemma SendsConcat(before: seq<KV.Action>, puts: seq<Op>, put: seq<Op>)
    requires |put| <= 1
    ensures before + Sends(puts) + Sends(put) == before + Sends(puts + put)
  {
    SendsOne(put);
    if put == [] {
      assert puts + put == puts;
    } else {
      assert put == [put[0]];
      SendsMore(puts, put[0]);
    }
  }

  lemma SendingLeavesServer(actions: seq<KV.Action>, put: seq<Op>)
    requires |put| <= 1
    ensures KV.Exec(actions + Sends(put)).live == KV.Exec(actions).live
    ensures Ever(actions + Sends(put)) == Ever(actions)
  {
    SendsOne(put);
    if put == [] {
      assert actions + Sends(put) == actions;
    } else {
      EverAfterServer(actions, KV.Invoke(put[0]));
    }
  }

  lemma MirrorStep(p: Platform, start: World, c: nat, w: World, l: Local, a: Action)
    requires Mirrors(start, c, w, l) && a.c == c
    ensures Mirrors(start, c, Next(p, w, Client(a)), LocalStep(p, LiveStore(start), Ever(start.actions), l, a))
  {
    if CanAct(l.flow, a) {
      SendsConcat(start.actions, l.puts, PutOf(p, l.flow, a));
      SendingLeavesServer(w.actions, PutOf(p, l.flow, a));
    }
  }

  lemma {:induction false} MirrorRun(p: Platform, start: World, c: nat, w: World, l: Local, actions: seq<Action>)
    requires Mirrors(start, c, w, l) && forall i :: 0 <= i < |actions| ==> actions[i].c == c
    ensures Mirrors(start, c, Exec(p, w, Clients(actions)),
                    LocalRun(p, LiveStore(start), Ever(start.actions), l, actions))
    decreases |actions|
  {
    if actions != [] {
      var a, rest := actions[0], actions[1..];
      MirrorStep(p, start, c, w, l, a);
      MirrorRun(p, start, c, Next(p, w, Client(a)), LocalStep(p, LiveStore(start), Ever(start.actions), l, a), rest);
      ExecLast(p, w, [], Client(a));
      assert [] + [Client(a)] == [Client(a)];
      ExecConcat(p, w, [Client(a)], Clients(rest));
    }
  }

  /** When nothing comes in between, the requests of a call send the puts of the call, and a read ends
      with the answer of the call, whatever the server has been through before. */
  lemma CallRunsAlone(p: Platform, w: World, c: nat, call: Call, turns: nat)
    requires Free(FlowOf(w.flows, c)) && !call.Profile?
    requires call.Read? ==> HaltsIn(p, LiveStore(w), call.warbleId, turns)
    ensures var t, e := Exec(p, w, Clients(Steps(c, call, turns))), Decide(p, LiveStore(w), call);
            && e.Finished? && t.actions == w.actions + Sends(e.puts)
            && EndsAs(call, e.response, Ever(w.actions), FlowOf(t.flows, c))
            && forall d: nat :: d != c ==> FlowOf(t.flows, d) == FlowOf(w.flows, d)
  {
    var flow := FlowOf(w.flows, c);
    CallAlone(p, LiveStore(w), Ever(w.actions), flow, c, call, turns);
    StepsCheckFirst(c, call, turns);
    assert w.actions + Sends([]) == w.actions;
    MirrorRun(p, w, c, w, Local([], flow), Steps(c, call, turns));
  }

  // ---- a whole read, at one moment ----

  /** The event lets a reply to the key of a name pass. */
  predicate Misleads(w: World, e: Event) {
    e.Client? && AnswersName(LiveStore(w), FlowOf(w.flows, e.a.c), e.a)
  }

  ghost predicate NeverMisleads(p: Platform, events: seq<Event>) {
    events == [] ||
    (var front := events[..|events| - 1];
     NeverMisleads(p, front) && !Misleads(Exec(p, NEW_WORLD, front), events[|events| - 1]))
  }

  /** Nobody has replied, or is about to reply, to the key of a name. */
  ghost predicate Nameless(p: Platform, w: World) {
    && CallsAnswerNoName(p, w.actions)
    && forall c: nat :: c in w.flows && w.flows[c].Posting? ==> !IsNameKey(w.flows[c].parentId)
  }

  lemma StepKeepsNameless(p: Platform, w: World, e: Event)
    requires Faithful(p) && Served(p, w) && Enabled(w, e) && !Misleads(w, e) && Nameless(p, w)
    ensures Nameless(p, Do(p, w, e))
  {
    match e
    case Client(a) =>
      PutIsServed(p, Ever(w.actions), FlowOf(w.flows, a.c), a);
      SendsOne(PutOf(p, FlowOf(w.flows, a.c), a));
    case Server(_) =>
  }

  lemma {:induction false} RunIsNameless(p: Platform, events: seq<Event>)
    requires Faithful(p) && NeverMisleads(p, events)
    ensures Nameless(p, Exec(p, NEW_WORLD, events))
    decreases |events|
  {
    if events != [] {
      var before, e := Exec(p, NEW_WORLD, events[..|events| - 1]), events[|events| - 1];
      RunIsNameless(p, events[..|events| - 1]);
      ServiceIsServed(p, NEW_WORLD, events[..|events| - 1]);
      if Enabled(before, e) {
        StepKeepsNameless(p, before, e);
      }
    }
  }

  /** If nobody replies to the key of a name that is there, the server's schedule is one of those of
      `WarbleDurability`. */
  lemma ServiceIsLegal(p: Platform, events: seq<Event>)
    requires Faithful(p) && NeverMisleads(p, events)
    ensures LegalWhenMade(p, Exec(p, NEW_WORLD, events).actions)
  {
    ServiceIsServed(p, NEW_WORLD, events);
    RunIsNameless(p, events);
  }

  /** At every moment of every run of the service, through crashes in the middle of calls, a `Read` ends
      unless a warble was lost and its id collides. */
  lemma {:induction false} ServiceReadEnds(p: Platform, events: seq<Event>, id: string)
    requires Faithful(p) && NeverMisleads(p, events)
    requires !NamesKey(LiveStore(Exec(p, NEW_WORLD, events)), id)
    requires var w := Exec(p, NEW_WORLD, events);
             forall k :: !LostToCollision(Ever(w.actions), KV.Exec(w.actions).applied, k)
    ensures Halts(p, LiveStore(Exec(p, NEW_WORLD, events)), id)
  {
    var actions := Exec(p, NEW_WORLD, events).actions;
    ServiceIsLegal(p, events);
    ExecEverServed(p, actions);
    ServedPutsOnly(p, Ever(actions));
    PartPutsOnly(Ever(actions), KV.Exec(actions).applied);
    KV.ExecInv(actions);
    ValuesOfPuts(KV.Exec(actions).applied, id);
    if !Halts(p, LiveStore(Exec(p, NEW_WORLD, events)), id) {
      LoopNeedsLossAndCollision(p, actions, id);
    }
  }

  // ---- a read that spans crashes ----

  /** A bound on the turns left: the time of the first put, over all crashes, of the id to be asked for
      next. */
  function TurnsLeft(w: World, c: nat): nat
    requires FlowOf(w.flows, c).Walking?
  {
    var next := FlowOf(w.flows, c).next;
    if HasKey(Ever(w.actions), next) then 1 + FirstPut(Ever(w.actions), next) else 0
  }

  /** Client `c` asks for an id whose first warble is lost while another one with that id is there. */
  ghost predicate Misses(w: World, e: Event, c: nat) {
    e == Client(Turn(c)) && FlowOf(w.flows, c).Walking? &&
    LostToCollision(Ever(w.actions), KV.Exec(w.actions).applied, FlowOf(w.flows, c).next)
  }

  lemma OwnTurn(p: Platform, w: World, c: nat)
    requires Faithful(p) && Served(p, w) && FlowOf(w.flows, c).Walking?
    requires var after := FlowOf(Do(p, w, Client(Turn(c))).flows, c); after.Walking? && WalksIds(after)
    requires !Misses(w, Client(Turn(c)), c)
    ensures WalksIds(FlowOf(w.flows, c))
    ensures TurnsLeft(Do(p, w, Client(Turn(c))), c) < TurnsLeft(w, c)
  {
    var flow := FlowOf(w.flows, c);
    assert RefersBack(Ever(w.actions), flow);
    assert w.actions + [] == w.actions;
    TurnWalks(p, LiveStore(w), Ever(w.actions), flow, Turn(c));
    KV.ExecInv(w.actions);
    ExecEverServed(p, w.actions);
    RecoveredIsFirst(p, Ever(w.actions), KV.Exec(w.actions).applied, flow.next);
    NoEmptyKey(p, Ever(w.actions));
  }

  lemma FirstPutStays(p: Platform, ever: seq<Op>, later: seq<Op>, id: string)
    requires ServedPuts(p, ever) && ServedPuts(p, later) && ever <= later && Known(ever, id)
    ensures HasKey(later, id) <==> HasKey(ever, id)
    ensures HasKey(ever, id) ==> FirstPut(later, id) == FirstPut(ever, id)
  {
    if id == "" {
      NoEmptyKey(p, ever);
      NoEmptyKey(p, later);
    } else {
      assert ever + later[|ever|..] == later;
      HasKeyMore(ever, later[|ever|..], id);
    }
  }

  lemma OthersLeaveFlow(p: Platform, w: World, e: Event, c: nat)
    requires Enabled(w, e) && (e.Client? ==> e.a.c != c)
    ensures FlowOf(Do(p, w, e).flows, c) == FlowOf(w.flows, c)
  {
  }

  /** What others do, and what the server does, leaves the bound as it is. */
  lemma NextStays(p: Platform, w: World, e: Event, c: nat)
    requires Faithful(p) && Served(p, w) && Enabled(w, e) && (e.Client? ==> e.a.c != c)
    requires FlowOf(w.flows, c).Walking? && WalksIds(FlowOf(w.flows, c))
    ensures FlowOf(Do(p, w, e).flows, c) == FlowOf(w.flows, c)
    ensures TurnsLeft(Do(p, w, e), c) == TurnsLeft(w, c)
  {
    var t := Do(p, w, e);
    OthersLeaveFlow(p, w, e, c);
    assert RefersBack(Ever(w.actions), FlowOf(w.flows, c));
    DoKeepsServed(p, w, e);
    ExecEverServed(p, w.actions);
    ExecEverServed(p, t.actions);
    FirstPutStays(p, Ever(w.actions), Ever(t.actions), FlowOf(w.flows, c).next);
  }

  /** No event of anybody, and no crash, raises the bound, and each turn lowers it. */
  lemma {:induction false} TurnsLeftDecrease(p: Platform, w: World, e: Event, c: nat)
    requires Faithful(p) && Served(p, w) && Enabled(w, e) && FlowOf(w.flows, c).Walking?
    requires var after := FlowOf(Do(p, w, e).flows, c); after.Walking? && WalksIds(after)
    requires !Misses(w, e, c)
    ensures WalksIds(FlowOf(w.flows, c))
    ensures TurnsLeft(Do(p, w, e), c) + (if e == Client(Turn(c)) then 1 else 0) <= TurnsLeft(w, c)
  {
    if e.Client? && e.a.c == c {
      OnlyTurnsWalk(p, LiveStore(w), Ever(w.actions), FlowOf(w.flows, c), e.a);
      OwnTurn(p, w, c);
    } else {
      NextStays(p, w, e, c);
    }
  }

  /** The read of client `c` goes on through all of these events, and never misses a lost warble. */
  ghost predicate KeepsWalking(p: Platform, w: World, events: seq<Event>, c: nat) {
    FlowOf(Exec(p, w, events).flows, c).Walking? &&
    (events == [] ||
     (var front := events[..|events| - 1];
      KeepsWalking(p, w, front, c) && !Misses(Exec(p, w, front), events[|events| - 1], c)))
  }

  lemma CountTurn(events: seq<Event>, c: nat)
    requires events != []
    ensures multiset(events)[Client(Turn(c))]
         == multiset(events[..|events| - 1])[Client(Turn(c))]
            + if events[|events| - 1] == Client(Turn(c)) then 1 else 0
  {
    var n := |events| - 1;
    assert events[..n] + [events[n]] == events;
    assert multiset(events) == multiset(events[..n]) + multiset{events[n]};
  }

  /** A `Read` whose walk spans any number of crashes ends: from any reachable moment, the walk takes at
      most `TurnsLeft` further turns, unless it comes to the key of a name, or to an id whose first warble
      is lost at that moment while a colliding one is there. */
  lemma {:induction false} ReadEndsAcrossCrashes(p: Platform, w: World, events: seq<Event>, c: nat)
    requires Faithful(p) && Served(p, w) && FlowOf(w.flows, c).Walking?
    requires KeepsWalking(p, w, events, c) && WalksIds(FlowOf(Exec(p, w, events).flows, c))
    ensures WalksIds(FlowOf(w.flows, c))
    ensures multiset(events)[Client(Turn(c))] + TurnsLeft(Exec(p, w, events), c) <= TurnsLeft(w, c)
    decreases |events|
  {
    if events != [] {
      var n := |events| - 1;
      var before := Exec(p, w, events[..n]);
      ServiceIsServed(p, w, events[..n]);
      assert CanAct(FlowOf(before.flows, c), Turn(c));
      if Enabled(before, events[n]) {
        TurnsLeftDecrease(p, before, events[n], c);
      }
      ReadEndsAcrossCrashes(p, w, events[..n], c);
      CountTurn(events, c);
    }
  }
}
