/** Whole runs of the warble service on a persistent key-value server that may be restarted between
    calls, against whole runs of the abstract network. */
module WarbleStack {
  import opened Results
  import opened Decimal
  import opened KeyValueDataStructure
  import opened KeyValueLog
  import opened KeyValueService
  import opened WarbleModel
  import opened SocialNetwork
  import opened WarbleService
  import opened WarbleRefinement

  datatype StackEvent = Serve(call: Call) | RestartServer(stale: char)

  datatype StackRun = StackRun(server: Server, responses: seq<Response>)

  /** `None` when a call never returns or a server does not come up again. */
  ghost function StackStep(p: Platform, run: StackRun, e: StackEvent): Option<StackRun> {
    match e
    case Serve(call) =>
      (match Decide(p, run.server.store, call)
       case Diverges => None
       case Finished(puts, response) =>
         Some(StackRun(AfterOps(run.server, puts), run.responses + [response])))
    case RestartServer(stale) =>
      (match Start(run.server.persistent, run.server.log, stale)
       case None => None
       case Some(server) => Some(run.(server := server)))
  }

  ghost function RunStack(p: Platform, s: Server, events: seq<StackEvent>): Option<StackRun> {
    if events == [] then Some(StackRun(s, []))
    else
      match RunStack(p, s, events[..|events| - 1])
      case None => None
      case Some(run) => StackStep(p, run, events[|events| - 1])
  }

  function Calls(events: seq<StackEvent>): seq<Call> {
    if events == [] then [] else
      var last := events[|events| - 1];
      Calls(events[..|events| - 1]) + if last.Serve? then [last.call] else []
  }

  /** No name or message is so long that the log could not be read back. */
  predicate Sized(p: Platform, call: Call) {
    match call
    case RegisterUser(u) => |u| <= INT_MAX - |FOLLOWED_BY|
    case Post(u, text, parentId, seconds, useconds) =>
      |p.serialize(NewWarble(p, u, text, parentId, seconds, useconds))| <= INT_MAX
    case Follow(u, v) => |u| <= INT_MAX - |FOLLOWED_BY| && |v| <= INT_MAX - |FOLLOWED_BY|
    case _ => true
  }

  predicate AllSized(p: Platform, events: seq<StackEvent>) {
    forall i :: 0 <= i < |events| && events[i].Serve? ==> Sized(p, events[i].call)
  }

  /** No call replies to, or reads, the key of a name that is there at that time. */
  ghost predicate NamesNoPresentKey(p: Platform, events: seq<StackEvent>) {
    events == [] ||
    (var front, last := events[..|events| - 1], events[|events| - 1];
     NamesNoPresentKey(p, front) &&
     (last.Serve? ==> !NamesPresentKey(p, RunNet(p, EMPTY, Calls(front)), last.call)))
  }

  lemma PutsFit(p: Platform, store: Store, call: Call)
    requires Faithful(p) && Sized(p, call) && Decide(p, store, call).Finished?
    ensures AllFit(Decide(p, store, call).puts)
  {
    if call.Post? {
      NewWarbleMinted(p, call.username, call.text, call.parentId, call.seconds, call.useconds);
      MintLength(p, NewWarble(p, call.username, call.text, call.parentId, call.seconds, call.useconds));
    }
  }

  /** The log is exactly the record of the mutations that built the map, and it can be read back. */
  ghost predicate Recoverable(s: Server) {
    exists ops :: s == Logged(ops) && AllFit(ops)
  }

  /** The server after some events represents the network that the calls alone produce. */
  ghost predicate Implements(p: Platform, run: StackRun, calls: seq<Call>) {
    && run.responses == Responses(p, EMPTY, calls)
    && Represents(p, run.server.store, RunNet(p, EMPTY, calls))
    && Recoverable(run.server)
  }

  lemma PutsRecoverable(s: Server, puts: seq<Op>)
    requires Recoverable(s) && AllFit(puts)
    ensures Recoverable(AfterOps(s, puts))
  {
    var ops :| s == Logged(ops) && AllFit(ops);
    LoggedAfterOps(ops, puts);
    assert AllFit(ops + puts);
  }

  lemma ServeImplements(p: Platform, run: StackRun, calls: seq<Call>, call: Call)
    requires Faithful(p) && Implements(p, run, calls) && Sized(p, call)
    requires !NamesPresentKey(p, RunNet(p, EMPTY, calls), call)
    ensures var next := StackStep(p, run, Serve(call));
            next.Some? && Implements(p, next.value, calls + [call])
  {
    CallRefines(p, run.server.store, RunNet(p, EMPTY, calls), call);
    var puts := Decide(p, run.server.store, call).puts;
    assert (calls + [call])[..|calls|] == calls;
    PutsFit(p, run.server.store, call);
    PutsRecoverable(run.server, puts);
    AfterOpsStore(run.server, puts);
  }

  lemma RestartImplements(p: Platform, run: StackRun, calls: seq<Call>, stale: char)
    requires Implements(p, run, calls)
    ensures StackStep(p, run, RestartServer(stale)) == Some(run)
  {
    var ops :| run.server == Logged(ops) && AllFit(ops);
    StartOverLog(ops, stale);
  }

  lemma {:induction false} RunImplements(p: Platform, events: seq<StackEvent>)
    requires Faithful(p) && AllSized(p, events) && NamesNoPresentKey(p, events)
    ensures var run := RunStack(p, Logged([]), events);
            run.Some? && Implements(p, run.value, Calls(events))
    decreases |events|
  {
    if events == [] {
      EmptyRepresents(p);
    } else {
      var n := |events| - 1;
      RunImplements(p, events[..n]);
      var run := RunStack(p, Logged([]), events[..n]).value;
      match events[n]
      case Serve(call) => ServeImplements(p, run, Calls(events[..n]), call);
      case RestartServer(stale) =>
        RestartImplements(p, run, Calls(events[..n]), stale);
        assert Calls(events) == Calls(events[..n]);
    }
  }

  lemma EmptyRepresents(p: Platform)
    ensures Represents(p, map[], EMPTY)
    ensures Logged([]) == Server(map[], true, "") && AllFit([])
  {
  }

  /** The answers so far are those of the network. */
  ghost predicate AnswersAsNetwork(p: Platform, run: Option<StackRun>, calls: seq<Call>) {
    run.Some? && run.value.responses == Responses(p, EMPTY, calls)
  }

  lemma AnswersOfFront(p: Platform, s: Server, events: seq<StackEvent>)
    requires events != [] && AnswersAsNetwork(p, RunStack(p, s, events), Calls(events))
    ensures AnswersAsNetwork(p, RunStack(p, s, events[..|events| - 1]), Calls(events[..|events| - 1]))
  {
    var n := |events| - 1;
    var front, run := RunStack(p, s, events[..n]).value, RunStack(p, s, events).value;
    if events[n].Serve? {
      assert Calls(events)[..|Calls(events)| - 1] == Calls(events[..n]);
      assert front.responses == run.responses[..|run.responses| - 1];
    } else {
      assert Calls(events) == Calls(events[..n]);
    }
  }

  /** The first call that names the key of a name that is there gets another answer, or none. */
  lemma {:induction false} AnswersNameNoPresentKey(p: Platform, events: seq<StackEvent>)
    requires Faithful(p) && AllSized(p, events)
    requires AnswersAsNetwork(p, RunStack(p, Logged([]), events), Calls(events))
    ensures NamesNoPresentKey(p, events)
    decreases |events|
  {
    if events != [] {
      var n := |events| - 1;
      var front := events[..n];
      AnswersOfFront(p, Logged([]), events);
      AnswersNameNoPresentKey(p, front);
      if events[n].Serve? {
        RunImplements(p, front);
        LastAnswer(p, RunStack(p, Logged([]), front).value, Calls(front), events[n].call);
        assert Calls(events) == Calls(front) + [events[n].call];
      }
    }
  }

  lemma LastAnswer(p: Platform, run: StackRun, calls: seq<Call>, call: Call)
    requires Faithful(p) && Implements(p, run, calls)
    requires AnswersAsNetwork(p, StackStep(p, run, Serve(call)), calls + [call])
    ensures !NamesPresentKey(p, RunNet(p, EMPTY, calls), call)
  {
    var net := RunNet(p, EMPTY, calls);
    assert (calls + [call])[..|calls|] == calls;
    assert Responses(p, EMPTY, calls + [call])[|calls|] == NetStep(p, net, call).response;
    CallRefines(p, run.server.store, net, call);
  }

  /** The main result, with its exact condition.  From an empty persistent server, for every hash function
      and every sequence of the five calls with restarts anywhere between them: every call returns, every
      restart succeeds, and all answers are those of the abstract social network, which knows of no
      restarts, if and only if no call replies to, or reads, the key of a name that is there. */
  lemma {:induction false} StackRefinesNetwork(p: Platform, events: seq<StackEvent>)
    requires Faithful(p) && AllSized(p, events)
    ensures AnswersAsNetwork(p, RunStack(p, Server(map[], true, ""), events), Calls(events))
       <==> NamesNoPresentKey(p, events)
    ensures NamesNoPresentKey(p, events) ==>
              var run := RunStack(p, Server(map[], true, ""), events);
              run.Some? && Represents(p, run.value.server.store, RunNet(p, EMPTY, Calls(events)))
  {
    EmptyRepresents(p);
    if NamesNoPresentKey(p, events) {
      RunImplements(p, events);
    }
    if AnswersAsNetwork(p, RunStack(p, Server(map[], true, ""), events), Calls(events)) {
      AnswersNameNoPresentKey(p, events);
    }
  }

  lemma {:induction false} ResponseAt(p: Platform, calls: seq<Call>, i: nat)
    requires i < |calls|
    ensures Responses(p, EMPTY, calls)[..i] == Responses(p, EMPTY, calls[..i])
    ensures Responses(p, EMPTY, calls)[i] == NetStep(p, RunNet(p, EMPTY, calls[..i]), calls[i]).response
    decreases |calls|
  {
    var n := |calls| - 1;
    var responses := Responses(p, EMPTY, calls);
    assert responses[..n] == Responses(p, EMPTY, calls[..n]);
    if i < n {
      ResponseAt(p, calls[..n], i);
      assert calls[..n][..i] == calls[..i];
      assert responses[..n][..i] == responses[..i];
    }
  }

  /** The same without the network: every answer of the stack is the one that the calls and answers
      before it tell. */
  lemma StackExplained(p: Platform, events: seq<StackEvent>, i: nat)
    requires Faithful(p) && AllSized(p, events) && NamesNoPresentKey(p, events) && i < |Calls(events)|
    ensures var run, calls := RunStack(p, Server(map[], true, ""), events), Calls(events);
            run.Some? && |run.value.responses| == |calls|
            && Explained(p, calls[..i], run.value.responses[..i], calls[i], run.value.responses[i])
  {
    StackRefinesNetwork(p, events);
    ResponseAt(p, Calls(events), i);
    AnswersFollowHistory(p, Calls(events)[..i], Calls(events)[i]);
  }

  // ---- a server without a log ----

  /** The network that such a server stands for: a restart empties it. */
  ghost function MemoryNet(p: Platform, events: seq<StackEvent>): (net: Network)
    ensures Inv(p, net)
  {
    if events == [] then EMPTY else
      var before := MemoryNet(p, events[..|events| - 1]);
      match events[|events| - 1]
      case Serve(call) =>
        NetStepKeepsInv(p, before, call);
        NetStep(p, before, call).net
      case RestartServer(_) => EMPTY
  }

  ghost function MemoryAnswers(p: Platform, events: seq<StackEvent>): seq<Response> {
    if events == [] then [] else
      var front, last := events[..|events| - 1], events[|events| - 1];
      MemoryAnswers(p, front) +
      if last.Serve? then [NetStep(p, MemoryNet(p, front), last.call).response] else []
  }

  ghost predicate MemoryNamesNoPresentKey(p: Platform, events: seq<StackEvent>) {
    events == [] ||
    (var front, last := events[..|events| - 1], events[|events| - 1];
     MemoryNamesNoPresentKey(p, front) &&
     (last.Serve? ==> !NamesPresentKey(p, MemoryNet(p, front), last.call)))
  }

  ghost predicate MemoryImplements(p: Platform, run: StackRun, events: seq<StackEvent>) {
    && run.responses == MemoryAnswers(p, events) && !run.server.persistent
    && Represents(p, run.server.store, MemoryNet(p, events))
  }

  lemma {:induction false} AfterOpsMode(s: Server, ops: seq<Op>)
    ensures AfterOps(s, ops).persistent == s.persistent
    decreases |ops|
  {
    if ops != [] {
      AfterOpsMode(s, ops[..|ops| - 1]);
    }
  }

  lemma MemoryServes(p: Platform, run: StackRun, events: seq<StackEvent>, call: Call)
    requires events != [] && events[|events| - 1] == Serve(call)
    requires Faithful(p) && MemoryImplements(p, run, events[..|events| - 1])
    ensures var next, net := StackStep(p, run, Serve(call)), MemoryNet(p, events[..|events| - 1]);
            && (next.Some? && next.value.responses == MemoryAnswers(p, events) <==> !NamesPresentKey(p, net, call))
            && (!NamesPresentKey(p, net, call) ==> MemoryImplements(p, next.value, events))
  {
    var front := events[..|events| - 1];
    CallRefines(p, run.server.store, MemoryNet(p, front), call);
    var e := Decide(p, run.server.store, call);
    if e.Finished? {
      AfterOpsStore(run.server, e.puts);
      AfterOpsMode(run.server, e.puts);
      assert (run.responses + [e.response])[|run.responses|] == e.response;
    }
  }

  lemma {:induction false} MemoryRuns(p: Platform, events: seq<StackEvent>)
    requires Faithful(p) && MemoryNamesNoPresentKey(p, events)
    ensures var run := RunStack(p, Server(map[], false, ""), events);
            run.Some? && MemoryImplements(p, run.value, events)
    decreases |events|
  {
    EmptyRepresents(p);
    if events != [] {
      MemoryRuns(p, events[..|events| - 1]);
      var run := RunStack(p, Server(map[], false, ""), events[..|events| - 1]).value;
      if events[|events| - 1].Serve? {
        MemoryServes(p, run, events, events[|events| - 1].call);
      }
    }
  }

  ghost predicate MemoryAnswered(p: Platform, events: seq<StackEvent>) {
    var run := RunStack(p, Server(map[], false, ""), events);
    run.Some? && run.value.responses == MemoryAnswers(p, events)
  }

  lemma {:induction false} MemoryAnsweredNames(p: Platform, events: seq<StackEvent>)
    requires Faithful(p) && MemoryAnswered(p, events)
    ensures MemoryNamesNoPresentKey(p, events)
    decreases |events|
  {
    if events != [] {
      MemoryAnsweredFront(p, events);
      MemoryAnsweredNames(p, events[..|events| - 1]);
      MemoryRuns(p, events[..|events| - 1]);
      if events[|events| - 1].Serve? {
        MemoryServes(p, RunStack(p, Server(map[], false, ""), events[..|events| - 1]).value, events,
                     events[|events| - 1].call);
      }
    }
  }

  lemma MemoryAnsweredFront(p: Platform, events: seq<StackEvent>)
    requires events != [] && MemoryAnswered(p, events)
    ensures MemoryAnswered(p, events[..|events| - 1])
  {
    var front := events[..|events| - 1];
    var before, run := RunStack(p, Server(map[], false, ""), front).value,
                       RunStack(p, Server(map[], false, ""), events).value;
    if events[|events| - 1].Serve? {
      assert before.responses == run.responses[..|run.responses| - 1];
      assert MemoryAnswers(p, front) == MemoryAnswers(p, events)[..|MemoryAnswers(p, events)| - 1];
    }
  }

  /** On a server without a log the stack is a social network that every restart empties, with the same
      exact condition and no bound on any length. */
  lemma MemoryStackForgets(p: Platform, events: seq<StackEvent>)
    requires Faithful(p)
    ensures MemoryAnswered(p, events) <==> MemoryNamesNoPresentKey(p, events)
  {
    if MemoryNamesNoPresentKey(p, events) {
      MemoryRuns(p, events);
    }
    if MemoryAnswered(p, events) {
      MemoryAnsweredNames(p, events);
    }
  }

  // ---- why ids must not look like the keys of users ----

  lemma {:induction false} LoopNeverHalts(p: Platform, store: Store, id: string, n: nat)
    requires Single(store, id) && Held(p, store, id).parentId == id
    ensures !HaltsIn(p, store, id, n)
    decreases n
  {
    if n > 0 {
      LoopNeverHalts(p, store, id, n - 1);
    }
  }

  lemma ServeOne(p: Platform, s: Server, events: seq<StackEvent>, net: Network, call: Call)
    returns (more: seq<StackEvent>, next: Network)
    requires Faithful(p) && Inv(p, net) && !NamesPresentKey(p, net, call)
    requires var run := RunStack(p, s, events); run.Some? && Represents(p, run.value.server.store, net)
    ensures more == events + [Serve(call)]
    ensures next == NetStep(p, net, call).net && Inv(p, next)
    ensures var run := RunStack(p, s, more); run.Some? && Represents(p, run.value.server.store, next)
  {
    var run := RunStack(p, s, events).value;
    more, next := events + [Serve(call)], NetStep(p, net, call).net;
    assert more[..|events|] == events;
    CallRefines(p, run.server.store, net, call);
    AfterOpsStore(run.server, Decide(p, run.server.store, call).puts);
    NetStepKeepsInv(p, net, call);
  }

  /** The key is one of `name`'s two lists. */
  predicate IsListOf(key: string, name: string) {
    key == FollowingKey(name) || key == FollowedByKey(name)
  }

  /** A warble that answers `key` and whose serialization is not `name`. */
  function Circular(p: Platform, name: string, key: string): Warble {
    var w := Warble("", "", "", key, 0, 0);
    if p.serialize(w) != name then w else w.(text := "again")
  }

  lemma CircularIsOther(p: Platform, name: string, key: string)
    requires Faithful(p)
    ensures Circular(p, name, key).parentId == key && p.serialize(Circular(p, name, key)) != name
  {
    var w := Warble("", "", "", key, 0, 0);
    assert p.parse(p.serialize(w)) != p.parse(p.serialize(w.(text := "again")));
  }

  /** Two registrations and a follow that leave `other` as the only entry of the list. */
  function CallsToList(key: string, name: string, other: string): seq<Call> {
    [RegisterUser(name), RegisterUser(other),
     if key == FollowingKey(name) then Follow(name, other) else Follow(other, name)]
  }

  /** With an id that is the key of a user's list, `Read` may never return: when the only name in the
      list happens to be the serialization of a warble whose parent id is that very key, the walk goes
      round in a circle. */
  lemma ReadOfListKeyCanDiverge(p: Platform, name: string, key: string)
    requires Faithful(p) && IsListOf(key, name)
    ensures exists events, run ::
              && Calls(events) == CallsToList(key, name, p.serialize(Circular(p, name, key)))
              && RunStack(p, Server(map[], true, ""), events) == Some(run)
              && Decide(p, run.server.store, Read(name, key)) == Diverges
  {
    var w := Circular(p, name, key);
    var other := p.serialize(w);
    CircularIsOther(p, name, key);
    var follow := CallsToList(key, name, other)[2];
    var events, net := ThreeCalls(p, name, other, follow);
    var run := RunStack(p, Server(map[], true, ""), events).value;
    OneEntryDiverges(p, run.server.store, net, name, key, w);
    assert RunStack(p, Server(map[], true, ""), events) == Some(run);
    assert [RegisterUser(name), RegisterUser(other), follow] == CallsToList(key, name, other);
  }

  lemma ThreeCalls(p: Platform, a: string, b: string, follow: Call)
    returns (events: seq<StackEvent>, net: Network)
    requires Faithful(p) && a != b && (follow == Follow(a, b) || follow == Follow(b, a))
    ensures Calls(events) == [RegisterUser(a), RegisterUser(b), follow]
    ensures net == Network({a, b}, [Edge(follow.username, follow.toFollow)], [])
    ensures var run := RunStack(p, Server(map[], true, ""), events);
            run.Some? && Represents(p, run.value.server.store, net)
  {
    var s := Server(map[], true, "");
    EmptyRepresents(p);
    NetsOfThree(p, a, b, follow);
    var e0, net0 := ServeOne(p, s, [], EMPTY, RegisterUser(a));
    var e1, net1 := ServeOne(p, s, e0, net0, RegisterUser(b));
    events, net := ServeOne(p, s, e1, net1, follow);
    CallsOfThree(RegisterUser(a), RegisterUser(b), follow);
  }

  lemma NetsOfThree(p: Platform, a: string, b: string, follow: Call)
    requires a != b && (follow == Follow(a, b) || follow == Follow(b, a))
    ensures NetStep(p, EMPTY, RegisterUser(a)).net == Network({a}, [], [])
    ensures NetStep(p, Network({a}, [], []), RegisterUser(b)).net == Network({a, b}, [], [])
    ensures NetStep(p, Network({a, b}, [], []), follow).net
         == Network({a, b}, [Edge(follow.username, follow.toFollow)], [])
  {
    assert {} + {a} == {a} && {a} + {b} == {a, b};
    assert [] + [Edge(follow.username, follow.toFollow)] == [Edge(follow.username, follow.toFollow)];
  }

  lemma CallsOfThree(a: Call, b: Call, c: Call)
    ensures Calls([] + [Serve(a)] + [Serve(b)] + [Serve(c)]) == [a, b, c]
  {
    CallsLast([], a);
    CallsLast([] + [Serve(a)], b);
    CallsLast([] + [Serve(a)] + [Serve(b)], c);
  }

  lemma CallsLast(events: seq<StackEvent>, call: Call)
    ensures Calls(events + [Serve(call)]) == Calls(events) + [call]
  {
    assert (events + [Serve(call)])[..|events|] == events;
  }

  lemma OneEntryDiverges(p: Platform, store: Store, net: Network, name: string, key: string, w: Warble)
    requires Faithful(p) && Represents(p, store, net) && name in net.users && IsListOf(key, name)
    requires |net.follows| == 1 && w.parentId == key
    requires net.follows[0]
          == if key == FollowingKey(name) then Edge(name, p.serialize(w)) else Edge(p.serialize(w), name)
    ensures Decide(p, store, Read(name, key)) == Diverges
  {
    NameKeys(name);
    UserPresent(p, store, net, name);
    assert net.follows[..0] == [];
    assert key == FollowingKey(name) ==> SocialNetwork.Following(net.follows, name) == [] + [p.serialize(w)];
    assert key != FollowingKey(name) ==> Followers(net.follows, name) == [] + [p.serialize(w)];
    assert Values(store, key) == Stored(p, net, key) == [p.serialize(w)];
    assert Held(p, store, key) == w;
    forall n: nat
      ensures !HaltsIn(p, store, key, n)
    {
      LoopNeverHalts(p, store, key, n);
    }
  }
}
