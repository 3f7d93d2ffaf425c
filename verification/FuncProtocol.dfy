/** Many clients of one function server.  An event takes two requests, a query and the event itself, and
    the hooks can change in between. */
module FuncProtocol {
  import opened Results
  import opened WarbleModel
  import opened FuncService
  import opened FuncClient
  import opened CommandLine

  // ---- one query and one event ----

  /** Between a query and its event, other calls change the hooks in any way.  The event runs the function
      that the payload was packed for if and only if the last of these calls that touches the type, if
      any does, hooks that same function again. */
  lemma {:induction false} DispatchAsPacked(before: seq<HookCall>, between: seq<HookCall>, t: int)
    requires t in AfterCalls(before)
    ensures var name, hooks := AfterCalls(before)[t], AfterCalls(before + between);
            (t in hooks && hooks[t] == name)
            <==> (forall i: nat :: LastTouch(between, t, i) ==> between[i] == Hook(t, name))
    decreases |between|
  {
    if between == [] {
      assert before + between == before;
    } else {
      var n := |between| - 1;
      var front, call := between[..n], between[n];
      DispatchAsPacked(before, front, t);
      assert between == front + [call];
      assert (before + between)[..|before| + n] == before + front;
      AfterTouch(AfterCalls(before + front), call, t);
      OnlyTouchedBy(front, call, t, Hook(t, AfterCalls(before)[t]));
    }
  }

  lemma AfterTouch(hooks: Hooks, call: HookCall, t: int)
    ensures HookedTo(AfterCall(hooks, call), t)
         == if !Touches(call, t) then HookedTo(hooks, t)
            else if call.Hook? then Some(call.name) else None
  {
  }

  /** The last touch of a longer history. */
  lemma OnlyTouchedBy(front: seq<HookCall>, call: HookCall, t: int, wanted: HookCall)
    ensures (forall i: nat :: LastTouch(front + [call], t, i) ==> (front + [call])[i] == wanted)
       <==> if Touches(call, t) then call == wanted
            else forall i: nat :: LastTouch(front, t, i) ==> front[i] == wanted
  {
    var all := front + [call];
    forall i: nat
      ensures LastTouch(all, t, i) <==> if Touches(call, t) then i == |front| else LastTouch(front, t, i)
    {
      LastTouchStep(front, call, t, i);
    }
    if Touches(call, t) {
      assert LastTouch(all, t, |front|) && all[|front|] == call;
    } else {
      assert forall i: nat :: LastTouch(front, t, i) ==> front[i] == all[i];
    }
  }

  // ---- command-line clients ----

  /** A client has installed `done` of its five hooks, is ready for a command, or has packed a payload
      for the function that its query returned. */
  datatype Phase = Constructing(done: nat) | Ready | Packed(eventType: int, packedFor: string)

  /** A finished event: the function the client packed for, and the one the server ran. */
  datatype Run = Run(eventType: int, packedFor: Option<string>, ran: Option<string>)

  datatype World = World(hooks: Hooks, clients: map<nat, Phase>, runs: seq<Run>)

  const NEW_WORLD := World(map[], map[], [])

  datatype Action =
    | Construct(c: nat)
    | InstallNext(c: nat)
    | QueryFor(c: nat, eventType: int)
    | SendEvent(c: nat)
    | Other(call: HookCall)

  predicate Enabled(w: World, a: Action) {
    match a
    case Construct(c) => c !in w.clients
    case InstallNext(c) => c in w.clients && w.clients[c].Constructing? && w.clients[c].done < |FIXED|
    case QueryFor(c, t) => c in w.clients && w.clients[c].Ready? && 0 <= t < |FIXED|
    case SendEvent(c) => c in w.clients && w.clients[c].Packed?
    case Other(_) => true
  }

  function HookedTo(hooks: Hooks, t: int): Option<string> {
    if t in hooks then Some(hooks[t]) else None
  }

  function Do(w: World, a: Action): World
    requires Enabled(w, a)
  {
    match a
    case Construct(c) => w.(clients := w.clients[c := Constructing(0)])
    case InstallNext(c) =>
      var n := w.clients[c].done;
      w.(hooks := AfterCall(w.hooks, Hook(n, FIXED[n])),
         clients := w.clients[c := if n + 1 == |FIXED| then Ready else Constructing(n + 1)])
    case QueryFor(c, t) =>
      (match HookedTo(w.hooks, t)
       case None => w.(runs := w.runs + [Run(t, None, None)])
       case Some(name) => w.(clients := w.clients[c := Phase.Packed(t, name)]))
    case SendEvent(c) =>
      var phase := w.clients[c];
      w.(clients := w.clients[c := Ready],
         runs := w.runs + [Run(phase.eventType, Some(phase.packedFor), HookedTo(w.hooks, phase.eventType))])
    case Other(call) => w.(hooks := AfterCall(w.hooks, call))
  }

  function Exec(actions: seq<Action>): World {
    if actions == [] then NEW_WORLD else
      var w, a := Exec(actions[..|actions| - 1]), actions[|actions| - 1];
      if Enabled(w, a) then Do(w, a) else w
  }

  /** A call of another program that leaves the five types alone, or hooks what is hooked there anyway. */
  predicate Harmless(call: HookCall) {
    forall t :: 0 <= t < |FIXED| && Touches(call, t) ==> call == Hook(t, FIXED[t])
  }

  predicate HarmlessRun(actions: seq<Action>) {
    forall i :: 0 <= i < |actions| && actions[i].Other? ==> Harmless(actions[i].call)
  }

  /** Hooks of the five types are absent or the fixed ones, and those a client has installed are there. */
  ghost predicate Inv(w: World) {
    && (forall t :: 0 <= t < |FIXED| && t in w.hooks ==> w.hooks[t] == FIXED[t])
    && (forall c :: c in w.clients ==> LegalPhase(w.hooks, w.clients[c]))
    && (forall i :: 0 <= i < |w.runs| ==> AsIntended(w.runs[i]))
  }

  ghost predicate LegalPhase(hooks: Hooks, phase: Phase) {
    match phase
    case Constructing(done) => done < |FIXED| && forall t :: 0 <= t < done ==> t in hooks
    case Ready => Installed(hooks)
    case Packed(t, name) => Installed(hooks) && 0 <= t < |FIXED| && name == FIXED[t]
  }

  ghost predicate AsIntended(r: Run) {
    0 <= r.eventType < |FIXED| && r.packedFor == r.ran == Some(FIXED[r.eventType])
  }

  lemma FixedAreMethods(t: int)
    requires 0 <= t < |FIXED|
    ensures IsMethod(FIXED[t])
  {
    assert FIXED[0] == REGISTER && FIXED[1] == WARBLE && FIXED[2] == FOLLOW && FIXED[3] == READ && FIXED[4] == PROFILE;
  }

  /** A harmless call keeps what is installed. */
  lemma HarmlessKeeps(hooks: Hooks, call: HookCall)
    requires Harmless(call)
    requires forall t :: 0 <= t < |FIXED| && t in hooks ==> hooks[t] == FIXED[t]
    ensures var after := AfterCall(hooks, call);
            forall t :: 0 <= t < |FIXED| ==>
              (t in hooks ==> t in after) && (t in after ==> after[t] == FIXED[t])
  {
    var after := AfterCall(hooks, call);
    forall t | 0 <= t < |FIXED|
      ensures (t in hooks ==> t in after) && (t in after ==> after[t] == FIXED[t])
    {
      assert Touches(call, t) ==> call == Hook(t, FIXED[t]);
    }
  }

  lemma HooksGrowKeepsPhases(w: World, hooks: Hooks)
    requires Inv(w)
    requires forall t :: 0 <= t < |FIXED| ==> (t in w.hooks ==> t in hooks) && (t in hooks ==> hooks[t] == FIXED[t])
    ensures forall c :: c in w.clients ==> LegalPhase(hooks, w.clients[c])
  {
  }

  lemma DoKeepsInv(w: World, a: Action)
    requires Inv(w) && Enabled(w, a) && (a.Other? ==> Harmless(a.call))
    ensures Inv(Do(w, a))
  {
    var t := Do(w, a);
    match a
    case Construct(c) =>
    case InstallNext(c) =>
      var n := w.clients[c].done;
      FixedAreMethods(n);
      HarmlessKeeps(w.hooks, Hook(n, FIXED[n]));
      HooksGrowKeepsPhases(w, t.hooks);
      assert LegalPhase(w.hooks, w.clients[c]);
      assert LegalPhase(t.hooks, t.clients[c]);
    case QueryFor(c, eventType) =>
      assert LegalPhase(w.hooks, w.clients[c]);
    case SendEvent(c) =>
      assert LegalPhase(w.hooks, w.clients[c]);
    case Other(call) =>
      HarmlessKeeps(w.hooks, call);
      HooksGrowKeepsPhases(w, t.hooks);
  }

  lemma {:induction false} ExecInv(actions: seq<Action>)
    requires HarmlessRun(actions)
    ensures Inv(Exec(actions))
    decreases |actions|
  {
    if actions != [] {
      var n := |actions| - 1;
      ExecInv(actions[..n]);
      if Enabled(Exec(actions[..n]), actions[n]) {
        assert actions[n].Other? ==> Harmless(actions[n].call);
        DoKeepsInv(Exec(actions[..n]), actions[n]);
      }
    }
  }

  /** Any number of clients being constructed and sending events, in any interleaving: every event of a
      constructed client finds its type hooked, and runs the function its payload was packed for. */
  lemma {:induction false} EventsRunAsPacked(actions: seq<Action>, i: nat)
    requires HarmlessRun(actions) && i < |Exec(actions).runs|
    ensures var r := Exec(actions).runs[i];
            0 <= r.eventType < |FIXED| && r.packedFor == Some(FIXED[r.eventType]) && r.ran == r.packedFor
  {
    ExecInv(actions);
  }

  /** One foreign hook between a query and its event is enough to run another function on the payload:
      here a read becomes a registration, of the empty name. */
  lemma RehookMisdirects()
    ensures exists actions, r :: r in Exec(actions).runs && r == Run(READ_TYPE, Some(READ), Some(REGISTER))
    ensures forall params, seconds, useconds ::
              CallOf(REGISTER, Pack(READ, params), seconds, useconds) == RegisterUser("")
  {
    var a, w := Construct5();
    a, w := StepQuery(a, w);
    var b := a + [Other(Hook(READ_TYPE, REGISTER))];
    assert b[..|a|] == a;
    assert REGISTER in METHODS;
    var v := Exec(b);
    assert v == w.(hooks := w.hooks[READ_TYPE := REGISTER]);
    var d := b + [SendEvent(0)];
    assert d[..|b|] == b;
    var r := Run(READ_TYPE, Some(READ), Some(REGISTER));
    assert Exec(d).runs == v.runs + [r];
    assert r in Exec(d).runs;
  }

  lemma Construct5() returns (a: seq<Action>, w: World)
    ensures w == Exec(a) && 0 in w.clients && w.clients[0] == Ready && Installed(w.hooks)
  {
    a := [Construct(0)];
    assert a[..0] == [];
    w := Exec(a);
    assert w.clients == map[0 := Constructing(0)];
    var n := 0;
    while n < |FIXED|
      invariant 0 <= n <= |FIXED| && HarmlessRun(a)
      invariant w == Exec(a) && 0 in w.clients
      invariant w.clients[0] == if n == |FIXED| then Ready else Constructing(n)
    {
      var b := a + [InstallNext(0)];
      assert b[..|a|] == a;
      a, w, n := b, Exec(b), n + 1;
    }
    ExecInv(a);
    assert LegalPhase(w.hooks, w.clients[0]);
  }

  lemma StepQuery(a: seq<Action>, w: World) returns (b: seq<Action>, v: World)
    requires w == Exec(a) && 0 in w.clients && w.clients[0] == Ready && Installed(w.hooks)
    ensures v == Exec(b) && 0 in v.clients && v.clients[0] == Phase.Packed(READ_TYPE, READ)
  {
    b := a + [QueryFor(0, READ_TYPE)];
    assert b[..|a|] == a;
    assert FIXED[READ_TYPE] == READ;
    v := Exec(b);
  }
}
