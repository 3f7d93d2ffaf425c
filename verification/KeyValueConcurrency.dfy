/** Concurrent mutations of a persistent server, one atomic action at a time.  The storage lock covers
    only the change of the map; the record is appended later, outside it.  A record append is one
    action, and a crash can come between any two actions. */
module KeyValueConcurrency {
  import opened Results
  import opened KeyValueDataStructure
  import opened KeyValueLog
  import Service = KeyValueService

  /** `applied` is the order in which the current map was built; it is history, not data of the server.
      The multisets hold the calls in flight by how far they have come, and the acknowledged ones. */
  datatype Machine = Machine(
    live: Store,
    log: seq<Op>,
    applied: seq<Op>,
    called: multiset<Op>,
    unlogged: multiset<Op>,
    logged: multiset<Op>,
    acked: multiset<Op>)

  datatype Action =
    | Invoke(op: Op)
    | ApplyToMap(op: Op)
    | AppendRecord(op: Op)
    | Acknowledge(op: Op)
    | Crash

  const INITIAL := Machine(map[], [], [], multiset{}, multiset{}, multiset{}, multiset{})

  /** A crash is an action only if the next server comes up, that is, if the log can be read back; runs
      that end in a server that does not start are not schedules.  `CrashIsRestart` ties this to the
      bytes of the log. */
  predicate Enabled(s: Machine, a: Action) {
    match a
    case Invoke(_) => true
    case ApplyToMap(op) => op in s.called
    case AppendRecord(op) => op in s.unlogged
    case Acknowledge(op) => op in s.logged
    case Crash => AllFit(s.log)
  }

  /** A crash forgets the calls in flight; the next server starts from the records of the log. */
  function Do(s: Machine, a: Action): Machine {
    match a
    case Invoke(op) => s.(called := s.called + multiset{op})
    case ApplyToMap(op) =>
      s.(live := Apply(s.live, op), applied := s.applied + [op],
         called := s.called - multiset{op}, unlogged := s.unlogged + multiset{op})
    case AppendRecord(op) =>
      s.(log := s.log + [op], unlogged := s.unlogged - multiset{op}, logged := s.logged + multiset{op})
    case Acknowledge(op) =>
      s.(logged := s.logged - multiset{op}, acked := s.acked + multiset{op})
    case Crash =>
      s.(live := Replay(map[], s.log), applied := s.log,
         called := multiset{}, unlogged := multiset{}, logged := multiset{})
  }

  function InFlight(s: Machine): multiset<Op> {
    s.called + s.unlogged + s.logged
  }

  /** What the crash step does is what a start over the bytes of the log does. */
  lemma CrashIsRestart(s: Machine, stale: char)
    ensures Service.Start(true, PrintLog(s.log), stale)
         == if Enabled(s, Crash) then Some(Service.Server(Do(s, Crash).live, true, PrintLog(s.log))) else None
  {
    Service.StartOverLog(s.log, stale);
  }

  /** The calls in flight are over, the records and acknowledgements stay. */
  lemma CrashForgetsCalls(s: Machine)
    ensures var t := Do(s, Crash);
            t.log == t.applied == s.log && t.acked == s.acked && InFlight(t) == multiset{}
  {
  }

  /** A schedule: any list of actions, of which the disabled ones have no effect. */
  function Exec(actions: seq<Action>): Machine {
    if actions == [] then INITIAL else
      var s, a := Exec(actions[..|actions| - 1]), actions[|actions| - 1];
      if Enabled(s, a) then Do(s, a) else s
  }

  /** The mutations acknowledged so far, and the records appended so far, over all crashes. */
  function Acknowledged(actions: seq<Action>): multiset<Op> {
    if actions == [] then multiset{} else
      var front, a := actions[..|actions| - 1], actions[|actions| - 1];
      Acknowledged(front) + if a.Acknowledge? && Enabled(Exec(front), a) then multiset{a.op} else multiset{}
  }

  function Appended(actions: seq<Action>): seq<Op> {
    if actions == [] then [] else
      var front, a := actions[..|actions| - 1], actions[|actions| - 1];
      Appended(front) + if a.AppendRecord? && Enabled(Exec(front), a) then [a.op] else []
  }

  lemma RecordsAndAcks(s: Machine, a: Action)
    requires Enabled(s, a)
    ensures Do(s, a).log == s.log + if a.AppendRecord? then [a.op] else []
    ensures Do(s, a).acked == s.acked + if a.Acknowledge? then multiset{a.op} else multiset{}
  {
  }

  /** A crash takes back neither an acknowledgement nor a record. */
  lemma {:induction false} MachineIsHistory(actions: seq<Action>)
    ensures Exec(actions).acked == Acknowledged(actions) && Exec(actions).log == Appended(actions)
    decreases |actions|
  {
    if actions != [] {
      var s, a := Exec(actions[..|actions| - 1]), actions[|actions| - 1];
      MachineIsHistory(actions[..|actions| - 1]);
      if Enabled(s, a) {
        RecordsAndAcks(s, a);
      }
    }
  }

  ghost predicate Inv(s: Machine) {
    && s.live == Replay(map[], s.applied)
    && multiset(s.applied) == multiset(s.log) + s.unlogged
    && s.acked + s.logged <= multiset(s.log)
  }

  lemma ApplyKeepsInv(s: Machine, op: Op)
    requires Inv(s) && op in s.called
    ensures Inv(Do(s, ApplyToMap(op)))
  {
    ReplayLast(map[], s.applied, op);
    var t := Do(s, ApplyToMap(op));
    assert multiset(t.applied) == multiset(s.applied) + multiset{op};
  }

  lemma AppendKeepsInv(s: Machine, op: Op)
    requires Inv(s) && op in s.unlogged
    ensures Inv(Do(s, AppendRecord(op)))
  {
    var t := Do(s, AppendRecord(op));
    assert multiset(t.log) == multiset(s.log) + multiset{op};
    assert t.acked + t.logged == s.acked + s.logged + multiset{op};
  }

  lemma DoKeepsInv(s: Machine, a: Action)
    requires Inv(s) && Enabled(s, a)
    ensures Inv(Do(s, a))
  {
    match a
    case Invoke(op) =>
    case ApplyToMap(op) =>
      ApplyKeepsInv(s, op);
    case AppendRecord(op) =>
      AppendKeepsInv(s, op);
    case Acknowledge(op) =>
      assert Do(s, a).acked + Do(s, a).logged == s.acked + s.logged;
    case Crash =>
  }

  lemma {:induction false} ExecInv(actions: seq<Action>)
    ensures Inv(Exec(actions))
    decreases |actions|
  {
    if actions != [] {
      var s, a := Exec(actions[..|actions| - 1]), actions[|actions| - 1];
      ExecInv(actions[..|actions| - 1]);
      if Enabled(s, a) {
        DoKeepsInv(s, a);
      }
    }
  }

  /** At every moment of every schedule, crashes included: each mutation acknowledged so far has its own
      record in the log. */
  lemma {:induction false} AcknowledgedIsDurable(actions: seq<Action>)
    ensures Acknowledged(actions) == Exec(actions).acked <= multiset(Exec(actions).log)
  {
    ExecInv(actions);
    MachineIsHistory(actions);
  }

  /** At every moment the map is what the applied mutations build, each record is of an applied
      mutation, and the two differ by exactly the mutations applied and not appended yet. */
  lemma {:induction false} LogLagsBehindMap(actions: seq<Action>)
    ensures Exec(actions).live == Replay(map[], Exec(actions).applied)
    ensures multiset(Exec(actions).applied) == multiset(Exec(actions).log) + Exec(actions).unlogged
  {
    ExecInv(actions);
  }

  // ---- runs with puts only ----

  predicate InvokesPutsOnly(actions: seq<Action>) {
    forall i :: 0 <= i < |actions| && actions[i].Invoke? ==> actions[i].op.Put?
  }

  lemma {:induction false} ExecPutsOnly(actions: seq<Action>)
    requires InvokesPutsOnly(actions)
    ensures var s := Exec(actions);
            && PutsOnly(s.applied) && PutsOnly(s.log)
            && (forall op :: op in s.called + s.unlogged ==> op.Put?)
    decreases |actions|
  {
    if actions != [] {
      var n := |actions| - 1;
      ExecPutsOnly(actions[..n]);
      assert actions[n].Invoke? ==> actions[n].op.Put?;
    }
  }

  /** Without removals the order of appends does not matter: for every key and value, what memory
      holds is what a restart would recover plus the puts applied and not appended yet. */
  lemma {:induction false} PutsAreConserved(actions: seq<Action>, key: string, value: string)
    requires InvokesPutsOnly(actions)
    ensures multiset(Values(Exec(actions).live, key))[value]
         == multiset(Values(Replay(map[], Exec(actions).log), key))[value]
            + Exec(actions).unlogged[Put(key, value)]
  {
    var s := Exec(actions);
    ExecInv(actions);
    ExecPutsOnly(actions);
    ValueCount(s.applied, key, value);
    ValueCount(s.log, key, value);
  }

  // ---- when the log and the map agree ----

  /** Two different mutations of one key. */
  ghost predicate Conflict(ops: multiset<Op>) {
    exists a, b :: a in ops && b in ops && a.key == b.key && a != b
  }

  /** At no moment did two different mutations of one key wait to be appended. */
  ghost predicate NeverConflicting(actions: seq<Action>) {
    !Conflict(Exec(actions).unlogged) &&
    (actions == [] || NeverConflicting(actions[..|actions| - 1]))
  }

  function Repeat(op: Op, n: nat): seq<Op> {
    if n == 0 then [] else [op] + Repeat(op, n - 1)
  }

  lemma {:induction false} RepeatLast(op: Op, n: nat)
    ensures Repeat(op, n + 1) == Repeat(op, n) + [op]
  {
    if n > 0 {
      RepeatLast(op, n - 1);
    }
  }

  predicate KeyFree(ops: multiset<Op>, key: string) {
    forall op :: op in ops ==> op.key != key
  }

  /** The log is behind the applied mutations of `key` by the ones waiting to be appended, which are all
      the same mutation. */
  ghost predicate LagsAt(applied: seq<Op>, log: seq<Op>, unlogged: multiset<Op>, key: string) {
    && (KeyFree(unlogged, key) ==> ForKey(applied, key) == ForKey(log, key))
    && (forall op :: op in unlogged && op.key == key ==>
          ForKey(applied, key) == ForKey(log, key) + Repeat(op, unlogged[op]))
  }

  ghost predicate Lagging(s: Machine) {
    forall k :: LagsAt(s.applied, s.log, s.unlogged, k)
  }

  lemma OtherKeyApplied(applied: seq<Op>, log: seq<Op>, unlogged: multiset<Op>, op: Op, k: string)
    requires LagsAt(applied, log, unlogged, k) && op.key != k
    ensures LagsAt(applied + [op], log, unlogged + multiset{op}, k)
  {
    ForKeyLast(applied, op, k);
    assert forall other: Op :: other.key == k ==> (unlogged + multiset{op})[other] == unlogged[other];
    assert KeyFree(unlogged + multiset{op}, k) ==> KeyFree(unlogged, k);
  }

  lemma OtherKeyAppended(applied: seq<Op>, log: seq<Op>, unlogged: multiset<Op>, op: Op, k: string)
    requires LagsAt(applied, log, unlogged, k) && op.key != k
    ensures LagsAt(applied, log + [op], unlogged - multiset{op}, k)
  {
    ForKeyLast(log, op, k);
    assert forall other: Op :: other.key == k ==> (unlogged - multiset{op})[other] == unlogged[other];
    assert KeyFree(unlogged - multiset{op}, k) ==> KeyFree(unlogged, k);
  }

  /** Of its key, `op` is the only mutation here, if there is any. */
  ghost predicate OnlyKind(ops: multiset<Op>, op: Op) {
    forall other :: other in ops && other.key == op.key ==> other == op
  }

  lemma NoConflictOneKind(all: multiset<Op>, part: multiset<Op>, op: Op)
    requires !Conflict(all) && op in all && part <= all
    ensures OnlyKind(part, op)
  {
    forall other | other in part && other.key == op.key
      ensures other == op
    {
      assert other in all;
    }
  }

  lemma LagsByKind(applied: seq<Op>, log: seq<Op>, unlogged: multiset<Op>, op: Op)
    requires OnlyKind(unlogged, op)
    ensures LagsAt(applied, log, unlogged, op.key)
       <==> ForKey(applied, op.key) == ForKey(log, op.key) + Repeat(op, unlogged[op])
  {
    assert Repeat(op, 0) == [];
    assert ForKey(log, op.key) + [] == ForKey(log, op.key);
    if op in unlogged {
      assert !KeyFree(unlogged, op.key);
    } else {
      assert KeyFree(unlogged, op.key);
    }
  }

  lemma ShiftRepeat(front: seq<Op>, op: Op, n: nat)
    ensures front + Repeat(op, n + 1) == front + Repeat(op, n) + [op] == front + [op] + Repeat(op, n)
  {
    RepeatLast(op, n);
    assert Repeat(op, n + 1) == [op] + Repeat(op, n);
  }

  lemma ApplyLags(applied: seq<Op>, log: seq<Op>, unlogged: multiset<Op>, op: Op)
    requires LagsAt(applied, log, unlogged, op.key) && !Conflict(unlogged + multiset{op})
    ensures LagsAt(applied + [op], log, unlogged + multiset{op}, op.key)
  {
    var more := unlogged + multiset{op};
    NoConflictOneKind(more, unlogged, op);
    NoConflictOneKind(more, more, op);
    LagsByKind(applied, log, unlogged, op);
    LagsByKind(applied + [op], log, more, op);
    ForKeyLast(applied, op, op.key);
    ShiftRepeat(ForKey(log, op.key), op, unlogged[op]);
  }

  lemma AppendLags(applied: seq<Op>, log: seq<Op>, unlogged: multiset<Op>, op: Op)
    requires LagsAt(applied, log, unlogged, op.key) && !Conflict(unlogged) && op in unlogged
    ensures LagsAt(applied, log + [op], unlogged - multiset{op}, op.key)
  {
    var left := unlogged - multiset{op};
    NoConflictOneKind(unlogged, unlogged, op);
    NoConflictOneKind(unlogged, left, op);
    LagsByKind(applied, log, unlogged, op);
    LagsByKind(applied, log + [op], left, op);
    ForKeyLast(log, op, op.key);
    ShiftRepeat(ForKey(log, op.key), op, left[op]);
  }

  lemma DoLagsAt(s: Machine, a: Action, k: string)
    requires LagsAt(s.applied, s.log, s.unlogged, k) && Enabled(s, a)
    requires !Conflict(s.unlogged) && !Conflict(Do(s, a).unlogged)
    ensures LagsAt(Do(s, a).applied, Do(s, a).log, Do(s, a).unlogged, k)
  {
    match a
    case ApplyToMap(op) =>
      if op.key == k {
        ApplyLags(s.applied, s.log, s.unlogged, op);
      } else {
        OtherKeyApplied(s.applied, s.log, s.unlogged, op, k);
      }
    case AppendRecord(op) =>
      if op.key == k {
        AppendLags(s.applied, s.log, s.unlogged, op);
      } else {
        OtherKeyAppended(s.applied, s.log, s.unlogged, op, k);
      }
    case Invoke(_) =>
    case Acknowledge(_) =>
    case Crash =>
  }

  lemma DoKeepsLagging(s: Machine, a: Action)
    requires Lagging(s) && Enabled(s, a) && !Conflict(s.unlogged) && !Conflict(Do(s, a).unlogged)
    ensures Lagging(Do(s, a))
  {
    forall k
      ensures LagsAt(Do(s, a).applied, Do(s, a).log, Do(s, a).unlogged, k)
    {
      DoLagsAt(s, a, k);
    }
  }

  lemma {:induction false} ExecLagging(actions: seq<Action>)
    requires NeverConflicting(actions)
    ensures Lagging(Exec(actions))
    decreases |actions|
  {
    if actions != [] {
      var s, a := Exec(actions[..|actions| - 1]), actions[|actions| - 1];
      ExecLagging(actions[..|actions| - 1]);
      if Enabled(s, a) {
        DoKeepsLagging(s, a);
      }
    }
  }

  lemma LaggingIsExact(s: Machine)
    requires Lagging(s) && s.unlogged == multiset{}
    ensures Replay(map[], s.log) == Replay(map[], s.applied)
  {
    forall k
      ensures ForKey(s.log, k) == ForKey(s.applied, k)
    {
      assert LagsAt(s.applied, s.log, s.unlogged, k);
    }
    ReplayIgnoresOtherKeys(map[], s.log, s.applied);
  }

  /** If two different mutations of one key never waited to be appended at the same time, then whenever
      nothing is waiting a restart recovers exactly the live map, although records of different keys may
      be out of order. */
  lemma {:induction false} QuiescentLogIsExact(actions: seq<Action>)
    requires NeverConflicting(actions)
    requires Exec(actions).unlogged == multiset{}
    ensures Replay(map[], Exec(actions).log) == Exec(actions).live
  {
    ExecInv(actions);
    ExecLagging(actions);
    LaggingIsExact(Exec(actions));
  }

  // ---- and when they need not ----

  /** No new calls: the calls in flight take effect and are appended. */
  predicate OnlyFinishes(more: seq<Action>) {
    forall i :: 0 <= i < |more| ==> more[i].ApplyToMap? || more[i].AppendRecord?
  }

  lemma OnlyFinishesConcat(more: seq<Action>, rest: seq<Action>)
    requires OnlyFinishes(more) && OnlyFinishes(rest)
    ensures OnlyFinishes(more + rest)
  {
  }

  /** Appends all that is waiting, `last` at the very end. */
  lemma {:induction false} Drain(actions: seq<Action>, s: Machine, last: Op)
    returns (more: seq<Action>, t: Machine)
    requires Exec(actions) == s && last in s.unlogged
    ensures OnlyFinishes(more) && Exec(actions + more) == t
    ensures t.unlogged == multiset{} && t.called == s.called && t.applied == s.applied && t.live == s.live
    ensures t.log != [] && t.log[|t.log| - 1] == last
    decreases |s.unlogged|
  {
    if s.unlogged == multiset{last} {
      more, t := AppendOne(actions, s, last);
    } else {
      var first, s1 := AppendAnother(actions, s, last);
      var rest;
      rest, t := Drain(actions + first, s1, last);
      more := first + rest;
      OnlyFinishesConcat(first, rest);
      AssocActions(actions, first, rest);
    }
  }

  lemma AppendOne(actions: seq<Action>, s: Machine, op: Op) returns (more: seq<Action>, t: Machine)
    requires Exec(actions) == s && op in s.unlogged
    ensures OnlyFinishes(more) && Exec(actions + more) == t
    ensures t.unlogged == s.unlogged - multiset{op} && t.log == s.log + [op]
    ensures t.called == s.called && t.applied == s.applied && t.live == s.live
  {
    more := [AppendRecord(op)];
    var after;
    after, t := StepAppend(actions, s, op);
  }

  lemma AnotherOne(ops: multiset<Op>, last: Op) returns (op: Op)
    requires last in ops && ops != multiset{last}
    ensures op in ops && last in ops - multiset{op} && |ops - multiset{op}| < |ops|
  {
    assert ops == multiset{last} + (ops - multiset{last});
    op :| op in ops - multiset{last};
  }

  lemma AppendAnother(actions: seq<Action>, s: Machine, last: Op) returns (more: seq<Action>, t: Machine)
    requires Exec(actions) == s && last in s.unlogged && s.unlogged != multiset{last}
    ensures OnlyFinishes(more) && Exec(actions + more) == t
    ensures last in t.unlogged && |t.unlogged| < |s.unlogged|
    ensures t.called == s.called && t.applied == s.applied && t.live == s.live
  {
    var op := AnotherOne(s.unlogged, last);
    more, t := AppendOne(actions, s, op);
  }

  lemma AssocActions(a: seq<Action>, b: seq<Action>, c: seq<Action>)
    ensures a + b + c == a + (b + c)
  {
  }

  /** What a replay leaves under a key shows its last mutation. */
  lemma LastShows(front: seq<Op>, op: Op)
    ensures var values := Values(Replay(map[], front + [op]), op.key);
            match op
            case Put(_, v) => values != [] && values[|values| - 1] == v
            case Remove(_) => values == []
  {
    ReplayLast(map[], front, op);
  }

  lemma {:induction false} LastOfKey(ops: seq<Op>, key: string)
    requires ForKey(ops, key) != []
    ensures ForKey(ops, key)[|ForKey(ops, key)| - 1].key == key
    decreases |ops|
  {
    if ops[|ops| - 1].key != key {
      LastOfKey(ops[..|ops| - 1], key);
    }
  }

  lemma {:induction false} InForKey(ops: seq<Op>, op: Op)
    requires op in ops
    ensures ForKey(ops, op.key) != []
    decreases |ops|
  {
    if op != ops[|ops| - 1] {
      assert op in ops[..|ops| - 1];
      InForKey(ops[..|ops| - 1], op);
    }
  }

  /** A log that ends in another mutation of the key than the last one applied recovers another map. */
  lemma WrongLastRecord(applied: seq<Op>, log: seq<Op>, x: Op)
    requires log != [] && log[|log| - 1] == x && x in applied
    requires var mine := ForKey(applied, x.key); mine != [] && mine[|mine| - 1] != x
    ensures Replay(map[], log) != Replay(map[], applied)
  {
    var key := x.key;
    var mine := ForKey(applied, key);
    var y, before := mine[|mine| - 1], mine[..|mine| - 1];
    LastOfKey(applied, key);
    assert mine == before + [y];
    assert log == log[..|log| - 1] + [x];
    ReplayPerKey(map[], applied, key);
    LastShows(before, y);
    LastShows(log[..|log| - 1], x);
  }

  /** When two different mutations of one key are waiting to be appended, appending the waiting ones in
      some order leaves a log that does not replay to the live map. */
  lemma ConflictCanDiffer(actions: seq<Action>) returns (more: seq<Action>)
    requires Conflict(Exec(actions).unlogged)
    ensures OnlyFinishes(more) && Exec(actions + more).unlogged == multiset{}
    ensures Replay(map[], Exec(actions + more).log) != Exec(actions + more).live
  {
    var s := Exec(actions);
    ExecInv(actions);
    var x := NotLastApplied(s);
    var t;
    more, t := Drain(actions, s, x);
    DrainedWrong(s, t, x);
  }

  lemma DrainedWrong(s: Machine, t: Machine, x: Op)
    requires Inv(s) && x in s.applied && t.live == s.live && t.log != [] && t.log[|t.log| - 1] == x
    requires var mine := ForKey(s.applied, x.key); mine != [] && mine[|mine| - 1] != x
    ensures Replay(map[], t.log) != t.live
  {
    WrongLastRecord(s.applied, t.log, x);
  }

  lemma NotLastApplied(s: Machine) returns (x: Op)
    requires Inv(s) && Conflict(s.unlogged)
    ensures x in s.unlogged && x in s.applied
    ensures var mine := ForKey(s.applied, x.key); mine != [] && mine[|mine| - 1] != x
  {
    var a, b :| a in s.unlogged && b in s.unlogged && a.key == b.key && a != b;
    assert a in multiset(s.applied) && b in multiset(s.applied);
    InForKey(s.applied, a);
    var mine := ForKey(s.applied, a.key);
    x := if mine[|mine| - 1] == a then b else a;
  }

  /** Lets `op` take effect, unless it has. */
  lemma ApplyIfCalled(actions: seq<Action>, s: Machine, op: Op) returns (more: seq<Action>, t: Machine)
    requires Exec(actions) == s && op in s.called + s.unlogged
    ensures OnlyFinishes(more) && Exec(actions + more) == t
    ensures op in t.unlogged && s.unlogged <= t.unlogged
    ensures t.called + t.unlogged == s.called + s.unlogged
  {
    if op in s.unlogged {
      more, t := [], s;
      assert actions + more == actions;
    } else {
      more := [ApplyToMap(op)];
      var after;
      after, t := StepApply(actions, s, op);
    }
  }

  lemma BothWaiting(actions: seq<Action>, s: Machine, a: Op, b: Op) returns (more: seq<Action>)
    requires Exec(actions) == s && a in s.called + s.unlogged && b in s.called + s.unlogged
    ensures OnlyFinishes(more)
    ensures a in Exec(actions + more).unlogged && b in Exec(actions + more).unlogged
  {
    var first, s1 := ApplyIfCalled(actions, s, a);
    var second, s2 := ApplyIfCalled(actions + first, s1, b);
    more := first + second;
    OnlyFinishesConcat(first, second);
    AssocActions(actions, first, second);
  }

  /** The same when the two mutations have only been called. */
  lemma OverlapCanDiffer(actions: seq<Action>) returns (more: seq<Action>)
    requires Conflict(Exec(actions).called + Exec(actions).unlogged)
    ensures OnlyFinishes(more) && Exec(actions + more).unlogged == multiset{}
    ensures Replay(map[], Exec(actions + more).log) != Exec(actions + more).live
  {
    var s := Exec(actions);
    var a, b :| a in s.called + s.unlogged && b in s.called + s.unlogged && a.key == b.key && a != b;
    var first := BothWaiting(actions, s, a, b);
    var second := ConflictCanDiffer(actions + first);
    more := first + second;
    OnlyFinishesConcat(first, second);
    AssocActions(actions, first, second);
  }

  // ---- the exact condition ----

  /** However the calls in flight finish, the log replays to the live map when nothing is waiting. */
  ghost predicate FinishesExactly(actions: seq<Action>) {
    forall more :: OnlyFinishes(more) && Exec(actions + more).unlogged == multiset{} ==>
      Replay(map[], Exec(actions + more).log) == Exec(actions + more).live
  }

  lemma SubsetNoConflict(part: multiset<Op>, all: multiset<Op>)
    requires !Conflict(all) && part <= all
    ensures !Conflict(part)
  {
    assert forall op :: op in part ==> op in all;
  }

  lemma {:induction false} FinishingStaysLagging(actions: seq<Action>, more: seq<Action>)
    requires Lagging(Exec(actions)) && OnlyFinishes(more)
    requires !Conflict(Exec(actions).called + Exec(actions).unlogged)
    ensures Lagging(Exec(actions + more))
    ensures var s, t := Exec(actions), Exec(actions + more); t.called + t.unlogged <= s.called + s.unlogged
    decreases |more|
  {
    if more == [] {
      assert actions + more == actions;
    } else {
      var n := |more| - 1;
      var window := Exec(actions).called + Exec(actions).unlogged;
      FinishingStaysLagging(actions, more[..n]);
      assert (actions + more)[..|actions + more| - 1] == actions + more[..n];
      if Enabled(Exec(actions + more[..n]), more[n]) {
        FinishKeepsLagging(Exec(actions + more[..n]), more[n], window);
      }
    }
  }

  lemma FinishKeepsLagging(s: Machine, a: Action, window: multiset<Op>)
    requires Lagging(s) && Enabled(s, a) && (a.ApplyToMap? || a.AppendRecord?)
    requires !Conflict(window) && s.called + s.unlogged <= window
    ensures Lagging(Do(s, a)) && Do(s, a).called + Do(s, a).unlogged <= window
  {
    FinishingShrinks(s, a);
    SubsetNoConflict(s.unlogged, window);
    SubsetNoConflict(Do(s, a).unlogged, window);
    DoKeepsLagging(s, a);
  }

  lemma FinishingShrinks(s: Machine, a: Action)
    requires Enabled(s, a) && (a.ApplyToMap? || a.AppendRecord?)
    ensures Do(s, a).called + Do(s, a).unlogged <= s.called + s.unlogged
    ensures Do(s, a).unlogged <= s.called + s.unlogged
  {
  }

  /** The exact condition, for a moment up to which the log has kept up: however the calls in flight finish,
      a restart recovers the live map, if and only if no two different mutations of one key are among the
      calls that are not logged yet.  So a call is safe exactly when it is not made while a different
      mutation of its key is on its way; the same mutation twice does no harm. */
  lemma {:induction false} ExactWithoutOverlap(actions: seq<Action>)
    requires NeverConflicting(actions)
    ensures FinishesExactly(actions) <==> !Conflict(Exec(actions).called + Exec(actions).unlogged)
  {
    if Conflict(Exec(actions).called + Exec(actions).unlogged) {
      var more := OverlapCanDiffer(actions);
      assert !FinishesExactly(actions);
    } else {
      ExecLagging(actions);
      forall more | OnlyFinishes(more) && Exec(actions + more).unlogged == multiset{}
        ensures Replay(map[], Exec(actions + more).log) == Exec(actions + more).live
      {
        FinishingStaysLagging(actions, more);
        ExecInv(actions + more);
        LaggingIsExact(Exec(actions + more));
      }
    }
  }

  /** A discipline that callers can keep: no call is made while a different mutation of its key is called
      or waiting to be appended. */
  ghost predicate Careful(actions: seq<Action>) {
    !Conflict(Exec(actions).called + Exec(actions).unlogged) &&
    (actions == [] || Careful(actions[..|actions| - 1]))
  }

  ghost predicate AlwaysFinishesExactly(actions: seq<Action>) {
    FinishesExactly(actions) && (actions == [] || AlwaysFinishesExactly(actions[..|actions| - 1]))
  }

  lemma {:induction false} CarefulNeverConflicts(actions: seq<Action>)
    requires Careful(actions)
    ensures NeverConflicting(actions)
    decreases |actions|
  {
    SubsetNoConflict(Exec(actions).unlogged, Exec(actions).called + Exec(actions).unlogged);
    if actions != [] {
      CarefulNeverConflicts(actions[..|actions| - 1]);
    }
  }

  /** For whole schedules: from every moment on, whatever order the calls in flight finish in, a restart
      recovers the live map, if and only if the callers were careful all along. */
  lemma {:induction false} ExactIffCareful(actions: seq<Action>)
    ensures AlwaysFinishesExactly(actions) <==> Careful(actions)
    decreases |actions|
  {
    if actions != [] {
      ExactIffCareful(actions[..|actions| - 1]);
    }
    if Conflict(Exec(actions).called + Exec(actions).unlogged) {
      var more := OverlapCanDiffer(actions);
      assert !FinishesExactly(actions);
    } else if Careful(actions) {
      CarefulNeverConflicts(actions);
      ExactWithoutOverlap(actions);
    }
  }

  /** One such run in full: when a put and a removal of one key overlap, both acknowledged, the log
      can hold them in the opposite order, and a restart brings the removed value back. */
  lemma OverlapRevivesRemovedKey(key: string, value: string)
    requires Fits(Put(key, value))
    ensures exists actions ::
              var s := Exec(actions);
              && InFlight(s) == multiset{}
              && s.acked == multiset{Put(key, value), Remove(key)}
              && s.live == map[]
              && Enabled(s, Crash) && Do(s, Crash).live == map[key := [value]]
  {
    var a, s := BothApplied(Put(key, value), Remove(key));
    a, s := LoggedBackwards(a, Put(key, value), Remove(key), s);
    BackwardsLog(key, value);
    assert AllFit(s.log);
    assert Exec(a) == s;
  }

  lemma BothApplied(first: Op, second: Op) returns (a: seq<Action>, s: Machine)
    requires first != second
    ensures Exec(a) == s
    ensures s == Machine(Apply(Apply(map[], first), second), [], [first, second],
                         multiset{}, multiset{first, second}, multiset{}, multiset{})
  {
    Pair(first, second);
    a, s := StepInvoke([], INITIAL, first);
    a, s := StepInvoke(a, s, second);
    a, s := StepApply(a, s, first);
    a, s := StepApply(a, s, second);
  }

  lemma LoggedBackwards(a0: seq<Action>, first: Op, second: Op, s0: Machine)
    returns (a: seq<Action>, s: Machine)
    requires Exec(a0) == s0 && s0.log == [] && s0.called == s0.logged == s0.acked == multiset{}
    requires s0.unlogged == multiset{first, second} && first != second
    ensures Exec(a) == s && s.live == s0.live && s.log == [second, first]
    ensures InFlight(s) == multiset{} && s.acked == multiset{first, second}
  {
    Pair(first, second);
    Pair(second, first);
    a, s := StepAppend(a0, s0, second);
    a, s := StepAppend(a, s, first);
    a, s := StepAcknowledge(a, s, first);
    a, s := StepAcknowledge(a, s, second);
  }

  lemma Pair(a: Op, b: Op)
    ensures multiset{} + multiset{a} == multiset{a}
    ensures multiset{a} - multiset{a} == multiset{}
    ensures multiset{a} + multiset{b} == multiset{a, b} == multiset{b, a}
    ensures multiset{a, b} - multiset{a} == multiset{b}
  {
  }

  lemma BackwardsLog(key: string, value: string)
    ensures Replay(map[], [Remove(key), Put(key, value)]) == map[key := [value]]
  {
    assert [Remove(key), Put(key, value)] == [Remove(key)] + [Put(key, value)];
    ReplayLast(map[], [Remove(key)], Put(key, value));
    ReplayLast(map[], [], Remove(key));
    assert [] + [Remove(key)] == [Remove(key)];
    assert Replay(map[], [Remove(key)]) == map[];
    assert Values(map[], key) + [value] == [value];
  }

  /** One enabled action after a known state. */
  lemma Step(before: seq<Action>, s: Machine, a: Action) returns (after: seq<Action>)
    requires Exec(before) == s && Enabled(s, a)
    ensures after == before + [a] && Exec(after) == Do(s, a)
  {
    after := before + [a];
    assert after[..|after| - 1] == before && after[|after| - 1] == a;
  }

  lemma StepInvoke(before: seq<Action>, s: Machine, op: Op) returns (after: seq<Action>, t: Machine)
    requires Exec(before) == s
    ensures after == before + [Invoke(op)] && Exec(after) == t && t == s.(called := s.called + multiset{op})
  {
    after := Step(before, s, Invoke(op));
    t := Exec(after);
  }

  lemma StepApply(before: seq<Action>, s: Machine, op: Op) returns (after: seq<Action>, t: Machine)
    requires Exec(before) == s && op in s.called
    ensures after == before + [ApplyToMap(op)] && Exec(after) == t
    ensures t == s.(live := Apply(s.live, op), applied := s.applied + [op],
                    called := s.called - multiset{op}, unlogged := s.unlogged + multiset{op})
  {
    after := Step(before, s, ApplyToMap(op));
    t := Exec(after);
  }

  lemma StepAppend(before: seq<Action>, s: Machine, op: Op) returns (after: seq<Action>, t: Machine)
    requires Exec(before) == s && op in s.unlogged
    ensures after == before + [AppendRecord(op)] && Exec(after) == t
    ensures t == s.(log := s.log + [op], unlogged := s.unlogged - multiset{op},
                    logged := s.logged + multiset{op})
  {
    after := Step(before, s, AppendRecord(op));
    t := Exec(after);
  }

  lemma StepAcknowledge(before: seq<Action>, s: Machine, op: Op) returns (after: seq<Action>, t: Machine)
    requires Exec(before) == s && op in s.logged
    ensures after == before + [Acknowledge(op)] && Exec(after) == t
    ensures t == s.(logged := s.logged - multiset{op}, acked := s.acked + multiset{op})
  {
    after := Step(before, s, Acknowledge(op));
    t := Exec(after);
  }
}
