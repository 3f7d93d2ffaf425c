/** The warble service when the key-value server can crash in the middle of calls: what a restart finds in
    a log whose records need not be in the order in which the puts took effect. */
module WarbleDurability {
  import opened KeyValueDataStructure
  import opened KeyValueConcurrency
  import opened WarbleModel
  import opened WarbleService
  import opened PutHistory

  lemma LegalPutMore(p: Platform, before: seq<Op>, more: seq<Op>, op: Op)
    requires LegalPut(p, before, op)
    requires forall k :: HasKey(before, k) ==> HasKey(more, k)
    ensures LegalPut(p, more, op)
  {
  }

  lemma KeysOfPart(part: seq<Op>, all: seq<Op>)
    requires forall op :: op in part ==> op in all
    ensures forall k :: HasKey(part, k) ==> HasKey(all, k)
  {
    forall k | HasKey(part, k)
      ensures HasKey(all, k)
    {
      var i :| 0 <= i < |part| && part[i].key == k;
      assert part[i] in part;
      var j :| 0 <= j < |all| && all[j] == part[i];
    }
  }

  lemma KeysOfLonger(puts: seq<Op>, more: seq<Op>)
    ensures forall k :: HasKey(puts, k) ==> HasKey(puts + more, k)
  {
    assert forall op :: op in puts ==> op in puts + more;
    KeysOfPart(puts, puts + more);
  }

  // ---- calls that refer to acknowledged mutations ----

  /** The put is one the service makes, and what it refers to (its users, its parent) was put by
      acknowledged mutations. */
  ghost predicate RefersToAcked(p: Platform, s: Machine, op: Op) {
    exists before :: multiset(before) <= s.acked && LegalPut(p, before, op)
  }

  ghost predicate RefersOnlyToAcked(p: Platform, actions: seq<Action>) {
    actions == [] ||
    (var front, a := actions[..|actions| - 1], actions[|actions| - 1];
     RefersOnlyToAcked(p, front) && (a.Invoke? ==> RefersToAcked(p, Exec(front), a.op)))
  }

  /** Calls in flight are legal already after the logged mutations, and so is the history of the map. */
  ghost predicate InFlightLegal(p: Platform, s: Machine) {
    && LegalPuts(p, s.log) && LegalPuts(p, s.applied)
    && forall op :: op in s.called + s.unlogged ==> LegalPut(p, s.log, op)
  }

  lemma InvokeLegal(p: Platform, s: Machine, op: Op)
    requires Inv(s) && RefersToAcked(p, s, op)
    ensures LegalPut(p, s.log, op)
  {
    var before :| multiset(before) <= s.acked && LegalPut(p, before, op);
    forall b | b in before
      ensures b in s.log
    {
      assert b in multiset(before);
      assert b in multiset(s.log);
    }
    KeysOfPart(before, s.log);
    LegalPutMore(p, before, s.log, op);
  }

  lemma AppendLegal(p: Platform, s: Machine, op: Op)
    requires InFlightLegal(p, s) && op in s.unlogged
    ensures InFlightLegal(p, Do(s, AppendRecord(op)))
  {
    assert op in s.called + s.unlogged;
    LegalPutsMore(p, s.log, op);
    KeysOfLonger(s.log, [op]);
    forall other | other in s.called + (s.unlogged - multiset{op})
      ensures LegalPut(p, s.log + [op], other)
    {
      assert other in s.called + s.unlogged;
      LegalPutMore(p, s.log, s.log + [op], other);
    }
  }

  lemma ApplyLegal(p: Platform, s: Machine, op: Op)
    requires InFlightLegal(p, s) && Inv(s) && op in s.called
    ensures InFlightLegal(p, Do(s, ApplyToMap(op)))
  {
    assert op in s.called + s.unlogged;
    LogWasApplied(s);
    KeysOfPart(s.log, s.applied);
    LegalPutMore(p, s.log, s.applied, op);
    LegalPutsMore(p, s.applied, op);
    assert Do(s, ApplyToMap(op)).called + Do(s, ApplyToMap(op)).unlogged == s.called + s.unlogged;
  }

  lemma LogWasApplied(s: Machine)
    requires Inv(s)
    ensures forall op :: op in s.log ==> op in s.applied
  {
    forall op | op in s.log
      ensures op in s.applied
    {
      assert op in multiset(s.log);
      assert op in multiset(s.applied);
    }
  }

  lemma DoLegal(p: Platform, s: Machine, a: Action)
    requires InFlightLegal(p, s) && Inv(s) && Enabled(s, a)
    requires a.Invoke? ==> RefersToAcked(p, s, a.op)
    ensures InFlightLegal(p, Do(s, a))
  {
    match a
    case Invoke(op) => InvokeLegal(p, s, op);
    case AppendRecord(op) => AppendLegal(p, s, op);
    case ApplyToMap(op) => ApplyLegal(p, s, op);
    case Acknowledge(_) =>
    case Crash =>
  }

  lemma {:induction false} ExecLegal(p: Platform, actions: seq<Action>)
    requires RefersOnlyToAcked(p, actions)
    ensures InFlightLegal(p, Exec(actions))
    decreases |actions|
  {
    if actions != [] {
      var s, a := Exec(actions[..|actions| - 1]), actions[|actions| - 1];
      ExecLegal(p, actions[..|actions| - 1]);
      ExecInv(actions[..|actions| - 1]);
      if Enabled(s, a) {
        DoLegal(p, s, a);
      }
    }
  }

  /** If calls refer only to users and warbles that were acknowledged, then at every moment of every run,
      through crashes, with any collisions and any order of records, the map is that of a legal history,
      and `Read` ends.  After a crash the map is what the log gave back. */
  lemma {:induction false} ReadEndsThroughCrashes(p: Platform, actions: seq<Action>, id: string)
    requires Faithful(p) && RefersOnlyToAcked(p, actions) && Askable(Exec(actions).applied, id)
    ensures LegalPuts(p, Exec(actions).applied)
    ensures Halts(p, Exec(actions).live, id)
  {
    ExecLegal(p, actions);
    ExecInv(actions);
    ThreadAtIsWalk(p, Exec(actions).applied, id);
  }

  // ---- calls that refer to whatever they have seen ----

  /** All mutations that ever took effect, in order, over all crashes. */
  function Ever(actions: seq<Action>): seq<Op> {
    if actions == [] then [] else
      var front, a := actions[..|actions| - 1], actions[|actions| - 1];
      Ever(front) + if a.ApplyToMap? && Enabled(Exec(front), a) then [a.op] else []
  }

  /** They are the mutations that built the map at some moment. */
  lemma {:induction false} EverWasApplied(actions: seq<Action>, op: Op)
    ensures op in Ever(actions) <==> exists i :: 0 <= i <= |actions| && op in Exec(actions[..i]).applied
    decreases |actions|
  {
    if actions == [] {
      assert actions[..0] == actions;
    } else {
      var n := |actions| - 1;
      EverWasApplied(actions[..n], op);
      EverStep(actions, op);
      MomentsOfLonger(actions, op);
      assert actions[..n][..n] == actions[..n];
      assert op in Exec(actions[..n]).applied ==> op in Exec(actions[..n][..n]).applied;
    }
  }

  lemma AppliedStep(s: Machine, a: Action, op: Op)
    requires Inv(s) && Enabled(s, a)
    ensures op in Do(s, a).applied ==> op in s.applied || a == ApplyToMap(op)
    ensures a == ApplyToMap(op) ==> op in Do(s, a).applied
  {
    LogWasApplied(s);
  }

  lemma EverStep(actions: seq<Action>, op: Op)
    requires actions != []
    ensures var front := actions[..|actions| - 1];
            && (op in Ever(front) ==> op in Ever(actions))
            && (op in Exec(actions).applied && op !in Exec(front).applied ==> op in Ever(actions))
            && (op in Ever(actions) && op !in Ever(front) ==> op in Exec(actions).applied)
  {
    var s, a := Exec(actions[..|actions| - 1]), actions[|actions| - 1];
    if Enabled(s, a) {
      ExecInv(actions[..|actions| - 1]);
      AppliedStep(s, a, op);
    }
  }

  lemma MomentsOfLonger(actions: seq<Action>, op: Op)
    requires actions != []
    ensures var front := actions[..|actions| - 1];
            (exists i :: 0 <= i <= |actions| && op in Exec(actions[..i]).applied)
            <==> op in Exec(actions).applied || exists i :: 0 <= i <= |front| && op in Exec(front[..i]).applied
  {
    var n := |actions| - 1;
    var front := actions[..n];
    assert actions[..n + 1] == actions;
    assert forall i :: 0 <= i <= n ==> front[..i] == actions[..i];
    if i :| 0 <= i <= n && op in Exec(front[..i]).applied {
      assert op in Exec(actions[..i]).applied;
    }
    if i :| 0 <= i <= n + 1 && op in Exec(actions[..i]).applied {
      assert i <= n ==> op in Exec(front[..i]).applied;
    }
    if op in Exec(actions).applied {
      assert op in Exec(actions[..n + 1]).applied;
    }
  }

  /** What each call refers to took effect some time before the call was made.  It need not have been
      logged, and a crash may have lost it since. */
  ghost predicate ServedWhenMade(p: Platform, actions: seq<Action>) {
    actions == [] ||
    (var front, a := actions[..|actions| - 1], actions[|actions| - 1];
     ServedWhenMade(p, front) && (a.Invoke? ==> ServedPut(p, Ever(front), a.op)))
  }

  ghost predicate CallsAnswerNoName(p: Platform, actions: seq<Action>) {
    forall i :: 0 <= i < |actions| && actions[i].Invoke? ==> AnswersNoName(p, actions[i].op)
  }

  ghost predicate LegalWhenMade(p: Platform, actions: seq<Action>) {
    ServedWhenMade(p, actions) && CallsAnswerNoName(p, actions)
  }

  ghost predicate EverServed(p: Platform, s: Machine, ever: seq<Op>) {
    && ServedPuts(p, ever)
    && (forall op :: op in s.applied ==> op in ever)
    && (forall op :: op in s.called ==> ServedPut(p, ever, op))
  }

  lemma ServedPutMore(p: Platform, before: seq<Op>, more: seq<Op>, op: Op)
    requires ServedPut(p, before, op)
    requires forall k :: HasKey(before, k) ==> HasKey(more, k)
    ensures ServedPut(p, more, op)
  {
  }

  lemma ApplyEverServed(p: Platform, s: Machine, ever: seq<Op>, op: Op)
    requires EverServed(p, s, ever) && op in s.called
    ensures EverServed(p, Do(s, ApplyToMap(op)), ever + [op])
  {
    ServedPutsMore(p, ever, op);
    KeysOfLonger(ever, [op]);
    forall other | other in s.called - multiset{op}
      ensures ServedPut(p, ever + [op], other)
    {
      assert other in s.called;
      ServedPutMore(p, ever, ever + [op], other);
    }
  }

  lemma DoEverServed(p: Platform, s: Machine, ever: seq<Op>, a: Action)
    requires EverServed(p, s, ever) && Inv(s) && Enabled(s, a)
    requires a.Invoke? ==> ServedPut(p, ever, a.op)
    ensures EverServed(p, Do(s, a), ever + if a.ApplyToMap? then [a.op] else [])
  {
    assert ever + [] == ever;
    match a
    case Invoke(op) =>
    case ApplyToMap(op) => ApplyEverServed(p, s, ever, op);
    case AppendRecord(_) =>
    case Acknowledge(_) =>
    case Crash => LogWasApplied(s);
  }

  lemma {:induction false} ExecEverServed(p: Platform, actions: seq<Action>)
    requires ServedWhenMade(p, actions)
    ensures EverServed(p, Exec(actions), Ever(actions))
    decreases |actions|
  {
    if actions != [] {
      var front, a := actions[..|actions| - 1], actions[|actions| - 1];
      ExecEverServed(p, front);
      ExecInv(front);
      if Enabled(Exec(front), a) {
        DoEverServed(p, Exec(front), Ever(front), a);
      } else {
        assert Ever(front) + [] == Ever(front);
      }
    }
  }

  ghost predicate NoneAnswersName(p: Platform, s: Machine, ever: seq<Op>) {
    forall op :: op in ever || op in s.called ==> AnswersNoName(p, op)
  }

  lemma DoAnswersNoName(p: Platform, s: Machine, ever: seq<Op>, a: Action)
    requires NoneAnswersName(p, s, ever) && Enabled(s, a) && (a.Invoke? ==> AnswersNoName(p, a.op))
    ensures NoneAnswersName(p, Do(s, a), ever + if a.ApplyToMap? then [a.op] else [])
  {
  }

  lemma {:induction false} EverAnswersNoName(p: Platform, actions: seq<Action>)
    requires CallsAnswerNoName(p, actions)
    ensures NoneAnswersName(p, Exec(actions), Ever(actions))
    decreases |actions|
  {
    if actions != [] {
      var front, a := actions[..|actions| - 1], actions[|actions| - 1];
      EverAnswersNoName(p, front);
      if Enabled(Exec(front), a) {
        DoAnswersNoName(p, Exec(front), Ever(front), a);
      } else {
        assert Ever(front) + [] == Ever(front);
      }
    }
  }

  lemma EverLegal(p: Platform, actions: seq<Action>)
    requires LegalWhenMade(p, actions)
    ensures LegalPuts(p, Ever(actions))
  {
    var ever := Ever(actions);
    ExecEverServed(p, actions);
    EverAnswersNoName(p, actions);
    forall i | 0 <= i < |ever|
      ensures LegalPut(p, ever[..i], ever[i])
    {
      assert ServedPut(p, ever[..i], ever[i]);
      assert ever[i] in ever;
    }
  }

  /** The first warble ever put under this id is not among the mutations that built the map, and another
      one is: a warble was lost, and its id collides. */
  ghost predicate LostToCollision(ever: seq<Op>, applied: seq<Op>, id: string) {
    !IsNameKey(id) && HasKey(applied, id) && FirstPut(ever, id) < |ever| && ever[FirstPut(ever, id)] !in applied
  }

  /** An id that holds one value, and whose first warble was not lost, holds that first warble, and its
      parent was first put strictly earlier. */
  lemma RecoveredIsFirst(p: Platform, ever: seq<Op>, applied: seq<Op>, id: string)
    requires Faithful(p) && ServedPuts(p, ever) && !IsNameKey(id)
    requires forall op :: op in applied ==> op in ever
    requires !LostToCollision(ever, applied, id) && Single(Replay(map[], applied), id)
    ensures HasKey(applied, id) && HasKey(ever, id)
    ensures var w := Held(p, Replay(map[], applied), id);
            && ever[FirstPut(ever, id)] == Put(id, p.serialize(w))
            && (w.parentId == "" || (HasKey(ever, w.parentId) && FirstPut(ever, w.parentId) < FirstPut(ever, id)))
  {
    ServedPutsOnly(p, ever);
    PartPutsOnly(ever, applied);
    ValuesOfPuts(applied, id);
    KeysOfPart(applied, ever);
    ValuesOfPuts(ever, id);
    var n := FirstPut(ever, id);
    SingleIs(applied, ever[n]);
    assert ServedPut(p, ever[..n], ever[n]);
    EarlierKey(ever, n, p.parse(ever[n].value).parentId);
  }

  lemma PartPutsOnly(ever: seq<Op>, part: seq<Op>)
    requires PutsOnly(ever) && forall op :: op in part ==> op in ever
    ensures PutsOnly(part)
  {
    forall i | 0 <= i < |part|
      ensures part[i].Put?
    {
      assert part[i] in ever;
    }
  }

  lemma SingleIs(applied: seq<Op>, op: Op)
    requires PutsOnly(applied) && op in applied && Single(Replay(map[], applied), op.key)
    ensures op.Put? && Values(Replay(map[], applied), op.key) == [op.value]
  {
    var values := Values(Replay(map[], applied), op.key);
    ValueCount(applied, op.key, op.value);
    assert op in multiset(applied);
    assert op.value in multiset(values);
    assert op.value in values;
  }

  lemma EarlierKey(puts: seq<Op>, n: nat, key: string)
    requires n <= |puts|
    ensures HasKey(puts[..n], key) ==> HasKey(puts, key) && FirstPut(puts, key) < n
  {
    if HasKey(puts[..n], key) {
      HasKeyMore(puts[..n], puts[n..], key);
      assert puts[..n] + puts[n..] == puts;
      var i :| 0 <= i < n && puts[..n][i].key == key;
      assert puts[i].key == key;
    }
  }

  lemma FirstIsLegal(p: Platform, ever: seq<Op>, id: string)
    requires LegalPuts(p, ever) && HasKey(ever, id)
    ensures AnswersNoName(p, ever[FirstPut(ever, id)])
  {
    var n := FirstPut(ever, id);
    var i :| 0 <= i < |ever| && ever[i].key == id;
    assert n <= i;
    assert LegalPut(p, ever[..n], ever[n]);
  }

  lemma {:induction false} HaltsUnlessLost(p: Platform, ever: seq<Op>, applied: seq<Op>, id: string, n: nat)
    requires Faithful(p) && LegalPuts(p, ever) && Askable(applied, id)
    requires forall op :: op in applied ==> op in ever
    requires forall k :: !LostToCollision(ever, applied, k)
    requires HasKey(ever, id) ==> FirstPut(ever, id) < n
    ensures HaltsIn(p, Replay(map[], applied), id, n)
    decreases n
  {
    if Single(Replay(map[], applied), id) {
      LegalPutsOnly(p, ever);
      PartPutsOnly(ever, applied);
      ValuesOfPuts(applied, id);
      RecoveredIsFirst(p, ever, applied, id);
      FirstIsLegal(p, ever, id);
      NoEmptyKey(p, ever);
      HaltsUnlessLost(p, ever, applied, Held(p, Replay(map[], applied), id).parentId, n - 1);
    }
  }

  /** If at any moment of any run, during or after any crashes, some `Read` does not end, then a warble was
      lost and its id collides with another one's: neither alone is enough.  The measure of the walk is
      the time of the first put in the history over all crashes. */
  lemma {:induction false} LoopNeedsLossAndCollision(p: Platform, actions: seq<Action>, id: string)
    requires Faithful(p) && LegalWhenMade(p, actions) && Askable(Exec(actions).applied, id)
    requires !Halts(p, Exec(actions).live, id)
    ensures exists k :: LostToCollision(Ever(actions), Exec(actions).applied, k)
  {
    var s, ever := Exec(actions), Ever(actions);
    ExecInv(actions);
    ExecEverServed(p, actions);
    EverLegal(p, actions);
    if forall k :: !LostToCollision(ever, s.applied, k) {
      HaltsUnlessLost(p, ever, s.applied, id, FirstPut(ever, id) + 1);
    }
  }

  /** No two different warbles ever got the same id. */
  ghost predicate CollisionFree(ever: seq<Op>) {
    forall a, b :: a in ever && b in ever && a.key == b.key && !IsNameKey(a.key) ==> a == b
  }

  /** Nothing is lost: every warble that ever took effect is among those that built the map. */
  ghost predicate NothingLost(ever: seq<Op>, applied: seq<Op>) {
    forall op :: op in ever && !IsNameKey(op.key) ==> op in applied
  }

  lemma NothingLostToCollision(ever: seq<Op>, applied: seq<Op>, id: string)
    requires forall op :: op in applied ==> op in ever
    requires CollisionFree(ever) || NothingLost(ever, applied)
    ensures !LostToCollision(ever, applied, id)
  {
    if !IsNameKey(id) && HasKey(applied, id) && FirstPut(ever, id) < |ever| {
      FirstIsThere(ever, applied, id);
    }
  }

  lemma FirstIsThere(ever: seq<Op>, applied: seq<Op>, id: string)
    requires forall op :: op in applied ==> op in ever
    requires CollisionFree(ever) || NothingLost(ever, applied)
    requires !IsNameKey(id) && HasKey(applied, id) && FirstPut(ever, id) < |ever|
    ensures ever[FirstPut(ever, id)] in applied
  {
    var i :| 0 <= i < |applied| && applied[i].key == id;
    assert applied[i] in applied && ever[FirstPut(ever, id)] in ever;
  }

  /** So `Read` ends at any moment, after any crashes, if no two warbles ever got the same id, or if no
      warble that took effect was lost. */
  lemma {:induction false} ReadEndsUnlessBoth(p: Platform, actions: seq<Action>, id: string)
    requires Faithful(p) && LegalWhenMade(p, actions) && Askable(Exec(actions).applied, id)
    requires CollisionFree(Ever(actions)) || NothingLost(Ever(actions), Exec(actions).applied)
    ensures Halts(p, Exec(actions).live, id)
  {
    ExecEverServed(p, actions);
    if !Halts(p, Exec(actions).live, id) {
      LoopNeedsLossAndCollision(p, actions, id);
      var k :| LostToCollision(Ever(actions), Exec(actions).applied, k);
      NothingLostToCollision(Ever(actions), Exec(actions).applied, k);
    }
  }
}
