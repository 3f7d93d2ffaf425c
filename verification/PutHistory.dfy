/** The puts of the warble service as a history: what each may be, and what the walk of `Read` sees at
    different times. */
module PutHistory {
  import opened Decimal
  import opened Search
  import opened KeyValueDataStructure
  import opened WarbleModel
  import opened WarbleService

  predicate HasKey(puts: seq<Op>, key: string) {
    exists i :: 0 <= i < |puts| && puts[i].key == key
  }

  /** When a key was first put. */
  function FirstPut(puts: seq<Op>, key: string): (n: nat)
    ensures n <= |puts|
    ensures n < |puts| ==> puts[n].key == key
    ensures forall i :: 0 <= i < n ==> puts[i].key != key
  {
    FirstWhere(puts, (op: Op) => op.key == key)
  }

  /** What each put of the service is, given the puts before it. */
  ghost predicate ServedPut(p: Platform, before: seq<Op>, op: Op) {
    op.Put? &&
    (var key, value := op.key, op.value;
     if USER <= key then
       value == key[|USER|..]
     else if FOLLOWING <= key then
       var user := key[|FOLLOWING|..];
       user != value && HasKey(before, UserKey(user)) && HasKey(before, UserKey(value))
     else if FOLLOWED_BY <= key then
       var user := key[|FOLLOWED_BY|..];
       user != value && HasKey(before, UserKey(user)) && HasKey(before, UserKey(value))
     else
       var w := p.parse(value);
       && value == p.serialize(w) && w.id == key && Mint(p, w) == key
       && HasKey(before, UserKey(w.username))
       && (w.parentId == "" || HasKey(before, w.parentId)))
  }

  /** The put is no warble that answers the key of a name. */
  predicate AnswersNoName(p: Platform, op: Op) {
    op.Put? && !IsNameKey(op.key) ==> !IsNameKey(p.parse(op.value).parentId)
  }

  /** What each put is when nobody replies to the key of a name. */
  ghost predicate LegalPut(p: Platform, before: seq<Op>, op: Op) {
    ServedPut(p, before, op) && AnswersNoName(p, op)
  }

  ghost predicate ServedPuts(p: Platform, puts: seq<Op>) {
    forall i :: 0 <= i < |puts| ==> ServedPut(p, puts[..i], puts[i])
  }

  ghost predicate LegalPuts(p: Platform, puts: seq<Op>) {
    forall i :: 0 <= i < |puts| ==> LegalPut(p, puts[..i], puts[i])
  }

  lemma ServedPutsOnly(p: Platform, puts: seq<Op>)
    requires ServedPuts(p, puts)
    ensures PutsOnly(puts)
  {
    forall i | 0 <= i < |puts|
      ensures puts[i].Put?
    {
      assert ServedPut(p, puts[..i], puts[i]);
    }
  }

  lemma LegalPutsOnly(p: Platform, puts: seq<Op>)
    requires LegalPuts(p, puts)
    ensures ServedPuts(p, puts) && PutsOnly(puts)
  {
    forall i | 0 <= i < |puts|
      ensures ServedPut(p, puts[..i], puts[i])
    {
      assert LegalPut(p, puts[..i], puts[i]);
    }
    ServedPutsOnly(p, puts);
  }

  /** A key is in the store from its first put on, and its first value is that of its first put. */
  lemma {:induction false} ValuesOfPuts(puts: seq<Op>, key: string)
    requires PutsOnly(puts)
    ensures Values(Replay(map[], puts), key) != [] <==> HasKey(puts, key)
    ensures HasKey(puts, key) <==> FirstPut(puts, key) < |puts|
    ensures HasKey(puts, key) ==> Values(Replay(map[], puts), key)[0] == puts[FirstPut(puts, key)].value
    decreases |puts|
  {
    if puts != [] {
      var front, last := puts[..|puts| - 1], puts[|puts| - 1];
      ValuesOfPuts(front, key);
      HasKeyLast(puts, key);
      if HasKey(front, key) {
        HasKeyMore(front, [last], key);
        assert front + [last] == puts;
      }
      FirstValueAfter(Replay(map[], front), last, key);
    }
  }

  lemma FirstValueAfter(m: Store, op: Op, key: string)
    requires op.Put?
    ensures var before, after := Values(m, key), Values(Apply(m, op), key);
            && (after != [] <==> before != [] || op.key == key)
            && (before != [] ==> after != [] && after[0] == before[0])
            && (before == [] && op.key == key ==> after == [op.value])
  {
  }

  lemma HasKeyMore(puts: seq<Op>, more: seq<Op>, key: string)
    requires HasKey(puts, key)
    ensures HasKey(puts + more, key)
    ensures FirstPut(puts + more, key) == FirstPut(puts, key)
  {
    var i :| 0 <= i < |puts| && puts[i].key == key;
    assert (puts + more)[i].key == key;
    var n, m := FirstPut(puts, key), FirstPut(puts + more, key);
    assert n <= i && m <= i;
    assert (puts + more)[n].key == key;
    assert puts[m].key == (puts + more)[m].key;
  }

  lemma LegalPutsPrefix(p: Platform, puts: seq<Op>, more: seq<Op>)
    requires LegalPuts(p, puts + more)
    ensures LegalPuts(p, puts)
  {
    forall i | 0 <= i < |puts|
      ensures LegalPut(p, puts[..i], puts[i])
    {
      assert (puts + more)[i] == puts[i] && (puts + more)[..i] == puts[..i];
      assert LegalPut(p, (puts + more)[..i], (puts + more)[i]);
    }
  }

  lemma LegalPutsMore(p: Platform, puts: seq<Op>, op: Op)
    requires LegalPuts(p, puts) && LegalPut(p, puts, op)
    ensures LegalPuts(p, puts + [op])
  {
    var all := puts + [op];
    forall i | 0 <= i < |all|
      ensures LegalPut(p, all[..i], all[i])
    {
      assert i < |puts| ==> all[..i] == puts[..i];
      assert all[..|puts|] == puts;
    }
  }

  lemma ServedPutsMore(p: Platform, puts: seq<Op>, op: Op)
    requires ServedPuts(p, puts) && ServedPut(p, puts, op)
    ensures ServedPuts(p, puts + [op])
  {
    var all := puts + [op];
    forall i | 0 <= i < |all|
      ensures ServedPut(p, all[..i], all[i])
    {
      assert i < |puts| ==> all[..i] == puts[..i];
      assert all[..|puts|] == puts;
    }
  }

  /** A single-valued id holds the first warble put under it, and that warble's parent was first put
      strictly earlier, whether or not it is a warble. */
  lemma {:induction false} HeldWarble(p: Platform, puts: seq<Op>, id: string)
    requires Faithful(p) && ServedPuts(p, puts) && !IsNameKey(id)
    requires Single(Replay(map[], puts), id)
    ensures HasKey(puts, id)
    ensures var w := Held(p, Replay(map[], puts), id);
            && w.id == id && puts[FirstPut(puts, id)] == Put(id, p.serialize(w))
            && (w.parentId == "" || (HasKey(puts, w.parentId) && FirstPut(puts, w.parentId) < FirstPut(puts, id)))
  {
    ServedPutsOnly(p, puts);
    ValuesOfPuts(puts, id);
    var n := FirstPut(puts, id);
    assert ServedPut(p, puts[..n], puts[n]);
    var parentId := p.parse(puts[n].value).parentId;
    if parentId != "" {
      var i :| 0 <= i < n && puts[..n][i].key == parentId;
      assert puts[i].key == parentId;
    }
  }

  lemma HeldIsLegal(p: Platform, puts: seq<Op>, id: string)
    requires Faithful(p) && LegalPuts(p, puts) && !IsNameKey(id)
    requires Single(Replay(map[], puts), id)
    ensures HasKey(puts, id)
    ensures var w := Held(p, Replay(map[], puts), id);
            && w.id == id && !IsNameKey(w.parentId)
            && (w.parentId == "" || (HasKey(puts, w.parentId) && FirstPut(puts, w.parentId) < FirstPut(puts, id)))
  {
    LegalPutsOnly(p, puts);
    HeldWarble(p, puts, id);
    var n := FirstPut(puts, id);
    ValuesOfPuts(puts, id);
    assert LegalPut(p, puts[..n], puts[n]);
  }

  lemma NoEmptyKey(p: Platform, puts: seq<Op>)
    requires ServedPuts(p, puts)
    ensures !HasKey(puts, "")
  {
    forall i | 0 <= i < |puts|
      ensures puts[i].key != ""
    {
      assert ServedPut(p, puts[..i], puts[i]);
      if !IsNameKey(puts[i].key) {
        MintedId(p, p.parse(puts[i].value));
      }
    }
  }

  // ---- keys and values ----

  predicate IsId(key: string) {
    key != "" && AllDigits(key)
  }

  ghost predicate LegalValue(p: Platform, store: Store, key: string, value: string) {
    if USER <= key then
      value == key[|USER|..]
    else if FOLLOWING <= key then
      value != key[|FOLLOWING|..] && UserKey(key[|FOLLOWING|..]) in store && UserKey(value) in store
    else if FOLLOWED_BY <= key then
      value != key[|FOLLOWED_BY|..] && UserKey(key[|FOLLOWED_BY|..]) in store && UserKey(value) in store
    else
      var w := p.parse(value);
      && value == p.serialize(w) && w.id == key && key == Mint(p, w)
      && UserKey(w.username) in store && (w.parentId == "" || w.parentId in store)
  }

  lemma {:induction false} StoredValueWasPut(p: Platform, puts: seq<Op>, key: string, value: string)
    requires ServedPuts(p, puts) && value in Values(Replay(map[], puts), key)
    ensures LegalValue(p, Replay(map[], puts), key, value)
  {
    ServedPutsOnly(p, puts);
    ValueCount(puts, key, value);
    assert value in multiset(Values(Replay(map[], puts), key));
    assert Put(key, value) in multiset(puts);
    var i :| 0 <= i < |puts| && puts[i] == Put(key, value);
    assert ServedPut(p, puts[..i], puts[i]);
    forall k | HasKey(puts[..i], k)
      ensures k in Replay(map[], puts)
    {
      HasKeyMore(puts[..i], puts[i..], k);
      assert puts[..i] + puts[i..] == puts;
      ValuesOfPuts(puts, k);
    }
  }

  // ---- the walk ----

  /** The id is not the key of a name that is there. */
  predicate Askable(puts: seq<Op>, id: string) {
    IsNameKey(id) ==> !HasKey(puts, id)
  }

  lemma SingleWasPut(p: Platform, puts: seq<Op>, id: string)
    requires LegalPuts(p, puts) && Single(Replay(map[], puts), id)
    ensures HasKey(puts, id)
  {
    LegalPutsOnly(p, puts);
    ValuesOfPuts(puts, id);
  }

  /** The step of the walk: the next id was first put strictly earlier, or not at all. */
  lemma NextWasEarlier(p: Platform, puts: seq<Op>, id: string)
    requires Faithful(p) && LegalPuts(p, puts) && Askable(puts, id)
    requires Single(Replay(map[], puts), id)
    ensures HasKey(puts, id)
    ensures var next := Held(p, Replay(map[], puts), id).parentId;
            Askable(puts, next) && (HasKey(puts, next) ==> FirstPut(puts, next) < FirstPut(puts, id))
  {
    SingleWasPut(p, puts, id);
    HeldIsLegal(p, puts, id);
    LegalPutsOnly(p, puts);
    NoEmptyKey(p, puts);
  }

  /** On the store of a legal history the walk from an id takes no more turns than there were puts up
      to the first one of the id. */
  lemma {:induction false} HaltsBy(p: Platform, puts: seq<Op>, id: string, n: nat)
    requires Faithful(p) && LegalPuts(p, puts) && Askable(puts, id)
    requires HasKey(puts, id) ==> FirstPut(puts, id) < n
    ensures HaltsIn(p, Replay(map[], puts), id, n)
    decreases n
  {
    if Single(Replay(map[], puts), id) {
      NextWasEarlier(p, puts, id);
      HaltsBy(p, puts, Held(p, Replay(map[], puts), id).parentId, n - 1);
    }
  }

  /** What `Read` would answer after these puts. */
  function ThreadAt(p: Platform, puts: seq<Op>, id: string): seq<Warble> {
    WalkIn(p, Replay(map[], puts), id, |puts|)
  }

  lemma ThreadAtIsWalk(p: Platform, puts: seq<Op>, id: string)
    requires Faithful(p) && LegalPuts(p, puts) && Askable(puts, id)
    ensures HaltsIn(p, Replay(map[], puts), id, |puts|)
    ensures Halts(p, Replay(map[], puts), id) && Walk(p, Replay(map[], puts), id) == ThreadAt(p, puts, id)
  {
    LegalPutsOnly(p, puts);
    ValuesOfPuts(puts, id);
    HaltsBy(p, puts, id, |puts|);
    WalkIs(p, Replay(map[], puts), id, |puts|);
  }

  lemma ThreadAtStep(p: Platform, puts: seq<Op>, id: string)
    requires Faithful(p) && LegalPuts(p, puts) && Askable(puts, id)
    requires Single(Replay(map[], puts), id)
    ensures var w := Held(p, Replay(map[], puts), id);
            && HasKey(puts, id) && !IsNameKey(id) && w.id == id && !IsNameKey(w.parentId)
            && ThreadAt(p, puts, id) == [w] + ThreadAt(p, puts, w.parentId)
  {
    SingleWasPut(p, puts, id);
    HeldIsLegal(p, puts, id);
    var parentId := Held(p, Replay(map[], puts), id).parentId;
    ThreadAtIsWalk(p, puts, id);
    ThreadAtIsWalk(p, puts, parentId);
    WalkInStep(p, Replay(map[], puts), id, |puts|);
  }

  // ---- the walk at different times ----

  lemma {:induction false} ValuesGrow(puts: seq<Op>, more: seq<Op>, key: string)
    requires PutsOnly(puts + more)
    ensures Values(Replay(map[], puts), key) <= Values(Replay(map[], puts + more), key)
    ensures Values(Replay(map[], puts), key) == Values(Replay(map[], puts + more), key) <==> !HasKey(more, key)
    decreases |more|
  {
    if more == [] {
      assert puts + more == puts;
    } else {
      var n := |more| - 1;
      var before := puts + more[..n];
      assert puts + more == before + [more[n]];
      assert (puts + more)[|before|] == more[n];
      assert PutsOnly(before) by {
        assert forall i :: 0 <= i < |before| ==> before[i] == (puts + more)[i];
      }
      ValuesGrow(puts, more[..n], key);
      ReplayLast(map[], before, more[n]);
      HasKeyLast(more, key);
    }
  }

  lemma HasKeyLast(puts: seq<Op>, key: string)
    requires puts != []
    ensures HasKey(puts, key) <==> HasKey(puts[..|puts| - 1], key) || puts[|puts| - 1].key == key
  {
    var front := puts[..|puts| - 1];
    if HasKey(puts, key) {
      var i :| 0 <= i < |puts| && puts[i].key == key;
      assert i < |front| ==> front[i].key == key;
    }
    if HasKey(front, key) {
      var i :| 0 <= i < |front| && front[i].key == key;
      assert puts[i].key == key;
    }
  }

  /** An id that had a value, and has exactly one later, had the same one. */
  lemma HeldBefore(p: Platform, puts: seq<Op>, more: seq<Op>, id: string)
    requires LegalPuts(p, puts + more) && HasKey(puts, id) && Single(Replay(map[], puts + more), id)
    ensures Single(Replay(map[], puts), id)
    ensures Held(p, Replay(map[], puts), id) == Held(p, Replay(map[], puts + more), id)
  {
    LegalPutsOnly(p, puts + more);
    LegalPutsPrefix(p, puts, more);
    LegalPutsOnly(p, puts);
    ValuesOfPuts(puts, id);
    ValuesGrow(puts, more, id);
  }

  /** The warbles read so far lead from `start` to `next`, each answering the next one. */
  predicate Chain(start: string, warbles: seq<Warble>, next: string) {
    && warbles != []
    && warbles[0].id == start
    && (forall i :: 0 < i < |warbles| ==> warbles[i].id == warbles[i - 1].parentId)
    && warbles[|warbles| - 1].parentId == next
  }

  /** Each of these warbles was alone with its id after these puts. */
  ghost predicate KnownAt(p: Platform, puts: seq<Op>, warbles: seq<Warble>) {
    forall i :: 0 <= i < |warbles| ==> AloneAt(p, puts, warbles[i])
  }

  ghost predicate AloneAt(p: Platform, puts: seq<Op>, w: Warble) {
    && !IsNameKey(w.id) && HasKey(puts, w.id)
    && Single(Replay(map[], puts), w.id) && Held(p, Replay(map[], puts), w.id) == w
  }

  lemma ChainTail(start: string, warbles: seq<Warble>, next: string)
    requires Chain(start, warbles, next) && |warbles| > 1
    ensures Chain(warbles[0].parentId, warbles[1..], next)
  {
    var tail := warbles[1..];
    assert forall i :: 0 <= i < |tail| ==> tail[i] == warbles[i + 1];
  }

  lemma FirstOfThread(p: Platform, puts: seq<Op>, w: Warble)
    requires Faithful(p) && LegalPuts(p, puts) && AloneAt(p, puts, w)
    ensures ThreadAt(p, puts, w.id) == [w] + ThreadAt(p, puts, w.parentId)
  {
    ThreadAtStep(p, puts, w.id);
  }

  lemma ConsConcat(w: Warble, t: seq<Warble>, warbles: seq<Warble>, end: seq<Warble>)
    requires warbles != [] && warbles[0] == w
    ensures t == warbles[1..] + end ==> [w] + t == warbles + end
    ensures t <= warbles[1..] + end ==> [w] + t <= warbles + end
  {
  }

  lemma NextOfChain(p: Platform, puts: seq<Op>, start: string, warbles: seq<Warble>, next: string)
    requires Chain(start, warbles, next) && KnownAt(p, puts, warbles)
    ensures start == warbles[0].id && AloneAt(p, puts, warbles[0])
    ensures if |warbles| == 1 then next == warbles[0].parentId
            else Chain(warbles[0].parentId, warbles[1..], next) && KnownAt(p, puts, warbles[1..])
  {
    if |warbles| > 1 {
      ChainTail(start, warbles, next);
      assert forall i :: 0 <= i < |warbles[1..]| ==> warbles[1..][i] == warbles[i + 1];
    }
  }

  /** A chain of warbles known at some time is the beginning of the thread at that time. */
  lemma {:induction false} ChainBeginsThread(p: Platform, puts: seq<Op>,
                                             start: string, warbles: seq<Warble>, next: string)
    requires Faithful(p) && LegalPuts(p, puts)
    requires Chain(start, warbles, next) && KnownAt(p, puts, warbles)
    ensures ThreadAt(p, puts, start) == warbles + ThreadAt(p, puts, next)
    decreases |warbles|
  {
    var w := warbles[0];
    NextOfChain(p, puts, start, warbles, next);
    FirstOfThread(p, puts, w);
    ConsConcat(w, ThreadAt(p, puts, w.parentId), warbles, ThreadAt(p, puts, next));
    if |warbles| > 1 {
      ChainBeginsThread(p, puts, w.parentId, warbles[1..], next);
    } else {
      assert warbles[1..] == [];
    }
  }

  /** At any later time a thread that began with `w` begins with `w` or is empty. */
  lemma FirstLater(p: Platform, puts: seq<Op>, more: seq<Op>, w: Warble)
    requires Faithful(p) && LegalPuts(p, puts + more) && AloneAt(p, puts, w)
    ensures ThreadAt(p, puts + more, w.id) == [] ||
            ThreadAt(p, puts + more, w.id) == [w] + ThreadAt(p, puts + more, w.parentId)
  {
    if Single(Replay(map[], puts + more), w.id) {
      HeldBefore(p, puts, more, w.id);
      ThreadAtStep(p, puts + more, w.id);
    }
  }

  /** At any later time the thread is not longer than the chain and what follows it: it may have been cut
      by warbles that came to share an id. */
  lemma {:induction false} ThreadWithinChain(p: Platform, puts: seq<Op>, more: seq<Op>,
                                             start: string, warbles: seq<Warble>, next: string)
    requires Faithful(p) && LegalPuts(p, puts + more)
    requires Chain(start, warbles, next) && KnownAt(p, puts, warbles)
    ensures ThreadAt(p, puts + more, start) <= warbles + ThreadAt(p, puts + more, next)
    decreases |warbles|
  {
    var w := warbles[0];
    NextOfChain(p, puts, start, warbles, next);
    FirstLater(p, puts, more, w);
    ConsConcat(w, ThreadAt(p, puts + more, w.parentId), warbles, ThreadAt(p, puts + more, next));
    if |warbles| > 1 {
      ThreadWithinChain(p, puts, more, w.parentId, warbles[1..], next);
    } else {
      assert warbles[1..] == [];
    }
  }

  /** Some of these puts gives another value to the id of one of these warbles. */
  ghost predicate Touched(more: seq<Op>, warbles: seq<Warble>) {
    exists w :: w in warbles && HasKey(more, w.id)
  }

  /** A thread stays the same over more puts exactly when none of them touches it. */
  lemma {:induction false} ThreadStaysUnlessTouched(p: Platform, puts: seq<Op>, more: seq<Op>, id: string)
    requires Faithful(p) && LegalPuts(p, puts + more) && Askable(puts + more, id)
    requires ThreadAt(p, puts, id) != []
    ensures ThreadAt(p, puts + more, id) == ThreadAt(p, puts, id) <==> !Touched(more, ThreadAt(p, puts, id))
    decreases |ThreadAt(p, puts, id)|
  {
    var w := HeadOfThread(p, puts, more, id);
    var rest, later := ThreadAt(p, puts, w.parentId), ThreadAt(p, puts + more, w.parentId);
    TouchedCons(more, w, rest);
    HeadStays(p, puts, more, w);
    ConsSame(w, later, rest);
    if !HasKey(more, id) {
      if rest == [] {
        ParentStaysOut(p, puts, more, id);
        assert later == rest && !Touched(more, rest);
      } else {
        ThreadStaysUnlessTouched(p, puts, more, w.parentId);
        assert later == rest <==> !Touched(more, rest);
      }
    }
  }

  lemma ConsSame(w: Warble, a: seq<Warble>, b: seq<Warble>)
    ensures [w] + a == [w] + b <==> a == b
  {
    assert ([w] + a)[1..] == a && ([w] + b)[1..] == b;
  }

  lemma HeadOfThread(p: Platform, puts: seq<Op>, more: seq<Op>, id: string) returns (w: Warble)
    requires Faithful(p) && LegalPuts(p, puts + more) && Askable(puts + more, id)
    requires ThreadAt(p, puts, id) != []
    ensures LegalPuts(p, puts) && Askable(puts, id) && Single(Replay(map[], puts), id)
    ensures w == Held(p, Replay(map[], puts), id) && AloneAt(p, puts, w) && w.id == id
    ensures !IsNameKey(w.parentId) && ThreadAt(p, puts, id) == [w] + ThreadAt(p, puts, w.parentId)
  {
    LegalPutsPrefix(p, puts, more);
    AskablePrefix(puts, more, id);
    ThreadAtStep(p, puts, id);
    w := Held(p, Replay(map[], puts), id);
  }

  lemma HeadStays(p: Platform, puts: seq<Op>, more: seq<Op>, w: Warble)
    requires Faithful(p) && LegalPuts(p, puts + more) && AloneAt(p, puts, w)
    ensures if HasKey(more, w.id) then ThreadAt(p, puts + more, w.id) == []
            else ThreadAt(p, puts + more, w.id) == [w] + ThreadAt(p, puts + more, w.parentId)
  {
    LegalPutsOnly(p, puts + more);
    ValuesGrow(puts, more, w.id);
    FirstLater(p, puts, more, w);
    if !HasKey(more, w.id) {
      ThreadAtStep(p, puts + more, w.id);
    }
  }

  /** A thread that ended with this warble still does. */
  lemma ParentStaysOut(p: Platform, puts: seq<Op>, more: seq<Op>, id: string)
    requires Faithful(p) && LegalPuts(p, puts + more) && LegalPuts(p, puts) && Askable(puts, id)
    requires Single(Replay(map[], puts), id)
    requires ThreadAt(p, puts, Held(p, Replay(map[], puts), id).parentId) == []
    ensures ThreadAt(p, puts + more, Held(p, Replay(map[], puts), id).parentId) == []
  {
    var parentId := Held(p, Replay(map[], puts), id).parentId;
    SingleWasPut(p, puts, id);
    HeldIsLegal(p, puts, id);
    if Single(Replay(map[], puts + more), parentId) {
      SingleWasPut(p, puts + more, parentId);
      LegalPutsOnly(p, puts + more);
      NoEmptyKey(p, puts + more);
      HeldBefore(p, puts, more, parentId);
      ThreadAtStep(p, puts, parentId);
    }
  }

  lemma AskablePrefix(puts: seq<Op>, more: seq<Op>, id: string)
    requires Askable(puts + more, id)
    ensures Askable(puts, id)
  {
    if HasKey(puts, id) {
      HasKeyMore(puts, more, id);
    }
  }

  lemma TouchedCons(more: seq<Op>, w: Warble, rest: seq<Warble>)
    ensures Touched(more, [w] + rest) <==> HasKey(more, w.id) || Touched(more, rest)
  {
    assert w in [w] + rest;
    assert forall v :: v in rest ==> v in [w] + rest;
  }
}
