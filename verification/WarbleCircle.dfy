/** What a crash can do to `Read` when ids collide: for every hash function there is a run of the service
    that ends in a circle of replies. */
module WarbleCircle {
  import opened Decimal
  import opened KeyValueDataStructure
  import opened KeyValueLog
  import opened WarbleModel
  import opened WarbleService
  import opened PutHistory
  import opened WarbleFlows
  import opened WarbleDurability
  import opened WarbleCrashes

  // ---- a conversation that repeats an id ----

  /** A long conversation: each warble answers the one before it. */
  function Talk(p: Platform, user: string, k: nat): Warble {
    NewWarble(p, user, "", if k == 0 then "" else Talk(p, user, k - 1).id, 0, 0)
  }

  /** The log of the conversation can be read back. */
  ghost predicate SmallTalk(p: Platform, user: string) {
    Fits(Put(UserKey(user), user)) && forall k: nat :: Fits(PutWarble(p, Talk(p, user, k)))
  }

  /** The ids before `n` are all different. */
  ghost predicate TalkDistinct(p: Platform, user: string, n: nat) {
    forall a, b :: 0 <= a < b < n ==> Talk(p, user, a).id != Talk(p, user, b).id
  }

  lemma {:induction false} DistinctBelow(s: seq<nat>, n: nat)
    requires forall i :: 0 <= i < |s| ==> s[i] < n
    requires forall i, j :: 0 <= i < j < |s| ==> s[i] != s[j]
    ensures |s| <= n
    decreases n
  {
    if s != [] {
      assert s[0] < n;
      if i :| 0 <= i < |s| && s[i] == n - 1 {
        DistinctBelow(s[..i] + s[i + 1..], n - 1);
      } else {
        DistinctBelow(s, n - 1);
      }
    }
  }

  function TalkHash(p: Platform, user: string, k: nat): nat {
    p.hash(p.serialize(Talk(p, user, k).(id := "")))
  }

  lemma TalkMinted(p: Platform, user: string, k: nat)
    ensures Talk(p, user, k).id == Print(TalkHash(p, user, k)) && !IsNameKey(Talk(p, user, k).id)
    ensures Talk(p, user, k).id != "" && Talk(p, user, k).id == Mint(p, Talk(p, user, k))
  {
    var parentId := if k == 0 then "" else Talk(p, user, k - 1).id;
    assert Talk(p, user, k).(id := "") == Warble(user, "", "", parentId, 0, 0);
    MintedId(p, Warble(user, "", "", parentId, 0, 0));
  }

  /** A conversation longer than the range of the hash function repeats an id. */
  lemma IdsRepeat(p: Platform, user: string)
    requires Faithful(p)
    ensures !TalkDistinct(p, user, HASH_LIMIT + 1)
  {
    if TalkDistinct(p, user, HASH_LIMIT + 1) {
      var hashes := seq(HASH_LIMIT + 1, k requires 0 <= k => TalkHash(p, user, k));
      forall i, j | 0 <= i < j < |hashes|
        ensures hashes[i] != hashes[j]
      {
        TalkMinted(p, user, i);
        TalkMinted(p, user, j);
        assert Talk(p, user, i).id != Talk(p, user, j).id;
      }
      DistinctBelow(hashes, HASH_LIMIT);
    }
  }

  lemma {:induction false} FirstRepetition(p: Platform, user: string, n: nat) returns (i: nat, j: nat)
    requires !TalkDistinct(p, user, n)
    ensures i < j < n && Talk(p, user, i).id == Talk(p, user, j).id && TalkDistinct(p, user, j)
    decreases n
  {
    if n > 0 && !TalkDistinct(p, user, n - 1) {
      i, j := FirstRepetition(p, user, n - 1);
    } else {
      var a, b :| 0 <= a < b < n && Talk(p, user, a).id == Talk(p, user, b).id;
      i, j := a, b;
    }
  }

  // ---- the run ----

  /** Minted warbles of one user, each answering the one before it. */
  ghost predicate Conversation(p: Platform, user: string, ws: seq<Warble>) {
    forall k :: 0 <= k < |ws| ==> LinkAt(p, user, ws, k)
  }

  ghost predicate LinkAt(p: Platform, user: string, ws: seq<Warble>, k: nat)
    requires k < |ws|
  {
    Follows(p, user, if k == 0 then "" else ws[k - 1].id, ws[k])
  }

  ghost predicate Follows(p: Platform, user: string, parentId: string, w: Warble) {
    w == NewWarble(p, user, "", parentId, 0, 0) && w.id != "" && !IsNameKey(w.id)
  }

  /** The first `n` warbles of the talk, as a sequence. */
  lemma {:induction false} TalkIsConversation(p: Platform, user: string, n: nat) returns (ws: seq<Warble>)
    ensures |ws| == n && Conversation(p, user, ws)
    ensures forall k :: 0 <= k < n ==> ws[k] == Talk(p, user, k)
    decreases n
  {
    if n == 0 {
      ws := [];
    } else {
      var front := TalkIsConversation(p, user, n - 1);
      TalkMinted(p, user, n - 1);
      ws := front + [Talk(p, user, n - 1)];
      forall k | 0 <= k < n
        ensures LinkAt(p, user, ws, k)
      {
        assert k < n - 1 ==> LinkAt(p, user, front, k);
      }
    }
  }

  lemma ConversationFront(p: Platform, user: string, ws: seq<Warble>)
    requires Conversation(p, user, ws) && ws != []
    ensures Conversation(p, user, ws[..|ws| - 1])
    ensures Follows(p, user, if |ws| == 1 then "" else ws[|ws| - 2].id, ws[|ws| - 1])
  {
    var front := ws[..|ws| - 1];
    forall k | 0 <= k < |front|
      ensures LinkAt(p, user, front, k)
    {
      assert LinkAt(p, user, ws, k);
    }
    assert LinkAt(p, user, ws, |ws| - 1);
  }

  function PutWarble(p: Platform, w: Warble): Op {
    Put(w.id, p.serialize(w))
  }

  /** The history of the conversation, and the log that has all of it but the warble number `lost`. */
  function Told(p: Platform, user: string, ws: seq<Warble>): seq<Op> {
    if ws == [] then [Put(UserKey(user), user)]
    else Told(p, user, ws[..|ws| - 1]) + [PutWarble(p, ws[|ws| - 1])]
  }

  function ToldWithout(p: Platform, user: string, ws: seq<Warble>, lost: nat): seq<Op> {
    if ws == [] then [Put(UserKey(user), user)] else
      var n := |ws| - 1;
      ToldWithout(p, user, ws[..n], lost) + if n == lost then [] else [PutWarble(p, ws[n])]
  }

  lemma KeyOfLast(puts: seq<Op>, op: Op)
    ensures HasKey(puts + [op], op.key)
  {
    assert (puts + [op])[|puts|].key == op.key;
  }

  lemma {:induction false} ToldKeys(p: Platform, user: string, ws: seq<Warble>)
    ensures HasKey(Told(p, user, ws), UserKey(user))
    ensures ws != [] ==> HasKey(Told(p, user, ws), ws[|ws| - 1].id)
    decreases |ws|
  {
    if ws == [] {
      KeyOfLast([], Put(UserKey(user), user));
      assert [] + [Put(UserKey(user), user)] == Told(p, user, ws);
    } else {
      var before := Told(p, user, ws[..|ws| - 1]);
      ToldKeys(p, user, ws[..|ws| - 1]);
      HasKeyMore(before, [PutWarble(p, ws[|ws| - 1])], UserKey(user));
      KeyOfLast(before, PutWarble(p, ws[|ws| - 1]));
    }
  }

  // ---- the run of the service ----

  /** An event at the end of a run. */
  lemma After(p: Platform, e0: seq<Event>, w0: World, e: Event) returns (events: seq<Event>, w: World)
    requires Exec(p, NEW_WORLD, e0) == w0 && NeverMisleads(p, e0) && Enabled(w0, e) && !Misleads(w0, e)
    ensures Exec(p, NEW_WORLD, events) == w == Do(p, w0, e) && NeverMisleads(p, events)
    ensures events == e0 + [e]
  {
    events, w := e0 + [e], Do(p, w0, e);
    assert events[..|e0|] == e0;
  }

  /** A put on its way: the call that sent it is over for its client. */
  ghost predicate Sent(w0: World, w: World, op: Op) {
    w.actions == w0.actions + [KV.Invoke(op)] && Free(FlowOf(w.flows, 0))
  }

  lemma SendUser(p: Platform, user: string) returns (events: seq<Event>, w: World)
    ensures Exec(p, NEW_WORLD, events) == w && NeverMisleads(p, events)
    ensures Sent(NEW_WORLD, w, Put(UserKey(user), user))
  {
    events, w := After(p, [], NEW_WORLD, Client(BeginRegister(0, user)));
    events, w := After(p, events, w, Client(PutUser(0)));
  }

  lemma CheckWarble(p: Platform, e0: seq<Event>, w0: World, user: string, parentId: string)
    returns (events: seq<Event>, w: World)
    requires Exec(p, NEW_WORLD, e0) == w0 && NeverMisleads(p, e0) && Free(FlowOf(w0.flows, 0))
    requires Present(LiveStore(w0), UserKey(user)) && !IsNameKey(parentId)
    requires parentId == "" || Present(LiveStore(w0), parentId)
    ensures Exec(p, NEW_WORLD, events) == w && NeverMisleads(p, events)
    ensures w.actions == w0.actions && FlowOf(w.flows, 0) == Posting(user, "", parentId)
  {
    events, w := After(p, e0, w0, Client(BeginPost(0, user, "", parentId)));
    assert w.actions == w0.actions;
    events, w := After(p, events, w, Client(CheckParent(0)));
  }

  lemma SendWarble(p: Platform, e0: seq<Event>, w0: World, user: string, parentId: string)
    returns (events: seq<Event>, w: World)
    requires Exec(p, NEW_WORLD, e0) == w0 && NeverMisleads(p, e0) && Free(FlowOf(w0.flows, 0))
    requires Present(LiveStore(w0), UserKey(user)) && !IsNameKey(parentId)
    requires parentId == "" || Present(LiveStore(w0), parentId)
    ensures Exec(p, NEW_WORLD, events) == w && NeverMisleads(p, events)
    ensures Sent(w0, w, PutWarble(p, NewWarble(p, user, "", parentId, 0, 0)))
  {
    events, w := CheckWarble(p, e0, w0, user, parentId);
    SendsOne(PutOf(p, FlowOf(w.flows, 0), Action.PutWarble(0, 0, 0)));
    events, w := After(p, events, w, Client(Action.PutWarble(0, 0, 0)));
  }

  /** A step of the server. */
  lemma Serves(p: Platform, e0: seq<Event>, w0: World, a: KV.Action) returns (events: seq<Event>, w: World)
    requires Exec(p, NEW_WORLD, e0) == w0 && NeverMisleads(p, e0)
    requires !a.Invoke? && KV.Enabled(KV.Exec(w0.actions), a)
    ensures Exec(p, NEW_WORLD, events) == w && NeverMisleads(p, events) && w.flows == w0.flows
    ensures KV.Exec(w.actions) == KV.Do(KV.Exec(w0.actions), a)
  {
    EverAfterServer(w0.actions, a);
    events, w := After(p, e0, w0, Server(a));
  }

  /** The server applies a put that was sent, and appends and acknowledges it unless it is to be lost. */
  lemma TakeEffect(p: Platform, e0: seq<Event>, w0: World, before: seq<KV.Action>, op: Op, lose: bool)
    returns (events: seq<Event>, w: World)
    requires Exec(p, NEW_WORLD, e0) == w0 && NeverMisleads(p, e0) && w0.actions == before + [KV.Invoke(op)]
    ensures Exec(p, NEW_WORLD, events) == w && NeverMisleads(p, events) && w.flows == w0.flows
    ensures var s0, s := KV.Exec(before), KV.Exec(w.actions);
            && s.applied == s0.applied + [op]
            && s.log == s0.log + (if lose then [] else [op])
            && s.acked == s0.acked + (if lose then multiset{} else multiset{op})
  {
    EverAfterServer(before, KV.Invoke(op));
    events, w := Serves(p, e0, w0, KV.ApplyToMap(op));
    if lose {
      assert KV.Exec(before).log + [] == KV.Exec(before).log;
    } else {
      events, w := Serves(p, events, w, KV.AppendRecord(op));
      events, w := Serves(p, events, w, KV.Acknowledge(op));
    }
  }

  /** What the next call checks is there. */
  lemma ChecksPass(p: Platform, events: seq<Event>, user: string, ws: seq<Warble>)
    requires Faithful(p)
    requires KV.Exec(Exec(p, NEW_WORLD, events).actions).applied == Told(p, user, ws)
    ensures Present(LiveStore(Exec(p, NEW_WORLD, events)), UserKey(user))
    ensures ws != [] ==> Present(LiveStore(Exec(p, NEW_WORLD, events)), ws[|ws| - 1].id)
  {
    var actions := Exec(p, NEW_WORLD, events).actions;
    ServiceIsServed(p, NEW_WORLD, events);
    ExecEverServed(p, actions);
    ServedPutsOnly(p, Ever(actions));
    PartPutsOnly(Ever(actions), KV.Exec(actions).applied);
    KV.ExecInv(actions);
    ToldKeys(p, user, ws);
    ValuesOfPuts(Told(p, user, ws), UserKey(user));
    if ws != [] {
      ValuesOfPuts(Told(p, user, ws), ws[|ws| - 1].id);
    }
  }

  /** The state of the server after the conversation. */
  ghost predicate HasTold(p: Platform, w: World, user: string, ws: seq<Warble>, lost: nat) {
    var s := KV.Exec(w.actions);
    && Free(FlowOf(w.flows, 0))
    && s.applied == Told(p, user, ws) && s.log == ToldWithout(p, user, ws, lost) && s.acked == multiset(s.log)
  }

  /** The conversation, request by request; the put of warble number `lost` is never appended. */
  lemma {:induction false} TellWithout(p: Platform, user: string, ws: seq<Warble>, lost: nat)
    returns (events: seq<Event>, w: World)
    requires Faithful(p) && Conversation(p, user, ws)
    ensures Exec(p, NEW_WORLD, events) == w && NeverMisleads(p, events)
    ensures HasTold(p, w, user, ws, lost)
    decreases |ws|
  {
    if ws == [] {
      events, w := SendUser(p, user);
      events, w := TakeEffect(p, events, w, [], Put(UserKey(user), user), false);
    } else {
      ConversationFront(p, user, ws);
      events, w := TellWithout(p, user, ws[..|ws| - 1], lost);
      events, w := TellOne(p, events, w, user, ws, lost);
    }
  }

  lemma TellOne(p: Platform, e0: seq<Event>, w0: World, user: string, ws: seq<Warble>, lost: nat)
    returns (events: seq<Event>, w: World)
    requires Faithful(p) && ws != [] && Conversation(p, user, ws[..|ws| - 1])
    requires Follows(p, user, if |ws| == 1 then "" else ws[|ws| - 2].id, ws[|ws| - 1])
    requires Exec(p, NEW_WORLD, e0) == w0 && NeverMisleads(p, e0) && HasTold(p, w0, user, ws[..|ws| - 1], lost)
    ensures Exec(p, NEW_WORLD, events) == w && NeverMisleads(p, events)
    ensures HasTold(p, w, user, ws, lost)
  {
    var front, parentId := ws[..|ws| - 1], if |ws| == 1 then "" else ws[|ws| - 2].id;
    ChecksPass(p, e0, user, front);
    if front != [] {
      ConversationFront(p, user, front);
    }
    events, w := SendWarble(p, e0, w0, user, parentId);
    events, w := TakeEffect(p, events, w, w0.actions, PutWarble(p, ws[|ws| - 1]), |ws| - 1 == lost);
  }

  // ---- the circle ----

  /** How often an id is in the log. */
  function Times(ws: seq<Warble>, lost: nat, id: string): nat {
    if ws == [] then 0 else
      var n := |ws| - 1;
      Times(ws[..n], lost, id) + if n != lost && ws[n].id == id then 1 else 0
  }

  lemma CountAfterPut(m: Store, op: Op, id: string)
    requires op.Put?
    ensures |Values(Apply(m, op), id)| == |Values(m, id)| + if op.key == id then 1 else 0
  {
  }

  lemma {:induction false} LoggedTimes(p: Platform, user: string, ws: seq<Warble>, lost: nat, id: string)
    requires !IsNameKey(id)
    ensures |Values(Replay(map[], ToldWithout(p, user, ws, lost)), id)| == Times(ws, lost, id)
    decreases |ws|
  {
    if ws == [] {
      NameKeys(user);
      CountAfterPut(map[], Put(UserKey(user), user), id);
      ReplayLast(map[], [], Put(UserKey(user), user));
      assert [] + [Put(UserKey(user), user)] == ToldWithout(p, user, ws, lost);
    } else {
      var n := |ws| - 1;
      var before := ToldWithout(p, user, ws[..n], lost);
      LoggedTimes(p, user, ws[..n], lost, id);
      if n == lost {
        assert before + [] == before;
      } else {
        ReplayLast(map[], before, PutWarble(p, ws[n]));
        CountAfterPut(Replay(map[], before), PutWarble(p, ws[n]), id);
      }
    }
  }

  /** The last warble takes the id of the lost one; all ids before it are different. */
  ghost predicate EndsInRepetition(ws: seq<Warble>, lost: nat) {
    && lost < |ws| - 1 && ws[|ws| - 1].id == ws[lost].id
    && forall a, b :: 0 <= a < b < |ws| - 1 ==> ws[a].id != ws[b].id
  }

  /** After the lost warble, two warbles with one id are the same one. */
  lemma SameIdOnly(ws: seq<Warble>, lost: nat, k: nat, m: nat)
    requires EndsInRepetition(ws, lost) && lost < k < |ws| && m < |ws|
    ensures m != lost && ws[m].id == ws[k].id <==> m == k
  {
    if m != k && m != lost {
      var a := if k == |ws| - 1 then lost else k;
      var b := if m == |ws| - 1 then lost else m;
      assert ws[a].id == ws[k].id && ws[b].id == ws[m].id;
      assert a < b || b < a;
    }
  }

  lemma {:induction false} OnceInLog(ws: seq<Warble>, lost: nat, k: nat, n: nat)
    requires EndsInRepetition(ws, lost) && lost < k < |ws| && n <= |ws|
    ensures Times(ws[..n], lost, ws[k].id) == if k < n then 1 else 0
    decreases n
  {
    if n > 0 {
      OnceInLog(ws, lost, k, n - 1);
      SameIdOnly(ws, lost, k, n - 1);
      assert ws[..n][..n - 1] == ws[..n - 1];
    }
  }

  lemma {:induction false} WarbleInLog(p: Platform, user: string, ws: seq<Warble>, lost: nat, k: nat)
    requires k < |ws| && k != lost
    ensures PutWarble(p, ws[k]) in ToldWithout(p, user, ws, lost)
    decreases |ws|
  {
    if k < |ws| - 1 {
      WarbleInLog(p, user, ws[..|ws| - 1], lost, k);
    }
  }

  lemma {:induction false} ToldPutsOnly(p: Platform, user: string, ws: seq<Warble>, lost: nat)
    ensures PutsOnly(ToldWithout(p, user, ws, lost))
    decreases |ws|
  {
    if ws != [] {
      ToldPutsOnly(p, user, ws[..|ws| - 1], lost);
    }
  }

  lemma HeldInLog(p: Platform, user: string, ws: seq<Warble>, lost: nat, k: nat)
    requires Faithful(p) && Conversation(p, user, ws) && EndsInRepetition(ws, lost) && lost < k < |ws|
    ensures var store := Replay(map[], ToldWithout(p, user, ws, lost));
            && Single(store, ws[k].id) && Held(p, store, ws[k].id) == ws[k]
            && ws[k].parentId == ws[k - 1].id
  {
    assert LinkAt(p, user, ws, k);
    LoggedTimes(p, user, ws, lost, ws[k].id);
    OnceInLog(ws, lost, k, |ws|);
    assert ws[..|ws|] == ws;
    WarbleInLog(p, user, ws, lost, k);
    ToldPutsOnly(p, user, ws, lost);
    SingleIs(ToldWithout(p, user, ws, lost), PutWarble(p, ws[k]));
  }

  lemma {:induction false} CircleNeverHalts(p: Platform, user: string, ws: seq<Warble>, lost: nat, k: nat, n: nat)
    requires Faithful(p) && Conversation(p, user, ws) && EndsInRepetition(ws, lost) && lost < k < |ws|
    ensures !HaltsIn(p, Replay(map[], ToldWithout(p, user, ws, lost)), ws[k].id, n)
    decreases n
  {
    HeldInLog(p, user, ws, lost, k);
    if n > 0 {
      CircleNeverHalts(p, user, ws, lost, if k - 1 == lost then |ws| - 1 else k - 1, n - 1);
    }
  }

  /** A conversation that ends when an id repeats for the first time. */
  lemma RepeatingConversation(p: Platform, user: string) returns (ws: seq<Warble>, lost: nat)
    requires Faithful(p)
    ensures Conversation(p, user, ws) && EndsInRepetition(ws, lost)
    ensures forall k :: 0 <= k < |ws| ==> ws[k] == Talk(p, user, k)
  {
    IdsRepeat(p, user);
    var i, j := FirstRepetition(p, user, HASH_LIMIT + 1);
    ws := TalkIsConversation(p, user, j + 1);
    lost := i;
    forall a, b | 0 <= a < b < j
      ensures ws[a].id != ws[b].id
    {
      assert ws[a] == Talk(p, user, a) && ws[b] == Talk(p, user, b);
    }
  }

  /** Whatever the hash function is, some run of the service's requests, whose puts are all appended and
      acknowledged but the one of one warble, leaves a log from whose store `Read` does not end: a
      conversation goes on until an id repeats, and the first warble with that id is the lost one. */
  lemma LostParentCanLoop(p: Platform, user: string) returns (events: seq<Event>, id: string)
    requires Faithful(p)
    ensures NeverMisleads(p, events) && !IsNameKey(id)
    ensures var s := KV.Exec(Exec(p, NEW_WORLD, events).actions);
            && s.acked == multiset(s.log)
            && |s.applied| == |s.log| + 1
            && !Halts(p, Replay(map[], s.log), id)
            && (SmallTalk(p, user) ==> AllFit(s.log))
  {
    var ws, lost := RepeatingConversation(p, user);
    var w;
    events, w := TellWithout(p, user, ws, lost);
    id := ws[|ws| - 1].id;
    assert LinkAt(p, user, ws, |ws| - 1);
    ToldLengths(p, user, ws, lost);
    CircleOfLast(p, user, ws, lost);
    if SmallTalk(p, user) {
      SmallTalkFits(p, user, ws, lost);
    }
  }

  /** If the conversation can be read back, a crash then makes the circle. */
  lemma CrashMakesCircle(p: Platform, user: string) returns (events: seq<Event>, id: string)
    requires Faithful(p) && SmallTalk(p, user)
    ensures NeverMisleads(p, events) && !IsNameKey(id)
    ensures events != [] && events[|events| - 1] == Server(KV.Crash)
    ensures Enabled(Exec(p, NEW_WORLD, events[..|events| - 1]), Server(KV.Crash))
    ensures !Halts(p, LiveStore(Exec(p, NEW_WORLD, events)), id)
  {
    events, id := LostParentCanLoop(p, user);
    var w := Exec(p, NEW_WORLD, events);
    EverAfterServer(w.actions, KV.Crash);
    var all, after := After(p, events, w, Server(KV.Crash));
    assert all[..|all| - 1] == events;
    events := all;
  }

  lemma CircleOfLast(p: Platform, user: string, ws: seq<Warble>, lost: nat)
    requires Faithful(p) && Conversation(p, user, ws) && EndsInRepetition(ws, lost)
    ensures !Halts(p, Replay(map[], ToldWithout(p, user, ws, lost)), ws[|ws| - 1].id)
  {
    var store, id := Replay(map[], ToldWithout(p, user, ws, lost)), ws[|ws| - 1].id;
    forall n: nat
      ensures !HaltsIn(p, store, id, n)
    {
      CircleNeverHalts(p, user, ws, lost, |ws| - 1, n);
    }
  }

  lemma {:induction false} SmallTalkFits(p: Platform, user: string, ws: seq<Warble>, lost: nat)
    requires SmallTalk(p, user) && forall k :: 0 <= k < |ws| ==> ws[k] == Talk(p, user, k)
    ensures AllFit(ToldWithout(p, user, ws, lost))
    decreases |ws|
  {
    if ws != [] {
      SmallTalkFits(p, user, ws[..|ws| - 1], lost);
    }
  }

  lemma {:induction false} ToldLengths(p: Platform, user: string, ws: seq<Warble>, lost: nat)
    ensures |Told(p, user, ws)| == |ws| + 1
    ensures |ToldWithout(p, user, ws, lost)| == |ws| + 1 - if lost < |ws| then 1 else 0
    decreases |ws|
  {
    if ws != [] {
      ToldLengths(p, user, ws[..|ws| - 1], lost);
    }
  }

  // ---- a platform on which the conversation can be read back ----

  const ROOM := 200

  lemma FieldLength(s: string)
    requires |s| <= INT_MAX
    ensures |Field(s)| <= |s| + 12
  {
    assert Pow10(5) == 100_000;
    assert Pow10(10) == 100_000 * Pow10(5);
    PrintLength(|s|, 10);
  }

  lemma TalkEncoded(p: Platform, user: string, k: nat)
    requires Faithful(p) && |user| + ROOM <= INT_MAX
    ensures |Encode(Talk(p, user, k))| <= INT_MAX && |Talk(p, user, k).id| <= 20
  {
    var w := Talk(p, user, k);
    TalkIdLength(p, user, k);
    if k > 0 {
      TalkIdLength(p, user, k - 1);
    }
    FieldLength(w.username);
    FieldLength(w.text);
    FieldLength(w.id);
    FieldLength(w.parentId);
    FieldLength("+" + Print(0));
  }

  lemma TalkIdLength(p: Platform, user: string, k: nat)
    requires Faithful(p)
    ensures |Talk(p, user, k).id| <= 20
  {
    TalkMinted(p, user, k);
    MintLength(p, Talk(p, user, k));
  }

  /** For every hash function there is such a platform, for every user whose name leaves a little room. */
  lemma SmallTalkExists(hash: string -> nat, user: string)
    requires (forall s :: hash(s) < HASH_LIMIT) && |user| + ROOM <= INT_MAX
    ensures exists p :: Faithful(p) && p.hash == hash && SmallTalk(p, user)
  {
    FaithfulPlatformExists(hash);
    var p :| Faithful(p) && p.hash == hash && forall w :: p.serialize(w) == Encode(w);
    forall k: nat
      ensures Fits(PutWarble(p, Talk(p, user, k)))
    {
      TalkEncoded(p, user, k);
    }
    assert SmallTalk(p, user);
  }
}
