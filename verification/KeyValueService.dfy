/** The key-value server: a multimap in memory and, in persistent mode, the log on disk. */
module KeyValueService {
  import opened Results
  import opened Decimal
  import opened FileStream
  import opened KeyValueDataStructure
  import opened KeyValueLog

  /** What a server holds: its map, whether it persists, and the bytes of its log. */
  datatype Server = Server(store: Store, persistent: bool, log: string)

  function AfterOp(s: Server, op: Op): Server {
    Server(Apply(s.store, op), s.persistent, if s.persistent then s.log + Record(op) else s.log)
  }

  function AfterOps(s: Server, ops: seq<Op>): Server {
    if ops == [] then s else AfterOp(AfterOps(s, ops[..|ops| - 1]), ops[|ops| - 1])
  }

  /** Starting a server over a log; `None` when the constructor throws. */
  function Start(persistent: bool, log: string, stale: char): Option<Server> {
    if !persistent then
      Some(Server(map[], false, log))
    else
      var l := ParseLog(At(log), stale);
      if l.threw then None else Some(Server(Replay(map[], l.ops), true, log))
  }

  /** A persistent server whose log is exactly the record of `ops`. */
  function Logged(ops: seq<Op>): Server {
    Server(Replay(map[], ops), true, PrintLog(ops))
  }

  lemma LoggedAfterOp(ops: seq<Op>, op: Op)
    ensures AfterOp(Logged(ops), op) == Logged(ops + [op])
  {
    ReplayLast(map[], ops, op);
    PrintLogLast(ops, op);
  }

  lemma SnocConcat(ops: seq<Op>, more: seq<Op>)
    requires more != []
    ensures ops + more[..|more| - 1] + [more[|more| - 1]] == ops + more
  {
  }

  lemma {:induction false} LoggedAfterOps(ops: seq<Op>, more: seq<Op>)
    ensures AfterOps(Logged(ops), more) == Logged(ops + more)
    decreases |more|
  {
    if more == [] {
      assert ops + more == ops;
    } else {
      var n := |more| - 1;
      var done := ops + more[..n];
      LoggedAfterOps(ops, more[..n]);
      LoggedAfterOp(done, more[n]);
      SnocConcat(ops, more);
    }
  }

  /** Restarting over the log of `ops` reproduces the server, unless a length is out of range. */
  lemma StartOverLog(ops: seq<Op>, stale: char)
    ensures Start(true, PrintLog(ops), stale) == if AllFit(ops) then Some(Logged(ops)) else None
  {
    RecoveryRoundTrip(ops, stale);
    var l := ParseLog(At(PrintLog(ops)), stale);
    assert l.threw <==> !AllFit(ops);
    if AllFit(ops) {
      assert l.ops == ops;
    }
  }

  lemma {:induction false} AfterOpsStore(s: Server, ops: seq<Op>)
    ensures AfterOps(s, ops).store == Replay(s.store, ops)
    decreases |ops|
  {
    if ops != [] {
      AfterOpsStore(s, ops[..|ops| - 1]);
    }
  }

  // ---- runs with restarts ----

  datatype Event = Mutate(op: Op) | Restart(stale: char)

  function Step(s: Server, e: Event): Option<Server> {
    match e
    case Mutate(op) => Some(AfterOp(s, op))
    case Restart(stale) => Start(s.persistent, s.log, stale)
  }

  function Run(s: Server, events: seq<Event>): Option<Server> {
    if events == [] then Some(s)
    else
      match Run(s, events[..|events| - 1])
      case None => None
      case Some(t) => Step(t, events[|events| - 1])
  }

  function Mutations(events: seq<Event>): seq<Op> {
    if events == [] then [] else
      var last := events[|events| - 1];
      Mutations(events[..|events| - 1]) + if last.Mutate? then [last.op] else []
  }

  /** Some restart happens after a mutation whose record cannot be read back. */
  ghost predicate RestartAfterOverlong(ops: seq<Op>, events: seq<Event>) {
    exists i :: 0 <= i < |events| && events[i].Restart? && !AllFit(ops + Mutations(events[..i]))
  }

  lemma RestartAfterOverlongStep(ops: seq<Op>, events: seq<Event>)
    requires events != []
    ensures var n := |events| - 1;
            RestartAfterOverlong(ops, events) <==>
            RestartAfterOverlong(ops, events[..n]) ||
            (events[n].Restart? && !AllFit(ops + Mutations(events[..n])))
  {
    var n := |events| - 1;
    var front := events[..n];
    if RestartAfterOverlong(ops, events) {
      var i :| 0 <= i < |events| && events[i].Restart? && !AllFit(ops + Mutations(events[..i]));
      assert i < n ==> front[..i] == events[..i] && front[i] == events[i];
    }
    if RestartAfterOverlong(ops, front) {
      var i :| 0 <= i < |front| && front[i].Restart? && !AllFit(ops + Mutations(front[..i]));
      assert front[..i] == events[..i] && front[i] == events[i];
    }
  }

  lemma StepOfLogged(ops: seq<Op>, e: Event)
    ensures Step(Logged(ops), e)
         == if e.Restart? && !AllFit(ops) then None
            else Some(Logged(ops + if e.Mutate? then [e.op] else []))
  {
    match e
    case Mutate(op) =>
      LoggedAfterOp(ops, op);
    case Restart(stale) =>
      StartOverLog(ops, stale);
      assert ops + [] == ops;
  }

  /** Restarts between calls are unobservable, with the exact condition: the run ends in the server
      that the mutations alone produce, unless a restart follows a mutation with an over-long key or
      value; then, and only then, some start of the server throws. */
  lemma {:induction false} RestartsUnobservable(ops: seq<Op>, events: seq<Event>)
    ensures Run(Logged(ops), events)
         == if RestartAfterOverlong(ops, events) then None else Some(Logged(ops + Mutations(events)))
    decreases |events|
  {
    if events == [] {
      assert ops + Mutations(events) == ops;
    } else {
      var n := |events| - 1;
      RestartsUnobservable(ops, events[..n]);
      RestartAfterOverlongStep(ops, events);
      StepOfLogged(ops + Mutations(events[..n]), events[n]);
      MutationsLast(ops, events);
    }
  }

  lemma MutationsLast(ops: seq<Op>, events: seq<Event>)
    requires events != []
    ensures var last := events[|events| - 1];
            ops + Mutations(events)
            == ops + Mutations(events[..|events| - 1]) + if last.Mutate? then [last.op] else []
  {
    var last := events[|events| - 1];
    AssocOps(ops, Mutations(events[..|events| - 1]), if last.Mutate? then [last.op] else []);
  }

  lemma AssocOps(a: seq<Op>, b: seq<Op>, c: seq<Op>)
    ensures a + b + c == a + (b + c)
  {
  }

  // ---- servers without a log ----

  predicate MutatesOnly(events: seq<Event>) {
    forall i :: 0 <= i < |events| ==> events[i].Mutate?
  }

  lemma {:induction false} RunInMemory(s: Server, events: seq<Event>)
    requires !s.persistent && MutatesOnly(events)
    ensures Run(s, events) == Some(Server(Replay(s.store, Mutations(events)), false, s.log))
    decreases |events|
  {
    if events != [] {
      var n := |events| - 1;
      RunInMemory(s, events[..n]);
      ReplayLast(s.store, Mutations(events[..n]), events[n].op);
    }
  }

  lemma RunLast(s: Server, events: seq<Event>, e: Event)
    ensures Run(s, events + [e])
         == match Run(s, events) { case None => None case Some(t) => Step(t, e) }
  {
    assert (events + [e])[..|events|] == events;
  }

  lemma RunLater(s: Server, t: Server, first: seq<Event>, second: seq<Event>, e: Event)
    requires Run(s, first + second) == Run(t, second)
    ensures Run(s, first + (second + [e])) == Run(t, second + [e])
  {
    RunLast(s, first + second, e);
    RunLast(t, second, e);
    assert first + second + [e] == first + (second + [e]);
  }

  lemma {:induction false} RunConcat(s: Server, first: seq<Event>, second: seq<Event>)
    requires Run(s, first).Some?
    ensures Run(s, first + second) == Run(Run(s, first).value, second)
    decreases |second|
  {
    if second == [] {
      assert first + second == first;
    } else {
      var front, e := second[..|second| - 1], second[|second| - 1];
      assert front + [e] == second;
      RunConcat(s, first, front);
      RunLater(s, Run(s, first).value, first, front, e);
    }
  }

  /** A server without a log always comes up again, whatever was put into it, and writes nothing. */
  lemma {:induction false} MemoryComesUp(s: Server, events: seq<Event>)
    requires !s.persistent
    ensures Run(s, events).Some? && !Run(s, events).value.persistent && Run(s, events).value.log == s.log
    decreases |events|
  {
    if events != [] {
      MemoryComesUp(s, events[..|events| - 1]);
    }
  }

  /** And a restart forgets what it held: its map is built by the mutations since the last restart. */
  lemma RestartForgets(s: Server, before: seq<Event>, stale: char, later: seq<Event>)
    requires !s.persistent && MutatesOnly(later)
    ensures Run(s, before + [Restart(stale)] + later)
         == Some(Server(Replay(map[], Mutations(later)), false, s.log))
  {
    MemoryComesUp(s, before);
    var restarted := before + [Restart(stale)];
    assert restarted[..|before|] == before;
    RunConcat(s, restarted, later);
    RunInMemory(Run(s, restarted).value, later);
  }

  // ---- the server object ----

  /** The file system: the bytes of each file that exists. */
  class Disk {
    var files: map<string, string>
  }

  function FileText(files: map<string, string>, name: string): string {
    if name in files then files[name] else ""
  }

  /** The two lines that the loader repeats for every key and value: a length line, then that many
      characters.  `threw` reports the exception of `std::stoi`. */
  method ReadField(inFile: InFile, stale: char) returns (threw: bool, text: string)
    requires inFile.Valid()
    modifies inFile
    ensures inFile.Valid()
    ensures TakeField(old(inFile.Cur()), stale) == if threw then None else Some((inFile.Cur(), text))
  {
    var _, length := inFile.GetLine("");
    match StoI(length)
    case None => return true, "";
    case Some(n) =>
      text := ReadNCharacter(inFile, n, stale);
      return false, text;
  }

  /** Bookkeeping for the loader: one more mutation done. */
  lemma Extend(done: seq<Op>, op: Op, rest: Loaded) returns (more: seq<Op>)
    ensures more == done + [op]
    ensures Before(done, Then(op, rest)) == Before(more, rest)
    ensures Replay(map[], more) == Apply(Replay(map[], done), op)
  {
    more := done + [op];
    BeforeThen(done, op, rest);
    ReplayLast(map[], done, op);
  }

  /** The values of several keys, one key after the other. */
  function AllValues(store: Store, keys: seq<string>): seq<string> {
    if keys == [] then []
    else AllValues(store, keys[..|keys| - 1]) + Values(store, keys[|keys| - 1])
  }

  /** The first key without values. */
  predicate FirstMissing(store: Store, keys: seq<string>, n: nat) {
    && n < |keys| && Values(store, keys[n]) == []
    && forall i :: 0 <= i < n ==> Values(store, keys[i]) != []
  }

  /** The answer to a stream of keys: everything, or everything before the first key without values. */
  ghost predicate Streams(store: Store, keys: seq<string>, status: Status, replies: seq<string>) {
    if forall i :: 0 <= i < |keys| ==> Values(store, keys[i]) != [] then
      status == OK && replies == AllValues(store, keys)
    else
      status == NOT_FOUND
      && exists n: nat :: FirstMissing(store, keys, n) && replies == AllValues(store, keys[..n])
  }

  class KeyValueStoreImpl {
    const storage: Storage
    const disk: Disk
    const persistentFile: string
    var persistentMode: bool

    ghost function State(): Server
      reads this, storage, disk
    {
      Server(storage.storageMap, persistentMode, FileText(disk.files, persistentFile))
    }

    ghost predicate Valid()
      reads this
    {
      persistentMode ==> persistentFile != ""
    }

    /** The fields before the loader runs. */
    constructor (file: string, disk: Disk)
      ensures persistentFile == file && this.disk == disk && fresh(storage)
      ensures storage.storageMap == map[]
    {
      storage := new Storage();
      this.disk := disk;
      persistentFile := file;
      persistentMode := false;
    }

    /** The whole construction of the source; null when `std::stoi` throws out of it. */
    static method Construct(file: string, disk: Disk, stale: char) returns (server: KeyValueStoreImpl?)
      modifies disk
      ensures disk.files == if file == "" || file in old(disk.files) then old(disk.files)
                            else old(disk.files)[file := ""]
      ensures var started := Start(file != "", FileText(old(disk.files), file), stale);
              if server == null then started == None
              else fresh(server) && fresh(server.storage) && server.disk == disk
                   && server.persistentFile == file && server.Valid() && started == Some(server.State())
      ensures file == "" ==> server != null && !server.persistentMode && server.storage.storageMap == map[]
      ensures file != "" && file !in old(disk.files) ==>
                server != null && server.persistentMode && server.storage.storageMap == map[]
    {
      var s := new KeyValueStoreImpl(file, disk);
      var threw := s.PersistentLoad(stale);
      return if threw then null else s;
    }

    method PersistentLoad(stale: char) returns (threw: bool)
      requires storage.storageMap == map[]
      modifies this, storage, disk
      ensures disk.files == if persistentFile == "" || persistentFile in old(disk.files)
                            then old(disk.files) else old(disk.files)[persistentFile := ""]
      ensures Start(persistentFile != "", FileText(old(disk.files), persistentFile), stale)
           == if threw then None else Some(State())
      ensures Valid()
      ensures persistentFile == "" ==> !threw && !persistentMode && storage.storageMap == map[]
      ensures persistentFile != "" && persistentFile !in old(disk.files) ==>
                !threw && persistentMode && storage.storageMap == map[]
    {
      if |persistentFile| == 0 {
        persistentMode := false;
        return false;
      }
      persistentMode := true;
      if persistentFile !in disk.files {
        disk.files := disk.files[persistentFile := ""];
        return false;
      }
      var inFile := new InFile(disk.files[persistentFile]);
      ghost var all := ParseLog(inFile.Cur(), stale);
      ghost var done: seq<Op> := [];
      assert all == Before(done, all);
      var request := "";
      var more := true;
      while more
        invariant inFile.Valid() && fresh(inFile)
        invariant all == if more then Before(done, ParseLog(inFile.Cur(), stale)) else Loaded(done, false)
        invariant storage.storageMap == Replay(map[], done)
        invariant disk.files == old(disk.files) && persistentMode
        decreases more, |inFile.Cur().rest|
      {
        ghost var c := inFile.Cur();
        more, threw, request := LoadTurn(inFile, request, stale);
        if threw { return true; }
        ghost var turn := TakeTurn(c, stale);
        if more {
          done := Extend(done, turn.op, ParseLog(inFile.Cur(), stale));
        } else {
          assert done + [] == done;
        }
      }
      return false;
    }

    /** The condition and the body of the loading loop. */
    method LoadTurn(inFile: InFile, line: string, stale: char) returns (more: bool, threw: bool, request: string)
      requires inFile.Valid()
      modifies inFile, storage
      ensures inFile.Valid()
      ensures match TakeTurn(old(inFile.Cur()), stale)
              case Stop => !more && !threw && storage.storageMap == old(storage.storageMap)
              case Throw => !more && threw
              case Go(op, next) => more && !threw && inFile.Cur() == next
                                   && storage.storageMap == Apply(old(storage.storageMap), op)
    {
      var ok;
      ok, request := inFile.GetLine(line);
      if !ok {
        return false, false, request;
      }
      var key;
      if request == "put" {
        threw, key := ReadField(inFile, stale);
        if threw { return false, true, request; }
        var value;
        threw, value := ReadField(inFile, stale);
        if threw { return false, true, request; }
        var _ := storage.Put(key, value);
      } else if request == "remove" {
        threw, key := ReadField(inFile, stale);
        if threw { return false, true, request; }
        var _ := storage.DeleteKey(key);
      } else {
        return false, false, request;
      }
      return true, false, request;
    }

    method PersistentStore(op: Op)
      requires persistentFile != ""
      modifies disk
      ensures disk.files
           == old(disk.files)[persistentFile := FileText(old(disk.files), persistentFile) + Record(op)]
    {
      var request := if op.Put? then "put" else "remove";
      var out := FileText(disk.files, persistentFile);
      ghost var before := out;
      out := out + request + "\n";
      out := out + Print(|op.key|) + "\n";
      out := out + op.key + "\n";
      ghost var head := request + "\n";
      assert out == before + head + Field(op.key);
      if request == "put" {
        ghost var half := out;
        out := out + Print(|op.value|) + "\n";
        out := out + op.value + "\n";
        assert out == half + Field(op.value);
        Assoc(before + head, Field(op.key), Field(op.value));
        Assoc(before, head, Field(op.key) + Field(op.value));
        Assoc(head, Field(op.key), Field(op.value));
        assert head == "put\n";
      } else {
        Assoc(before, head, Field(op.key));
        assert head == "remove\n";
      }
      assert out == before + Record(op);
      disk.files := disk.files[persistentFile := out];
    }

    method Put(key: string, value: string) returns (status: Status)
      requires Valid()
      modifies storage, disk
      ensures Valid() && status == OK && State() == AfterOp(old(State()), Op.Put(key, value))
      ensures disk.files == if persistentMode then old(disk.files)[persistentFile := State().log] else old(disk.files)
    {
      var _ := storage.Put(key, value);
      if persistentMode {
        PersistentStore(Op.Put(key, value));
      }
      return OK;
    }

    /** The comment on this call in the source promises NOT_FOUND for an absent key, but the storage
        reports success for it: the status is always OK, and the log gets a record either way. */
    method Remove(key: string) returns (status: Status)
      requires Valid()
      modifies storage, disk
      ensures Valid() && status == OK && State() == AfterOp(old(State()), Op.Remove(key))
      ensures disk.files == if persistentMode then old(disk.files)[persistentFile := State().log] else old(disk.files)
    {
      var deleted := storage.DeleteKey(key);
      if deleted {
        if persistentMode {
          PersistentStore(Op.Remove(key));
        }
        return OK;
      }
      return NOT_FOUND;
    }

    /** Answers a stream of keys: every value of every key, until the first key without values. */
    method Get(requests: seq<string>) returns (status: Status, replies: seq<string>)
      ensures Streams(storage.storageMap, requests, status, replies)
    {
      replies := [];
      var n := 0;
      while n < |requests|
        invariant 0 <= n <= |requests|
        invariant forall i :: 0 <= i < n ==> Values(storage.storageMap, requests[i]) != []
        invariant replies == AllValues(storage.storageMap, requests[..n])
      {
        var values := storage.Get(requests[n]);
        if |values| == 0 {
          assert FirstMissing(storage.storageMap, requests, n);
          return NOT_FOUND, replies;
        }
        ghost var before := replies;
        for j := 0 to |values|
          invariant replies == before + values[..j]
        {
          replies := replies + [values[j]];
        }
        assert requests[..n + 1][..n] == requests[..n];
        n := n + 1;
      }
      assert requests[..n] == requests;
      return OK, replies;
    }
  }
}
