/** The append-only log: the text of a record, the loader as a function of the bytes, and how
    far the two undo each other. */
module KeyValueLog {
  import opened Results
  import opened Decimal
  import opened FileStream
  import opened KeyValueDataStructure

  /** A length-prefixed field. */
  function Field(s: string): string {
    Print(|s|) + "\n" + s + "\n"
  }

  function Record(op: Op): string {
    match op
    case Put(k, v) => "put\n" + Field(k) + Field(v)
    case Remove(k) => "remove\n" + Field(k)
  }

  /** The text on disk, spelled out. */
  lemma RecordsSpelledOut()
    ensures Record(Put("1", "a\nb")) == "put\n1\n1\n3\na\nb\n"
    ensures Record(Remove("")) == "remove\n0\n\n"
  {
    assert Print(0) == "0" && Print(1) == "1" && Print(3) == "3";
    assert Field("1") == "1\n1\n" && Field("a\nb") == "3\na\nb\n" && Field("") == "0\n\n";
  }

  function PrintLog(ops: seq<Op>): string {
    if ops == [] then "" else Record(ops[0]) + PrintLog(ops[1..])
  }

  /** What loading a log amounts to: the mutations applied, and whether `std::stoi` threw. */
  datatype Loaded = Loaded(ops: seq<Op>, threw: bool)

  /** A length line and the field it announces; `None` when `std::stoi` throws. */
  function TakeField(c: Cursor, stale: char): (r: Option<(Cursor, string)>)
    ensures r.Some? ==> |r.value.0.rest| <= |c.rest|
  {
    var (c1, length) := TakeLine(c, "");
    match StoI(length)
    case None => None
    case Some(n) => Some(TakeN(c1, n, stale))
  }

  /** One turn of the loading loop: it ends, throws, or applies a mutation and goes on. */
  datatype Turn = Stop | Throw | Go(op: Op, next: Cursor)

  function TakeTurn(c: Cursor, stale: char): (t: Turn)
    ensures t.Go? ==> |t.next.rest| < |c.rest|
  {
    var (c1, request) := TakeLine(c, "");
    if c1.fail || (request != "put" && request != "remove") then
      Stop
    else
      match TakeField(c1, stale)
      case None => Throw
      case Some((c2, key)) =>
        if request == "remove" then
          Go(Remove(key), c2)
        else
          match TakeField(c2, stale)
          case None => Throw
          case Some((c3, value)) => Go(Put(key, value), c3)
  }

  /** `PersistentLoad` as a function of the bytes still to read. */
  function ParseLog(c: Cursor, stale: char): Loaded
    decreases |c.rest|
  {
    match TakeTurn(c, stale)
    case Stop => Loaded([], false)
    case Throw => Loaded([], true)
    case Go(op, next) => Then(op, ParseLog(next, stale))
  }

  function Then(op: Op, l: Loaded): Loaded {
    Loaded([op] + l.ops, l.threw)
  }

  /** The lengths written for this mutation are all within the range of `std::stoi`. */
  predicate Fits(op: Op) {
    |op.key| <= INT_MAX && (op.Put? ==> |op.value| <= INT_MAX)
  }

  predicate AllFit(ops: seq<Op>) {
    forall i :: 0 <= i < |ops| ==> Fits(ops[i])
  }

  /** The mutations before the first one that does not fit. */
  function FittingPrefix(ops: seq<Op>): (r: seq<Op>)
    ensures r <= ops && AllFit(r)
    ensures |r| < |ops| ==> !Fits(ops[|r|])
  {
    if ops == [] || !Fits(ops[0]) then [] else [ops[0]] + FittingPrefix(ops[1..])
  }

  // ---- one record ----

  lemma DigitsHaveNoNewline(n: nat)
    ensures '\n' !in Print(n)
  {
    assert forall i :: 0 <= i < |Print(n)| ==> IsDigit(Print(n)[i]);
  }

  lemma Assoc(a: string, b: string, c: string)
    ensures a + b + c == a + (b + c)
  {
  }

  /** The stream after a field, given what follows the field's last character. */
  function AfterField(rest: string): Cursor {
    if rest == "" then Cursor("", true, true) else At(rest[1..])
  }

  lemma TakeFieldOf(s: string, rest: string, stale: char)
    ensures TakeField(At(Print(|s|) + "\n" + s + rest), stale)
         == if |s| <= INT_MAX then Some((AfterField(rest), s)) else None
  {
    DigitsHaveNoNewline(|s|);
    Assoc(Print(|s|) + "\n", s, rest);
    TakeLineOf(Print(|s|), s + rest, "");
    StoIOfPrint(|s|);
    TakeNOf(s, rest, stale);
  }

  /** A record without its last newline. */
  function Open(op: Op): string {
    match op
    case Put(k, v) => "put\n" + Field(k) + Print(|v|) + "\n" + v
    case Remove(k) => "remove\n" + Print(|k|) + "\n" + k
  }

  lemma RecordIsOpen(op: Op)
    ensures Record(op) == Open(op) + "\n"
  {
    match op
    case Put(k, v) => assert Record(op) == Open(op) + "\n";
    case Remove(k) => assert Record(op) == Open(op) + "\n";
  }

  /** The rest of the load behind the command line of a put. */
  function LoadPut(c: Cursor, stale: char): Loaded {
    match TakeField(c, stale)
    case None => Loaded([], true)
    case Some((mid, key)) =>
      match TakeField(mid, stale)
      case None => Loaded([], true)
      case Some((next, value)) => Then(Put(key, value), ParseLog(next, stale))
  }

  lemma PutTurn(body: string, stale: char)
    ensures ParseLog(At("put" + "\n" + body), stale) == LoadPut(At(body), stale)
  {
    TakeLineOf("put", body, "");
  }

  lemma ParseOpenPut(k: string, v: string, rest: string, stale: char)
    ensures ParseLog(At(Open(Put(k, v)) + rest), stale)
         == if Fits(Put(k, v)) then Then(Put(k, v), ParseLog(AfterField(rest), stale)) else Loaded([], true)
  {
    var tail := Print(|v|) + "\n" + v + rest;
    var body := Print(|k|) + "\n" + k + ("\n" + tail);
    assert Open(Put(k, v)) + rest == "put" + "\n" + body;
    PutTurn(body, stale);
    TakeFieldOf(k, "\n" + tail, stale);
    assert ("\n" + tail)[1..] == tail;
    TakeFieldOf(v, rest, stale);
  }

  lemma ParseOpenRemove(k: string, rest: string, stale: char)
    ensures ParseLog(At(Open(Remove(k)) + rest), stale)
         == if Fits(Remove(k)) then Then(Remove(k), ParseLog(AfterField(rest), stale)) else Loaded([], true)
  {
    var body := Print(|k|) + "\n" + k + rest;
    assert Open(Remove(k)) + rest == "remove" + "\n" + body;
    TakeLineOf("remove", body, "");
    TakeFieldOf(k, rest, stale);
  }

  /** One turn of the loop over a record whose last newline may be replaced by anything. */
  lemma ParseOpen(op: Op, rest: string, stale: char)
    ensures ParseLog(At(Open(op) + rest), stale)
         == if Fits(op) then Then(op, ParseLog(AfterField(rest), stale)) else Loaded([], true)
  {
    match op
    case Put(k, v) => ParseOpenPut(k, v, rest, stale);
    case Remove(k) => ParseOpenRemove(k, rest, stale);
  }

  lemma ParseRecord(op: Op, rest: string, stale: char)
    ensures ParseLog(At(Record(op) + rest), stale)
         == if Fits(op) then Then(op, ParseLog(At(rest), stale)) else Loaded([], true)
  {
    RecordIsOpen(op);
    assert Record(op) + rest == Open(op) + ("\n" + rest);
    ParseOpen(op, "\n" + rest, stale);
    assert ("\n" + rest)[1..] == rest;
  }

  // ---- whole logs ----

  function Before(ops: seq<Op>, l: Loaded): Loaded {
    Loaded(ops + l.ops, l.threw)
  }

  lemma BeforeStep(ops: seq<Op>, l: Loaded)
    requires ops != []
    ensures Then(ops[0], Before(ops[1..], l)) == Before(ops, l)
  {
    assert [ops[0]] + (ops[1..] + l.ops) == ops + l.ops;
  }

  lemma BeforeThen(done: seq<Op>, op: Op, l: Loaded)
    ensures Before(done, Then(op, l)) == Before(done + [op], l)
  {
    assert done + ([op] + l.ops) == done + [op] + l.ops;
  }

  /** A log of mutations that fit, followed by anything at all, loads as those mutations followed by
      whatever the rest loads as. */
  lemma {:induction false} ParseThrough(ops: seq<Op>, rest: string, stale: char)
    requires AllFit(ops)
    ensures ParseLog(At(PrintLog(ops) + rest), stale) == Before(ops, ParseLog(At(rest), stale))
    decreases |ops|
  {
    if ops == [] {
      assert PrintLog(ops) + rest == rest;
    } else {
      var tail := PrintLog(ops[1..]) + rest;
      Assoc(Record(ops[0]), PrintLog(ops[1..]), rest);
      assert PrintLog(ops) + rest == Record(ops[0]) + tail;
      ParseRecord(ops[0], tail, stale);
      ParseThrough(ops[1..], rest, stale);
      BeforeStep(ops, ParseLog(At(rest), stale));
    }
  }

  lemma {:induction false} PrintLogConcat(a: seq<Op>, b: seq<Op>)
    ensures PrintLog(a + b) == PrintLog(a) + PrintLog(b)
    decreases |a|
  {
    if a == [] {
      assert a + b == b;
    } else {
      assert (a + b)[1..] == a[1..] + b;
      PrintLogConcat(a[1..], b);
    }
  }

  lemma PrintLogLast(ops: seq<Op>, op: Op)
    ensures PrintLog(ops + [op]) == PrintLog(ops) + Record(op)
  {
    PrintLogConcat(ops, [op]);
    assert PrintLog([op]) == Record(op) + PrintLog([]);
  }

  /** Loading any printed log, without a bound on its contents: the mutations before the first
      over-long one are applied, and the loader throws if there is such a one. */
  lemma LoadPrintedLog(ops: seq<Op>, stale: char)
    ensures ParseLog(At(PrintLog(ops)), stale) == Loaded(FittingPrefix(ops), !AllFit(ops))
  {
    var good := FittingPrefix(ops);
    if good == ops {
      ParseThrough(ops, "", stale);
      assert PrintLog(ops) + "" == PrintLog(ops);
      assert ops + [] == ops;
    } else {
      var n := |good|;
      assert !Fits(ops[n]);
      assert ops == good + ops[n..];
      PrintLogConcat(good, ops[n..]);
      ParseThrough(good, PrintLog(ops[n..]), stale);
      ParseRecord(ops[n], PrintLog(ops[n..][1..]), stale);
      assert good + [] == good;
    }
  }

  /** The recovery round trip, with its exact condition: a restart gets back the map that the
      mutations built if and only if every length written fits an `int`. */
  lemma RecoveryRoundTrip(ops: seq<Op>, stale: char)
    ensures var l := ParseLog(At(PrintLog(ops)), stale);
            (!l.threw <==> AllFit(ops))
            && (AllFit(ops) ==> l.ops == ops)
  {
    LoadPrintedLog(ops, stale);
  }

  // ---- unique decodability ----

  lemma SplitLine(line0: string, rest0: string, line1: string, rest1: string)
    requires '\n' !in line0 && '\n' !in line1
    requires line0 + "\n" + rest0 == line1 + "\n" + rest1
    ensures line0 == line1 && rest0 == rest1
  {
    TakeLineOf(line0, rest0, "");
    TakeLineOf(line1, rest1, "");
  }

  lemma SplitField(s0: string, rest0: string, s1: string, rest1: string)
    requires Field(s0) + rest0 == Field(s1) + rest1
    ensures s0 == s1 && rest0 == rest1
  {
    DigitsHaveNoNewline(|s0|);
    DigitsHaveNoNewline(|s1|);
    assert Field(s0) + rest0 == Print(|s0|) + "\n" + (s0 + "\n" + rest0);
    assert Field(s1) + rest1 == Print(|s1|) + "\n" + (s1 + "\n" + rest1);
    SplitLine(Print(|s0|), s0 + "\n" + rest0, Print(|s1|), s1 + "\n" + rest1);
    PrintInjective(|s0|, |s1|);
    var t0, t1 := s0 + "\n" + rest0, s1 + "\n" + rest1;
    assert s0 == t0[..|s0|] && s1 == t1[..|s1|];
    assert rest0 == t0[|s0| + 1..] && rest1 == t1[|s1| + 1..];
  }

  function Name(op: Op): string {
    if op.Put? then "put" else "remove"
  }

  function Body(op: Op, rest: string): string {
    Field(op.key) + if op.Put? then Field(op.value) + rest else rest
  }

  lemma RecordIsLine(op: Op, rest: string)
    ensures Record(op) + rest == Name(op) + "\n" + Body(op, rest)
  {
    if op.Put? {
      var k, v := Field(op.key), Field(op.value);
      assert "put\n" == "put" + "\n";
      Assoc("put\n" + k, v, rest);
      Assoc("put\n", k, v + rest);
    } else {
      assert "remove\n" == "remove" + "\n";
      Assoc("remove\n", Field(op.key), rest);
    }
  }

  /** No record is the beginning of another one, whatever the keys and values contain. */
  lemma SplitRecord(op0: Op, rest0: string, op1: Op, rest1: string)
    requires Record(op0) + rest0 == Record(op1) + rest1
    ensures op0 == op1 && rest0 == rest1
  {
    RecordIsLine(op0, rest0);
    RecordIsLine(op1, rest1);
    SplitLine(Name(op0), Body(op0, rest0), Name(op1), Body(op1, rest1));
    if op0.Put? {
      SplitField(op0.key, Field(op0.value) + rest0, op1.key, Field(op1.value) + rest1);
      SplitField(op0.value, rest0, op1.value, rest1);
    } else {
      SplitField(op0.key, rest0, op1.key, rest1);
    }
  }

  lemma NonEmptyLog(ops: seq<Op>)
    ensures PrintLog(ops) == "" <==> ops == []
  {
    if ops != [] {
      RecordIsOpen(ops[0]);
    }
  }

  /** The log determines the mutations: no bound on lengths or contents is needed. */
  lemma {:induction false} UniquelyDecodable(a: seq<Op>, b: seq<Op>)
    requires PrintLog(a) == PrintLog(b)
    ensures a == b
    decreases |a|
  {
    if a == [] || b == [] {
      NonEmptyLog(a);
      NonEmptyLog(b);
    } else {
      var resta, restb := PrintLog(a[1..]), PrintLog(b[1..]);
      assert Record(a[0]) + resta == Record(b[0]) + restb;
      SplitRecord(a[0], resta, b[0], restb);
      UniquelyDecodable(a[1..], b[1..]);
      SameParts(a, b);
    }
  }

  lemma SameParts(a: seq<Op>, b: seq<Op>)
    requires a != [] && b != [] && a[0] == b[0] && a[1..] == b[1..]
    ensures a == b
  {
    assert a == [a[0]] + a[1..] && b == [b[0]] + b[1..];
  }

  // ---- damaged tails ----

  predicate UnknownFirstLine(tail: string) {
    FirstLine(tail) != "put" && FirstLine(tail) != "remove"
  }

  /** Bytes after a valid log whose first line is no command are ignored. */
  lemma UnknownTailIgnored(ops: seq<Op>, tail: string, stale: char)
    requires AllFit(ops) && UnknownFirstLine(tail)
    ensures ParseLog(At(PrintLog(ops) + tail), stale) == Loaded(ops, false)
  {
    ParseThrough(ops, tail, stale);
    assert ops + [] == ops;
  }

  /** A log without its last newline. */
  function OpenLog(ops: seq<Op>): string
    requires ops != []
  {
    PrintLog(ops[..|ops| - 1]) + Open(ops[|ops| - 1])
  }

  lemma LogIsOpen(ops: seq<Op>)
    requires ops != []
    ensures PrintLog(ops) == OpenLog(ops) + "\n"
  {
    var n := |ops| - 1;
    assert ops == ops[..n] + [ops[n]];
    PrintLogLast(ops[..n], ops[n]);
    RecordIsOpen(ops[n]);
    Assoc(PrintLog(ops[..n]), Open(ops[n]), "\n");
  }

  lemma ParseOpenLog(ops: seq<Op>, rest: string, stale: char)
    requires AllFit(ops) && ops != []
    ensures ParseLog(At(OpenLog(ops) + rest), stale) == Before(ops, ParseLog(AfterField(rest), stale))
  {
    var n := |ops| - 1;
    Assoc(PrintLog(ops[..n]), Open(ops[n]), rest);
    ParseThrough(ops[..n], Open(ops[n]) + rest, stale);
    ParseOpen(ops[n], rest, stale);
    BeforeLast(ops, ParseLog(AfterField(rest), stale));
  }

  lemma BeforeLast(ops: seq<Op>, l: Loaded)
    requires ops != []
    ensures Before(ops[..|ops| - 1], Then(ops[|ops| - 1], l)) == Before(ops, l)
  {
    assert ops[..|ops| - 1] + ([ops[|ops| - 1]] + l.ops) == ops + l.ops;
  }

  function DropLast(s: string): string {
    if s == "" then "" else s[..|s| - 1]
  }

  /** Losing the last newline loses nothing. */
  lemma MissingNewlineTolerated(ops: seq<Op>, stale: char)
    requires AllFit(ops) && ops != []
    ensures ParseLog(At(DropLast(PrintLog(ops))), stale) == Loaded(ops, false)
  {
    LogIsOpen(ops);
    ParseOpenLog(ops, "", stale);
    assert OpenLog(ops) + "" == OpenLog(ops);
    assert ops + [] == ops;
  }

  // ---- a record that was cut off ----

  /** What the loader makes of a text of which only the beginning is in the file. */
  function Torn(part: string, length: nat, stale: char): string
    requires |part| < length
  {
    part + Padding(LastRead(part, stale), length - |part|)
  }

  lemma TakeTorn(part: string, length: nat, stale: char)
    requires |part| < length <= INT_MAX
    ensures TakeField(At(Print(length) + "\n" + part), stale)
         == Some((Cursor("", true, true), Torn(part, length, stale)))
  {
    DigitsHaveNoNewline(length);
    TakeLineOf(Print(length), part, "");
    StoIOfPrint(length);
    TakeNShort(part, length, stale);
  }

  lemma ParseEnd(op: Op, stale: char)
    ensures Then(op, ParseLog(Cursor("", true, true), stale)) == Loaded([op], false)
  {
    assert TakeTurn(Cursor("", true, true), stale) == Stop;
  }

  lemma LastPut(body: string, mid: Cursor, key: string, value: string, stale: char)
    requires TakeField(At(body), stale) == Some((mid, key))
    requires TakeField(mid, stale) == Some((Cursor("", true, true), value))
    ensures ParseLog(At("put" + "\n" + body), stale) == Loaded([Put(key, value)], false)
  {
    PutTurn(body, stale);
    ParseEnd(Put(key, value), stale);
  }

  /** A put that was cut off within its value is applied with a made-up value: the last character that is
      there is repeated until the announced length is reached. */
  lemma TornValue(ops: seq<Op>, key: string, part: string, length: nat, stale: char)
    requires AllFit(ops) && |key| <= INT_MAX && |part| < length <= INT_MAX
    ensures var value := Print(length) + "\n" + part;
            ParseLog(At(PrintLog(ops) + ("put" + "\n" + (Print(|key|) + "\n" + key + ("\n" + value)))), stale)
            == Loaded(ops + [Put(key, Torn(part, length, stale))], false)
  {
    var value := Print(length) + "\n" + part;
    var body := Print(|key|) + "\n" + key + ("\n" + value);
    ParseThrough(ops, "put" + "\n" + body, stale);
    TakeFieldOf(key, "\n" + value, stale);
    assert ("\n" + value)[1..] == value;
    TakeTorn(part, length, stale);
    LastPut(body, At(value), key, Torn(part, length, stale), stale);
  }

  lemma PutWithoutValue(body: string, key: string, stale: char)
    requires TakeField(At(body), stale) == Some((Cursor("", true, true), key))
    ensures ParseLog(At("put" + "\n" + body), stale) == Loaded([], true)
  {
    PutTurn(body, stale);
    assert TakeField(Cursor("", true, true), stale) == None;
  }

  lemma RemoveAtEnd(body: string, key: string, stale: char)
    requires TakeField(At(body), stale) == Some((Cursor("", true, true), key))
    ensures ParseLog(At("remove" + "\n" + body), stale) == Loaded([Remove(key)], false)
  {
    TakeLineOf("remove", body, "");
    ParseEnd(Remove(key), stale);
  }

  /** Cut off within its key, a put makes the loader throw, and a removal removes a made-up key. */
  lemma TornKey(ops: seq<Op>, part: string, length: nat, stale: char)
    requires AllFit(ops) && |part| < length <= INT_MAX
    ensures var body := Print(length) + "\n" + part;
            && ParseLog(At(PrintLog(ops) + ("put" + "\n" + body)), stale) == Loaded(ops, true)
            && ParseLog(At(PrintLog(ops) + ("remove" + "\n" + body)), stale)
               == Loaded(ops + [Remove(Torn(part, length, stale))], false)
  {
    var body := Print(length) + "\n" + part;
    TakeTorn(part, length, stale);
    ParseThrough(ops, "put" + "\n" + body, stale);
    PutWithoutValue(body, Torn(part, length, stale), stale);
    ParseThrough(ops, "remove" + "\n" + body, stale);
    RemoveAtEnd(body, Torn(part, length, stale), stale);
    assert ops + [] == ops;
  }

  // ---- what a tolerated tail does to later appends ----

  /** A server that ignored such a tail keeps appending behind it.  The next load gets back what was
      appended since if and only if the tail was empty; otherwise all of it is lost. */
  lemma AppendedBehindTail(ops: seq<Op>, tail: string, later: seq<Op>, stale: char)
    requires AllFit(ops) && AllFit(later) && UnknownFirstLine(tail)
    ensures ParseLog(At(PrintLog(ops) + tail + PrintLog(later)), stale)
         == Loaded(ops + if tail == "" then later else [], false)
  {
    Assoc(PrintLog(ops), tail, PrintLog(later));
    ParseThrough(ops, tail + PrintLog(later), stale);
    ParseBehindTail(tail, later, stale);
  }

  lemma ParseBehindTail(tail: string, later: seq<Op>, stale: char)
    requires AllFit(later) && UnknownFirstLine(tail)
    ensures ParseLog(At(tail + PrintLog(later)), stale) == Loaded(if tail == "" then later else [], false)
  {
    if tail == "" {
      assert tail + PrintLog(later) == PrintLog(later);
      RecoveryRoundTrip(later, stale);
    } else {
      TailStaysUnknown(tail, later);
    }
  }

  lemma TailStaysUnknown(tail: string, later: seq<Op>)
    requires tail != "" && UnknownFirstLine(tail)
    ensures UnknownFirstLine(tail + PrintLog(later))
  {
    if '\n' in tail {
      LongerTail(tail, PrintLog(later));
    } else if later == [] {
      assert tail + PrintLog(later) == tail;
    } else {
      var op, rest := later[0], PrintLog(later[1..]);
      RecordIsLine(op, rest);
      assert tail + PrintLog(later) == tail + Name(op) + "\n" + Body(op, rest);
      FirstLineOf(tail + Name(op), Body(op, rest));
      var line := tail + Name(op);
      assert line[|line| - 1] == if op.Put? then 't' else 'e';
    }
  }

  lemma LongerTail(tail: string, more: string)
    requires '\n' in tail
    ensures FirstLine(tail + more) == FirstLine(tail)
  {
    FirstLineIs(tail + more, FirstLine(tail));
  }

  /** The same after a lost last newline: the loader drops one character after the last value, which
      now is the first letter of the next command. */
  lemma MissingNewlineHidesLaterRecords(ops: seq<Op>, later: seq<Op>, stale: char)
    requires AllFit(ops) && ops != []
    ensures ParseLog(At(DropLast(PrintLog(ops)) + PrintLog(later)), stale) == Loaded(ops, false)
  {
    LogIsOpen(ops);
    assert DropLast(PrintLog(ops)) == OpenLog(ops);
    ParseOpenLog(ops, PrintLog(later), stale);
    if later != [] {
      BeheadedCommand(later[0], PrintLog(later[1..]));
    }
    assert ops + [] == ops;
  }

  lemma Behead(a: string, b: string, c: string)
    requires a != ""
    ensures (a + b + c)[1..] == a[1..] + b + c
  {
  }

  lemma BeheadedCommand(op: Op, rest: string)
    ensures UnknownFirstLine((Record(op) + rest)[1..])
  {
    RecordIsLine(op, rest);
    var line := Name(op)[1..];
    Behead(Name(op), "\n", Body(op, rest));
    FirstLineOf(line, Body(op, rest));
  }
}
