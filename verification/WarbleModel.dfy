/** The messages of the warble service, and what it takes from libraries as given. */
module WarbleModel {
  import opened Results
  import opened Decimal
  import opened KeyValueLog

  /** The 64-bit numbers of the protocol. */
  type int64 = n: int | -0x8000_0000_0000_0000 <= n < 0x8000_0000_0000_0000

  /** The stored message.  The two numbers are the timestamp. */
  datatype Warble = Warble(username: string, text: string, id: string, parentId: string,
                           seconds: int64, useconds: int64)

  /** Code outside the repository: `std::hash`, of which nothing is assumed but the range of its
      result, and the message codec, of which only the round trip is used. */
  datatype Platform = Platform(hash: string -> nat, serialize: Warble -> string, parse: string -> Warble)

  const HASH_LIMIT := 0x1_0000_0000_0000_0000

  ghost predicate Faithful(p: Platform) {
    && (forall w :: p.parse(p.serialize(w)) == w)
    && (forall s :: p.hash(s) < HASH_LIMIT)
  }

  /** The id of a warble: the hash of its serialization without an id, in decimal. */
  function Mint(p: Platform, w: Warble): string {
    Print(p.hash(p.serialize(w.(id := ""))))
  }

  function NewWarble(p: Platform, username: string, text: string, parentId: string,
                     seconds: int64, useconds: int64): Warble
  {
    var w := Warble(username, text, "", parentId, seconds, useconds);
    w.(id := Mint(p, w))
  }

  datatype Call =
    | RegisterUser(username: string)
    | Post(username: string, text: string, parentId: string, seconds: int64, useconds: int64)
    | Follow(username: string, toFollow: string)
    | Read(username: string, warbleId: string)
    | Profile(username: string)

  datatype Reply =
    | RegisterUserReply
    | WarbleReply(warble: Option<Warble>)
    | FollowReply
    | ReadReply(warbles: seq<Warble>)
    | ProfileReply(followers: seq<string>, following: seq<string>)

  datatype Response = Response(status: Status, reply: Reply)

  // ---- keys ----

  const USER := "user_"
  const FOLLOWING := "following_"
  const FOLLOWED_BY := "followed_by_"

  function UserKey(name: string): string { USER + name }
  function FollowingKey(name: string): string { FOLLOWING + name }
  function FollowedByKey(name: string): string { FOLLOWED_BY + name }

  /** The key has one of the three prefixes reserved for users.  Callers supply warble ids and parent
      ids as they like; the service relies on them not looking like this. */
  predicate IsNameKey(key: string) {
    USER <= key || FOLLOWING <= key || FOLLOWED_BY <= key
  }

  lemma PrefixesDisjoint(key: string)
    ensures !(USER <= key && FOLLOWING <= key)
    ensures !(USER <= key && FOLLOWED_BY <= key)
    ensures !(FOLLOWING <= key && FOLLOWED_BY <= key)
  {
    assert USER[0] == 'u' && FOLLOWING[0] == 'f' && FOLLOWED_BY[0] == 'f';
    assert FOLLOWING[6] == 'i' && FOLLOWED_BY[6] == 'e';
  }

  lemma StripPrefix(prefix: string, name: string)
    ensures prefix <= prefix + name && (prefix + name)[|prefix|..] == name
  {
  }

  /** A name is determined by any of its keys, and its three keys are of three different kinds. */
  lemma NameKeys(name: string)
    ensures USER <= UserKey(name) && UserKey(name)[|USER|..] == name
    ensures FOLLOWING <= FollowingKey(name) && FollowingKey(name)[|FOLLOWING|..] == name
    ensures FOLLOWED_BY <= FollowedByKey(name) && FollowedByKey(name)[|FOLLOWED_BY|..] == name
    ensures !(FOLLOWING <= UserKey(name)) && !(FOLLOWED_BY <= UserKey(name))
    ensures !(USER <= FollowingKey(name)) && !(FOLLOWED_BY <= FollowingKey(name))
    ensures !(USER <= FollowedByKey(name)) && !(FOLLOWING <= FollowedByKey(name))
  {
    StripPrefix(USER, name);
    StripPrefix(FOLLOWING, name);
    StripPrefix(FOLLOWED_BY, name);
    PrefixesDisjoint(UserKey(name));
    PrefixesDisjoint(FollowingKey(name));
    PrefixesDisjoint(FollowedByKey(name));
  }

  lemma KeysSpelledOut()
    ensures UserKey("ann") == "user_ann"
    ensures FollowingKey("ann") == "following_ann" && FollowedByKey("ann") == "followed_by_ann"
  {
  }

  lemma DecimalIsNoNameKey(key: string)
    requires key != "" && AllDigits(key)
    ensures !IsNameKey(key)
  {
    assert IsDigit(key[0]);
    assert USER[0] == 'u' && FOLLOWING[0] == 'f' && FOLLOWED_BY[0] == 'f';
  }

  lemma MintedId(p: Platform, w: Warble)
    ensures Mint(p, w) != "" && AllDigits(Mint(p, w)) && !IsNameKey(Mint(p, w))
  {
    DecimalIsNoNameKey(Mint(p, w));
  }

  lemma HashLimitDigits()
    ensures HASH_LIMIT < Pow10(20)
  {
    assert Pow10(5) == 100_000;
    assert Pow10(10) == 100_000 * Pow10(5);
    assert Pow10(15) == 100_000 * Pow10(10);
    assert Pow10(20) == 100_000 * Pow10(15);
  }

  lemma MintLength(p: Platform, w: Warble)
    requires Faithful(p)
    ensures |Mint(p, w)| <= 20
  {
    HashLimitDigits();
    PrintLength(p.hash(p.serialize(w.(id := ""))), 20);
  }

  /** What a new warble holds: everything the caller gave, and the id that the hash of all of it makes. */
  lemma NewWarbleHolds(p: Platform, u: string, text: string, parentId: string, seconds: int64, useconds: int64)
    ensures var w := NewWarble(p, u, text, parentId, seconds, useconds);
            && w.username == u && w.text == text && w.parentId == parentId
            && w.seconds == seconds && w.useconds == useconds
            && w.id == Print(p.hash(p.serialize(Warble(u, text, "", parentId, seconds, useconds))))
  {
    assert Warble(u, text, "", parentId, seconds, useconds).(id := "")
        == Warble(u, text, "", parentId, seconds, useconds);
  }

  /** Two posts get the same id if and only if the hash maps their contents, with text and time, to the
      same number. */
  lemma SameIdSameHash(p: Platform, u0: string, t0: string, p0: string, s0: int64, m0: int64,
                       u1: string, t1: string, p1: string, s1: int64, m1: int64)
    ensures NewWarble(p, u0, t0, p0, s0, m0).id == NewWarble(p, u1, t1, p1, s1, m1).id
       <==> p.hash(p.serialize(Warble(u0, t0, "", p0, s0, m0))) == p.hash(p.serialize(Warble(u1, t1, "", p1, s1, m1)))
  {
    NewWarbleHolds(p, u0, t0, p0, s0, m0);
    NewWarbleHolds(p, u1, t1, p1, s1, m1);
    var h0 := p.hash(p.serialize(Warble(u0, t0, "", p0, s0, m0)));
    var h1 := p.hash(p.serialize(Warble(u1, t1, "", p1, s1, m1)));
    if Print(h0) == Print(h1) {
      PrintInjective(h0, h1);
    }
  }

  /** So a hash that separates what two different posts serialize to gives them different ids. */
  lemma DifferentPostsDifferentIds(p: Platform, u0: string, t0: string, p0: string, s0: int64, m0: int64,
                                   u1: string, t1: string, p1: string, s1: int64, m1: int64)
    requires Faithful(p)
    requires (u0, t0, p0, s0, m0) != (u1, t1, p1, s1, m1)
    requires var a := p.serialize(Warble(u0, t0, "", p0, s0, m0));
             var b := p.serialize(Warble(u1, t1, "", p1, s1, m1));
             p.hash(a) == p.hash(b) ==> a == b
    ensures NewWarble(p, u0, t0, p0, s0, m0).id != NewWarble(p, u1, t1, p1, s1, m1).id
  {
    SameIdSameHash(p, u0, t0, p0, s0, m0, u1, t1, p1, s1, m1);
    var w0, w1 := Warble(u0, t0, "", p0, s0, m0), Warble(u1, t1, "", p1, s1, m1);
    assert p.parse(p.serialize(w0)) == w0 && p.parse(p.serialize(w1)) == w1;
  }

  // ---- a concrete platform ----

  function SignedField(n: int): string {
    Field((if n < 0 then "-" else "+") + Print(if n < 0 then 0 - n else n))
  }

  function Encode(w: Warble): string {
    Field(w.username) + (Field(w.text) + (Field(w.id) + (Field(w.parentId) +
    (SignedField(w.seconds) + SignedField(w.useconds)))))
  }

  lemma SplitSignedField(m: int, rest0: string, n: int, rest1: string)
    requires SignedField(m) + rest0 == SignedField(n) + rest1
    ensures m == n && rest0 == rest1
  {
    var s0, d0 := if m < 0 then "-" else "+", Print(if m < 0 then 0 - m else m);
    var s1, d1 := if n < 0 then "-" else "+", Print(if n < 0 then 0 - n else n);
    SplitField(s0 + d0, rest0, s1 + d1, rest1);
    assert (s0 + d0)[0] == s0[0] && (s1 + d1)[0] == s1[0];
    assert (s0 + d0)[1..] == d0 && (s1 + d1)[1..] == d1;
    PrintInjective(if m < 0 then 0 - m else m, if n < 0 then 0 - n else n);
  }

  lemma EncodeInjective(a: Warble, b: Warble)
    requires Encode(a) == Encode(b)
    ensures a == b
  {
    var a5, b5 := SignedField(a.seconds) + SignedField(a.useconds), SignedField(b.seconds) + SignedField(b.useconds);
    var a4, b4 := Field(a.parentId) + a5, Field(b.parentId) + b5;
    var a3, b3 := Field(a.id) + a4, Field(b.id) + b4;
    var a2, b2 := Field(a.text) + a3, Field(b.text) + b3;
    SplitField(a.username, a2, b.username, b2);
    SplitField(a.text, a3, b.text, b3);
    SplitField(a.id, a4, b.id, b4);
    SplitField(a.parentId, a5, b.parentId, b5);
    SplitSignedField(a.seconds, SignedField(a.useconds), b.seconds, SignedField(b.useconds));
    assert SignedField(a.useconds) + "" == SignedField(b.useconds) + "";
    SplitSignedField(a.useconds, "", b.useconds, "");
  }

  ghost function Decode(s: string): Warble {
    if exists w :: Encode(w) == s then
      var w :| Encode(w) == s; w
    else
      Warble("", "", "", "", 0, 0)
  }

  /** The assumptions about the platform can be met, with any hash function. */
  lemma FaithfulPlatformExists(hash: string -> nat)
    requires forall s :: hash(s) < HASH_LIMIT
    ensures exists p :: Faithful(p) && p.hash == hash && forall w :: p.serialize(w) == Encode(w)
  {
    var p := Platform(hash, (w: Warble) => Encode(w), s => Decode(s));
    forall w
      ensures p.parse(p.serialize(w)) == w
    {
      assert Encode(w) == p.serialize(w);
      EncodeInjective(w, Decode(Encode(w)));
    }
    assert Faithful(p);
  }
}
