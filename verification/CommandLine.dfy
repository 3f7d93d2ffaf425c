/** The command-line client: it installs the five hooks when it is constructed, and turns every
    command into one event. */
module CommandLine {
  import opened Results
  import opened WarbleModel
  import opened SocialNetwork
  import opened WarbleService
  import opened FuncService
  import opened FuncClient

  const REGISTER_TYPE := 0
  const WARBLE_TYPE := 1
  const FOLLOW_TYPE := 2
  const READ_TYPE := 3
  const PROFILE_TYPE := 4

  /** What the client hooks to the types 0 to 4. */
  const FIXED: seq<string> := [REGISTER, WARBLE, FOLLOW, READ, PROFILE]

  predicate Installed(hooks: Hooks) {
    forall t :: 0 <= t < |FIXED| ==> t in hooks && hooks[t] == FIXED[t]
  }

  function Reverse(ws: seq<Warble>): seq<Warble> {
    if ws == [] then [] else Reverse(ws[1..]) + [ws[0]]
  }

  lemma {:induction false} ReverseAt(ws: seq<Warble>, i: nat)
    requires i < |ws|
    ensures |Reverse(ws)| == |ws| && Reverse(ws)[i] == ws[|ws| - 1 - i]
  {
    if i < |ws| - 1 {
      ReverseAt(ws[1..], i);
    } else if |ws| > 1 {
      ReverseAt(ws[1..], 0);
    }
  }

  lemma ReverseGoesForward(posts: seq<Warble>, t: seq<Warble>, i: nat, j: nat)
    requires GoesBack(posts, t) && i < j < |t|
    ensures |Reverse(t)| == |t| && First(posts, Reverse(t)[i].id) < First(posts, Reverse(t)[j].id)
  {
    ReverseAt(t, i);
    ReverseAt(t, j);
  }

  /** Printed backwards, a thread runs from the oldest post to the one asked for. */
  lemma PrintedOldestFirst(posts: seq<Warble>, id: string)
    requires Grounded(posts)
    ensures var out := Reverse(Thread(posts, id));
            && (forall i, j :: 0 <= i < j < |out| ==> First(posts, out[i].id) < First(posts, out[j].id))
            && (out != [] ==> out[|out| - 1].id == id)
  {
    var t := Thread(posts, id);
    ThreadGoesBack(posts, id);
    ThreadIsThread(posts, id);
    if t != [] {
      ReverseAt(t, |t| - 1);
    }
    forall i, j | 0 <= i < j < |Reverse(t)|
      ensures First(posts, Reverse(t)[i].id) < First(posts, Reverse(t)[j].id)
    {
      ReverseGoesForward(posts, t, i, j);
    }
  }

  class CommandLineClient {
    const funcClient: FuncClientImpl

    constructor (server: FuncServiceImpl)
      requires server.Valid()
      modifies server
      ensures funcClient.server == server && server.Valid()
      ensures Installed(server.hookMap)
      ensures forall t :: !(0 <= t < |FIXED|) ==>
                (t in server.hookMap <==> t in old(server.hookMap)) &&
                (t in server.hookMap ==> server.hookMap[t] == old(server.hookMap)[t])
    {
      funcClient := new FuncClientImpl(server);
      new;
      var _ := funcClient.Hook(REGISTER_TYPE, "registeruser");
      var _ := funcClient.Hook(WARBLE_TYPE, "warble");
      var _ := funcClient.Hook(FOLLOW_TYPE, "follow");
      var _ := funcClient.Hook(READ_TYPE, "read");
      var _ := funcClient.Hook(PROFILE_TYPE, "profile");
    }

    ghost predicate Ready()
      reads this, funcClient.server
    {
      funcClient.server.Valid() && Installed(funcClient.server.hookMap)
    }

    method RegisterHandler(username: string) returns (ok: bool, ghost response: Response)
      requires Ready() && funcClient.server.kvclient.server.Valid()
      modifies funcClient.server.kvclient.server.storage, funcClient.server.kvclient.server.disk
      ensures funcClient.server.kvclient.server.Valid()
      ensures Served(funcClient.server.p, old(funcClient.server.kvclient.server.State()), RegisterUser(username),
                     funcClient.server.kvclient.server.State(), response)
      ensures ok == (response.status == OK)
    {
      var params := NO_PARAMS.(username := username);
      var reply;
      ghost var r;
      ok, reply, r := funcClient.Event(REGISTER_TYPE, params, NO_REPLY, 0, 0);
      response := r.value;
    }

    /** `posted` is the warble that is printed on success. */
    method WarbleHandler(username: string, warbleText: string, parentWarbleId: string, seconds: int64, useconds: int64)
      returns (ok: bool, posted: Option<Warble>, ghost response: Response)
      requires Ready() && funcClient.server.kvclient.server.Valid()
      modifies funcClient.server.kvclient.server.storage, funcClient.server.kvclient.server.disk
      ensures funcClient.server.kvclient.server.Valid()
      ensures Served(funcClient.server.p, old(funcClient.server.kvclient.server.State()),
                     Post(username, warbleText, parentWarbleId, seconds, useconds),
                     funcClient.server.kvclient.server.State(), response)
      ensures ok == (response.status == OK) && response.reply == WarbleReply(posted)
    {
      var params := NO_PARAMS.(username := username, warbleText := warbleText, parentWarbleId := parentWarbleId);
      var reply;
      ghost var r;
      ok, reply, r := funcClient.Event(WARBLE_TYPE, params, NO_REPLY, seconds, useconds);
      response := r.value;
      posted := if ok then Some(reply.warble) else None;
    }

    method FollowHandler(username: string, usernameToFollow: string) returns (ok: bool, ghost response: Response)
      requires Ready() && funcClient.server.kvclient.server.Valid()
      modifies funcClient.server.kvclient.server.storage, funcClient.server.kvclient.server.disk
      ensures funcClient.server.kvclient.server.Valid()
      ensures Served(funcClient.server.p, old(funcClient.server.kvclient.server.State()),
                     Follow(username, usernameToFollow), funcClient.server.kvclient.server.State(), response)
      ensures ok == (response.status == OK)
    {
      var params := NO_PARAMS.(username := username, toFollow := usernameToFollow);
      var reply;
      ghost var r;
      ok, reply, r := funcClient.Event(FOLLOW_TYPE, params, NO_REPLY, 0, 0);
      response := r.value;
    }

    /** `printed` lists the warbles in the order of printing: from the start of the conversation to the
        warble asked for.  An empty thread, which an id shared by several posts has, is reported like a
        missing one. */
    method ReadHandler(username: string, warbleId: string)
      returns (ok: bool, printed: seq<Warble>, ghost response: Response)
      requires Ready() && funcClient.server.kvclient.server.Valid()
      requires Decide(funcClient.server.p, funcClient.server.kvclient.server.storage.storageMap,
                      Read(username, warbleId)) != Diverges
      modifies funcClient.server.kvclient.server.storage, funcClient.server.kvclient.server.disk
      ensures funcClient.server.kvclient.server.Valid()
      ensures Served(funcClient.server.p, old(funcClient.server.kvclient.server.State()), Read(username, warbleId),
                     funcClient.server.kvclient.server.State(), response)
      ensures response.reply.ReadReply?
      ensures printed == Reverse(response.reply.warbles)
      ensures ok == (response.status == OK && response.reply.warbles != [])
    {
      var params := NO_PARAMS.(username := username, warbleId := warbleId);
      var readResult, reply;
      ghost var r;
      readResult, reply, r := funcClient.Event(READ_TYPE, params, NO_REPLY, 0, 0);
      response := r.value;
      printed := [];
      var threads := reply.warbleThreads;
      if |threads| == 0 {
        return false, printed, response;
      }
      if readResult {
        var i := |threads|;
        while i > 0
          invariant 0 <= i <= |threads|
          invariant printed == Reverse(threads[i..])
        {
          i := i - 1;
          assert threads[i..][1..] == threads[i + 1..];
          printed := printed + [threads[i]];
        }
      }
      return readResult, printed, response;
    }

    method ProfileHandler(username: string)
      returns (ok: bool, following: seq<string>, followers: seq<string>, ghost response: Response)
      requires Ready() && funcClient.server.kvclient.server.Valid()
      modifies funcClient.server.kvclient.server.storage, funcClient.server.kvclient.server.disk
      ensures funcClient.server.kvclient.server.Valid()
      ensures Served(funcClient.server.p, old(funcClient.server.kvclient.server.State()), Profile(username),
                     funcClient.server.kvclient.server.State(), response)
      ensures ok == (response.status == OK) && response.reply == ProfileReply(followers, following)
    {
      var params := NO_PARAMS.(username := username);
      var reply;
      ghost var r;
      ok, reply, r := funcClient.Event(PROFILE_TYPE, params, NO_REPLY, 0, 0);
      response := r.value;
      following, followers := reply.following, reply.followers;
    }
  }
}
