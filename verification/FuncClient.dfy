/** The client of the function server: it asks which function is hooked, packs the request of that
    function, and unpacks the reply into the caller's structure. */
module FuncClient {
  import opened Results
  import opened WarbleModel
  import opened WarbleService
  import opened FuncService

  datatype ClientEventParams = ClientEventParams(
    username: string, toFollow: string, warbleText: string, warbleId: string, parentWarbleId: string)

  datatype ClientEventReply = ClientEventReply(
    warble: Warble, warbleThreads: seq<Warble>, following: seq<string>, followers: seq<string>)

  const NO_PARAMS := ClientEventParams("", "", "", "", "")
  const NO_WARBLE := Warble("", "", "", "", 0, 0)
  const NO_REPLY := ClientEventReply(NO_WARBLE, [], [], [])

  /** The request that the client packs for a function. */
  function Pack(name: string, params: ClientEventParams): Payload
    requires IsMethod(name)
  {
    match METHODS[name]
    case RegisterUserMethod => Packed(RegisteruserRequest(params.username))
    case WarbleMethod => Packed(WarbleRequest(params.username, params.warbleText, params.parentWarbleId))
    case FollowMethod => Packed(FollowRequest(params.username, params.toFollow))
    case ReadMethod => Packed(ReadRequest(params.warbleId, params.username))
    case ProfileMethod => Packed(ProfileRequest(params.username))
  }

  /** What the caller's structure holds after a response: lists are appended to, the warble is replaced. */
  function Unpack(before: ClientEventReply, response: Response): ClientEventReply {
    match response.reply
    case RegisterUserReply => before
    case WarbleReply(None) => before.(warble := NO_WARBLE)
    case WarbleReply(Some(w)) => before.(warble := w)
    case FollowReply => before
    case ReadReply(warbles) => before.(warbleThreads := before.warbleThreads + warbles)
    case ProfileReply(followers, following) =>
      before.(followers := before.followers + followers, following := before.following + following)
  }

  /** The lists of the reply stand behind those that the caller had, and nothing else changes but the
      warble of a post. */
  predicate Appended(before: ClientEventReply, reply: Reply, after: ClientEventReply) {
    && after.warbleThreads == before.warbleThreads + (if reply.ReadReply? then reply.warbles else [])
    && after.followers == before.followers + (if reply.ProfileReply? then reply.followers else [])
    && after.following == before.following + (if reply.ProfileReply? then reply.following else [])
    && (!reply.WarbleReply? ==> after.warble == before.warble)
    && (reply.WarbleReply? ==> after.warble == if reply.warble.Some? then reply.warble.value else NO_WARBLE)
  }

  /** The call that an event ends in when the hook does not change between the query and the event:
      the parameters arrive at the function that the client packed them for. */
  function CallFor(name: string, params: ClientEventParams, seconds: int64, useconds: int64): Call
    requires IsMethod(name)
  {
    if name == REGISTER then RegisterUser(params.username)
    else if name == WARBLE then Post(params.username, params.warbleText, params.parentWarbleId, seconds, useconds)
    else if name == FOLLOW then Follow(params.username, params.toFollow)
    else if name == READ then Read(params.username, params.warbleId)
    else Profile(params.username)
  }

  /** Unpacked for the function it was packed for, a payload means the intended call; unpacked for any
      other function it means that function's call with empty parameters. */
  lemma PackedCall(packedFor: string, runs: string, params: ClientEventParams, seconds: int64, useconds: int64)
    requires IsMethod(packedFor) && IsMethod(runs)
    ensures CallOf(packedFor, Pack(packedFor, params), seconds, useconds)
         == CallFor(packedFor, params, seconds, useconds)
    ensures packedFor != runs ==>
              CallOf(runs, Pack(packedFor, params), seconds, useconds) == CallFor(runs, NO_PARAMS, seconds, useconds)
  {
  }

  class FuncClientImpl {
    const server: FuncServiceImpl

    constructor (server: FuncServiceImpl)
      ensures this.server == server
    {
      this.server := server;
    }

    method Hook(eventType: int, functionName: string) returns (ok: bool)
      requires server.Valid()
      modifies server
      ensures server.Valid() && server.hookMap == AfterCall(old(server.hookMap), HookCall.Hook(eventType, functionName))
      ensures ok == IsMethod(functionName)
    {
      var status := server.Hook(eventType, functionName);
      return status == OK;
    }

    method Unhook(eventType: int) returns (ok: bool)
      requires server.Valid()
      modifies server
      ensures server.Valid() && server.hookMap == AfterCall(old(server.hookMap), HookCall.Unhook(eventType))
      ensures ok
    {
      var status := server.Unhook(eventType);
      return status == OK;
    }

    /** Query, then event, with nothing in between. */
    method Event(eventType: int, params: ClientEventParams, before: ClientEventReply, seconds: int64, useconds: int64)
      returns (ok: bool, reply: ClientEventReply, ghost response: Option<Response>)
      requires server.Valid() && server.kvclient.server.Valid()
      requires eventType in server.hookMap ==>
                 Decide(server.p, server.kvclient.server.storage.storageMap,
                        CallFor(server.hookMap[eventType], params, seconds, useconds)) != Diverges
      modifies server.kvclient.server.storage, server.kvclient.server.disk
      ensures server.kvclient.server.Valid()
      ensures eventType !in server.hookMap ==>
                !ok && reply == before && response == None
                && server.kvclient.server.State() == old(server.kvclient.server.State())
      ensures eventType in server.hookMap ==>
                && response.Some?
                && Served(server.p, old(server.kvclient.server.State()),
                          CallFor(server.hookMap[eventType], params, seconds, useconds),
                          server.kvclient.server.State(), response.value)
                && ok == (response.value.status == OK)
                && reply == Unpack(before, response.value)
                && Appended(before, response.value.reply, reply)
    {
      var queryStatus, name := server.Query(eventType);
      if queryStatus != OK {
        return false, before, None;
      }
      PackedCall(name, name, params, seconds, useconds);
      var payload := Pack(name, params);
      var r := server.Event(eventType, payload, seconds, useconds);
      response := r;
      ok := r.value.status == OK;
      reply := UnpackReply(before, r.value);
    }

    /** What the five helpers do with the reply. */
    static method UnpackReply(before: ClientEventReply, response: Response) returns (reply: ClientEventReply)
      ensures reply == Unpack(before, response) && Appended(before, response.reply, reply)
    {
      reply := before;
      match response.reply {
        case RegisterUserReply =>
        case WarbleReply(w) =>
          reply := reply.(warble := if w.Some? then w.value else NO_WARBLE);
        case FollowReply =>
        case ReadReply(warbles) =>
          for i := 0 to |warbles|
            invariant reply == before.(warbleThreads := before.warbleThreads + warbles[..i])
          {
            reply := reply.(warbleThreads := reply.warbleThreads + [warbles[i]]);
          }
        case ProfileReply(followers, following) =>
          for i := 0 to |followers|
            invariant reply == before.(followers := before.followers + followers[..i])
          {
            reply := reply.(followers := reply.followers + [followers[i]]);
          }
          for i := 0 to |following|
            invariant reply == before.(followers := before.followers + followers[..|followers|],
                                       following := before.following + following[..i])
          {
            reply := reply.(following := reply.following + [following[i]]);
          }
      }
    }
  }
}
