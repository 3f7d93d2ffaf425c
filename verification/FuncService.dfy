/** The function server: which function is hooked to which type of event, and the dispatch. */
module FuncService {
  import opened Results
  import opened KeyValueClient
  import opened WarbleModel
  import opened WarbleService

  const REGISTER := "registeruser"
  const WARBLE := "warble"
  const FOLLOW := "follow"
  const READ := "read"
  const PROFILE := "profile"

  /** The five wrappers. */
  datatype Method = RegisterUserMethod | WarbleMethod | FollowMethod | ReadMethod | ProfileMethod

  const METHODS: map<string, Method> :=
    map[REGISTER := RegisterUserMethod, WARBLE := WarbleMethod, FOLLOW := FollowMethod,
        READ := ReadMethod, PROFILE := ProfileMethod]

  predicate IsMethod(name: string) {
    name in METHODS
  }

  // ---- hooks ----

  /** The two calls that change the hooks. */
  datatype HookCall = Hook(eventType: int, name: string) | Unhook(eventType: int)

  type Hooks = map<int, string>

  function AfterCall(hooks: Hooks, call: HookCall): Hooks {
    match call
    case Hook(t, name) => if IsMethod(name) then hooks[t := name] else hooks
    case Unhook(t) => hooks - {t}
  }

  function AfterCalls(history: seq<HookCall>): Hooks {
    if history == [] then map[]
    else AfterCall(AfterCalls(history[..|history| - 1]), history[|history| - 1])
  }

  /** An accepted hook of this type, or an unhook of it. */
  predicate Touches(call: HookCall, t: int) {
    call.eventType == t && (call.Hook? ==> IsMethod(call.name))
  }

  ghost predicate LastTouch(history: seq<HookCall>, t: int, i: nat) {
    && i < |history| && Touches(history[i], t)
    && forall j :: i < j < |history| ==> !Touches(history[j], t)
  }

  lemma LastTouchStep(history: seq<HookCall>, call: HookCall, t: int, i: nat)
    ensures LastTouch(history + [call], t, i)
       <==> if Touches(call, t) then i == |history| else LastTouch(history, t, i)
  {
    var all := history + [call];
    assert all[|history|] == call;
    if LastTouch(all, t, i) && !Touches(call, t) {
      forall j | i < j < |history|
        ensures !Touches(history[j], t)
      {
        assert all[j] == history[j];
      }
    }
    if i < |history| {
      assert all[i] == history[i];
    }
  }

  /** After any history of calls, what is hooked to a type is decided by the last accepted hook or
      unhook of that type alone, and every hooked name is one of the five methods. */
  lemma {:induction false} HooksAreHistory(history: seq<HookCall>, t: int, name: string)
    ensures t in AfterCalls(history) && AfterCalls(history)[t] == name
       <==> exists i: nat :: LastTouch(history, t, i) && history[i] == Hook(t, name)
    ensures t !in AfterCalls(history)
       <==> forall i: nat :: LastTouch(history, t, i) ==> history[i].Unhook?
    ensures t in AfterCalls(history) ==> IsMethod(AfterCalls(history)[t])
    decreases |history|
  {
    if history != [] {
      var n := |history| - 1;
      var front, call := history[..n], history[n];
      HooksAreHistory(front, t, name);
      assert history == front + [call];
      forall i: nat
        ensures LastTouch(history, t, i)
           <==> if Touches(call, t) then i == n else LastTouch(front, t, i)
      {
        LastTouchStep(front, call, t, i);
      }
      if Touches(call, t) {
        assert LastTouch(history, t, n);
      }
    }
  }

  // ---- messages ----

  /** The type-tagged message of an event; `Blank` packs nothing. */
  datatype Payload = Blank | Packed(request: Request)

  datatype Request =
    | RegisteruserRequest(username: string)
    | WarbleRequest(username: string, text: string, parentId: string)
    | FollowRequest(username: string, toFollow: string)
    | ReadRequest(warbleId: string, username: string)
    | ProfileRequest(username: string)

  /** The call that a wrapper makes.  Unpacking a message of another type leaves the request at its
      defaults, that is, with empty strings. */
  function CallOf(name: string, payload: Payload, seconds: int64, useconds: int64): Call
    requires IsMethod(name)
  {
    match METHODS[name]
    case RegisterUserMethod =>
      (match payload
       case Packed(RegisteruserRequest(u)) => RegisterUser(u)
       case _ => RegisterUser(""))
    case WarbleMethod =>
      (match payload
       case Packed(WarbleRequest(u, text, parentId)) => Post(u, text, parentId, seconds, useconds)
       case _ => Post("", "", "", seconds, useconds))
    case FollowMethod =>
      (match payload
       case Packed(FollowRequest(u, v)) => Follow(u, v)
       case _ => Follow("", ""))
    case ReadMethod =>
      (match payload
       case Packed(ReadRequest(id, u)) => Read(u, id)
       case _ => Read("", ""))
    case ProfileMethod =>
      (match payload
       case Packed(ProfileRequest(u)) => Profile(u)
       case _ => Profile(""))
  }

  // ---- the server object ----

  class FuncServiceImpl {
    const p: Platform
    const kvclient: KeyValueClient
    const nameMethodMap: map<string, Method>
    var hookMap: Hooks

    /** Hooked names are in the method table, so dispatch never meets an empty function. */
    ghost predicate Valid()
      reads this
    {
      nameMethodMap == METHODS && forall t :: t in hookMap ==> hookMap[t] in nameMethodMap
    }

    constructor (p: Platform, kvclient: KeyValueClient)
      ensures Valid() && hookMap == AfterCalls([]) && this.p == p && this.kvclient == kvclient
    {
      this.p := p;
      this.kvclient := kvclient;
      nameMethodMap := map[][REGISTER := RegisterUserMethod][WARBLE := WarbleMethod]
                            [FOLLOW := FollowMethod][READ := ReadMethod][PROFILE := ProfileMethod];
      hookMap := map[];
    }

    method Hook(eventType: int, eventFunction: string) returns (status: Status)
      requires Valid()
      modifies this
      ensures Valid() && hookMap == AfterCall(old(hookMap), HookCall.Hook(eventType, eventFunction))
      ensures status == if IsMethod(eventFunction) then OK else NOT_FOUND
    {
      if eventFunction !in nameMethodMap {
        return NOT_FOUND;
      }
      hookMap := hookMap[eventType := eventFunction];
      return OK;
    }

    method Unhook(eventType: int) returns (status: Status)
      requires Valid()
      modifies this
      ensures Valid() && status == OK && hookMap == AfterCall(old(hookMap), HookCall.Unhook(eventType))
    {
      hookMap := hookMap - {eventType};
      return OK;
    }

    method Query(eventType: int) returns (status: Status, eventFunction: string)
      requires Valid()
      ensures status == if eventType in hookMap then OK else NOT_FOUND
      ensures eventType in hookMap ==> eventFunction == hookMap[eventType]
    {
      if eventType !in hookMap {
        return NOT_FOUND, "";
      }
      return OK, hookMap[eventType];
    }

    /** Runs the hooked function; `None` when there is none.  The precondition is only that the call
        it makes returns. */
    method Event(eventType: int, payload: Payload, seconds: int64, useconds: int64) returns (response: Option<Response>)
      requires Valid() && kvclient.server.Valid()
      requires eventType in hookMap ==>
                 Decide(p, kvclient.server.storage.storageMap,
                        CallOf(hookMap[eventType], payload, seconds, useconds)) != Diverges
      modifies kvclient.server.storage, kvclient.server.disk
      ensures kvclient.server.Valid()
      ensures eventType !in hookMap ==> response == None && kvclient.server.State() == old(kvclient.server.State())
      ensures eventType in hookMap ==>
                response.Some? &&
                Served(p, old(kvclient.server.State()), CallOf(hookMap[eventType], payload, seconds, useconds),
                       kvclient.server.State(), response.value)
    {
      if eventType !in hookMap {
        return None;
      }
      match nameMethodMap[hookMap[eventType]]
      case RegisterUserMethod =>
        var username := "";
        if payload.Packed? && payload.request.RegisteruserRequest? {
          username := payload.request.username;
        }
        var r := WarbleService.RegisterUser(p, username, kvclient);
        return Some(r);
      case WarbleMethod =>
        var username, text, parentId := "", "", "";
        if payload.Packed? && payload.request.WarbleRequest? {
          username, text, parentId := payload.request.username, payload.request.text, payload.request.parentId;
        }
        var r := WarbleService.WarbleMethod(p, username, text, parentId, seconds, useconds, kvclient);
        return Some(r);
      case FollowMethod =>
        var username, toFollow := "", "";
        if payload.Packed? && payload.request.FollowRequest? {
          username, toFollow := payload.request.username, payload.request.toFollow;
        }
        var r := WarbleService.Follow(p, username, toFollow, kvclient);
        return Some(r);
      case ReadMethod =>
        var username, warbleId := "", "";
        if payload.Packed? && payload.request.ReadRequest? {
          username, warbleId := payload.request.username, payload.request.warbleId;
        }
        var r := WarbleService.Read(p, username, warbleId, kvclient);
        return Some(r);
      case ProfileMethod =>
        var username := "";
        if payload.Packed? && payload.request.ProfileRequest? {
          username := payload.request.username;
        }
        var r := WarbleService.Profile(p, username, kvclient);
        return Some(r);
    }
  }
}
