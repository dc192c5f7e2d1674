/** Dispatch of streaming messages: protocol/json/parser.cpp.

    Assumed of code outside the repository: an object is visited member by member in document order
    until a callback returns true; key hashes do not collide; an enumeration is decoded from a
    string, is undefined for null, and throws for other values. Decoding a message for its handler
    is taken to succeed. */
module StreamParser {
  import opened JsonTree
  import opened ParserOutcome

  datatype Handler =
    | Pong | Error | SubscriptionResponse | Bbo | L2Book | Trades | ActiveAssetCtx
    | User | UserFundings | UserFills | OrderUpdates | Notification
    | SpotMeta | ActionOrder | ActionCancel | ActionError

  // --- enumerations ---

  datatype Enum<+T> = Undefined | Unknown | Known(value: T) | BadType

  datatype Channel = Direct(handler: Handler) | Post

  datatype Status = Ok | Err

  datatype ResponseType = InfoResponse | ActionResponse | ErrorResponse | OrderResponse | CancelResponse

  datatype PayloadType = SpotMetaPayload | ActionPayload

  function DecodeChannel(v: Json): Enum<Channel> {
    match v
    case Null => Undefined
    case Str(s) =>
      if s == "pong" then Known(Direct(Pong)) else if s == "error" then Known(Direct(Error))
      else if s == "post" then Known(Post)
      else if s == "subscriptionResponse" then Known(Direct(SubscriptionResponse))
      else if s == "bbo" then Known(Direct(Bbo)) else if s == "l2Book" then Known(Direct(L2Book))
      else if s == "trades" then Known(Direct(Trades))
      else if s == "activeAssetCtx" then Known(Direct(ActiveAssetCtx))
      else if s == "user" then Known(Direct(User))
      else if s == "userFundings" then Known(Direct(UserFundings))
      else if s == "userFills" then Known(Direct(UserFills))
      else if s == "orderUpdates" then Known(Direct(OrderUpdates))
      else if s == "notification" then Known(Direct(Notification))
      else Unknown
    case _ => BadType
  }

  function DecodeStatus(v: Json): Enum<Status> {
    match v
    case Null => Undefined
    case Str(s) => if s == "ok" then Known(Ok) else if s == "err" then Known(Err) else Unknown
    case _ => BadType
  }

  function DecodeResponseType(v: Json): Enum<ResponseType> {
    match v
    case Null => Undefined
    case Str(s) =>
      if s == "info" then Known(InfoResponse) else if s == "action" then Known(ActionResponse)
      else if s == "error" then Known(ErrorResponse) else if s == "order" then Known(OrderResponse)
      else if s == "cancel" then Known(CancelResponse) else Unknown
    case _ => BadType
  }

  function DecodePayloadType(v: Json): Enum<PayloadType> {
    match v
    case Null => Undefined
    case Str(s) =>
      if s == "spotMeta" then Known(SpotMetaPayload) else if s == "action" then Known(ActionPayload) else Unknown
    case _ => BadType
  }

  // --- the callbacks as steps over the captured state ---

  /** The variables the five callbacks capture, the handlers invoked, and a pending exception. */
  datatype State = State(result: bool, status: Enum<Status>, channel: Enum<Channel>, calls: seq<Handler>, thrown: bool)

  /** A callback's effect and its return value: true ends the visit of the object. */
  datatype Return = Return(state: State, stop: bool)

  function Invoke(s: State, h: Handler): Return { Return(s.(result := true, calls := s.calls + [h]), true) }

  function Throw(s: State): Return { Return(s.(thrown := true), true) }

  function Continue(s: State): Return { Return(s, s.result) }

  /** An unknown enumerator returns false when unknown types are allowed. */
  function OnUnknown(allow: bool, s: State): Return { Return(s, if allow then false else s.result) }

  /** The objects on the path the parser follows, innermost first. */
  datatype Level = Inner | Payload | Response | Data | Top

  function Rank(level: Level): nat {
    match level case Inner => 0 case Payload => 1 case Response => 2 case Data => 3 case Top => 4
  }

  /** The callback of a level. */
  function OnMember(level: Level, allow: bool, s: State, m: Member): Return
    decreases Rank(level), 1, 0
  {
    match level
    case Inner =>
      if m.key == "type" then
        match DecodeResponseType(m.value)
        case BadType => Throw(s)
        case Unknown => OnUnknown(allow, s)
        case Known(OrderResponse) => Invoke(s, ActionOrder)
        case Known(CancelResponse) => Invoke(s, ActionCancel)
        case _ => Continue(s)
      else Continue(s)
    case Payload =>
      if m.key == "type" then
        match DecodePayloadType(m.value)
        case BadType => Throw(s)
        case Unknown => OnUnknown(allow, s)
        case Known(SpotMetaPayload) => Invoke(s, SpotMeta)
        case _ => Continue(s)
      else if m.key == "status" then
        var status := DecodeStatus(m.value);
        if status.BadType? then Throw(s) else Continue(s.(status := status))
      else if m.key == "response" then
        match s.status
        case Known(Ok) => Return(VisitValue(Inner, allow, s, m.value), true)
        case Known(Err) => Invoke(s, ActionError)
        case Unknown => OnUnknown(allow, s)
        case _ => Continue(s)
      else Continue(s)
    case Response =>
      if m.key == "payload" then Continue(VisitValue(Payload, allow, s, m.value)) else Continue(s)
    case Data =>
      if m.key == "response" then Return(VisitValue(Response, allow, s, m.value), true) else Continue(s)
    case Top =>
      if m.key == "channel" then
        var channel := DecodeChannel(m.value);
        if channel.BadType? then Throw(s)
        else
          var s' := s.(channel := channel);
          match channel
          case Unknown => OnUnknown(allow, s')
          case Known(Direct(h)) => Invoke(s', h)
          case _ => Continue(s')
      else if m.key == "data" then
        if s.channel == Known(Post) then Continue(VisitValue(Data, allow, s, m.value)) else Continue(s)
      else Continue(s)
  }

  /** Visits members in order until the callback returns true or throws. */
  function Visit(level: Level, allow: bool, s: State, members: seq<Member>): State
    decreases Rank(level), 2, |members|
  {
    if members == [] then s
    else
      var r := OnMember(level, allow, s, members[0]);
      if r.stop || r.state.thrown then r.state else Visit(level, allow, r.state, members[1..])
  }

  /** Any value but an object throws. */
  function VisitValue(level: Level, allow: bool, s: State, v: Json): State
    decreases Rank(level), 3, 0
  {
    if v.Obj? then Visit(level, allow, s, v.members) else s.(thrown := true)
  }

  const START := State(false, Undefined, Undefined, [], false)

  function Run(allow: bool, root: Json): State { VisitValue(Top, allow, START, root) }

  // --- the parser as the source runs it ---

  class Parser {
    const allow: bool
    var result: bool
    var status: Enum<Status>
    var channel: Enum<Channel>
    var calls: seq<Handler>
    var thrown: bool

    constructor (allow: bool)
      ensures this.allow == allow && Abstract() == START
    {
      this.allow := allow;
      result, status, channel, calls, thrown := false, Undefined, Undefined, [], false;
    }

    function Abstract(): State
      reads this
    {
      State(result, status, channel, calls, thrown)
    }

    method DispatchHelper(h: Handler)
      modifies this
      ensures Abstract() == Invoke(old(Abstract()), h).state
    {
      calls := calls + [h];
      result := true;
    }

    method OnInner(m: Member) returns (stop: bool)
      modifies this
      ensures Return(Abstract(), stop) == OnMember(Inner, allow, old(Abstract()), m)
      decreases Rank(Inner), 0, 0
    {
      if m.key == "type" {
        match DecodeResponseType(m.value)
        case BadType => thrown := true; return true;
        case Unknown => if allow { return false; }
        case Known(OrderResponse) => DispatchHelper(ActionOrder); return true;
        case Known(CancelResponse) => DispatchHelper(ActionCancel); return true;
        case _ =>
      }
      return result;
    }

    method OnPayload(m: Member) returns (stop: bool)
      modifies this
      ensures Return(Abstract(), stop) == OnMember(Payload, allow, old(Abstract()), m)
      decreases Rank(Payload), 0, 0
    {
      if m.key == "type" {
        match DecodePayloadType(m.value)
        case BadType => thrown := true; return true;
        case Unknown => if allow { return false; }
        case Known(SpotMetaPayload) => DispatchHelper(SpotMeta); return true;
        case _ =>
      } else if m.key == "status" {
        var decoded := DecodeStatus(m.value);
        if decoded.BadType? {
          thrown := true;
          return true;
        }
        status := decoded;
      } else if m.key == "response" {
        match status
        case Known(Ok) => VisitObject(Inner, m.value); return true;
        case Known(Err) => DispatchHelper(ActionError); return true;
        case Unknown => if allow { return false; }
        case _ =>
      }
      return result;
    }

    method OnTop(m: Member) returns (stop: bool)
      modifies this
      ensures Return(Abstract(), stop) == OnMember(Top, allow, old(Abstract()), m)
      decreases Rank(Top), 0, 0
    {
      if m.key == "channel" {
        var decoded := DecodeChannel(m.value);
        if decoded.BadType? {
          thrown := true;
          return true;
        }
        channel := decoded;
        match channel
        case Unknown => if allow { return false; }
        case Known(Direct(h)) => DispatchHelper(h); return true;
        case _ =>
      } else if m.key == "data" {
        if channel == Known(Post) {
          VisitObject(Data, m.value);
        }
      }
      return result;
    }

    method Callback(level: Level, m: Member) returns (stop: bool)
      modifies this
      ensures Return(Abstract(), stop) == OnMember(level, allow, old(Abstract()), m)
      decreases Rank(level), 1, 0
    {
      match level
      case Inner => stop := OnInner(m);
      case Payload => stop := OnPayload(m);
      case Response =>
        if m.key == "payload" {
          VisitObject(Payload, m.value);
        }
        return result;
      case Data =>
        if m.key == "response" {
          VisitObject(Response, m.value);
          return true;
        }
        return result;
      case Top => stop := OnTop(m);
    }

    method VisitObject(level: Level, v: Json)
      modifies this
      ensures Abstract() == VisitValue(level, allow, old(Abstract()), v)
      decreases Rank(level), 2, 0
    {
      if !v.Obj? {
        thrown := true;
        return;
      }
      var i := 0;
      while i < |v.members|
        invariant 0 <= i <= |v.members|
        invariant Visit(level, allow, old(Abstract()), v.members) == Visit(level, allow, Abstract(), v.members[i..])
      {
        assert v.members[i..][0] == v.members[i] && v.members[i..][1..] == v.members[i + 1..];
        var stop := Callback(level, v.members[i]);
        if stop || thrown {
          return;
        }
        i := i + 1;
      }
    }

    method Dispatch(root: Json) returns (outcome: Outcome)
      requires Abstract() == START
      modifies this
      ensures Abstract() == Run(allow, root) && outcome == Conclude(allow, result, thrown)
    {
      VisitObject(Top, root);
      if thrown {
        return Threw;
      }
      if result || allow {
        return Returned(result);
      }
      return Fatal;
    }
  }
}
