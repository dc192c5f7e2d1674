/** Requests and replies on the order-action web socket: gateway/web_socket.cpp.

    Request type codes and the 48-bit `ORDER_ID_MAX` come from headers outside the repository. */
module WebSocketActions {

  const ORDER_ID_MAX: bv64 := 0x0000_FFFF_FFFF_FFFF

  datatype Kind = Create | Modify | Cancel

  function Code(k: Kind): bv8 {
    match k case Create => 1 case Modify => 2 case Cancel => 3
  }

  datatype Request = Request(kind: Kind, userId: bv8, orderId: bv64)

  function EncodeRequestId(requestType: bv8, userId: bv8, orderId: bv64): bv64 {
    ((requestType as bv64) << 56) | ((userId as bv64) << 48) | orderId
  }

  datatype Decoded = Decoded(requestType: bv8, userId: bv8, orderId: bv64)

  function DecodeRequestId(id: bv64): Decoded {
    Decoded((id >> 56) as bv8, ((id >> 48) & 0xff) as bv8, id & ORDER_ID_MAX)
  }

  function IdOf(r: Request): bv64 { EncodeRequestId(Code(r.kind), r.userId, r.orderId) }

  lemma Fields(t: bv64, u: bv64, o: bv64)
    requires t <= 0xff && u <= 0xff && o <= 0x0000_FFFF_FFFF_FFFF
    ensures ((t << 56) | (u << 48) | o) >> 56 == t
    ensures (((t << 56) | (u << 48) | o) >> 48) & 0xff == u
    ensures ((t << 56) | (u << 48) | o) & 0x0000_FFFF_FFFF_FFFF == o
  {
  }

  lemma LowBits(id: bv64)
    ensures id & 0x0000_FFFF_FFFF_FFFF <= 0x0000_FFFF_FFFF_FFFF
  {
  }

  /** Decoding undoes encoding for every type and user, exactly for the order ids that fit. */
  lemma DecodeUndoesEncode(requestType: bv8, userId: bv8, orderId: bv64)
    ensures DecodeRequestId(EncodeRequestId(requestType, userId, orderId)) == Decoded(requestType, userId, orderId)
       <==> orderId <= ORDER_ID_MAX
  {
    LowBits(EncodeRequestId(requestType, userId, orderId));
    if orderId <= ORDER_ID_MAX {
      Fields(requestType as bv64, userId as bv64, orderId);
    }
  }

  /** Encoding undoes decoding: every 64-bit id is the id of exactly one triple. */
  lemma EncodeUndoesDecode(id: bv64)
    ensures var d := DecodeRequestId(id);
            d.orderId <= ORDER_ID_MAX && EncodeRequestId(d.requestType, d.userId, d.orderId) == id
  {
  }

  // --- replies ---

  datatype Status = Status(error: string, filledCloid: string)

  datatype Response = Response(requestType: bv8, userId: bv8, orderId: bv64, version: nat, text: string)

  predicate AnyFilled(statuses: seq<Status>) {
    exists i :: 0 <= i < |statuses| && statuses[i].filledCloid != ""
  }

  function FirstError(statuses: seq<Status>): string {
    if statuses == [] then ""
    else if statuses[0].error != "" then statuses[0].error
    else FirstError(statuses[1..])
  }

  /** The error to report for an order reply: none when any order was filled under a client id. */
  function OrderError(statuses: seq<Status>): string {
    if AnyFilled(statuses) then "" else FirstError(statuses)
  }

  const CANCEL_SUCCESS := "[\"success\"]"

  function CancelError(statuses: string): string {
    if statuses == CANCEL_SUCCESS then "" else statuses
  }

  /** `encoded` tells whether the encoder returns a request or throws; for a modify it always throws.
      `known` is the dispatcher's answer to `find_order`. */
  datatype Event =
    | OnCreate(userId: bv8, orderId: bv64, encoded: bool)
    | OnModify(userId: bv8, orderId: bv64)
    | OnCancel(userId: bv8, orderId: bv64, encoded: bool)
    | OnActionError(id: bv64, text: string, known: bool)
    | OnActionOrder(id: bv64, statuses: seq<Status>, known: bool)
    | OnActionCancel(id: bv64, cancelStatuses: string, known: bool)

  datatype State = State(sent: seq<Request>, published: seq<Response>, fatal: bool)

  function Publish(s: State, id: bv64, version: nat, text: string, known: bool): State {
    var d := DecodeRequestId(id);
    if known then s.(published := s.published + [Response(d.requestType, d.userId, d.orderId, version, text)])
    else s
  }

  /** The encoder comes first: when it throws nothing is sent. */
  function Post(s: State, r: Request, encoded: bool): State {
    if encoded then s.(sent := s.sent + [r]) else s
  }

  function Step(s: State, e: Event): State {
    if s.fatal then s
    else match e
      case OnCreate(u, o, encoded) => Post(s, Request(Create, u, o), encoded)
      case OnModify(u, o) => Post(s, Request(Modify, u, o), false)  // not supported
      case OnCancel(u, o, encoded) => Post(s, Request(Cancel, u, o), encoded)
      case OnActionError(id, text, known) => Publish(s, id, 0, text, known)
      case OnActionOrder(id, statuses, known) =>
        var message := OrderError(statuses);
        if message == "" then s
        else if DecodeRequestId(id).requestType != Code(Create) then s.(fatal := true)
        else Publish(s, id, 1, message, known)
      case OnActionCancel(id, statuses, known) =>
        var message := CancelError(statuses);
        if message == "" then s
        else if DecodeRequestId(id).requestType != Code(Cancel) then s.(fatal := true)
        else Publish(s, id, 0, message, known)
  }

  function Run(events: seq<Event>): State {
    if events == [] then State([], [], false)
    else Step(Run(events[..|events| - 1]), events[|events| - 1])
  }

  class WebSocket {
    var sent: seq<Request>
    var published: seq<Response>
    var fatal: bool

    function Abstract(): State
      reads this
    {
      State(sent, published, fatal)
    }

    constructor ()
      ensures Abstract() == State([], [], false)
    {
      sent, published, fatal := [], [], false;
    }

    /** The path the three request handlers share: encode, sign, build the id, send. */
    method Send(r: Request, encoded: bool) returns (thrown: bool)
      requires !fatal && (encoded ==> r.orderId <= ORDER_ID_MAX)
      modifies this`sent
      ensures Abstract() == Post(old(Abstract()), r, encoded) && thrown == !encoded
    {
      if !encoded {
        return true;
      }
      sent := sent + [r];
      return false;
    }

    method SendCreate(userId: bv8, orderId: bv64, encoded: bool) returns (thrown: bool)
      requires !fatal && (encoded ==> orderId <= ORDER_ID_MAX)
      modifies this`sent
      ensures Abstract() == Step(old(Abstract()), OnCreate(userId, orderId, encoded)) && thrown == !encoded
    {
      thrown := Send(Request(Create, userId, orderId), encoded);
    }

    method SendCancel(userId: bv8, orderId: bv64, encoded: bool) returns (thrown: bool)
      requires !fatal && (encoded ==> orderId <= ORDER_ID_MAX)
      modifies this`sent
      ensures Abstract() == Step(old(Abstract()), OnCancel(userId, orderId, encoded)) && thrown == !encoded
    {
      thrown := Send(Request(Cancel, userId, orderId), encoded);
    }

    method SendModify(userId: bv8, orderId: bv64) returns (thrown: bool)
      requires !fatal
      modifies this`sent
      ensures Abstract() == old(Abstract()) == Step(old(Abstract()), OnModify(userId, orderId)) && thrown
    {
      thrown := Send(Request(Modify, userId, orderId), false);
    }

    method HandleError(id: bv64, version: nat, text: string, known: bool)
      modifies this
      ensures Abstract() == Publish(old(Abstract()), id, version, text, known)
    {
      var d := DecodeRequestId(id);
      if known {
        published := published + [Response(d.requestType, d.userId, d.orderId, version, text)];
      }
    }

    method ActionError(id: bv64, text: string, known: bool)
      requires !fatal
      modifies this
      ensures Abstract() == Step(old(Abstract()), OnActionError(id, text, known))
    {
      HandleError(id, 0, text, known);
    }

    /** Scans the statuses with an early return on a filled order, keeping the first error. */
    method ActionOrder(id: bv64, statuses: seq<Status>, known: bool)
      requires !fatal
      modifies this
      ensures Abstract() == Step(old(Abstract()), OnActionOrder(id, statuses, known))
    {
      var message := "";
      for i := 0 to |statuses|
        invariant forall j :: 0 <= j < i ==> statuses[j].filledCloid == ""
        invariant FirstError(statuses) == if message != "" then message else FirstError(statuses[i..])
        invariant Abstract() == old(Abstract())
      {
        var item := statuses[i];
        if item.filledCloid != "" {
          return;
        }
        if item.error != "" && message == "" {
          message := item.error;
        }
        assert statuses[i..][1..] == statuses[i + 1..];
      }
      if message == "" {
        return;
      }
      if DecodeRequestId(id).requestType != Code(Create) {
        fatal := true;
        return;
      }
      HandleError(id, 1, message, known);
    }

    method ActionCancel(id: bv64, statuses: string, known: bool)
      requires !fatal
      modifies this
      ensures Abstract() == Step(old(Abstract()), OnActionCancel(id, statuses, known))
    {
      if statuses == "" || statuses == CANCEL_SUCCESS {
        return;
      }
      if DecodeRequestId(id).requestType != Code(Cancel) {
        fatal := true;
        return;
      }
      HandleError(id, 0, statuses, known);
    }
  }

  // --- runs ---

  /** What the callers and the exchange do: order ids fit, and a reply echoes the id of an earlier
      request of the matching kind. */
  predicate Allowed(s: State, e: Event) {
    match e
    case OnCreate(_, o, encoded) => encoded ==> o <= ORDER_ID_MAX
    case OnModify(_, _) => true
    case OnCancel(_, o, encoded) => encoded ==> o <= ORDER_ID_MAX
    case OnActionError(id, _, _) => exists i :: 0 <= i < |s.sent| && id == IdOf(s.sent[i])
    case OnActionOrder(id, _, _) => exists i :: 0 <= i < |s.sent| && s.sent[i].kind.Create? && id == IdOf(s.sent[i])
    case OnActionCancel(id, _, _) => exists i :: 0 <= i < |s.sent| && s.sent[i].kind.Cancel? && id == IdOf(s.sent[i])
  }

  predicate AllowedRun(events: seq<Event>) {
    forall k :: 0 <= k < |events| ==> Allowed(Run(events[..k]), events[k])
  }

  predicate Attributed(p: Response, sent: seq<Request>) {
    exists i :: 0 <= i < |sent| && p.requestType == Code(sent[i].kind)
             && p.userId == sent[i].userId && p.orderId == sent[i].orderId
  }

  ghost predicate Inv(s: State) {
    && !s.fatal
    && (forall i :: 0 <= i < |s.sent| ==> !s.sent[i].kind.Modify? && s.sent[i].orderId <= ORDER_ID_MAX)
    && (forall k :: 0 <= k < |s.published| ==> Attributed(s.published[k], s.sent))
  }

  lemma AttributionGrows(p: Response, sent: seq<Request>, r: Request)
    requires Attributed(p, sent)
    ensures Attributed(p, sent + [r])
  {
    var i :| 0 <= i < |sent| && p.requestType == Code(sent[i].kind)
             && p.userId == sent[i].userId && p.orderId == sent[i].orderId;
    assert (sent + [r])[i] == sent[i];
  }

  lemma EchoDecodes(s: State, i: nat, id: bv64)
    requires Inv(s) && i < |s.sent| && id == IdOf(s.sent[i])
    ensures DecodeRequestId(id) == Decoded(Code(s.sent[i].kind), s.sent[i].userId, s.sent[i].orderId)
  {
    hide EncodeRequestId, DecodeRequestId;
    DecodeUndoesEncode(Code(s.sent[i].kind), s.sent[i].userId, s.sent[i].orderId);
  }

  lemma PublishKeepsInv(s: State, i: nat, id: bv64, version: nat, text: string, known: bool)
    requires Inv(s) && i < |s.sent| && id == IdOf(s.sent[i])
    ensures Inv(Publish(s, id, version, text, known))
  {
    hide EncodeRequestId, DecodeRequestId;
    EchoDecodes(s, i, id);
    if known {
      assert Attributed(Publish(s, id, version, text, known).published[|s.published|], s.sent);
    }
  }

  lemma PostKeepsInv(s: State, r: Request, encoded: bool)
    requires Inv(s) && (encoded ==> !r.kind.Modify? && r.orderId <= ORDER_ID_MAX)
    ensures Inv(Post(s, r, encoded))
  {
    forall k | 0 <= k < |s.published| ensures Attributed(s.published[k], s.sent + [r]) {
      AttributionGrows(s.published[k], s.sent, r);
    }
  }

  lemma StepKeepsInv(s: State, e: Event)
    requires Inv(s) && Allowed(s, e)
    ensures Inv(Step(s, e))
  {
    hide EncodeRequestId, DecodeRequestId, Publish, OrderError, CancelError, Post;
    match e
    case OnCreate(u, o, encoded) => PostKeepsInv(s, Request(Create, u, o), encoded);
    case OnCancel(u, o, encoded) => PostKeepsInv(s, Request(Cancel, u, o), encoded);
    case OnModify(u, o) => PostKeepsInv(s, Request(Modify, u, o), false);
    case OnActionError(id, text, known) =>
      var i :| 0 <= i < |s.sent| && id == IdOf(s.sent[i]);
      PublishKeepsInv(s, i, id, 0, text, known);
    case OnActionOrder(id, st, known) =>
      var i :| 0 <= i < |s.sent| && s.sent[i].kind.Create? && id == IdOf(s.sent[i]);
      EchoDecodes(s, i, id);
      PublishKeepsInv(s, i, id, 1, OrderError(st), known);
    case OnActionCancel(id, st, known) =>
      var i :| 0 <= i < |s.sent| && s.sent[i].kind.Cancel? && id == IdOf(s.sent[i]);
      EchoDecodes(s, i, id);
      PublishKeepsInv(s, i, id, 0, CancelError(st), known);
  }

  /** Over every run: neither request-type fatal is reached, only create and cancel requests go out,
      and every published error names the type, user and order of a request that was sent. */
  lemma {:induction false} RunsAreAttributed(events: seq<Event>)
    requires AllowedRun(events)
    ensures Inv(Run(events))
  {
    if events != [] {
      var before := events[..|events| - 1];
      forall k | 0 <= k < |before| ensures Allowed(Run(before[..k]), before[k]) {
        assert before[..k] == events[..k];
      }
      RunsAreAttributed(before);
      assert events[..|before|] == before;
      StepKeepsInv(Run(before), events[|before|]);
    }
  }

  /** The creates and cancels of a run that the encoder does not throw on, in order. */
  function Encoded(events: seq<Event>): seq<Request> {
    if events == [] then []
    else
      Encoded(events[..|events| - 1]) +
      match events[|events| - 1]
      case OnCreate(u, o, true) => [Request(Create, u, o)]
      case OnCancel(u, o, true) => [Request(Cancel, u, o)]
      case _ => []
  }

  /** Whatever the exchange replies, until a reply is fatal the requests sent are exactly those, and none
      of them is a modify. */
  lemma {:induction false} SentExactly(events: seq<Event>)
    requires !Run(events).fatal
    ensures Run(events).sent == Encoded(events)
    ensures forall r :: r in Run(events).sent ==> !r.kind.Modify?
  {
    hide DecodeRequestId, OrderError, CancelError;
    if events != [] {
      SentExactly(events[..|events| - 1]);
    }
  }

  function ErrorText(e: Event): string {
    match e
    case OnActionError(_, text, _) => text
    case OnActionOrder(_, statuses, _) => OrderError(statuses)
    case OnActionCancel(_, statuses, _) => CancelError(statuses)
    case _ => ""
  }

  /** A reply with an error for the id of a request: the dispatcher knows the order, and an order or
      cancel reply belongs to a request of its kind and has an error to report. */
  predicate ErrorReply(r: Request, e: Event) {
    match e
    case OnActionError(id, _, known) => id == IdOf(r) && known
    case OnActionOrder(id, _, known) => id == IdOf(r) && known && r.kind.Create? && ErrorText(e) != ""
    case OnActionCancel(id, _, known) => id == IdOf(r) && known && r.kind.Cancel? && ErrorText(e) != ""
    case _ => false
  }

  /** It publishes one error, with the type, user and order of that request. Requests that agree in all
      three, such as two cancels of one order, share their id and cannot be told apart. */
  lemma ReplyNamesItsRequest(s: State, i: nat, e: Event)
    requires Inv(s) && i < |s.sent| && ErrorReply(s.sent[i], e)
    ensures var r := s.sent[i];
            Step(s, e).published == s.published
              + [Response(Code(r.kind), r.userId, r.orderId, if e.OnActionOrder? then 1 else 0, ErrorText(e))]
  {
    hide EncodeRequestId, DecodeRequestId, OrderError, CancelError;
    EchoDecodes(s, i, e.id);
  }

  /** Which requests share an id. */
  lemma SameIdIff(r: Request, r': Request)
    requires r.orderId <= ORDER_ID_MAX && r'.orderId <= ORDER_ID_MAX
    ensures IdOf(r) == IdOf(r') <==> r == r'
  {
    DecodeUndoesEncode(Code(r.kind), r.userId, r.orderId);
    DecodeUndoesEncode(Code(r'.kind), r'.userId, r'.orderId);
    hide EncodeRequestId, DecodeRequestId;
  }

  /** Without any assumption on the exchange: exactly the replies that are fatal. */
  lemma FatalIff(s: State, e: Event)
    requires !s.fatal
    ensures Step(s, e).fatal <==>
      || (e.OnActionOrder? && (forall i :: 0 <= i < |e.statuses| ==> e.statuses[i].filledCloid == "")
          && (exists i :: 0 <= i < |e.statuses| && e.statuses[i].error != "") && e.id >> 56 != 1)
      || (e.OnActionCancel? && e.cancelStatuses != "" && e.cancelStatuses != CANCEL_SUCCESS && e.id >> 56 != 3)
  {
    if e.OnActionOrder? { FirstErrorIff(e.statuses); }
  }

  /** The fields of an id, spelt out. */
  predicate NamesFields(p: Response, id: bv64, version: nat) {
    && p.requestType == (id >> 56) as bv8 && p.userId == ((id >> 48) & 0xff) as bv8
    && p.orderId == id & 0x0000_FFFF_FFFF_FFFF && p.version == version
  }

  predicate IsFirstError(statuses: seq<Status>, text: string) {
    exists i :: 0 <= i < |statuses| && text != "" && statuses[i].error == text
      && forall j :: 0 <= j < i ==> statuses[j].error == ""
  }

  lemma DecodedFields(id: bv64, version: nat, text: string)
    ensures var d := DecodeRequestId(id);
            NamesFields(Response(d.requestType, d.userId, d.orderId, version, text), id, version)
    ensures DecodeRequestId(id).requestType == 1 <==> id >> 56 == 1
    ensures DecodeRequestId(id).requestType == 3 <==> id >> 56 == 3
  {
  }

  /** s' has published one more error, for this id, or none. */
  predicate Publishes(s: State, s': State, id: bv64, version: nat) {
    |s'.published| == |s.published| + 1 && s.published <= s'.published
    && NamesFields(s'.published[|s.published|], id, version)
  }

  function LastText(s: State): string {
    if s.published == [] then "" else s.published[|s.published| - 1].text
  }

  /** An action error is published iff the dispatcher knows the order. */
  lemma ActionErrorPublished(s: State, id: bv64, text: string, known: bool)
    requires !s.fatal
    ensures var s' := Step(s, OnActionError(id, text, known));
            !s'.fatal && if known then Publishes(s, s', id, 0) && LastText(s') == text else s' == s
  {
    DecodedFields(id, 0, text);
    hide DecodeRequestId, NamesFields;
  }

  /** An order reply publishes its first error, iff the dispatcher knows the order, the id is that of a
      create, and no order was filled under a client id. */
  lemma ActionOrderPublished(s: State, id: bv64, statuses: seq<Status>, known: bool)
    requires !s.fatal
    ensures var s' := Step(s, OnActionOrder(id, statuses, known));
            if && (forall i :: 0 <= i < |statuses| ==> statuses[i].filledCloid == "")
               && (exists i :: 0 <= i < |statuses| && statuses[i].error != "")
               && id >> 56 == 1 && known
            then Publishes(s, s', id, 1) && IsFirstError(statuses, LastText(s'))
            else s'.published == s.published
  {
    FirstErrorIff(statuses);
    DecodedFields(id, 1, FirstError(statuses));
    hide DecodeRequestId, NamesFields, FirstError;
  }

  /** A cancel reply publishes its statuses, iff they are neither empty nor a success, the dispatcher
      knows the order, and the id is that of a cancel. */
  lemma ActionCancelPublished(s: State, id: bv64, statuses: string, known: bool)
    requires !s.fatal
    ensures var s' := Step(s, OnActionCancel(id, statuses, known));
            if statuses != "" && statuses != "[\"success\"]" && id >> 56 == 3 && known
            then Publishes(s, s', id, 0) && LastText(s') == statuses
            else s'.published == s.published
  {
    DecodedFields(id, 0, statuses);
    hide DecodeRequestId, NamesFields;
  }

  lemma {:induction false} FirstErrorIff(statuses: seq<Status>)
    ensures FirstError(statuses) != "" <==> exists i :: 0 <= i < |statuses| && statuses[i].error != ""
    ensures FirstError(statuses) != "" ==>
      exists i :: 0 <= i < |statuses| && statuses[i].error == FirstError(statuses)
               && forall j :: 0 <= j < i ==> statuses[j].error == ""
  {
    if statuses != [] && statuses[0].error == "" {
      FirstErrorIff(statuses[1..]);
      if FirstError(statuses) != "" {
        var i :| 0 <= i < |statuses[1..]| && statuses[1..][i].error == FirstError(statuses[1..])
               && forall j :: 0 <= j < i ==> statuses[1..][j].error == "";
        assert statuses[i + 1].error == FirstError(statuses);
        assert forall j :: 0 < j < i + 1 ==> statuses[j] == statuses[1..][j - 1];
      }
    }
  }
}
