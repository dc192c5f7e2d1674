/** The streaming parser against plain path lookups on the parsed tree. */
module StreamLookup {
  import opened JsonTree
  import opened Options
  import opened ParserOutcome
  import opened StreamParser

  ghost predicate Clean(s: State) { !s.result && s.calls == [] && !s.thrown }

  // --- every tree: at most one handler, reported exactly ---

  ghost predicate Faithful(s: State) {
    (if s.result then |s.calls| == 1 else s.calls == []) && (s.thrown ==> s.calls == [])
  }

  /** A callback that neither ends the visit nor throws leaves nothing invoked. */
  lemma {:induction false} MemberFaithful(level: Level, allow: bool, s: State, m: Member)
    requires Clean(s)
    ensures var r := OnMember(level, allow, s, m); Faithful(r.state) && (r.stop || r.state.thrown || Clean(r.state))
    decreases Rank(level), 0, 0
  {
    match level
    case Inner =>
    case Payload => if m.value.Obj? { VisitFaithful(Inner, allow, s, m.value.members); }
    case Response => if m.value.Obj? { VisitFaithful(Payload, allow, s, m.value.members); }
    case Data => if m.value.Obj? { VisitFaithful(Response, allow, s, m.value.members); }
    case Top => if m.value.Obj? { VisitFaithful(Data, allow, s, m.value.members); }
  }

  lemma {:induction false} VisitFaithful(level: Level, allow: bool, s: State, members: seq<Member>)
    requires Clean(s)
    ensures Faithful(Visit(level, allow, s, members))
    decreases Rank(level), 1, |members|
  {
    if members != [] {
      MemberFaithful(level, allow, s, members[0]);
      var r := OnMember(level, allow, s, members[0]);
      if !r.stop && !r.state.thrown {
        VisitFaithful(level, allow, r.state, members[1..]);
      }
    }
  }

  /** For every tree: a dispatch that returns reports true iff it invoked exactly one handler, and
      otherwise it invoked none; one that throws or is fatal invoked none. */
  lemma OneHandlerReported(allow: bool, root: Json)
    ensures var s := Run(allow, root);
            match Conclude(allow, s.result, s.thrown)
            case Returned(result) => |s.calls| == (if result then 1 else 0)
            case _ => s.calls == []
  {
    if root.Obj? {
      VisitFaithful(Top, allow, START, root.members);
    }
  }

  // --- the flag that allows unknown event types ---

  lemma {:induction false} MemberIgnoresFlag(level: Level, s: State, m: Member)
    requires Clean(s)
    ensures OnMember(level, true, s, m) == OnMember(level, false, s, m)
    decreases Rank(level), 0, 0
  {
    match level
    case Inner =>
    case Payload => if m.value.Obj? { VisitIgnoresFlag(Inner, s, m.value.members); }
    case Response => if m.value.Obj? { VisitIgnoresFlag(Payload, s, m.value.members); }
    case Data => if m.value.Obj? { VisitIgnoresFlag(Response, s, m.value.members); }
    case Top => if m.value.Obj? { VisitIgnoresFlag(Data, s, m.value.members); }
  }

  lemma {:induction false} VisitIgnoresFlag(level: Level, s: State, members: seq<Member>)
    requires Clean(s)
    ensures Visit(level, true, s, members) == Visit(level, false, s, members)
    decreases Rank(level), 1, |members|
  {
    if members != [] {
      MemberIgnoresFlag(level, s, members[0]);
      MemberFaithful(level, true, s, members[0]);
      var r := OnMember(level, true, s, members[0]);
      if !r.stop && !r.state.thrown {
        VisitIgnoresFlag(level, r.state, members[1..]);
      }
    }
  }

  /** The flag changes neither the handler nor exceptions; it only turns "nothing matched" from
      fatal into false. */
  lemma FlagOnlyPreventsFatal(root: Json)
    ensures Run(true, root) == Run(false, root)
    ensures var s := Run(false, root);
            var strict := Conclude(false, s.result, s.thrown);
            Conclude(true, s.result, s.thrown) == if strict.Fatal? then Returned(false) else strict
  {
    if root.Obj? {
      VisitIgnoresFlag(Top, START, root.members);
    }
  }

  // --- path lookup ---

  function LookupInner(inner: Json): Option<Handler> {
    match DecodeResponseType(Get(inner, "type"))
    case Known(OrderResponse) => Some(ActionOrder)
    case Known(CancelResponse) => Some(ActionCancel)
    case _ => None
  }

  function Reply(status: Enum<Status>, inner: Json): Option<Handler> {
    match status
    case Known(Ok) => LookupInner(inner)
    case Known(Err) => Some(ActionError)
    case _ => None
  }

  function LookupPayload(payload: Json): Option<Handler> {
    if DecodePayloadType(Get(payload, "type")) == Known(SpotMetaPayload) then Some(SpotMeta)
    else if Has(payload, "response") then Reply(DecodeStatus(Get(payload, "status")), Get(payload, "response"))
    else None
  }

  function PayloadOf(root: Json): Json { Get(Get(Get(root, "data"), "response"), "payload") }

  /** The handler a message asks for, by its paths alone. */
  function Lookup(root: Json): Option<Handler> {
    match DecodeChannel(Get(root, "channel"))
    case Known(Direct(h)) => Some(h)
    case Known(Post) => LookupPayload(PayloadOf(root))
    case _ => None
  }

  /** Keys are unique in a data object and in the objects below it on the path. */
  ghost predicate UniqueBelow(data: Json) {
    var response := Get(data, "response");
    var payload := Get(response, "payload");
    Unique(data) && Unique(response) && Unique(payload) && Unique(Get(payload, "response"))
  }

  ghost predicate UniqueOnPath(root: Json) { Unique(root) && UniqueBelow(Get(root, "data")) }

  /** `a` comes before `b`, which is there or not. */
  predicate Before(v: Json, a: string, b: string) {
    v.Obj? && IndexOf(v.members, a) < IndexOf(v.members, b)
  }

  /** What the payload's members must look like in document order. A spotMeta payload must not
      reach a response with a known status first; any other needs its status before its response. */
  predicate PayloadInOrder(payload: Json) {
    if DecodePayloadType(Get(payload, "type")) == Known(SpotMetaPayload) then
      !(Before(payload, "status", "response") && Before(payload, "response", "type")
        && DecodeStatus(Get(payload, "status")).Known?)
    else Before(payload, "status", "response")
  }

  predicate InOrder(root: Json) {
    DecodeChannel(Get(root, "channel")) == Known(Post) ==>
      Before(root, "channel", "data") && PayloadInOrder(PayloadOf(root))
  }

  // --- what a visit in document order finds ---

  function Calls(h: Option<Handler>): seq<Handler> { if h.Some? then [h.value] else [] }

  lemma TailIndex(members: seq<Member>, key: string)
    requires members != [] && members[0].key != key
    ensures IndexOf(members, key) == 1 + IndexOf(members[1..], key)
    ensures Get(Obj(members), key) == Get(Obj(members[1..]), key)
    ensures Has(Obj(members), key) == Has(Obj(members[1..]), key)
  {
  }

  /** With unique keys the head's key is not seen again. */
  lemma HeadIsOnly(members: seq<Member>)
    requires members != [] && UniqueKeys(members)
    ensures UniqueKeys(members[1..])
    ensures IndexOf(members[1..], members[0].key) == |members[1..]|
    ensures IndexOf(members, members[0].key) == 0
    ensures Get(Obj(members), members[0].key) == members[0].value
    ensures Has(Obj(members), members[0].key)
    ensures !Has(Obj(members[1..]), members[0].key)
  {
    assert forall j :: 0 <= j < |members[1..]| ==> members[1..][j] == members[j + 1];
  }

  /** The one key each of the inner three levels looks for. */
  function KeyOf(level: Level): string
    requires level.Inner? || level.Response? || level.Data?
  {
    match level case Inner => "type" case Response => "payload" case Data => "response"
  }

  lemma {:induction false} NothingToSee(level: Level, allow: bool, s: State, members: seq<Member>)
    requires level.Inner? || level.Response? || level.Data?
    requires Clean(s) && IndexOf(members, KeyOf(level)) == |members|
    ensures Visit(level, allow, s, members) == s
  {
    if members != [] {
      assert members[0].key != KeyOf(level);
      TailIndex(members, KeyOf(level));
      NothingToSee(level, allow, s, members[1..]);
    }
  }

  /** On those levels a visit does what the callback does for that member. */
  lemma {:induction false} OneKey(level: Level, allow: bool, s: State, members: seq<Member>)
    requires level.Inner? || level.Response? || level.Data?
    requires Clean(s) && UniqueKeys(members)
    ensures var i := IndexOf(members, KeyOf(level));
            Visit(level, allow, s, members) ==
            if i < |members| then OnMember(level, allow, s, members[i]).state else s
  {
    if members != [] {
      var key := KeyOf(level);
      var m := members[0];
      HeadIsOnly(members);
      if m.key == key {
        MemberFaithful(level, allow, s, m);
        var r := OnMember(level, allow, s, m);
        if !r.stop && !r.state.thrown {
          NothingToSee(level, allow, r.state, members[1..]);
        }
      } else {
        TailIndex(members, key);
        OneKey(level, allow, s, members[1..]);
      }
    }
  }

  /** The handler a payload's members lead to, given the status carried into them. */
  function PayloadByOrder(status: Enum<Status>, payload: Json): Option<Handler> {
    var carried := if Before(payload, "status", "response") then DecodeStatus(Get(payload, "status")) else status;
    var responds := Has(payload, "response") && carried.Known?;
    var spotMeta := DecodePayloadType(Get(payload, "type")) == Known(SpotMetaPayload);
    if spotMeta && !(responds && Before(payload, "response", "type")) then Some(SpotMeta)
    else if responds then Reply(carried, Get(payload, "response"))
    else None
  }

  lemma InnerVisit(allow: bool, s: State, inner: Json)
    requires Clean(s) && Unique(inner) && !VisitValue(Inner, allow, s, inner).thrown
    ensures VisitValue(Inner, allow, s, inner).calls == Calls(LookupInner(inner))
  {
    OneKey(Inner, allow, s, inner.members);
  }

  lemma ByOrderTypeFirst(status: Enum<Status>, members: seq<Member>)
    requires members != [] && UniqueKeys(members) && members[0].key == "type"
    ensures PayloadByOrder(status, Obj(members)) ==
            if DecodePayloadType(members[0].value) == Known(SpotMetaPayload) then Some(SpotMeta)
            else PayloadByOrder(status, Obj(members[1..]))
  {
    HeadIsOnly(members);
    TailIndex(members, "status");
    TailIndex(members, "response");
    hide DecodePayloadType, DecodeStatus, Reply, IndexOf;
  }

  lemma ByOrderStatusFirst(status: Enum<Status>, members: seq<Member>)
    requires members != [] && UniqueKeys(members) && members[0].key == "status"
    ensures PayloadByOrder(status, Obj(members)) == PayloadByOrder(DecodeStatus(members[0].value), Obj(members[1..]))
  {
    HeadIsOnly(members);
    TailIndex(members, "type");
    TailIndex(members, "response");
    hide DecodePayloadType, DecodeStatus, Reply, IndexOf;
  }

  lemma ByOrderResponseFirst(status: Enum<Status>, members: seq<Member>)
    requires members != [] && UniqueKeys(members) && members[0].key == "response"
    ensures PayloadByOrder(status, Obj(members)) ==
            if status.Known? then Reply(status, members[0].value) else PayloadByOrder(status, Obj(members[1..]))
  {
    HeadIsOnly(members);
    TailIndex(members, "type");
    TailIndex(members, "status");
    hide DecodePayloadType, DecodeStatus, Reply, IndexOf;
  }

  lemma ByOrderOtherFirst(status: Enum<Status>, members: seq<Member>)
    requires members != [] && UniqueKeys(members)
    requires members[0].key != "type" && members[0].key != "status" && members[0].key != "response"
    ensures PayloadByOrder(status, Obj(members)) == PayloadByOrder(status, Obj(members[1..]))
  {
    TailIndex(members, "type");
    TailIndex(members, "status");
    TailIndex(members, "response");
    hide DecodePayloadType, DecodeStatus, Reply, IndexOf;
  }

  /** One callback either settles the handler or leaves the question to the remaining members. */
  ghost predicate Settles(s: State, members: seq<Member>, r: Return)
    requires members != []
  {
    var h := PayloadByOrder(s.status, Obj(members));
    if r.stop || r.state.thrown then r.state.thrown || r.state.calls == Calls(h)
    else Clean(r.state) && h == PayloadByOrder(r.state.status, Obj(members[1..]))
  }

  lemma TypeSettles(allow: bool, s: State, members: seq<Member>)
    requires Clean(s) && members != [] && UniqueKeys(members) && members[0].key == "type"
    ensures Settles(s, members, OnMember(Payload, allow, s, members[0]))
  {
    ByOrderTypeFirst(s.status, members);
    hide DecodePayloadType, PayloadByOrder;
  }

  lemma StatusSettles(allow: bool, s: State, members: seq<Member>)
    requires Clean(s) && members != [] && UniqueKeys(members) && members[0].key == "status"
    ensures Settles(s, members, OnMember(Payload, allow, s, members[0]))
  {
    ByOrderStatusFirst(s.status, members);
    hide DecodeStatus, PayloadByOrder;
  }

  lemma ResponseSettles(allow: bool, s: State, members: seq<Member>)
    requires Clean(s) && members != [] && UniqueKeys(members)
    requires members[0].key == "response" && Unique(members[0].value)
    ensures Settles(s, members, OnMember(Payload, allow, s, members[0]))
  {
    var m := members[0];
    ByOrderResponseFirst(s.status, members);
    if s.status == Known(Ok) && !VisitValue(Inner, allow, s, m.value).thrown {
      InnerVisit(allow, s, m.value);
    }
    hide LookupInner, PayloadByOrder, VisitValue;
  }

  lemma OtherSettles(allow: bool, s: State, members: seq<Member>)
    requires Clean(s) && members != [] && UniqueKeys(members)
    requires members[0].key != "type" && members[0].key != "status" && members[0].key != "response"
    ensures Settles(s, members, OnMember(Payload, allow, s, members[0]))
  {
    ByOrderOtherFirst(s.status, members);
    hide PayloadByOrder;
  }

  lemma MemberSettles(allow: bool, s: State, members: seq<Member>)
    requires Clean(s) && members != [] && UniqueKeys(members) && Unique(Get(Obj(members), "response"))
    ensures Settles(s, members, OnMember(Payload, allow, s, members[0]))
    ensures UniqueKeys(members[1..]) && Unique(Get(Obj(members[1..]), "response"))
  {
    HeadIsOnly(members);
    if members[0].key == "response" {
      ResponseSettles(allow, s, members);
    } else {
      TailIndex(members, "response");
      hide Settles, OnMember, IndexOf;
      if members[0].key == "type" {
        TypeSettles(allow, s, members);
      } else if members[0].key == "status" {
        StatusSettles(allow, s, members);
      } else {
        OtherSettles(allow, s, members);
      }
    }
  }

  lemma {:induction false} PayloadVisit(allow: bool, s: State, members: seq<Member>)
    requires Clean(s) && UniqueKeys(members) && Unique(Get(Obj(members), "response"))
    requires !Visit(Payload, allow, s, members).thrown
    ensures Visit(Payload, allow, s, members).calls == Calls(PayloadByOrder(s.status, Obj(members)))
    decreases |members|
  {
    if members == [] {
      assert PayloadByOrder(s.status, Obj(members)) == None;
    } else {
      MemberSettles(allow, s, members);
      var r := OnMember(Payload, allow, s, members[0]);
      hide OnMember, PayloadByOrder, Get;
      if !r.stop && !r.state.thrown {
        PayloadVisit(allow, r.state, members[1..]);
      }
    }
  }

  /** The handler found below a data object. */
  function DataByOrder(data: Json): Option<Handler> {
    PayloadByOrder(Undefined, Get(Get(data, "response"), "payload"))
  }

  lemma ResponseVisit(allow: bool, s: State, response: Json)
    requires Clean(s) && s.status.Undefined?
    requires var payload := Get(response, "payload");
             Unique(response) && Unique(payload) && Unique(Get(payload, "response"))
    requires !VisitValue(Response, allow, s, response).thrown
    ensures VisitValue(Response, allow, s, response).calls == Calls(PayloadByOrder(Undefined, Get(response, "payload")))
  {
    OneKey(Response, allow, s, response.members);
    assert PayloadByOrder(Undefined, Null) == None;
    var payload := Get(response, "payload");
    hide PayloadByOrder;
    if Has(response, "payload") {
      PayloadVisit(allow, s, payload.members);
    }
  }

  lemma DataVisit(allow: bool, s: State, data: Json)
    requires Clean(s) && s.status.Undefined? && UniqueBelow(data)
    requires !VisitValue(Data, allow, s, data).thrown
    ensures VisitValue(Data, allow, s, data).calls == Calls(DataByOrder(data))
  {
    OneKey(Data, allow, s, data.members);
    assert PayloadByOrder(Undefined, Null) == None;
    hide PayloadByOrder;
    if Has(data, "response") {
      ResponseVisit(allow, s, Get(data, "response"));
    }
  }

  /** The handler a message leads to in document order, given the channel carried into it. */
  function ByOrder(channel: Enum<Channel>, root: Json): Option<Handler> {
    var named := DecodeChannel(Get(root, "channel"));
    var carried := if Before(root, "channel", "data") then named else channel;
    if named.Known? && named.value.Direct? then Some(named.value.handler)
    else if carried == Known(Post) then DataByOrder(Get(root, "data"))
    else None
  }

  ghost predicate TopSettles(s: State, members: seq<Member>, r: Return)
    requires members != []
  {
    var h := ByOrder(s.channel, Obj(members));
    if r.stop || r.state.thrown then r.state.thrown || r.state.calls == Calls(h)
    else Carries(r.state, members[1..]) && h == ByOrder(r.state.channel, Obj(members[1..]))
  }

  /** What holds between members: nothing invoked, no status seen before the data, the channel
      seen at most once. */
  ghost predicate Carries(s: State, members: seq<Member>) {
    Clean(s) && UniqueKeys(members) && UniqueBelow(Get(Obj(members), "data"))
    && (Has(Obj(members), "data") ==> s.status.Undefined?)
    && (s.channel == Known(Post) ==> !Has(Obj(members), "channel"))
  }

  lemma ByOrderChannelFirst(channel: Enum<Channel>, members: seq<Member>)
    requires members != [] && UniqueKeys(members) && members[0].key == "channel"
    ensures var named := DecodeChannel(members[0].value);
            ByOrder(channel, Obj(members)) ==
            if named.Known? && named.value.Direct? then Some(named.value.handler) else ByOrder(named, Obj(members[1..]))
  {
    HeadIsOnly(members);
    TailIndex(members, "data");
    assert DecodeChannel(Null) == Undefined;
    hide DecodeChannel, IndexOf, DataByOrder;
  }

  lemma ChannelSettles(allow: bool, s: State, members: seq<Member>)
    requires members != [] && Carries(s, members) && members[0].key == "channel"
    ensures TopSettles(s, members, OnMember(Top, allow, s, members[0]))
  {
    HeadIsOnly(members);
    TailIndex(members, "data");
    ByOrderChannelFirst(s.channel, members);
    hide DecodeChannel, IndexOf, ByOrder, UniqueBelow, Get, UniqueKeys;
  }

  lemma ByOrderDataFirst(channel: Enum<Channel>, members: seq<Member>)
    requires members != [] && UniqueKeys(members) && members[0].key == "data"
    requires channel == Known(Post) ==> !Has(Obj(members), "channel")
    ensures channel == Known(Post) ==> ByOrder(channel, Obj(members)) == DataByOrder(members[0].value)
    ensures channel == Known(Post) ==> forall c :: ByOrder(c, Obj(members[1..])) == None
    ensures channel != Known(Post) ==> ByOrder(channel, Obj(members)) == ByOrder(channel, Obj(members[1..]))
  {
    HeadIsOnly(members);
    TailIndex(members, "channel");
    assert DecodeChannel(Null) == Undefined;
    assert DataByOrder(Null) == None;
    hide DecodeChannel, IndexOf, DataByOrder;
  }

  lemma DataSettles(allow: bool, s: State, members: seq<Member>)
    requires members != [] && Carries(s, members) && members[0].key == "data"
    ensures TopSettles(s, members, OnMember(Top, allow, s, members[0]))
  {
    HeadIsOnly(members);
    TailIndex(members, "channel");
    ByOrderDataFirst(s.channel, members);
    assert UniqueBelow(Null);
    MemberFaithful(Top, allow, s, members[0]);
    hide IndexOf, ByOrder, DataByOrder, UniqueBelow, UniqueKeys, VisitValue, Visit, DecodeChannel, Get;
    if s.channel == Known(Post) {
      assert OnMember(Top, allow, s, members[0]) == Continue(VisitValue(Data, allow, s, members[0].value));
      if !VisitValue(Data, allow, s, members[0].value).thrown {
        DataVisit(allow, s, members[0].value);
      }
    } else {
      assert OnMember(Top, allow, s, members[0]) == Continue(s);
    }
    hide OnMember;
  }

  lemma OtherTopSettles(allow: bool, s: State, members: seq<Member>)
    requires members != [] && Carries(s, members) && members[0].key != "data" && members[0].key != "channel"
    ensures TopSettles(s, members, OnMember(Top, allow, s, members[0]))
  {
    TailIndex(members, "data");
    TailIndex(members, "channel");
    HeadIsOnly(members);
    hide DecodeChannel, IndexOf, DataByOrder, UniqueBelow;
  }

  lemma {:induction false} TopVisit(allow: bool, s: State, members: seq<Member>)
    requires Carries(s, members) && !Visit(Top, allow, s, members).thrown
    ensures Visit(Top, allow, s, members).calls == Calls(ByOrder(s.channel, Obj(members)))
    decreases |members|
  {
    if members == [] {
      assert DataByOrder(Null) == None;
    } else {
      var r := OnMember(Top, allow, s, members[0]);
      if members[0].key == "channel" {
        ChannelSettles(allow, s, members);
      } else if members[0].key == "data" {
        DataSettles(allow, s, members);
      } else {
        OtherTopSettles(allow, s, members);
      }
      hide OnMember, ByOrder, Carries;
      if !r.stop && !r.state.thrown {
        TopVisit(allow, r.state, members[1..]);
      }
    }
  }

  // --- when document order and path lookup agree ---

  lemma ByOrderIsLookupPayloadIff(payload: Json)
    ensures PayloadByOrder(Undefined, payload) == LookupPayload(payload)
            <==> LookupPayload(payload) == None || PayloadInOrder(payload)
  {
    assert DecodeStatus(Null) == Undefined;
    hide DecodePayloadType, DecodeStatus, DecodeResponseType, IndexOf;
  }

  lemma RunByOrder(allow: bool, root: Json)
    requires UniqueOnPath(root) && !Run(allow, root).thrown
    ensures Run(allow, root).calls == Calls(ByOrder(Undefined, root))
  {
    assert root == Obj(root.members);
    TopVisit(allow, START, root.members);
  }

  lemma ByOrderIsLookupIff(root: Json)
    ensures ByOrder(Undefined, root) == Lookup(root) <==> Lookup(root) == None || InOrder(root)
  {
    var named := DecodeChannel(Get(root, "channel"));
    hide DecodeChannel, Before, PayloadByOrder, LookupPayload, PayloadInOrder, Get;
    if named == Known(Post) {
      ByOrderIsLookupPayloadIff(PayloadOf(root));
      assert Lookup(root) == LookupPayload(PayloadOf(root));
      if Before(root, "channel", "data") {
        assert ByOrder(Undefined, root) == PayloadByOrder(Undefined, PayloadOf(root));
      } else {
        assert ByOrder(Undefined, root) == None;
      }
    } else {
      assert ByOrder(Undefined, root) == Lookup(root);
    }
  }

  /** With unique keys on the path and no exception, the handler invoked is the one a path lookup
      gives iff there is none, or the channel comes before the data and the payload is in order. */
  lemma LookupIff(allow: bool, root: Json)
    requires UniqueOnPath(root) && !Run(allow, root).thrown
    ensures Run(allow, root).calls == Calls(Lookup(root)) <==> Lookup(root) == None || InOrder(root)
  {
    RunByOrder(allow, root);
    ByOrderIsLookupIff(root);
    hide Run, ByOrder, Lookup, InOrder, UniqueOnPath;
  }

  // --- two messages on which they differ ---

  lemma OneMember(level: Level, allow: bool, s: State, a: Member)
    ensures Visit(level, allow, s, [a]) == OnMember(level, allow, s, a).state
  {
    hide OnMember;
  }

  lemma TwoMembers(level: Level, allow: bool, s: State, a: Member, b: Member)
    ensures var r := OnMember(level, allow, s, a);
            Visit(level, allow, s, [a, b])
            == if r.stop || r.state.thrown then r.state else OnMember(level, allow, r.state, b).state
  {
    hide OnMember;
    assert [a, b][1..] == [b];
    OneMember(level, allow, OnMember(level, allow, s, a).state, b);
  }

  const POST_CHANNEL := Member("channel", Str("post"))

  const ERR_STATUS := Member("status", Str("err"))

  const ERR_RESPONSE := Member("response", Str("Order does not exist"))

  const ERR_PAYLOAD := Obj([ERR_STATUS, ERR_RESPONSE])

  const ERR_DATA := Member("data", Obj([Member("response", Obj([Member("payload", ERR_PAYLOAD)]))]))

  lemma ErrDataInvokesError(allow: bool, s: State)
    requires Clean(s)
    ensures Continue(VisitValue(Data, allow, s, ERR_DATA.value))
         == Invoke(s.(status := Known(Err)), ActionError)
  {
    var response := ERR_DATA.value.members[0];
    var payload := response.value.members[0];
    OneMember(Data, allow, s, response);
    OneMember(Response, allow, s, payload);
    TwoMembers(Payload, allow, s, ERR_STATUS, ERR_RESPONSE);
    hide Visit;
  }

  /** The same error reply is found by its paths in both orders of channel and data, and handled in one. */
  lemma DataBeforeChannel(allow: bool)
    ensures Run(allow, Obj([POST_CHANNEL, ERR_DATA])).calls == [ActionError]
    ensures Run(allow, Obj([ERR_DATA, POST_CHANNEL])).calls == []
    ensures Lookup(Obj([ERR_DATA, POST_CHANNEL])) == Some(ActionError)
  {
    TwoMembers(Top, allow, START, POST_CHANNEL, ERR_DATA);
    TwoMembers(Top, allow, START, ERR_DATA, POST_CHANNEL);
    var post := START.(channel := Known(Post));
    assert OnMember(Top, allow, START, POST_CHANNEL) == Continue(post);
    assert OnMember(Top, allow, START, ERR_DATA) == Continue(START);
    ErrDataInvokesError(allow, post);
    assert OnMember(Top, allow, post, ERR_DATA) == Invoke(post.(status := Known(Err)), ActionError);
    assert Visit(Top, allow, START, [POST_CHANNEL, ERR_DATA]).calls == [ActionError];
    ErrLookup();
    hide Visit, OnMember, Lookup;
  }

  lemma TwoKeys(a: Member, b: Member, key: string)
    requires a.key != b.key
    ensures var v := Obj([a, b]);
            && Get(v, key) == (if key == a.key then a.value else if key == b.key then b.value else Null)
            && Has(v, key) == (key == a.key || key == b.key)
  {
    assert [a, b][1..] == [b];
    assert IndexOf([b], key) == if b.key == key then 0 else 1;
  }

  lemma ErrLookup()
    ensures Lookup(Obj([ERR_DATA, POST_CHANNEL])) == Some(ActionError)
  {
    var response := ERR_DATA.value.members[0].value;
    assert Get(ERR_DATA.value, "response") == response;
    assert Get(response, "payload") == ERR_PAYLOAD;
    TwoKeys(ERR_DATA, POST_CHANNEL, "channel");
    TwoKeys(ERR_DATA, POST_CHANNEL, "data");
    TwoKeys(ERR_STATUS, ERR_RESPONSE, "type");
    TwoKeys(ERR_STATUS, ERR_RESPONSE, "status");
    TwoKeys(ERR_STATUS, ERR_RESPONSE, "response");
    hide Get, Has;
  }
}
