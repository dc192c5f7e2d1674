/** The streaming parser in terms of the texts of a message: which handler, when it throws, how it ends. */
module StreamTexts {
  import opened JsonTree
  import opened Options
  import opened ParserOutcome
  import opened StreamParser
  import opened StreamLookup

  // --- the texts ---

  /** Handlers that the channel alone selects. */
  predicate IsDirect(h: Handler) { !(h.SpotMeta? || h.ActionOrder? || h.ActionCancel? || h.ActionError?) }

  /** The channel text of each direct handler. */
  function ChannelText(h: Handler): string
    requires IsDirect(h)
  {
    match h
    case Pong => "pong"
    case Error => "error"
    case SubscriptionResponse => "subscriptionResponse"
    case Bbo => "bbo"
    case L2Book => "l2Book"
    case Trades => "trades"
    case ActiveAssetCtx => "activeAssetCtx"
    case User => "user"
    case UserFundings => "userFundings"
    case UserFills => "userFills"
    case OrderUpdates => "orderUpdates"
    case Notification => "notification"
  }

  lemma TextToHandler(h: Handler)
    requires IsDirect(h)
    ensures DecodeChannel(Str(ChannelText(h))) == Known(Direct(h))
  {
    assert "pong"[0] != "user"[0] && "post"[0] != "user"[0];
    assert "l2Book"[0] != "trades"[0];
    assert "userFundings"[0] != "orderUpdates"[0] && "userFundings"[0] != "notification"[0];
    assert "orderUpdates"[0] != "notification"[0];
  }

  lemma HandlerToText(v: Json)
    ensures var d := DecodeChannel(v);
            d.Known? && d.value.Direct? ==> IsDirect(d.value.handler) && v == Str(ChannelText(d.value.handler))
    ensures DecodeChannel(v) == Known(Post) <==> v == Str("post")
  {
    assert "pong"[2] != "post"[2];
  }

  /** The decoder gives a direct handler iff the value is its text, and `post` iff it is "post". */
  lemma ChannelTexts(v: Json, h: Handler)
    ensures IsDirect(h) ==> (DecodeChannel(v) == Known(Direct(h)) <==> v == Str(ChannelText(h)))
    ensures !IsDirect(h) ==> DecodeChannel(v) != Known(Direct(h))
    ensures DecodeChannel(v) == Known(Post) <==> v == Str("post")
  {
    hide DecodeChannel, ChannelText;
    HandlerToText(v);
    if IsDirect(h) { TextToHandler(h); }
  }

  lemma OtherTexts(v: Json)
    ensures DecodeStatus(v) == Known(Ok) <==> v == Str("ok")
    ensures DecodeStatus(v) == Known(Err) <==> v == Str("err")
    ensures DecodeResponseType(v) == Known(OrderResponse) <==> v == Str("order")
    ensures DecodeResponseType(v) == Known(CancelResponse) <==> v == Str("cancel")
    ensures DecodePayloadType(v) == Known(SpotMetaPayload) <==> v == Str("spotMeta")
  {
    assert "order"[0] != "error"[0] && "cancel"[0] != "action"[0] && "spotMeta"[0] != "action"[0];
  }

  /** What a payload must hold for a handler, in the texts of its members. */
  predicate PayloadAsksFor(p: Json, h: Handler) {
    match h
    case SpotMeta => Get(p, "type") == Str("spotMeta")
    case ActionError =>
      Get(p, "type") != Str("spotMeta") && Has(p, "response") && Get(p, "status") == Str("err")
    case ActionOrder =>
      && Get(p, "type") != Str("spotMeta") && Has(p, "response") && Get(p, "status") == Str("ok")
      && Get(Get(p, "response"), "type") == Str("order")
    case ActionCancel =>
      && Get(p, "type") != Str("spotMeta") && Has(p, "response") && Get(p, "status") == Str("ok")
      && Get(Get(p, "response"), "type") == Str("cancel")
    case _ => false
  }

  /** What a message must hold for a handler. */
  predicate AsksFor(root: Json, h: Handler) {
    if IsDirect(h) then Get(root, "channel") == Str(ChannelText(h))
    else Get(root, "channel") == Str("post") && PayloadAsksFor(PayloadOf(root), h)
  }

  lemma PayloadLookupIsAsked(p: Json, h: Handler)
    ensures LookupPayload(p) == Some(h) <==> PayloadAsksFor(p, h)
  {
    hide DecodeStatus, DecodeResponseType, DecodePayloadType, Get, Has;
    var t, status, inner := Get(p, "type"), Get(p, "status"), Get(Get(p, "response"), "type");
    OtherTexts(t);
    OtherTexts(status);
    OtherTexts(inner);
    assert "order"[0] != "cancel"[0] && "ok"[0] != "err"[0];
  }

  lemma LookupIsAsked(root: Json, h: Handler)
    ensures Lookup(root) == Some(h) <==> AsksFor(root, h)
  {
    hide DecodeChannel, LookupPayload, PayloadAsksFor, Get, ChannelText, PayloadOf;
    ChannelTexts(Get(root, "channel"), h);
    PayloadLookupIsAsked(PayloadOf(root), h);
    DirectNotAsked(PayloadOf(root), h);
    NotBoth(Get(root, "channel"), h);
  }

  lemma DirectNotAsked(p: Json, h: Handler)
    ensures IsDirect(h) ==> !PayloadAsksFor(p, h)
  {
  }

  lemma NotBoth(v: Json, h: Handler)
    ensures IsDirect(h) && v == Str(ChannelText(h)) ==> DecodeChannel(v) != Known(Post)
  {
    hide DecodeChannel, ChannelText;
    ChannelTexts(v, h);
  }

  /** Below the top level only the other four handlers are invoked. */
  ghost predicate Nested(s: State) { forall h :: h in s.calls ==> !IsDirect(h) }

  lemma {:induction false} MemberNested(level: Level, allow: bool, s: State, m: Member)
    requires level != Top && Nested(s)
    ensures Nested(OnMember(level, allow, s, m).state)
    decreases Rank(level), 0, 0
  {
    hide DecodeStatus, DecodeResponseType, DecodePayloadType;
    match level
    case Inner =>
    case Payload => if m.value.Obj? { VisitNested(Inner, allow, s, m.value.members); }
    case Response => if m.value.Obj? { VisitNested(Payload, allow, s, m.value.members); }
    case Data => if m.value.Obj? { VisitNested(Response, allow, s, m.value.members); }
  }

  lemma {:induction false} VisitNested(level: Level, allow: bool, s: State, members: seq<Member>)
    requires level != Top && Nested(s)
    ensures Nested(Visit(level, allow, s, members))
    decreases Rank(level), 1, |members|
  {
    if members != [] {
      MemberNested(level, allow, s, members[0]);
      var r := OnMember(level, allow, s, members[0]);
      hide OnMember;
      if !r.stop && !r.state.thrown {
        VisitNested(level, allow, r.state, members[1..]);
      }
    }
  }

  /** One callback of the outer object: it invokes a direct handler iff it is the channel member naming
      that handler, and then ends the visit; otherwise the visit goes on or has no direct handler. */
  lemma TopMember(allow: bool, s: State, m: Member, h: Handler)
    requires Clean(s) && IsDirect(h)
    ensures var r := OnMember(Top, allow, s, m);
            if m.key == "channel" && m.value == Str(ChannelText(h)) then r.stop && r.state.calls == [h]
            else h !in r.state.calls
    ensures var r := OnMember(Top, allow, s, m);
            r.stop || r.state.thrown ==> m.key == "channel" || (m.key == "data" && s.channel == Known(Post))
    ensures m.key != "channel" && s.channel != Known(Post) ==> OnMember(Top, allow, s, m).state.channel != Known(Post)
  {
    ChannelTexts(m.value, h);
    hide DecodeChannel, ChannelText;
    if m.key == "data" && m.value.Obj? {
      VisitNested(Data, allow, s, m.value.members);
    }
  }

  lemma {:induction false} DirectVisit(allow: bool, s: State, members: seq<Member>, h: Handler)
    requires Clean(s) && IsDirect(h) && UniqueKeys(members)
    requires s.channel == Known(Post) ==> !Has(Obj(members), "channel")
    ensures Visit(Top, allow, s, members).calls == [h] <==> Get(Obj(members), "channel") == Str(ChannelText(h))
    decreases |members|
  {
    hide ChannelText;
    if members != [] {
      var m := members[0];
      HeadIsOnly(members);
      if m.key != "channel" { TailIndex(members, "channel"); }
      TopMember(allow, s, m, h);
      MemberFaithful(Top, allow, s, m);
      var r := OnMember(Top, allow, s, m);
      hide OnMember, IndexOf;
      if !r.stop && !r.state.thrown {
        DirectVisit(allow, r.state, members[1..], h);
      }
    }
  }

  /** For every message whose own keys are unique, whatever else it holds and in whatever order: a
      handler that the channel selects is invoked, alone, iff the channel is its text. */
  lemma DirectIff(allow: bool, root: Json, h: Handler)
    requires Unique(root) && IsDirect(h)
    ensures Run(allow, root).calls == [h] <==> Get(root, "channel") == Str(ChannelText(h))
  {
    hide ChannelText;
    if root.Obj? {
      assert root == Obj(root.members);
      DirectVisit(allow, START, root.members, h);
    }
  }

  /** In terms of texts alone: with unique keys on the path, members in order and no exception, a
      handler is invoked iff the message asks for it. */
  lemma RunIsAsked(allow: bool, root: Json, h: Handler)
    requires UniqueOnPath(root) && InOrder(root) && !Throws(root)
    ensures Run(allow, root).calls == [h] <==> AsksFor(root, h)
  {
    hide Run, Lookup, InOrder, UniqueOnPath, AsksFor, Throws;
    ThrowsIff(allow, root);
    LookupIff(allow, root);
    LookupIsAsked(root, h);
  }

  // --- exceptions ---

  /** No text and not null: what an enumeration throws on. */
  predicate Untextual(v: Json) { !v.Null? && !v.Str? }

  lemma DecodersThrow(v: Json)
    ensures DecodeChannel(v).BadType? <==> Untextual(v)
    ensures DecodeStatus(v).BadType? <==> Untextual(v)
    ensures DecodeResponseType(v).BadType? <==> Untextual(v)
    ensures DecodePayloadType(v).BadType? <==> Untextual(v)
  {
  }

  predicate InnerThrows(inner: Json) { !inner.Obj? || Untextual(Get(inner, "type")) }

  /** A payload throws iff it is no object, or a callback meets a value it cannot use before the visit
      ends, which it does at a spotMeta type or at a response to a known status. */
  predicate PayloadThrows(status: Enum<Status>, p: Json) {
    var carried := if Before(p, "status", "response") then DecodeStatus(Get(p, "status")) else status;
    var responds := Has(p, "response") && carried.Known?;
    var spotMeta := Get(p, "type") == Str("spotMeta");
    || !p.Obj?
    || (Untextual(Get(p, "type")) && !(responds && Before(p, "response", "type")))
    || (Untextual(Get(p, "status"))
        && !(responds && Before(p, "response", "status")) && !(spotMeta && Before(p, "type", "status")))
    || (responds && carried == Known(Ok) && InnerThrows(Get(p, "response"))
        && !(spotMeta && Before(p, "type", "response")))
  }

  predicate ResponseThrows(response: Json) {
    !response.Obj? || (Has(response, "payload") && PayloadThrows(Undefined, Get(response, "payload")))
  }

  predicate DataThrows(data: Json) {
    !data.Obj? || (Has(data, "response") && ResponseThrows(Get(data, "response")))
  }

  /** A message throws iff it is no object, its channel is no text, or its data comes after the channel
      "post" and throws. */
  predicate Throws(root: Json) {
    || !root.Obj?
    || Untextual(Get(root, "channel"))
    || (Get(root, "channel") == Str("post") && Has(root, "data") && Before(root, "channel", "data")
        && DataThrows(Get(root, "data")))
  }

  lemma InnerThrowsIff(allow: bool, s: State, inner: Json)
    requires Clean(s) && Unique(inner)
    ensures VisitValue(Inner, allow, s, inner).thrown <==> InnerThrows(inner)
  {
    if inner.Obj? {
      OneKey(Inner, allow, s, inner.members);
      DecodersThrow(Get(inner, "type"));
    }
    hide Visit, DecodeResponseType;
  }

  lemma ThrowsTypeFirst(status: Enum<Status>, members: seq<Member>)
    requires members != [] && UniqueKeys(members) && members[0].key == "type"
    ensures PayloadThrows(status, Obj(members)) <==>
            Untextual(members[0].value)
            || (members[0].value != Str("spotMeta") && PayloadThrows(status, Obj(members[1..])))
  {
    HeadIsOnly(members);
    TailIndex(members, "status");
    TailIndex(members, "response");
    hide DecodeStatus, InnerThrows, IndexOf;
  }

  lemma ThrowsStatusFirst(status: Enum<Status>, members: seq<Member>)
    requires members != [] && UniqueKeys(members) && members[0].key == "status"
    ensures PayloadThrows(status, Obj(members)) <==>
            Untextual(members[0].value) || PayloadThrows(DecodeStatus(members[0].value), Obj(members[1..]))
  {
    HeadIsOnly(members);
    TailIndex(members, "type");
    TailIndex(members, "response");
    hide DecodeStatus, InnerThrows, IndexOf;
  }

  lemma ThrowsResponseFirst(status: Enum<Status>, members: seq<Member>)
    requires members != [] && UniqueKeys(members) && members[0].key == "response"
    ensures PayloadThrows(status, Obj(members)) <==>
            if status.Known? then status == Known(Ok) && InnerThrows(members[0].value)
            else PayloadThrows(status, Obj(members[1..]))
  {
    HeadIsOnly(members);
    TailIndex(members, "type");
    TailIndex(members, "status");
    hide DecodeStatus, InnerThrows, IndexOf;
  }

  lemma TailBefore(members: seq<Member>, a: string, b: string)
    requires members != [] && members[0].key != a && members[0].key != b
    ensures Before(Obj(members), a, b) == Before(Obj(members[1..]), a, b)
  {
    TailIndex(members, a);
    TailIndex(members, b);
    hide IndexOf;
  }

  lemma ThrowsOtherFirst(status: Enum<Status>, members: seq<Member>)
    requires members != [] && UniqueKeys(members)
    requires members[0].key != "type" && members[0].key != "status" && members[0].key != "response"
    ensures PayloadThrows(status, Obj(members)) <==> PayloadThrows(status, Obj(members[1..]))
  {
    hide DecodeStatus, InnerThrows, IndexOf, UniqueKeys, Get, Has, Untextual, Before;
    TailIndex(members, "type");
    TailIndex(members, "status");
    TailIndex(members, "response");
    TailBefore(members, "status", "response");
    TailBefore(members, "response", "type");
    TailBefore(members, "response", "status");
    TailBefore(members, "type", "status");
    TailBefore(members, "type", "response");
  }

  /** One callback throws, or ends the visit without, or leaves the question to the remaining members. */
  ghost predicate ThrowSettles(s: State, members: seq<Member>, r: Return)
    requires members != []
  {
    var throws := PayloadThrows(s.status, Obj(members));
    if r.stop || r.state.thrown then r.state.thrown <==> throws
    else Clean(r.state) && (throws <==> PayloadThrows(r.state.status, Obj(members[1..])))
  }

  lemma MemberThrowSettles(allow: bool, s: State, members: seq<Member>)
    requires Clean(s) && members != [] && UniqueKeys(members) && Unique(Get(Obj(members), "response"))
    ensures ThrowSettles(s, members, OnMember(Payload, allow, s, members[0]))
    ensures UniqueKeys(members[1..]) && Unique(Get(Obj(members[1..]), "response"))
  {
    HeadIsOnly(members);
    var m := members[0];
    if m.key != "response" { TailIndex(members, "response"); }
    OtherTexts(m.value);
    DecodersThrow(m.value);
    hide PayloadThrows, IndexOf, DecodeStatus, DecodePayloadType, InnerThrows, VisitValue, UniqueKeys, Get;
    if m.key == "type" {
      ThrowsTypeFirst(s.status, members);
    } else if m.key == "status" {
      ThrowsStatusFirst(s.status, members);
    } else if m.key == "response" {
      ThrowsResponseFirst(s.status, members);
      if s.status == Known(Ok) {
        InnerThrowsIff(allow, s, m.value);
      }
    } else {
      ThrowsOtherFirst(s.status, members);
    }
  }

  lemma {:induction false} PayloadThrowsIff(allow: bool, s: State, members: seq<Member>)
    requires Clean(s) && UniqueKeys(members) && Unique(Get(Obj(members), "response"))
    ensures Visit(Payload, allow, s, members).thrown <==> PayloadThrows(s.status, Obj(members))
    decreases |members|
  {
    if members != [] {
      MemberThrowSettles(allow, s, members);
      var r := OnMember(Payload, allow, s, members[0]);
      hide OnMember, PayloadThrows, Get;
      if !r.stop && !r.state.thrown {
        PayloadThrowsIff(allow, r.state, members[1..]);
      }
    }
  }

  lemma ResponseThrowsIff(allow: bool, s: State, response: Json)
    requires Clean(s) && s.status.Undefined?
    requires var payload := Get(response, "payload");
             Unique(response) && Unique(payload) && Unique(Get(payload, "response"))
    ensures VisitValue(Response, allow, s, response).thrown <==> ResponseThrows(response)
  {
    if response.Obj? {
      OneKey(Response, allow, s, response.members);
      var payload := Get(response, "payload");
      hide PayloadThrows;
      if Has(response, "payload") && payload.Obj? {
        PayloadThrowsIff(allow, s, payload.members);
      } else if !payload.Obj? {
        NoObjectThrows(payload);
      }
    }
  }

  lemma NoObjectThrows(payload: Json)
    requires !payload.Obj?
    ensures PayloadThrows(Undefined, payload)
  {
  }

  lemma DataThrowsIff(allow: bool, s: State, data: Json)
    requires Clean(s) && s.status.Undefined? && UniqueBelow(data)
    ensures VisitValue(Data, allow, s, data).thrown <==> DataThrows(data)
  {
    if data.Obj? {
      OneKey(Data, allow, s, data.members);
      hide ResponseThrows;
      if Has(data, "response") {
        ResponseThrowsIff(allow, s, Get(data, "response"));
      }
    }
  }

  /** What remains to throw once `channel` has been seen, or not. */
  predicate ThrowsFrom(channel: Enum<Channel>, root: Json) {
    var named := DecodeChannel(Get(root, "channel"));
    var carried := if Before(root, "channel", "data") then named else channel;
    Untextual(Get(root, "channel")) || (carried == Known(Post) && Has(root, "data") && DataThrows(Get(root, "data")))
  }

  lemma ChannelThrowSettles(allow: bool, s: State, members: seq<Member>)
    requires members != [] && Carries(s, members) && members[0].key == "channel"
    ensures var r := OnMember(Top, allow, s, members[0]);
            var throws := ThrowsFrom(s.channel, Obj(members));
            if r.stop || r.state.thrown then r.state.thrown <==> throws
            else throws <==> ThrowsFrom(r.state.channel, Obj(members[1..]))
  {
    HeadIsOnly(members);
    TailIndex(members, "data");
    DecodersThrow(members[0].value);
    assert DecodeChannel(Null) == Undefined;
    hide DecodeChannel, IndexOf, DataThrows, UniqueBelow, UniqueKeys;
  }

  lemma DataThrowSettles(allow: bool, s: State, members: seq<Member>)
    requires members != [] && Carries(s, members) && members[0].key == "data"
    ensures var r := OnMember(Top, allow, s, members[0]);
            var throws := ThrowsFrom(s.channel, Obj(members));
            if r.stop || r.state.thrown then r.state.thrown <==> throws
            else throws <==> ThrowsFrom(r.state.channel, Obj(members[1..]))
  {
    HeadIsOnly(members);
    TailIndex(members, "channel");
    MemberFaithful(Top, allow, s, members[0]);
    assert DecodeChannel(Null) == Undefined;
    if s.channel == Known(Post) { DataThrowsIff(allow, s, members[0].value); }
    hide DecodeChannel, IndexOf, DataThrows, UniqueBelow, UniqueKeys, VisitValue;
  }

  lemma OtherThrowSettles(allow: bool, s: State, members: seq<Member>)
    requires members != [] && Carries(s, members) && members[0].key != "data" && members[0].key != "channel"
    ensures ThrowsFrom(s.channel, Obj(members)) <==> ThrowsFrom(s.channel, Obj(members[1..]))
  {
    TailIndex(members, "data");
    TailIndex(members, "channel");
    hide DecodeChannel, IndexOf, DataThrows, UniqueBelow, UniqueKeys;
  }

  lemma {:induction false} TopThrowsIff(allow: bool, s: State, members: seq<Member>)
    requires Carries(s, members)
    ensures Visit(Top, allow, s, members).thrown <==> ThrowsFrom(s.channel, Obj(members))
    decreases |members|
  {
    if members == [] {
      assert DecodeChannel(Null) == Undefined;
    } else {
      var r := OnMember(Top, allow, s, members[0]);
      if members[0].key == "channel" {
        ChannelSettles(allow, s, members);
        ChannelThrowSettles(allow, s, members);
      } else if members[0].key == "data" {
        DataSettles(allow, s, members);
        DataThrowSettles(allow, s, members);
      } else {
        OtherTopSettles(allow, s, members);
        OtherThrowSettles(allow, s, members);
      }
      hide OnMember, ByOrder, Carries, ThrowsFrom;
      if !r.stop && !r.state.thrown {
        TopThrowsIff(allow, r.state, members[1..]);
      }
    }
  }

  /** With unique keys on the path: exactly the messages that throw. */
  lemma ThrowsIff(allow: bool, root: Json)
    requires UniqueOnPath(root)
    ensures Run(allow, root).thrown <==> Throws(root)
  {
    ChannelTexts(Get(root, "channel"), Pong);
    hide DataThrows, DecodeChannel;
    if root.Obj? {
      assert root == Obj(root.members);
      TopThrowsIff(allow, START, root.members);
    }
  }

  // --- how a dispatch ends ---

  /** True iff a handler was invoked; without one, and without an exception, fatal unless unknown types
      are allowed. */
  lemma OutcomeIff(allow: bool, root: Json)
    ensures var s := Run(allow, root);
            var outcome := Conclude(allow, s.result, s.thrown);
            && (outcome == Threw <==> s.thrown)
            && (outcome == Returned(true) <==> s.calls != [])
            && (outcome == Returned(false) <==> allow && !s.thrown && s.calls == [])
            && (outcome == Fatal <==> !allow && !s.thrown && s.calls == [])
  {
    if root.Obj? {
      VisitFaithful(Top, allow, START, root.members);
    }
  }
}
