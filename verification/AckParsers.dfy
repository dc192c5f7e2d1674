/** Dispatch of replies to create and cancel requests: protocol/json/create_order_ack_parser.cpp and
    cancel_order_ack_parser.cpp. The two share everything but what they do with the statuses.

    The visiting order and key hashing assumptions are those of StreamParser. */
module AckParsers {
  import opened JsonTree
  import opened ParserOutcome

  datatype Kind = Create | Cancel

  /** What the handler is given: the acknowledgement of the parser's kind, or a general error. */
  datatype Delivery = OrderAck | GeneralError

  datatype State = State(result: bool, deliveries: seq<Delivery>, thrown: bool)

  datatype Return = Return(state: State, stop: bool)

  function Deliver(s: State, d: Delivery): Return { Return(State(true, s.deliveries + [d], s.thrown), true) }

  function Throw(s: State): Return { Return(s.(thrown := true), true) }

  function Continue(s: State): Return { Return(s, s.result) }

  predicate AllStrings(items: seq<Json>) { forall i :: 0 <= i < |items| ==> items[i].Str? }

  /** The objects on the path response / data / statuses, innermost first. */
  datatype Level = Data | Response | Top

  function Rank(level: Level): nat {
    match level case Data => 0 case Response => 1 case Top => 2
  }

  function OnMember(kind: Kind, level: Level, s: State, m: Member): Return
    decreases Rank(level), 1, 0
  {
    match level
    case Data =>
      if m.key != "statuses" then Continue(s)
      else if kind.Create? then Deliver(s, OrderAck)
      else if !m.value.Arr? then Throw(s)
      else if AllStrings(m.value.items) then Return(s.(result := true), true)
      else Deliver(s, OrderAck)
    case Response =>
      if m.key == "data" then Continue(VisitValue(kind, Data, s, m.value)) else Continue(s)
    case Top =>
      if m.key != "response" then Continue(s)
      else if m.value.Str? then Deliver(s, GeneralError)
      else if m.value.Obj? then Return(VisitValue(kind, Response, s, m.value), true)
      else Return(s, false)
  }

  function Visit(kind: Kind, level: Level, s: State, members: seq<Member>): State
    decreases Rank(level), 2, |members|
  {
    if members == [] then s
    else
      var r := OnMember(kind, level, s, members[0]);
      if r.stop || r.state.thrown then r.state else Visit(kind, level, r.state, members[1..])
  }

  function VisitValue(kind: Kind, level: Level, s: State, v: Json): State
    decreases Rank(level), 3, 0
  {
    if v.Obj? then Visit(kind, level, s, v.members) else s.(thrown := true)
  }

  const START := State(false, [], false)

  function Run(kind: Kind, root: Json): State { VisitValue(kind, Top, START, root) }

  // --- the parsers as the source runs them ---

  class AckParser {
    const kind: Kind
    var result: bool
    var deliveries: seq<Delivery>
    var thrown: bool

    constructor (kind: Kind)
      ensures this.kind == kind && Abstract() == START
    {
      this.kind := kind;
      result, deliveries, thrown := false, [], false;
    }

    function Abstract(): State
      reads this
    {
      State(result, deliveries, thrown)
    }

    static method IsArrayOfString(items: seq<Json>) returns (r: bool)
      ensures r <==> AllStrings(items)
    {
      r := true;
      for i := 0 to |items|
        invariant r && AllStrings(items[..i])
      {
        assert items[i] == items[..i + 1][i];
        if !items[i].Str? {
          return false;
        }
      }
      assert items[..|items|] == items;
    }

    method DispatchHelper(d: Delivery)
      modifies this
      ensures Abstract() == Deliver(old(Abstract()), d).state
    {
      deliveries := deliveries + [d];
      result := true;
    }

    method DataHelper(m: Member) returns (stop: bool)
      modifies this
      ensures Return(Abstract(), stop) == OnMember(kind, Data, old(Abstract()), m)
      decreases Rank(Data), 0, 0
    {
      if m.key == "statuses" {
        if kind.Create? {
          DispatchHelper(OrderAck);
          return true;
        }
        if !m.value.Arr? {
          thrown := true;
          return true;
        }
        var strings := IsArrayOfString(m.value.items);
        if strings {
          result := true;
        } else {
          DispatchHelper(OrderAck);
        }
        return true;
      }
      return result;
    }

    method Callback(level: Level, m: Member) returns (stop: bool)
      modifies this
      ensures Return(Abstract(), stop) == OnMember(kind, level, old(Abstract()), m)
      decreases Rank(level), 1, 0
    {
      match level
      case Data => stop := DataHelper(m);
      case Response =>
        if m.key == "data" {
          VisitObject(Data, m.value);
        }
        return result;
      case Top =>
        if m.key == "response" {
          if m.value.Str? {
            DispatchHelper(GeneralError);
            return true;
          }
          if m.value.Obj? {
            VisitObject(Response, m.value);
            return true;
          }
          return false;
        }
        return result;
    }

    method VisitObject(level: Level, v: Json)
      modifies this
      ensures Abstract() == VisitValue(kind, level, old(Abstract()), v)
      decreases Rank(level), 2, 0
    {
      if !v.Obj? {
        thrown := true;
        return;
      }
      var i := 0;
      while i < |v.members|
        invariant 0 <= i <= |v.members|
        invariant Visit(kind, level, old(Abstract()), v.members) == Visit(kind, level, Abstract(), v.members[i..])
      {
        assert v.members[i..][0] == v.members[i] && v.members[i..][1..] == v.members[i + 1..];
        var stop := Callback(level, v.members[i]);
        if stop || thrown {
          return;
        }
        i := i + 1;
      }
    }

    method Dispatch(allow: bool, root: Json) returns (outcome: Outcome)
      requires Abstract() == START
      modifies this
      ensures Abstract() == Run(kind, root) && outcome == Conclude(allow, result, thrown)
    {
      VisitObject(Top, root);
      if thrown {
        return Threw;
      }
      if result || allow {
        return Returned(result);
      }
      return Fatal;
    }
  }

  // --- every reply ---

  ghost predicate Clean(s: State) { s == START }

  ghost predicate Faithful(kind: Kind, s: State) {
    && |s.deliveries| <= 1
    && (s.deliveries != [] ==> s.result)
    && (kind.Create? && s.result ==> s.deliveries != [])
    && (s.thrown ==> !s.result)
  }

  lemma {:induction false} MemberFaithful(kind: Kind, level: Level, s: State, m: Member)
    requires Clean(s)
    ensures var r := OnMember(kind, level, s, m);
            Faithful(kind, r.state) && (r.stop || r.state.thrown || Clean(r.state))
    decreases Rank(level), 0, 0
  {
    match level
    case Data =>
    case Response => if m.value.Obj? { VisitFaithful(kind, Data, s, m.value.members); }
    case Top => if m.value.Obj? { VisitFaithful(kind, Response, s, m.value.members); }
  }

  lemma {:induction false} VisitFaithful(kind: Kind, level: Level, s: State, members: seq<Member>)
    requires Clean(s)
    ensures Faithful(kind, Visit(kind, level, s, members))
    decreases Rank(level), 1, |members|
  {
    if members != [] {
      MemberFaithful(kind, level, s, members[0]);
      var r := OnMember(kind, level, s, members[0]);
      if !r.stop && !r.state.thrown {
        VisitFaithful(kind, level, r.state, members[1..]);
      }
    }
  }

  /** For every tree: nothing is delivered twice, nothing is delivered unreported, and a create
      reply reported as handled was delivered. */
  lemma DeliveredAtMostOnce(kind: Kind, root: Json)
    ensures Faithful(kind, Run(kind, root))
  {
    if root.Obj? {
      VisitFaithful(kind, Top, START, root.members);
    }
  }

  /** A reply that is not handled is fatal unless unknown types are allowed. */
  lemma OutcomeIff(kind: Kind, allow: bool, root: Json)
    ensures var s := Run(kind, root);
            var outcome := Conclude(allow, s.result, s.thrown);
            && (outcome == Threw <==> s.thrown)
            && (outcome == Returned(true) <==> s.result)
            && (outcome == Returned(false) <==> allow && !s.thrown && !s.result)
            && (outcome == Fatal <==> !allow && !s.thrown && !s.result)
  {
    DeliveredAtMostOnce(kind, root);
  }

  // --- path lookup ---

  function KeyOf(level: Level): string {
    match level case Data => "statuses" case Response => "data" case Top => "response"
  }

  lemma {:induction false} NothingToSee(kind: Kind, level: Level, members: seq<Member>)
    requires IndexOf(members, KeyOf(level)) == |members|
    ensures Visit(kind, level, START, members) == START
  {
    if members != [] {
      assert members[0].key != KeyOf(level);
      assert IndexOf(members, KeyOf(level)) == 1 + IndexOf(members[1..], KeyOf(level));
      NothingToSee(kind, level, members[1..]);
    }
  }

  /** With unique keys a visit does what the callback does for the one key of its level. */
  lemma {:induction false} OneKey(kind: Kind, level: Level, members: seq<Member>)
    requires UniqueKeys(members)
    ensures var i := IndexOf(members, KeyOf(level));
            Visit(kind, level, START, members) ==
            if i < |members| then OnMember(kind, level, START, members[i]).state else START
  {
    if members != [] {
      var m := members[0];
      assert forall j :: 0 <= j < |members[1..]| ==> members[1..][j] == members[j + 1];
      if m.key == KeyOf(level) {
        MemberFaithful(kind, level, START, m);
        var r := OnMember(kind, level, START, m);
        if !r.stop && !r.state.thrown {
          NothingToSee(kind, level, members[1..]);
        }
      } else {
        OneKey(kind, level, members[1..]);
      }
    }
  }

  ghost predicate UniqueOnPath(root: Json) {
    var response := Get(root, "response");
    Unique(root) && Unique(response) && Unique(Get(response, "data"))
  }

  const DELIVERED := State(true, [OrderAck], false)

  /** What becomes of a statuses value. */
  function Acknowledge(kind: Kind, statuses: Json): State {
    if kind.Create? then DELIVERED
    else if !statuses.Arr? then START.(thrown := true)
    else if AllStrings(statuses.items) then START.(result := true)
    else DELIVERED
  }

  /** The result of a reply, by its paths alone. */
  function Lookup(kind: Kind, root: Json): State {
    var response := Get(root, "response");
    var data := Get(response, "data");
    if !root.Obj? then START.(thrown := true)
    else if response.Str? then State(true, [GeneralError], false)
    else if !Has(response, "data") then START
    else if !data.Obj? then START.(thrown := true)
    else if !Has(data, "statuses") then START
    else Acknowledge(kind, Get(data, "statuses"))
  }

  /** With unique keys on the path, in whatever order, the parser computes the path lookup. */
  lemma RunIsLookup(kind: Kind, root: Json)
    requires UniqueOnPath(root)
    ensures Run(kind, root) == Lookup(kind, root)
  {
    var response := Get(root, "response");
    var data := Get(response, "data");
    if root.Obj? { OneKey(kind, Top, root.members); }
    if response.Obj? { OneKey(kind, Response, response.members); }
    if data.Obj? { OneKey(kind, Data, data.members); }
    hide Visit, IndexOf;
  }

  function Statuses(root: Json): Json { Get(Get(Get(root, "response"), "data"), "statuses") }

  /** When the statuses are an array, both parsers report success; the create parser always delivers
      one acknowledgement, the cancel parser iff some element is not a string. */
  lemma ArrayOfStatuses(root: Json)
    requires UniqueOnPath(root) && Statuses(root).Arr?
    ensures Run(Create, root) == DELIVERED
    ensures Run(Cancel, root).result && !Run(Cancel, root).thrown
    ensures Run(Cancel, root).deliveries ==
            if exists i :: 0 <= i < |Statuses(root).items| && !Statuses(root).items[i].Str? then [OrderAck] else []
  {
    RunIsLookup(Create, root);
    RunIsLookup(Cancel, root);
  }

  /** A general error is delivered, by either parser, iff the response is a string. */
  lemma GeneralErrorIff(kind: Kind, root: Json)
    requires UniqueOnPath(root)
    ensures GeneralError in Run(kind, root).deliveries <==> Get(root, "response").Str?
    ensures Get(root, "response").Str? ==> Run(kind, root).deliveries == [GeneralError] && Run(kind, root).result
  {
    RunIsLookup(kind, root);
  }

  /** The silent success of the cancel parser: reported as handled, nothing delivered, exactly when the
      statuses are an array of strings, which may be empty. The create parser is never silent. */
  lemma SilentSuccessIff(kind: Kind, root: Json)
    requires UniqueOnPath(root)
    ensures var s := Run(kind, root);
            s.result && s.deliveries == []
            <==> kind.Cancel? && Statuses(root).Arr? && AllStrings(Statuses(root).items)
  {
    RunIsLookup(kind, root);
  }

  /** The reply to a successful cancel delivers nothing. */
  lemma SuccessIsSilent()
    ensures var root := Obj([Member("response", Obj([Member("data", Obj([
                          Member("statuses", Arr([Str("success")]))]))]))]);
            Run(Cancel, root) == State(true, [], false) && Run(Create, root) == DELIVERED
  {
    var statuses := Arr([Str("success")]);
    var data := Obj([Member("statuses", statuses)]);
    var response := Obj([Member("data", data)]);
    var root := Obj([Member("response", response)]);
    assert Get(root, "response") == response && Get(response, "data") == data && Get(data, "statuses") == statuses;
    RunIsLookup(Cancel, root);
    RunIsLookup(Create, root);
  }
}
