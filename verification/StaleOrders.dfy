/** Stale orders: found by gateway/drop_copy.cpp, queried by gateway/order_entry.cpp, and shared
    through the request object of an account.

    Assumed: the callback of a request runs once and not inside the send; an unordered set is
    enumerated in some order, each element once. When the pending request is taken up is decided by
    code outside the repository, so it may happen at any time here. */
module StaleOrders {
  import opened Options
  import opened RestResponses

  datatype Key = Key(user: int, order: int)

  /** What the gateway does on the connection, in order. */
  datatype Action = Queried(key: Key) | Answered | Committed

  datatype Halt = Running | RedirectedReply | UnexpectedReply

  datatype State = State(
    details: set<Key>, nextCheck: int, checks: seq<int>, requests: nat,
    counter: nat, history: seq<Action>, halt: Halt)

  datatype Event =
    // the open orders have been downloaded, with the stale orders the dispatcher then knows
    | OpenOrders(stale: seq<Key>)
    // the download reaches its stale orders state
    | DownloadStale
    // a timer event while ready
    | Timer(now: int, stale: seq<Key>)
    // the pending request is taken up: the order of enumeration, the keys find_order knows, and the
    // position whose send throws
    | TakeUp(order: seq<Key>, found: set<Key>, failsAt: Option<nat>)
    // the reply to a query
    | Replied(reply: Reply)

  // --- steps ---

  function Keys(stale: seq<Key>): set<Key> { set k | k in stale }

  function Insert(s: State, stale: seq<Key>): State { s.(details := s.details + Keys(stale)) }

  function Request(s: State): State { s.(requests := s.requests + 1) }

  function OnTimer(s: State, freq: int, now: int, stale: seq<Key>): State {
    if s.nextCheck < now then
      var s' := Insert(s, stale).(nextCheck := now + freq, checks := s.checks + [now]);
      if Keys(stale) <= s.details then s' else Request(s')
    else s
  }

  /** The queries for the keys that are found, in order. */
  function Queries(order: seq<Key>, found: set<Key>): seq<Action> {
    if order == [] then []
    else
      var last := order[|order| - 1];
      Queries(order[..|order| - 1], found) + if last in found then [Queried(last)] else []
  }

  function Query(s: State, order: seq<Key>, found: set<Key>): State {
    var queries := Queries(order, found);
    s.(counter := s.counter + |queries|, history := s.history + queries)
  }

  /** A throwing send leaves the loop before the set is cleared. */
  function OnTakeUp(s: State, order: seq<Key>, found: set<Key>, failsAt: Option<nat>): State {
    if failsAt.Some? && failsAt.value <= |order| then Query(s, order[..failsAt.value], found)
    else Query(s, order, found).(details := {})
  }

  function OnReply(s: State, reply: Reply): State {
    var s := s.(history := s.history + [Answered]);
    if Redirects(reply) then s.(halt := RedirectedReply)
    else if s.counter == 0 then s.(halt := UnexpectedReply)
    else
      var s := s.(counter := s.counter - 1);
      if s.counter == 0 then s.(history := s.history + [Committed]) else s
  }

  /** Nothing happens after a fatal error. */
  function Step(s: State, freq: int, e: Event): State {
    if s.halt != Running then s
    else
      match e
      case OpenOrders(stale) => Insert(s, stale)
      case DownloadStale => if s.details == {} then s else Request(s)
      case Timer(now, stale) => OnTimer(s, freq, now, stale)
      case TakeUp(order, found, failsAt) => OnTakeUp(s, order, found, failsAt)
      case Replied(reply) => OnReply(s, reply)
  }

  function Run(s: State, freq: int, events: seq<Event>): State
    decreases |events|
  {
    if events == [] then s else Run(Step(s, freq, events[0]), freq, events[1..])
  }

  const START := State({}, 0, [], 0, 0, [], Running)

  ghost predicate Enumerates(order: seq<Key>, keys: set<Key>) {
    && (forall k :: k in order <==> k in keys)
    && (forall i, j :: 0 <= i < j < |order| ==> order[i] != order[j])
  }

  // --- the handlers as the source runs them ---

  class Account {
    const freq: int
    var details: set<Key>
    var nextCheck: int
    ghost var checks: seq<int>
    var requests: nat
    var counter: nat
    ghost var history: seq<Action>
    var halt: Halt

    constructor (freq: int)
      ensures this.freq == freq && Abstract() == START
    {
      this.freq := freq;
      details, nextCheck, checks, requests, counter, history, halt := {}, 0, [], 0, 0, [], Running;
    }

    ghost function Abstract(): State
      reads this
    {
      State(details, nextCheck, checks, requests, counter, history, halt)
    }

    method CheckStaleOrders(stale: seq<Key>) returns (grew: bool)
      modifies this
      ensures Abstract() == Insert(old(Abstract()), stale)
      ensures grew <==> !(Keys(stale) <= old(details))
    {
      var inserted := 0;
      for i := 0 to |stale|
        invariant Abstract() == old(Abstract()).(details := old(details) + Keys(stale[..i]))
        invariant inserted > 0 <==> !(Keys(stale[..i]) <= old(details))
      {
        assert stale[..i + 1] == stale[..i] + [stale[i]];
        assert Keys(stale[..i + 1]) == Keys(stale[..i]) + {stale[i]};
        if stale[i] !in details {
          details := details + {stale[i]};
          inserted := inserted + 1;
        }
      }
      assert stale[..|stale|] == stale;
      return inserted > 0;
    }

    method OnOpenOrders(stale: seq<Key>)
      requires halt == Running
      modifies this
      ensures Abstract() == Step(old(Abstract()), freq, OpenOrders(stale))
    {
      var _ := CheckStaleOrders(stale);
    }

    method OnDownloadStale() returns (waiting: nat)
      requires halt == Running
      modifies this
      ensures Abstract() == Step(old(Abstract()), freq, DownloadStale)
      ensures waiting == if old(details) == {} then 0 else 1
    {
      if details == {} {
        return 0;
      }
      requests := requests + 1;
      return 1;
    }

    method OnTimerEvent(now: int, stale: seq<Key>)
      requires halt == Running
      modifies this
      ensures Abstract() == Step(old(Abstract()), freq, Timer(now, stale))
    {
      if nextCheck < now {
        nextCheck, checks := now + freq, checks + [now];
        var grew := CheckStaleOrders(stale);
        if grew {
          requests := requests + 1;
        }
      }
    }

    method TakeUpRequest(order: seq<Key>, found: set<Key>, failsAt: Option<nat>)
      requires halt == Running && Enumerates(order, details)
      requires failsAt.Some? ==> failsAt.value < |order| && order[failsAt.value] in found
      modifies this
      ensures Abstract() == Step(old(Abstract()), freq, TakeUp(order, found, failsAt))
    {
      for i := 0 to |order|
        invariant Abstract() == Query(old(Abstract()), order[..i], found)
        invariant failsAt.Some? ==> i <= failsAt.value
      {
        assert order[..i + 1][..i] == order[..i];
        if order[i] in found {
          if failsAt == Some(i) {
            return;
          }
          history := history + [Queried(order[i])];
          counter := counter + 1;
        }
      }
      assert order[..|order|] == order;
      details := {};
    }

    method OnOrderStatus(reply: Reply)
      requires halt == Running
      modifies this
      ensures Abstract() == Step(old(Abstract()), freq, Replied(reply))
    {
      history := history + [Answered];
      if Redirects(reply) {
        halt := RedirectedReply;
        return;
      }
      if counter != 0 {
        counter := counter - 1;
      } else {
        halt := UnexpectedReply;
        return;
      }
      if counter == 0 {
        history := history + [Committed];
      }
    }
  }

  // --- every run ---

  function Effect(a: Action): int { match a case Queried(_) => 1 case Answered => -1 case Committed => 0 }

  /** Queries not yet answered. */
  function Outstanding(history: seq<Action>): int {
    if history == [] then 0
    else
      Outstanding(history[..|history| - 1]) + Effect(history[|history| - 1])
  }

  /** The i-th action answers the last outstanding query. */
  ghost predicate Drains(history: seq<Action>, i: nat)
    requires i < |history|
  {
    history[i].Answered? && Outstanding(history[..i + 1]) == 0
  }

  /** The request commits right after the answers that leave no query outstanding, and nowhere else. */
  ghost predicate CommitsWhenDrained(history: seq<Action>) {
    && (history != [] ==> !history[0].Committed?)
    && (forall i :: 0 <= i < |history| ==> (Drains(history, i) <==> i + 1 < |history| && history[i + 1].Committed?))
  }

  /** A reply answers an outstanding query; an enumeration is one of the set. */
  ghost predicate Possible(s: State, e: Event) {
    match e
    case TakeUp(order, found, failsAt) =>
      Enumerates(order, s.details)
      && (failsAt.Some? ==> failsAt.value < |order| && order[failsAt.value] in found)
    case Replied(_) => 0 < Outstanding(s.history)
    case _ => true
  }

  ghost predicate PossibleRun(s: State, freq: int, events: seq<Event>)
    decreases |events|
  {
    events != [] ==> Possible(s, events[0]) && PossibleRun(Step(s, freq, events[0]), freq, events[1..])
  }

  ghost predicate Inv(s: State) {
    && s.halt != UnexpectedReply
    && (s.halt == Running ==> s.counter == Outstanding(s.history) && CommitsWhenDrained(s.history))
  }

  lemma Appended(history: seq<Action>, a: Action)
    ensures Outstanding(history + [a]) == Outstanding(history) + Effect(a)
    ensures forall i :: 0 <= i < |history| ==> Drains(history + [a], i) == Drains(history, i)
    ensures Drains(history + [a], |history|) == (a.Answered? && Outstanding(history) == 1)
  {
    var h := history + [a];
    assert h[..|history|] == history && h[..|h|] == h;
    forall i | 0 <= i < |history|
      ensures Drains(h, i) == Drains(history, i)
    {
      assert h[..i + 1] == history[..i + 1];
    }
  }

  lemma OneMore(history: seq<Action>, a: Action)
    requires CommitsWhenDrained(history)
    requires a.Queried? || (a.Answered? && Outstanding(history) != 1)
    ensures CommitsWhenDrained(history + [a])
  {
    Appended(history, a);
    hide Outstanding, Drains;
  }

  /** An answer that drains the queries, followed by its commit. */
  lemma DrainAndCommit(history: seq<Action>)
    requires CommitsWhenDrained(history) && Outstanding(history) == 1
    ensures CommitsWhenDrained(history + [Answered] + [Committed])
    ensures Outstanding(history + [Answered] + [Committed]) == 0
  {
    Appended(history, Answered);
    Appended(history + [Answered], Committed);
    hide Outstanding, Drains;
  }

  lemma {:induction false} QueriesCounted(history: seq<Action>, order: seq<Key>, found: set<Key>)
    requires CommitsWhenDrained(history)
    ensures var h := history + Queries(order, found);
            CommitsWhenDrained(h) && Outstanding(h) == Outstanding(history) + |Queries(order, found)|
    decreases |order|
  {
    if order == [] {
      assert history + [] == history;
    } else {
      var front, last := order[..|order| - 1], order[|order| - 1];
      QueriesCounted(history, front, found);
      hide Outstanding, CommitsWhenDrained;
      if last in found {
        Appended(history + Queries(front, found), Queried(last));
        OneMore(history + Queries(front, found), Queried(last));
        assert history + Queries(order, found) == history + Queries(front, found) + [Queried(last)];
      } else {
        assert Queries(order, found) == Queries(front, found);
      }
    }
  }

  lemma StepKeepsInv(s: State, freq: int, e: Event)
    requires Inv(s) && Possible(s, e)
    ensures Inv(Step(s, freq, e))
  {
    if s.halt == Running {
      match e
      case TakeUp(order, found, failsAt) =>
        QueriesCounted(s.history, order, found);
        if failsAt.Some? {
          QueriesCounted(s.history, order[..failsAt.value], found);
        }
        hide Outstanding, CommitsWhenDrained, Queries;
      case Replied(reply) =>
        Appended(s.history, Answered);
        if s.counter == 1 {
          DrainAndCommit(s.history);
        } else {
          OneMore(s.history, Answered);
        }
        hide Outstanding, CommitsWhenDrained;
      case _ =>
        hide Outstanding, CommitsWhenDrained;
    }
  }

  lemma {:induction false} InvOverRuns(s: State, freq: int, events: seq<Event>)
    requires Inv(s) && PossibleRun(s, freq, events)
    ensures Inv(Run(s, freq, events))
    decreases |events|
  {
    if events != [] {
      StepKeepsInv(s, freq, events[0]);
      InvOverRuns(Step(s, freq, events[0]), freq, events[1..]);
    }
  }

  /** Over every run, batches overlapping or not, the counter is the number of queries sent and not
      answered, the fatal on an unexpected reply is out of reach, and the request commits exactly at
      the replies that leave no query outstanding. */
  lemma CounterAndCommits(freq: int, events: seq<Event>)
    requires PossibleRun(START, freq, events)
    ensures var s := Run(START, freq, events);
            && s.halt != UnexpectedReply
            && (s.halt == Running ==> s.counter == Outstanding(s.history) && CommitsWhenDrained(s.history))
  {
    InvOverRuns(START, freq, events);
  }

  /** When a reply is fatal: a redirection always, any other iff it answers no query. */
  lemma ReplyFatalIff(s: State, freq: int, reply: Reply)
    requires s.halt == Running && Inv(s)
    ensures var s' := Step(s, freq, Replied(reply));
            var redirected := reply.Received? && reply.category == Redirection;
            && (s'.halt == RedirectedReply <==> redirected)
            && (s'.halt == UnexpectedReply <==> !redirected && Outstanding(s.history) == 0)
  {
    hide Outstanding, CommitsWhenDrained;
  }

  // --- what one batch queries ---

  predicate Distinct(actions: seq<Action>) { forall i, j :: 0 <= i < j < |actions| ==> actions[i] != actions[j] }

  lemma {:induction false} QueriesExact(order: seq<Key>, found: set<Key>)
    requires forall i, j :: 0 <= i < j < |order| ==> order[i] != order[j]
    ensures var queries := Queries(order, found);
            && (forall a :: a in queries <==> a.Queried? && a.key in order && a.key in found)
            && Distinct(queries)
    decreases |order|
  {
    if order != [] {
      var front, last := order[..|order| - 1], order[|order| - 1];
      QueriesExact(front, found);
      assert order == front + [last];
      assert last !in front;
      assert Queries(order, found) == Queries(front, found) + if last in found then [Queried(last)] else [];
      hide Queries;
    }
  }

  /** A batch whose sends succeed queries each stale order the dispatcher still knows, once, and no
      other, whatever the enumeration; the set is then empty. */
  lemma BatchQueriesEachOnce(s: State, freq: int, order: seq<Key>, found: set<Key>)
    requires s.halt == Running && Enumerates(order, s.details)
    ensures var s' := Step(s, freq, TakeUp(order, found, None));
            && s.history <= s'.history && s'.details == {}
            && (var queries := s'.history[|s.history|..];
                Distinct(queries)
                && forall a :: a in queries <==> a.Queried? && a.key in s.details && a.key in found)
  {
    QueriesExact(order, found);
    assert (s.history + Queries(order, found))[|s.history|..] == Queries(order, found);
  }

  /** k is queried on the way from s to s'. */
  ghost predicate QueriedBetween(s: State, s': State, k: Key) {
    s.history <= s'.history && Queried(k) in s'.history[|s.history|..]
  }

  /** The part of an enumeration in front of the throwing send. */
  function Taken(order: seq<Key>, failsAt: Option<nat>): seq<Key> {
    if failsAt.Some? && failsAt.value <= |order| then order[..failsAt.value] else order
  }

  /** A batch queries an order iff it is enumerated in front of the throwing send, if any, and known. */
  lemma BatchQueriesIff(s: State, freq: int, order: seq<Key>, found: set<Key>, failsAt: Option<nat>, k: Key)
    requires s.halt == Running && Enumerates(order, s.details)
    ensures QueriedBetween(s, Step(s, freq, TakeUp(order, found, failsAt)), k)
       <==> k in Taken(order, failsAt) && k in found
  {
    var taken := Taken(order, failsAt);
    QueriesExact(taken, found);
    assert (s.history + Queries(taken, found))[|s.history|..] == Queries(taken, found);
  }

  /** Two batches in a row query the same order iff the first is cut short by a throwing send behind
      that order and the second reaches it: the set is only cleared when every send succeeds. */
  lemma RepeatedQueryIff(
      s: State, freq: int, order: seq<Key>, found: set<Key>, failsAt: Option<nat>,
      again: seq<Key>, foundAgain: set<Key>, failsAgain: Option<nat>, k: Key)
    requires s.halt == Running && Possible(s, TakeUp(order, found, failsAt))
    requires Possible(Step(s, freq, TakeUp(order, found, failsAt)), TakeUp(again, foundAgain, failsAgain))
    ensures var first := Step(s, freq, TakeUp(order, found, failsAt));
            var second := Step(first, freq, TakeUp(again, foundAgain, failsAgain));
            QueriedBetween(s, first, k) && QueriedBetween(first, second, k)
            <==> failsAt.Some? && k in order[..failsAt.value] && k in found
                 && k in Taken(again, failsAgain) && k in foundAgain
  {
    var first := Step(s, freq, TakeUp(order, found, failsAt));
    BatchQueriesIff(s, freq, order, found, failsAt, k);
    BatchQueriesIff(first, freq, again, foundAgain, failsAgain, k);
    assert k in Taken(again, failsAgain) ==> k in again;
    assert failsAt.None? ==> first.details == {};
  }

  /** When the second batch succeeds and the dispatcher still knows the same orders: some order is
      queried twice iff a send of the first batch throws and an earlier one did not. */
  lemma RepeatsIff(
      s: State, freq: int, order: seq<Key>, found: set<Key>, failsAt: Option<nat>, again: seq<Key>)
    requires s.halt == Running && Possible(s, TakeUp(order, found, failsAt))
    requires Enumerates(again, Step(s, freq, TakeUp(order, found, failsAt)).details)
    ensures var first := Step(s, freq, TakeUp(order, found, failsAt));
            var second := Step(first, freq, TakeUp(again, found, None));
            (exists k :: QueriedBetween(s, first, k) && QueriedBetween(first, second, k))
            <==> failsAt.Some? && exists i :: 0 <= i < failsAt.value && order[i] in found
  {
    var first := Step(s, freq, TakeUp(order, found, failsAt));
    var second := Step(first, freq, TakeUp(again, found, None));
    forall k
      ensures QueriedBetween(s, first, k) && QueriedBetween(first, second, k)
         <==> failsAt.Some? && k in order[..failsAt.value] && k in found
    {
      RepeatedQueryIff(s, freq, order, found, failsAt, again, found, None, k);
    }
    hide QueriedBetween, Step;
    if failsAt.Some? && exists i :: 0 <= i < failsAt.value && order[i] in found {
      var i :| 0 <= i < failsAt.value && order[i] in found;
      assert order[i] in order[..failsAt.value];
    }
  }

  /** Two stale orders, and the send of the second query throws: the first order is queried twice. */
  lemma SecondQueryThrows(a: Key, b: Key)
    requires a != b
    ensures var events := [OpenOrders([a, b]), TakeUp([a, b], {a, b}, Some(1)), TakeUp([a, b], {a, b}, None)];
            && PossibleRun(START, 0, events)
            && Run(START, 0, events).history == [Queried(a), Queried(a), Queried(b)]
  {
    var open, first, second := OpenOrders([a, b]), TakeUp([a, b], {a, b}, Some(1)), TakeUp([a, b], {a, b}, None);
    assert [open, first, second][1..] == [first, second] && [first, second][1..] == [second];
    assert [a, b][..1] == [a] && [a][..0] == [];
    assert Queries([a], {a, b}) == [] + [Queried(a)];
    assert Queries([a, b], {a, b}) == Queries([a], {a, b}) + [Queried(b)];
    var s0 := Step(START, 0, open);
    assert s0.details == {a, b};
    var s1 := Step(s0, 0, first);
    assert s1.history == [Queried(a)] && s1.details == {a, b};
    var s2 := Step(s1, 0, second);
    assert s2.history == [Queried(a), Queried(a), Queried(b)];
    hide Queries, Step;
    assert Run(s2, 0, []) == s2;
    assert PossibleRun(s2, 0, []);
    assert Run(s1, 0, [second]) == s2 && PossibleRun(s1, 0, [second]);
    assert Run(s0, 0, [first, second]) == s2 && PossibleRun(s0, 0, [first, second]);
  }

  // --- the timed check ---

  ghost predicate Spaced(s: State, freq: int) {
    && (s.checks != [] ==> s.nextCheck == s.checks[|s.checks| - 1] + freq)
    && (forall i :: 0 < i < |s.checks| ==> s.checks[i - 1] + freq < s.checks[i])
  }

  /** Over every run, consecutive timed checks are more than the configured interval apart. */
  lemma {:induction false} ChecksAreSpaced(s: State, freq: int, events: seq<Event>)
    requires Spaced(s, freq)
    ensures Spaced(Run(s, freq, events), freq)
    decreases |events|
  {
    if events != [] {
      ChecksAreSpaced(Step(s, freq, events[0]), freq, events[1..]);
    }
  }

  /** A timed check makes a request iff it added to the set. */
  lemma RequestIffGrown(s: State, freq: int, now: int, stale: seq<Key>)
    requires s.halt == Running
    ensures var s' := Step(s, freq, Timer(now, stale));
            && s.details <= s'.details
            && s'.requests == s.requests + if s'.details == s.details then 0 else 1
  {
    if !(Keys(stale) <= s.details) {
      var k :| k in Keys(stale) && k !in s.details;
      assert k in s.details + Keys(stale);
    }
  }

  /** The step into the stale orders of a download makes a request iff there are some. */
  lemma DownloadRequestsIff(s: State, freq: int)
    requires s.halt == Running
    ensures var s' := Step(s, freq, DownloadStale);
            s'.requests == s.requests + (if s.details == {} then 0 else 1) && s'.details == s.details
  {
  }

  // --- what is in the set ---

  /** Event i finds k stale: after the open orders, or at a timer event past the last check and the
      interval. */
  ghost predicate FindsStale(freq: int, events: seq<Event>, i: nat, k: Key)
    requires i < |events|
  {
    match events[i]
    case OpenOrders(stale) => k in stale
    case Timer(now, stale) =>
      var checks := Run(START, freq, events[..i]).checks;
      k in stale && now > if checks == [] then 0 else checks[|checks| - 1] + freq
    case _ => false
  }

  /** Event i takes up the whole set. */
  predicate TakesAll(events: seq<Event>, i: nat)
    requires i < |events|
  {
    events[i].TakeUp? && (events[i].failsAt.None? || events[i].failsAt.value > |events[i].order|)
  }

  lemma {:induction false} RunSplit(s: State, freq: int, events: seq<Event>)
    requires events != []
    ensures var n := |events| - 1; Run(s, freq, events) == Step(Run(s, freq, events[..n]), freq, events[n])
    decreases |events|
  {
    var n := |events| - 1;
    if n > 0 {
      RunSplit(Step(s, freq, events[0]), freq, events[1..]);
      assert events[1..][..n - 1] == events[..n][1..] && events[1..][n - 1] == events[n];
    } else {
      assert events[..0] == [] && events[1..] == [];
    }
    hide Step;
  }

  ghost predicate Pending(freq: int, events: seq<Event>, k: Key) {
    exists i :: 0 <= i < |events| && FindsStale(freq, events, i, k)
      && forall j :: i < j < |events| ==> !TakesAll(events, j)
  }

  lemma PendingStep(freq: int, events: seq<Event>, k: Key)
    requires events != []
    ensures var n := |events| - 1;
            Pending(freq, events, k)
            <==> FindsStale(freq, events, n, k) || (Pending(freq, events[..n], k) && !TakesAll(events, n))
  {
    hide Run;
    var n := |events| - 1;
    var before := events[..n];
    forall i | 0 <= i < n
      ensures FindsStale(freq, events, i, k) == FindsStale(freq, before, i, k)
      ensures TakesAll(events, i) == TakesAll(before, i)
    {
      assert events[..i] == before[..i];
    }
    hide FindsStale, TakesAll;
    if Pending(freq, events, k) && !FindsStale(freq, events, n, k) {
      var i :| 0 <= i < |events| && FindsStale(freq, events, i, k)
        && forall j :: i < j < |events| ==> !TakesAll(events, j);
      assert FindsStale(freq, before, i, k);
    }
    if Pending(freq, before, k) && !TakesAll(events, n) {
      var i :| 0 <= i < n && FindsStale(freq, before, i, k) && forall j :: i < j < n ==> !TakesAll(before, j);
      assert FindsStale(freq, events, i, k);
    }
  }

  ghost predicate NextCheckIs(s: State, freq: int) {
    s.nextCheck == if s.checks == [] then 0 else s.checks[|s.checks| - 1] + freq
  }

  lemma {:induction false} NextCheckOverRuns(s: State, freq: int, events: seq<Event>)
    requires NextCheckIs(s, freq)
    ensures NextCheckIs(Run(s, freq, events), freq)
    decreases |events|
  {
    if events != [] {
      NextCheckOverRuns(Step(s, freq, events[0]), freq, events[1..]);
    }
  }

  lemma StepDetails(s: State, freq: int, e: Event, k: Key)
    requires s.halt == Running && NextCheckIs(s, freq)
    ensures k in Step(s, freq, e).details <==>
            match e
            case OpenOrders(stale) => k in s.details || k in stale
            case Timer(now, stale) =>
              k in s.details || (k in stale && now > if s.checks == [] then 0 else s.checks[|s.checks| - 1] + freq)
            case TakeUp(order, _, failsAt) => k in s.details && failsAt.Some? && failsAt.value <= |order|
            case _ => k in s.details
  {
  }

  /** Over every run up to a fatal error: an order waits to be queried iff a check has found it stale and
      no batch has succeeded since. */
  lemma {:induction false} WaitingIff(freq: int, events: seq<Event>, k: Key)
    requires Run(START, freq, events).halt == Running
    ensures k in Run(START, freq, events).details <==> Pending(freq, events, k)
    decreases |events|
  {
    if events != [] {
      var n := |events| - 1;
      var s := Run(START, freq, events[..n]);
      RunSplit(START, freq, events);
      NextCheckOverRuns(START, freq, events[..n]);
      StepDetails(s, freq, events[n], k);
      assert s.halt == Running;
      WaitingIff(freq, events[..n], k);
      PendingStep(freq, events, k);
      hide Run, Step, Pending;
    }
  }
}
