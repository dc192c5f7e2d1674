/** The queries the order gateway repeats for every dex: clearing-house state, open orders and user
    fills in gateway/order_entry.cpp. The three differ only in the query they send.

    Assumed: the list of dexs does not change during a query; the callback of a request runs once and
    not inside the send. */
module PagedQueries {
  import opened Options
  import opened RestResponses

  /** What becomes of the body of a successful reply: decoding or handling it throws, or it is handled
      and the send of the next query, if there is one, throws or does not. */
  datatype Page = Unhandled(e: Exception) | Handled(send: Option<Exception>)

  datatype Answer = Answer(reply: Reply, page: Page)

  datatype State = State(
    dexs: nat, sent: seq<nat>, outstanding: Option<nat>, handled: seq<nat>,
    failures: seq<Failure>, suspensions: nat, commits: nat, fatal: bool)

  function Started(dexs: nat): State { State(dexs, [0], Some(0), [], [], 0, 0, false) }

  function Fail(s: State, f: Failure): State {
    s.(failures := s.failures + [f], suspensions := s.suspensions + if f.RateLimited? then 1 else 0)
  }

  function Commit(s: State): State { s.(commits := s.commits + 1) }

  /** The callback for the query of dex `index`. */
  function Ack(s: State, index: nat, a: Answer): State {
    var s := s.(outstanding := None);
    if Redirects(a.reply) then s.(fatal := true)
    else if !Succeeds(a.reply) then Commit(Fail(s, FailureOf(a.reply)))
    else
      match a.page
      case Unhandled(e) => Commit(Fail(s, Caught(e)))
      case Handled(send) =>
        var s := s.(handled := s.handled + [index]);
        if index + 1 >= s.dexs then Commit(s)
        else if send.Some? then Fail(s, Caught(send.value))
        else s.(sent := s.sent + [index + 1], outstanding := Some(index + 1))
  }

  /** Answers arrive for the outstanding query until there is none. */
  function Run(s: State, answers: seq<Answer>): State
    decreases |answers|
  {
    if answers == [] || s.outstanding.None? then s
    else Run(Ack(s, s.outstanding.value, answers[0]), answers[1..])
  }

  // --- the query as the source runs it ---

  class PagedQuery {
    const dexs: nat
    var sent: seq<nat>
    var outstanding: Option<nat>
    var handled: seq<nat>
    var failures: seq<Failure>
    var suspensions: nat
    var commits: nat
    var fatal: bool

    /** The first query, sent when the request is due. */
    constructor (dexs: nat)
      requires 0 < dexs
      ensures Abstract() == Started(dexs)
    {
      this.dexs := dexs;
      sent, outstanding, handled := [0], Some(0), [];
      failures, suspensions, commits, fatal := [], 0, 0, false;
    }

    function Abstract(): State
      reads this
    {
      State(dexs, sent, outstanding, handled, failures, suspensions, commits, fatal)
    }

    method HandleError(f: Failure)
      modifies this
      ensures Abstract() == Fail(old(Abstract()), f)
    {
      failures := failures + [f];
      if f.RateLimited? {
        suspensions := suspensions + 1;
      }
    }

    method Send(index: nat, exception: Option<Exception>) returns (thrown: Option<Exception>)
      requires index < dexs
      modifies this
      ensures thrown == exception
      ensures Abstract() ==
              if exception.Some? then old(Abstract())
              else old(Abstract()).(sent := old(sent) + [index], outstanding := Some(index))
    {
      if exception.None? {
        sent, outstanding := sent + [index], Some(index);
      }
      return exception;
    }

    method HandleSuccess(index: nat, page: Page) returns (finished: bool, thrown: Option<Exception>)
      modifies this
      ensures var s := old(Abstract()).(handled := old(handled) + [index]);
              match page
              case Unhandled(e) => finished && thrown == Some(e) && Abstract() == old(Abstract())
              case Handled(send) =>
                if index + 1 >= dexs then finished && thrown == None && Abstract() == s
                else
                  && !finished && thrown == send
                  && Abstract() ==
                     if send.Some? then s else s.(sent := s.sent + [index + 1], outstanding := Some(index + 1))
    {
      finished, thrown := true, None;
      if page.Unhandled? {
        thrown := Some(page.e);
        return;
      }
      handled := handled + [index];
      var nextIndex := index + 1;
      if nextIndex < dexs {
        finished := false;
        thrown := Send(nextIndex, page.send);
      }
    }

    method OnAck(index: nat, a: Answer)
      requires outstanding == Some(index)
      modifies this
      ensures Abstract() == Ack(old(Abstract()), index, a)
    {
      outstanding := None;
      var finished, thrown := true, None;
      match a.reply {
        case Unreadable(e) =>
          thrown := Some(e);
        case Received(category, tooManyRequests, unexpected) =>
          match category
          case UnknownCategory => thrown := Some(unexpected);
          case Informational => thrown := Some(unexpected);
          case Success => finished, thrown := HandleSuccess(index, a.page);
          case Redirection => fatal := true; return;
          case ClientError => HandleError(if tooManyRequests then RateLimited else Rejected);
          case ServerError => HandleError(Rejected);
      }
      if thrown.Some? {
        HandleError(Caught(thrown.value));
      }
      if finished {
        commits := commits + 1;
      }
    }
  }

  // --- runs ---

  /** The answer leads to the query of the next dex. */
  predicate Continues(dexs: nat, index: nat, a: Answer) {
    Succeeds(a.reply) && a.page.Handled? && index + 1 < dexs && a.page.send.None?
  }

  /** The page is handled but the send of the next query throws. */
  predicate SendThrows(dexs: nat, index: nat, a: Answer) {
    Succeeds(a.reply) && a.page.Handled? && index + 1 < dexs && a.page.send.Some?
  }

  /** The exception raised on the way: by reading the reply, by expecting status 200, by the page, or
      by the send that follows it. */
  function Raised(dexs: nat, index: nat, a: Answer): Option<Exception> {
    match a.reply
    case Unreadable(e) => Some(e)
    case Received(category, _, unexpected) =>
      if category.UnknownCategory? || category.Informational? then Some(unexpected)
      else if !category.Success? then None
      else if a.page.Unhandled? then Some(a.page.e)
      else if index + 1 < dexs then a.page.send
      else None
  }

  predicate Throttled(reply: Reply) { reply.Received? && reply.category.ClientError? && reply.tooManyRequests }

  predicate Refused(reply: Reply) { reply.Received? && (reply.category.ClientError? || reply.category.ServerError?) }

  /** What is reported: the gateway's own network errors as such, with their status; every other
      exception as a bad reply; a refusal as a rejection, or as a rate limit that also suspends. */
  predicate Reports(s: State, index: nat, a: Answer) {
    var raised := Raised(s.dexs, index, a);
    && |s.failures| == (if raised.Some? || Refused(a.reply) then 1 else 0)
    && s.suspensions == (if Throttled(a.reply) then 1 else 0)
    && (forall f :: f in s.failures ==>
          && (f.Gateway? <==> raised.Some? && raised.value.NetworkError?)
          && (f.Gateway? ==> raised == Some(NetworkError(f.status, f.error)))
          && (f.BadReply? <==> raised == Some(OtherException))
          && (f.RateLimited? <==> Throttled(a.reply)))
  }

  /** How many answers continue before the first that does not. */
  function Continued(dexs: nat, index: nat, answers: seq<Answer>): (k: nat)
    ensures k <= |answers|
    ensures forall i :: 0 <= i < k ==> Continues(dexs, index + i, answers[i])
    ensures k < |answers| ==> !Continues(dexs, index + k, answers[k])
    ensures index < dexs ==> index + k < dexs
    decreases |answers|
  {
    if answers == [] || !Continues(dexs, index, answers[0]) then 0
    else 1 + Continued(dexs, index + 1, answers[1..])
  }

  function UpTo(n: nat): (r: seq<nat>)
    ensures |r| == n && forall i :: 0 <= i < n ==> r[i] == i
  {
    if n == 0 then [] else UpTo(n - 1) + [n - 1]
  }

  /** The state while the query of dex `index` is outstanding. */
  predicate Querying(s: State, index: nat) {
    && index < s.dexs
    && s == State(s.dexs, UpTo(index + 1), Some(index), UpTo(index), [], 0, 0, false)
  }

  /** The state once the answer for dex `index` has ended the query. */
  predicate Ended(s: State, index: nat, a: Answer) {
    && s.outstanding == None
    && s.sent == UpTo(index + 1)
    && s.handled == UpTo(if Succeeds(a.reply) && a.page.Handled? then index + 1 else index)
    && s.fatal == Redirects(a.reply)
    && Reports(s, index, a)
    && s.commits == (if Redirects(a.reply) || SendThrows(s.dexs, index, a) then 0 else 1)
  }

  /** One answer either moves the query to the next dex or ends it. */
  lemma AckStep(s: State, index: nat, a: Answer)
    requires Querying(s, index)
    ensures var next := Ack(s, index, a);
            && next.dexs == s.dexs
            && if Continues(s.dexs, index, a) then Querying(next, index + 1) else Ended(next, index, a)
  {
    assert UpTo(index + 1) == UpTo(index) + [index] && UpTo(index + 2) == UpTo(index + 1) + [index + 1];
    hide UpTo;
  }

  lemma {:induction false} RunFrom(s: State, index: nat, answers: seq<Answer>)
    requires Querying(s, index)
    ensures var k := Continued(s.dexs, index, answers);
            var r := Run(s, answers);
            && r.dexs == s.dexs
            && (if k == |answers| then Querying(r, index + k) else Ended(r, index + k, answers[k]))
    decreases |answers|
  {
    if answers != [] {
      AckStep(s, index, answers[0]);
      hide Ack, UpTo, Reports;
      var next := Ack(s, index, answers[0]);
      if Continues(s.dexs, index, answers[0]) {
        RunFrom(next, index + 1, answers[1..]);
      } else {
        assert Run(next, answers[1..]) == next;
      }
    }
  }

  /** Whatever the answers, a query visits dexs 0, 1, 2, ... without gap or repetition, stops at the
      first answer that does not continue, and commits there unless that answer is a redirection or
      the send it triggered threw. */
  lemma RunExact(dexs: nat, answers: seq<Answer>)
    requires 0 < dexs
    ensures var k := Continued(dexs, 0, answers);
            var r := Run(Started(dexs), answers);
            && k < dexs && r.dexs == dexs
            && (if k == |answers| then Querying(r, k) else Ended(r, k, answers[k]))
  {
    assert UpTo(1) == [0] && UpTo(0) == [];
    hide UpTo;
    RunFrom(Started(dexs), 0, answers);
    hide Run, Continued;
  }

  /** With one answer per dex at hand the query has ended, and it has committed, exactly once, iff
      the answer that ended it was no redirection and no send threw. */
  lemma CommitsOnceIff(dexs: nat, answers: seq<Answer>)
    requires 0 < dexs <= |answers|
    ensures var k := Continued(dexs, 0, answers);
            var r := Run(Started(dexs), answers);
            && r.outstanding == None && r.commits <= 1
            && (r.commits == 1 <==> !Redirects(answers[k].reply) && !SendThrows(dexs, k, answers[k]))
  {
    RunExact(dexs, answers);
  }

  /** A throwing send ends the query for good: the commit never comes, however long one waits. */
  lemma LostCommit(dexs: nat, answers: seq<Answer>, later: seq<Answer>)
    requires 0 < dexs && Continued(dexs, 0, answers) < |answers|
    requires var k := Continued(dexs, 0, answers); SendThrows(dexs, k, answers[k])
    ensures Run(Started(dexs), answers + later).commits == 0
  {
    var k := Continued(dexs, 0, answers);
    RunExact(dexs, answers + later);
    var k' := Continued(dexs, 0, answers + later);
    assert forall i :: 0 <= i < |answers| ==> (answers + later)[i] == answers[i];
    assert k' == k;
  }

  /** Two dexs: the first page is handled, the query for the second dex cannot be sent. */
  lemma SecondSendThrows(e: Exception)
    ensures var sent := Answer(Received(Success, false, OtherException), Handled(Some(e)));
            var r := Run(Started(2), [sent]);
            r.outstanding == None && r.handled == [0] && r.commits == 0 && !r.fatal
  {
    var sent := Answer(Received(Success, false, OtherException), Handled(Some(e)));
    assert !Continues(2, 0, sent) && SendThrows(2, 0, sent) && !Redirects(sent.reply);
    assert UpTo(1) == [0];
    hide Run, UpTo, Continues, SendThrows, Redirects, Reports;
    RunExact(2, [sent]);
    assert Continued(2, 0, [sent]) == 0;
  }
}
