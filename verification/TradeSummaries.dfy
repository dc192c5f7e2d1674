/** Grouping of trades into summaries: gateway/market_data.cpp, the Trades handler. The handler itself is
    a method of SymbolStreams.MarketData. */
module TradeSummaries {

  datatype Item = Item(time: int, coin: string, isBuy: bool, price: real, quantity: real, tradeId: int)

  datatype Summary = Summary(time: int, coin: string, trades: seq<Item>)

  predicate SameKey(a: Item, b: Item) { a.time == b.time && a.coin == b.coin }

  /** A maximal run of equal (time, coin) ends in front of index i. */
  predicate IsRunEnd(data: seq<Item>, i: nat) {
    0 < i <= |data| && (i == |data| || !SameKey(data[i - 1], data[i]))
  }

  /** The run ends up to index i, in order. */
  function RunEnds(data: seq<Item>, i: nat): (ends: seq<nat>)
    requires i <= |data|
    ensures forall k :: 0 <= k < |ends| ==> 0 < ends[k] <= i
  {
    if i == 0 then []
    else RunEnds(data, i - 1) + if IsRunEnd(data, i) then [i] else []
  }

  /** What the summary at a run end carries: everything so far, since the buffer is only cleared on
      entry. */
  function SummaryAt(data: seq<Item>, end: nat): Summary
    requires 0 < end <= |data|
  {
    Summary(data[end - 1].time, data[end - 1].coin, data[..end])
  }

  function SummariesAt(data: seq<Item>, ends: seq<nat>): (r: seq<Summary>)
    requires forall k :: 0 <= k < |ends| ==> 0 < ends[k] <= |data|
    ensures |r| == |ends|
  {
    seq(|ends|, k requires 0 <= k < |ends| => SummaryAt(data, ends[k]))
  }

  function Summaries(data: seq<Item>): seq<Summary> { SummariesAt(data, RunEnds(data, |data|)) }

  lemma EndStep(data: seq<Item>, i: nat)
    requires i <= |data|
    ensures SummariesAt(data, RunEnds(data, i))
         == if i == 0 then []
            else SummariesAt(data, RunEnds(data, i - 1)) + if IsRunEnd(data, i) then [SummaryAt(data, i)] else []
  {
    if i > 0 && !IsRunEnd(data, i) { assert RunEnds(data, i) == RunEnds(data, i - 1); }
  }

  /** The listed ends are exactly the run ends, in increasing order. */
  lemma {:induction false} RunEndsExact(data: seq<Item>, i: nat)
    requires i <= |data|
    ensures forall e: nat :: e in RunEnds(data, i) <==> 0 < e <= i && IsRunEnd(data, e)
    ensures forall j, k :: 0 <= j < k < |RunEnds(data, i)| ==> RunEnds(data, i)[j] < RunEnds(data, i)[k]
  {
    if i > 0 { RunEndsExact(data, i - 1); }
  }

  /** Between two listed ends time and coin do not change: one summary per maximal run. */
  lemma RunsAreUniform(data: seq<Item>, a: nat, b: nat)
    requires a < b <= |data| && forall e :: a < e < b ==> !IsRunEnd(data, e)
    ensures forall j :: a <= j < b ==> SameKey(data[j], data[b - 1])
    decreases b - a
  {
    if a < b - 1 {
      RunsAreUniform(data, a + 1, b);
      assert !IsRunEnd(data, a + 1);
    }
  }

  lemma LastEnd(data: seq<Item>)
    requires data != []
    ensures var ends := RunEnds(data, |data|);
            ends != [] && ends[|ends| - 1] == |data|
  {
  }

  /** A non-empty payload always ends with a summary of the whole payload. */
  lemma LastSummaryIsWholePayload(data: seq<Item>)
    requires data != []
    ensures var s := Summaries(data);
            s != [] && s[|s| - 1].trades == data
  {
    LastEnd(data);
    assert data[..|data|] == data;
  }

  /** The k-th summary carries every trade up to the k-th run end, and is labelled with that run. */
  lemma SummaryIsPrefix(data: seq<Item>, k: nat)
    requires k < |Summaries(data)|
    ensures var s, end := Summaries(data)[k], RunEnds(data, |data|)[k];
            && IsRunEnd(data, end) && s.trades == data[..end]
            && s.time == data[end - 1].time && s.coin == data[end - 1].coin
  {
    RunEndsExact(data, |data|);
    assert RunEnds(data, |data|)[k] in RunEnds(data, |data|);
  }

  predicate OwnTradesOnly(s: Summary) {
    forall i :: 0 <= i < |s.trades| ==> s.trades[i].time == s.time && s.trades[i].coin == s.coin
  }

  /** Summaries hold only trades of their own time and coin exactly when the payload is a single run:
      any second run is published together with the trades of the runs before it. */
  lemma OwnTradesIff(data: seq<Item>)
    ensures (forall k :: 0 <= k < |Summaries(data)| ==> OwnTradesOnly(Summaries(data)[k]))
       <==> (forall i :: 0 < i < |data| ==> SameKey(data[i - 1], data[i]))
  {
    if data != [] {
      LastSummaryIsWholePayload(data);
      var s := Summaries(data);
      LastEnd(data);
      if forall k :: 0 <= k < |s| ==> OwnTradesOnly(s[k]) {
        assert OwnTradesOnly(s[|s| - 1]);
      }
      if forall i :: 0 < i < |data| ==> SameKey(data[i - 1], data[i]) {
        RunsAreUniform(data, 0, |data|);
        RunEndsExact(data, |data|);
        forall k | 0 <= k < |s| ensures OwnTradesOnly(s[k]) {
          SummaryIsPrefix(data, k);
        }
      }
    }
  }

  /** Two trades in two coins: the summary for the second coin also carries the trade in the first. */
  lemma TwoCoins(a: Item, b: Item)
    requires a.coin == "A" && b.coin == "B"
    ensures Summaries([a, b]) == [Summary(a.time, "A", [a]), Summary(b.time, "B", [a, b])]
    ensures !OwnTradesOnly(Summaries([a, b])[1])
  {
    var data := [a, b];
    assert RunEnds(data, 0) == [] && RunEnds(data, 1) == [1] && RunEnds(data, 2) == [1, 2];
    assert data[..1] == [a] && data[..2] == data;
    assert Summaries(data)[1].trades[0].coin == "A";
  }
}
