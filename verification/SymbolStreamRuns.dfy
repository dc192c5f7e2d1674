/** What every run of the symbol and stream machine keeps. */
module SymbolStreamRuns {
  import opened SymbolStreams

  // --- slices ---

  lemma MulOrder(a: int, b: int, size: int)
    requires size > 0 && a <= b
    ensures a * size <= b * size
  {
  }

  lemma DivBounds(x: nat, size: nat)
    requires size > 0
    ensures x / size * size <= x < x / size * size + size
  {
  }

  lemma SliceBounds(total: nat, size: nat, k: nat)
    requires size > 0
    ensures k < SliceCount(total, size) <==> k * size < total
  {
    var n := SliceCount(total, size);
    DivBounds(total + size - 1, size);
    if k < n { MulOrder(k + 1, n, size); } else { MulOrder(n, k, size); }
    assert (k + 1) * size == k * size + size;
  }

  /** Appending to the list extends a slice by exactly what `get_slice` returns from the old total on. */
  lemma SliceAppend(symbols: seq<string>, added: seq<string>, size: nat, k: nat)
    requires size > 0
    ensures Slice(symbols + added, size, k, 0)
         == Slice(symbols, size, k, 0) + Slice(symbols + added, size, k, |symbols|)
  {
    assert (k + 1) * size == k * size + size;
    var a, b := k * size, (k + 1) * size;
    PartAppend(symbols, added, a, b);
    hide Part;
  }

  lemma PartAppend(symbols: seq<string>, added: seq<string>, a: nat, b: nat)
    requires a <= b
    ensures Part(symbols + added, a, b)
         == Part(symbols, a, b) + Part(symbols + added, if a < |symbols| then |symbols| else a, b)
  {
    if b <= |symbols| {
      assert (symbols + added)[a..b] == symbols[a..b];
    } else if a <= |symbols| {
      var end := if b < |symbols + added| then b else |symbols + added|;
      assert (symbols + added)[a..end] == symbols[a..] + (symbols + added)[|symbols|..end];
    }
  }

  lemma QuotientUnique(p: nat, size: nat, k: nat)
    requires size > 0
    ensures k * size <= p < k * size + size <==> k == p / size
  {
    var q := p / size;
    DivBounds(p, size);
    assert (k + 1) * size == k * size + size && (q + 1) * size == q * size + size;
    if k < q { MulOrder(k + 1, q, size); }
    if q < k { MulOrder(q + 1, k, size); }
  }

  lemma SliceRange(symbols: seq<string>, size: nat, k: nat)
    requires size > 0
    ensures |Slice(symbols, size, k, 0)| <= size
    ensures forall i :: 0 <= i < |Slice(symbols, size, k, 0)| ==>
              k * size + i < |symbols| && Slice(symbols, size, k, 0)[i] == symbols[k * size + i]
    ensures forall p :: k * size <= p < k * size + size && p < |symbols| ==>
              p - k * size < |Slice(symbols, size, k, 0)| && Slice(symbols, size, k, 0)[p - k * size] == symbols[p]
  {
    assert (k + 1) * size == k * size + size;
  }

  /** Every announced symbol is in the slice of exactly one stream, and slices keep to their size. */
  lemma EverySymbolOnOneStream(symbols: seq<string>, size: nat, p: nat, k: nat)
    requires size > 0 && p < |symbols|
    requires forall i, j :: 0 <= i < j < |symbols| ==> symbols[i] != symbols[j]
    ensures p / size < SliceCount(|symbols|, size)
    ensures symbols[p] in Slice(symbols, size, k, 0) <==> k == p / size
    ensures |Slice(symbols, size, k, 0)| <= size
  {
    QuotientUnique(p, size, p / size);
    QuotientUnique(p, size, k);
    SliceBounds(|symbols|, size, p / size);
    SliceRange(symbols, size, k);
    hide Slice;
    var slice := Slice(symbols, size, k, 0);
    if symbols[p] in slice {
      var i :| 0 <= i < |slice| && slice[i] == symbols[p];
      assert symbols[k * size + i] == symbols[p];
    }
  }

  // --- announcements ---

  lemma {:induction false} FreshNames(seen: set<string>, names: seq<string>)
    ensures forall x :: x in Fresh(seen, names) <==> x in names && x !in seen
    ensures forall i, j :: 0 <= i < j < |Fresh(seen, names)| ==> Fresh(seen, names)[i] != Fresh(seen, names)[j]
  {
    if names != [] {
      var before := names[..|names| - 1];
      FreshNames(seen, before);
      assert names == before + [names[|names| - 1]];
    }
  }

  /** Where a name first appears; |names| when it does not. */
  function FirstAt(names: seq<string>, x: string): (i: nat)
    ensures i <= |names| && (i < |names| <==> x in names)
    ensures i < |names| ==> names[i] == x
  {
    if names == [] then 0
    else
      var i := FirstAt(names[..|names| - 1], x);
      if i < |names| - 1 || names[i] == x then i else i + 1
  }

  /** New names are announced in the order in which they first appear. */
  lemma {:induction false} FreshInOrder(seen: set<string>, names: seq<string>)
    ensures forall i, j :: 0 <= i < j < |Fresh(seen, names)| ==>
              FirstAt(names, Fresh(seen, names)[i]) < FirstAt(names, Fresh(seen, names)[j])
  {
    if names != [] {
      var n := |names| - 1;
      var before, last := Fresh(seen, names[..n]), names[n];
      FreshInOrder(seen, names[..n]);
      FreshNames(seen, names[..n]);
      forall x | x in names[..n] ensures FirstAt(names, x) == FirstAt(names[..n], x) < n { }
    }
  }

  // --- messages ---

  lemma {:induction false} CoinsConcat(a: seq<Message>, b: seq<Message>, channel: Channel)
    ensures Coins(a + b, channel) == Coins(a, channel) + Coins(b, channel)
  {
    if b == [] {
      assert a + b == a;
    } else {
      var b' := b[..|b| - 1];
      CoinsConcat(a, b', channel);
      assert (a + b)[..|a + b| - 1] == a + b';
    }
  }

  lemma {:induction false} CoinsOfChannel(sent: Channel, coins: seq<string>, channel: Channel)
    ensures Coins(ChannelMessages(sent, coins), channel) == if sent == channel then coins else []
  {
    var ms := ChannelMessages(sent, coins);
    if coins != [] {
      var before := coins[..|coins| - 1];
      assert ms[..|ms| - 1] == ChannelMessages(sent, before);
      assert ms[|ms| - 1] == Message(sent, coins[|coins| - 1]);
      hide ChannelMessages;
      CoinsOfChannel(sent, before, channel);
      assert coins == before + [coins[|coins| - 1]];
    }
  }

  lemma CoinsOfSubscribe(coins: seq<string>, channel: Channel)
    ensures Coins(SubscribeMessages(coins), channel) == coins
    ensures |SubscribeMessages(coins)| == 4 * |coins|
  {
    hide Coins;
    var a, b := ChannelMessages(Bbo, coins), ChannelMessages(L2Book, coins);
    var c, d := ChannelMessages(Trades, coins), ChannelMessages(ActiveAssetCtx, coins);
    CoinsConcat(a + b + c, d, channel);
    CoinsConcat(a + b, c, channel);
    CoinsConcat(a, b, channel);
    CoinsOfChannel(Bbo, coins, channel);
    CoinsOfChannel(L2Book, coins, channel);
    CoinsOfChannel(Trades, coins, channel);
    CoinsOfChannel(ActiveAssetCtx, coins, channel);
  }

  /** On each of the four channels exactly these coins were subscribed, and nothing else was sent. */
  ghost predicate SubscribedTo(sent: seq<Message>, coins: seq<string>) {
    && |sent| == 4 * |coins|
    && forall channel :: Coins(sent, channel) == coins
  }

  lemma SubscribeMore(sent: seq<Message>, coins: seq<string>, more: seq<string>)
    requires SubscribedTo(sent, coins)
    ensures SubscribedTo(sent + SubscribeMessages(more), coins + more)
  {
    hide Coins, SubscribeMessages;
    forall channel
      ensures Coins(sent + SubscribeMessages(more), channel) == coins + more
    {
      CoinsConcat(sent, SubscribeMessages(more), channel);
      CoinsOfSubscribe(more, channel);
    }
    CoinsOfSubscribe(more, Bbo);
  }

  lemma NothingSent()
    ensures SubscribedTo([], [])
  {
  }

  // --- stream ids ---

  function StreamIds(streams: seq<Stream>): (ids: seq<nat>)
    ensures |ids| == |streams|
  {
    seq(|streams|, i requires 0 <= i < |streams| => streams[i].id)
  }

  /** All ids handed out: rest, market data, web socket, order entry, drop copy. */
  function AllIds(s: State): seq<nat> {
    [s.restId] + StreamIds(s.streams) + s.webSockets + s.orderEntries + s.dropCopies
  }

  /** The first n values of the counter. */
  function CounterIds(n: nat): seq<nat> { NextIds(0, n) }

  predicate Distinct(xs: seq<nat>) { forall i, j :: 0 <= i < j < |xs| ==> xs[i] != xs[j] }

  lemma ModAdd(n: nat, x: nat)
    ensures (n % 0x1_0000 + x) % 0x1_0000 == (n + x) % 0x1_0000
  {
  }

  lemma CounterIdsAppend(n: nat, m: nat)
    ensures CounterIds(n + m) == CounterIds(n) + NextIds(n % 0x1_0000, m)
    ensures Advance(n % 0x1_0000, m) == (n + m) % 0x1_0000
  {
    ModAdd(n, m);
    forall i | 0 <= i < m ensures CounterIds(n + m)[n + i] == NextIds(n % 0x1_0000, m)[i] {
      ModAdd(n, 1 + i);
    }
  }

  lemma {:induction false} CountedOnce(xs: seq<nat>)
    ensures Distinct(xs) <==> forall x :: multiset(xs)[x] <= 1
  {
    if xs != [] {
      var before, last := xs[..|xs| - 1], xs[|xs| - 1];
      CountedOnce(before);
      assert xs == before + [last];
      if last in before {
        var i :| 0 <= i < |before| && before[i] == last;
        assert xs[i] == xs[|xs| - 1];
        assert multiset(before)[last] >= 1;
        assert multiset(xs)[last] >= 2;
      } else {
        assert multiset(before)[last] == 0;
        if Distinct(xs) { assert Distinct(before); }
        assert forall x :: multiset(xs)[x] == multiset(before)[x] + if x == last then 1 else 0;
      }
    }
  }

  lemma CounterIdsDistinct(n: nat)
    ensures Distinct(CounterIds(n)) <==> n <= 0x1_0000
  {
    var ids := CounterIds(n);
    if n > 0x1_0000 { assert ids[0] == ids[0x1_0000]; }
  }

  // --- the invariant ---

  ghost predicate StreamOk(st: Stream, k: nat, symbols: seq<string>, size: nat) {
    && st.index == k
    && SubscribedTo(st.sent, if st.ready then Slice(symbols, size, k, 0) else [])
  }

  ghost predicate StreamsOk(c: Config, s: State) {
    && c.sliceSize > 0
    && |s.streams| == SliceCount(|s.symbols|, c.sliceSize)
    && forall k :: 0 <= k < |s.streams| ==> StreamOk(s.streams[k], k, s.symbols, c.sliceSize)
  }

  ghost predicate SymbolsOk(s: State) {
    && (forall i, j :: 0 <= i < j < |s.symbols| ==> s.symbols[i] != s.symbols[j])
    && (forall x :: x in s.symbols ==> x in s.allSymbols)
    && (!s.fatal ==> forall x :: x in s.allSymbols ==> x in s.symbols)
  }

  ghost predicate IdsOk(s: State) {
    && s.streamId == |AllIds(s)| % 0x1_0000
    && multiset(AllIds(s)) == multiset(CounterIds(|AllIds(s)|))
  }

  ghost predicate Inv(c: Config, s: State) { StreamsOk(c, s) && SymbolsOk(s) && IdsOk(s) }

  lemma InitialInv(c: Config)
    requires c.sliceSize > 0
    ensures Inv(c, Initial())
  {
    assert AllIds(Initial()) == [1] == CounterIds(1);
  }

  lemma IdsGrow(s: State, s': State, n: nat)
    requires IdsOk(s) && s'.streamId == Advance(s.streamId, n)
    requires |AllIds(s')| == |AllIds(s)| + n
    requires multiset(AllIds(s')) == multiset(AllIds(s)) + multiset(NextIds(s.streamId, n))
    ensures IdsOk(s')
  {
    CounterIdsAppend(|AllIds(s)|, n);
  }

  lemma GrowIds(s: State, count: nat)
    requires IdsOk(s)
    ensures IdsOk(Grow(s, count))
  {
    if |s.streams| < count {
      var s', n := Grow(s, count), count - |s.streams|;
      assert StreamIds(s'.streams) == StreamIds(s.streams) + NextIds(s.streamId, n);
      IdsGrow(s, s', n);
    }
  }

  lemma CreateOnceIds(c: Config, s: State)
    requires IdsOk(s)
    ensures IdsOk(CreateOnce(c, s))
    ensures CreateOnce(c, s).streams == s.streams && CreateOnce(c, s).symbols == s.symbols
    ensures CreateOnce(c, s).allSymbols == s.allSymbols && CreateOnce(c, s).fatal == s.fatal
  {
    var s1 := CreateWebSockets(c, s);
    var s2 := CreateOrderEntries(c, s1);
    hide IdsOk, NextIds, AllIds;
    PoolIds(s, s1, c.accounts);
    PoolIds(s1, s2, c.accounts);
    PoolIds(s2, CreateDropCopies(c, s2), c.accounts);
  }

  /** Filling one empty pool with the next n ids. */
  lemma PoolIds(s: State, s': State, n: nat)
    requires IdsOk(s) && (s' == s || s'.streamId == Advance(s.streamId, n))
    requires var ids := NextIds(s.streamId, n);
      || s' == s
      || (s.webSockets == [] && s' == s.(webSockets := ids, streamId := s'.streamId))
      || (s.orderEntries == [] && s' == s.(orderEntries := ids, streamId := s'.streamId))
      || (s.dropCopies == [] && s' == s.(dropCopies := ids, streamId := s'.streamId))
    ensures IdsOk(s')
  {
    hide IdsOk, NextIds, StreamIds;
    if s' != s { IdsGrow(s, s', n); }
  }

  lemma SameIds(s: State, s': State)
    requires IdsOk(s) && s'.streamId == s.streamId && AllIds(s') == AllIds(s)
    ensures IdsOk(s')
  {
  }

  lemma SliceCountGrows(n: nat, m: nat, size: nat)
    requires size > 0 && n <= m
    ensures SliceCount(n, size) <= SliceCount(m, size)
  {
    SliceBounds(m, size, SliceCount(m, size));
    SliceBounds(n, size, SliceCount(m, size));
  }

  lemma UpdateKeepsStreams(c: Config, s: State, added: seq<string>)
    requires c.sliceSize > 0 && StreamsOk(c, s) && IdsOk(s)
    ensures var s' := SymbolsUpdate(c, s, added);
            && StreamsOk(c, s') && IdsOk(s')
            && s'.symbols == s.symbols + added && s'.allSymbols == s.allSymbols && s'.fatal == s.fatal
  {
    hide SubscribeMessages, SubscribedTo, Slice, IdsOk, CreateOnce, Grow, SubscribeAll, SliceCount, StreamsOk;
    var symbols := s.symbols + added;
    var s1 := s.(symbols := symbols);
    SameIds(s, s1);
    var s2 := Grow(s1, SliceCount(|symbols|, c.sliceSize));
    GrowIds(s1, SliceCount(|symbols|, c.sliceSize));
    var s3 := s2.(streams := SubscribeAll(s2.streams, symbols, c.sliceSize, |s.symbols|));
    SubscribedIds(s2, s3, symbols, c.sliceSize, |s.symbols|);
    GrownStreamsOk(c, s, added);
    CreateOnceIds(c, s3);
    assert StreamsOk(c, CreateOnce(c, s3)) by { StreamsOnly(c, s3, CreateOnce(c, s3)); }
  }

  lemma StreamsOnly(c: Config, s: State, s': State)
    requires StreamsOk(c, s) && s'.streams == s.streams && s'.symbols == s.symbols
    ensures StreamsOk(c, s')
  {
  }

  lemma SubscribedIds(s: State, s': State, symbols: seq<string>, size: nat, start: nat)
    requires IdsOk(s) && s' == s.(streams := SubscribeAll(s.streams, symbols, size, start))
    ensures IdsOk(s')
  {
    assert StreamIds(s'.streams) == StreamIds(s.streams);
    SameIds(s, s');
  }

  lemma GrownStreamsOk(c: Config, s: State, added: seq<string>)
    requires StreamsOk(c, s)
    ensures var symbols := s.symbols + added;
            var s2 := Grow(s.(symbols := symbols), SliceCount(|symbols|, c.sliceSize));
            && s2.symbols == symbols && s2.allSymbols == s.allSymbols && s2.fatal == s.fatal
            && StreamsOk(c, s2.(streams := SubscribeAll(s2.streams, symbols, c.sliceSize, |s.symbols|)))
  {
    NothingSent();
    hide SubscribeMessages, SubscribedTo, Slice, SliceCount;
    var symbols := s.symbols + added;
    SliceCountGrows(|s.symbols|, |symbols|, c.sliceSize);
    var s2 := Grow(s.(symbols := symbols), SliceCount(|symbols|, c.sliceSize));
    var streams := SubscribeAll(s2.streams, symbols, c.sliceSize, |s.symbols|);
    forall k | 0 <= k < |streams|
      ensures StreamOk(streams[k], k, symbols, c.sliceSize)
    {
      if k < |s.streams| && s.streams[k].ready {
        SliceAppend(s.symbols, added, c.sliceSize, k);
        var before, more := Slice(s.symbols, c.sliceSize, k, 0), Slice(symbols, c.sliceSize, k, |s.symbols|);
        SubscribeMore(s.streams[k].sent, before, more);
      }
    }
  }

  lemma AnnounceKeepsSymbols(c: Config, s: State, names: seq<string>)
    requires c.sliceSize > 0 && Inv(c, s) && !s.fatal
    ensures Inv(c, Announce(c, s, names))
    ensures Announce(c, s, names).symbols == s.symbols + Fresh(s.allSymbols, names)
    ensures Announce(c, s, names).allSymbols == Learn(s, names).allSymbols && !Announce(c, s, names).fatal
  {
    hide SymbolsUpdate, StreamsOk, IdsOk;
    var added := Fresh(s.allSymbols, names);
    FreshNames(s.allSymbols, names);
    var s0 := Learn(s, names);
    SameOk(c, s, s0);
    UpdateKeepsStreams(c, s0, added);
    var symbols := s.symbols + added;
    forall i, j | 0 <= i < j < |symbols| ensures symbols[i] != symbols[j] {
      if i < |s.symbols| <= j { assert symbols[i] in s.symbols && symbols[j] in added; }
    }
  }

  lemma SameOk(c: Config, s: State, s': State)
    requires StreamsOk(c, s) && IdsOk(s) && s' == s.(allSymbols := s'.allSymbols, fatal := s'.fatal)
    ensures StreamsOk(c, s') && IdsOk(s')
  {
    assert AllIds(s') == AllIds(s);
  }

  lemma ConnectionKeepsInv(c: Config, s: State, k: nat, st: Stream)
    requires Inv(c, s) && k < |s.streams|
    requires st.id == s.streams[k].id && StreamOk(st, k, s.symbols, c.sliceSize)
    ensures Inv(c, s.(streams := s.streams[k := st]))
  {
    hide StreamOk;
    var s' := s.(streams := s.streams[k := st]);
    assert StreamIds(s'.streams) == StreamIds(s.streams);
    SameIds(s, s');
  }

  lemma MetaKeepsInv(c: Config, s: State, universe: seq<MetaItem>)
    requires c.sliceSize > 0 && Inv(c, s) && !s.fatal
    ensures Inv(c, OnMeta(c, s, universe))
  {
    hide Announce, StreamsOk, IdsOk;
    if Accepted(universe) < |universe| {
      SameOk(c, s, OnMeta(c, s, universe));
    } else {
      AnnounceKeepsSymbols(c, s, Kept(universe));
    }
  }

  lemma StepKeepsInv(c: Config, s: State, e: Event)
    requires c.sliceSize > 0 && Inv(c, s)
    ensures Inv(c, Step(c, s, e))
  {
    if !s.fatal {
      match e
      case OnSubscribe(names) => hide Announce, Inv; AnnounceKeepsSymbols(c, s, names);
      case OnGetMetaAck(universe) => hide OnMeta, Inv; MetaKeepsInv(c, s, universe);
      case OnReady(k) =>
        if k < |s.streams| {
          var st := SubscribeFrom(s.streams[k].(ready := true, sent := []), s.symbols, c.sliceSize, 0);
          NothingSent();
          SubscribeMore([], [], Slice(s.symbols, c.sliceSize, k, 0));
          assert [] + Slice(s.symbols, c.sliceSize, k, 0) == Slice(s.symbols, c.sliceSize, k, 0);
          hide Inv, SubscribedTo, Slice, SubscribeMessages;
          ReadyStreamOk(c, s, k);
          ConnectionKeepsInv(c, s, k, st);
        }
      case OnDisconnected(k) =>
        if k < |s.streams| {
          var st := s.streams[k].(ready := false, sent := []);
          assert StreamOk(s.streams[k], k, s.symbols, c.sliceSize);
          hide Inv;
          ConnectionKeepsInv(c, s, k, st);
        }
    }
  }

  lemma ReadyStreamOk(c: Config, s: State, k: nat)
    requires Inv(c, s) && k < |s.streams|
    requires var slice := Slice(s.symbols, c.sliceSize, k, 0);
             SubscribedTo([] + SubscribeMessages(slice), slice)
    ensures var st := SubscribeFrom(s.streams[k].(ready := true, sent := []), s.symbols, c.sliceSize, 0);
            StreamOk(st, k, s.symbols, c.sliceSize)
  {
    hide SubscribedTo, Slice, SubscribeMessages;
    assert StreamOk(s.streams[k], k, s.symbols, c.sliceSize);
  }

  /** Over every interleaving of announcements, meta replies, connects and disconnects: stream k has
      index k and has subscribed on its current connection to exactly slice k, in order and once per
      channel, when it is ready, and to nothing when it is not; the announced symbols are duplicate-free
      and, until a fatal error, are the set of known symbols. */
  lemma {:induction false} RunsKeepInv(c: Config, events: seq<Event>)
    requires c.sliceSize > 0
    ensures Inv(c, Run(c, events))
  {
    if events == [] {
      InitialInv(c);
    } else {
      RunsKeepInv(c, events[..|events| - 1]);
      StepKeepsInv(c, Run(c, events[..|events| - 1]), events[|events| - 1]);
    }
  }

  /** All stream ids handed out in a run are pairwise different exactly up to 65536 streams. */
  lemma StreamIdsDistinctIff(c: Config, events: seq<Event>)
    requires c.sliceSize > 0
    ensures var ids := AllIds(Run(c, events)); Distinct(ids) <==> |ids| <= 0x1_0000
  {
    hide Run, AllIds;
    RunsKeepInv(c, events);
    var ids := AllIds(Run(c, events));
    CountedOnce(ids);
    CountedOnce(CounterIds(|ids|));
    CounterIdsDistinct(|ids|);
  }

  /** What one event passes to the symbol list. */
  function UpdateOf(s: State, e: Event): seq<string> {
    if s.fatal then []
    else
      match e
      case OnSubscribe(names) => Fresh(s.allSymbols, names)
      case OnGetMetaAck(universe) =>
        if Accepted(universe) < |universe| then [] else Fresh(s.allSymbols, Kept(universe))
      case _ => []
  }

  function Updates(c: Config, events: seq<Event>): seq<string>
    requires c.sliceSize > 0
  {
    if events == [] then []
    else
      var before := events[..|events| - 1];
      Updates(c, before) + UpdateOf(Run(c, before), events[|events| - 1])
  }

  /** The concatenation of all symbol updates of a run has no duplicates and is the known set. (When a
      fatal error ends the run, the names of the offending reply are known but not announced.) */
  lemma {:induction false} UpdatesAreKnownSymbols(c: Config, events: seq<Event>)
    requires c.sliceSize > 0
    ensures var u, s := Updates(c, events), Run(c, events);
            && u == s.symbols
            && (forall i, j :: 0 <= i < j < |u| ==> u[i] != u[j])
            && (forall x :: x in u ==> x in s.allSymbols)
            && (!s.fatal ==> forall x :: x in s.allSymbols ==> x in u)
  {
    hide Step;
    RunsKeepInv(c, events);
    if events != [] {
      var before, e := events[..|events| - 1], events[|events| - 1];
      UpdatesAreKnownSymbols(c, before);
      RunsKeepInv(c, before);
      StepAppends(c, Run(c, before), e);
    }
  }

  lemma StepAppends(c: Config, s: State, e: Event)
    requires c.sliceSize > 0 && Inv(c, s)
    ensures Step(c, s, e).symbols == s.symbols + UpdateOf(s, e)
  {
    hide Inv, Announce;
    if !s.fatal {
      match e
      case OnSubscribe(names) => AnnounceKeepsSymbols(c, s, names);
      case OnGetMetaAck(universe) =>
        if Accepted(universe) == |universe| { AnnounceKeepsSymbols(c, s, Kept(universe)); }
      case _ =>
    }
  }

  // --- which symbols are known, and which runs end ---

  predicate Listed(universe: seq<MetaItem>, x: string) {
    exists i :: 0 <= i < |universe| && universe[i].name == x && !universe[i].discard
  }

  /** A client subscribes to x, or a meta reply lists x and does not discard it. */
  predicate Names(e: Event, x: string) {
    match e
    case OnSubscribe(names) => x in names
    case OnGetMetaAck(universe) => Listed(universe, x)
    case _ => false
  }

  /** A meta reply with an item whose size decimals have no tick table. */
  predicate Unsupported(e: Event) {
    e.OnGetMetaAck? && exists i :: 0 <= i < |e.universe| && !(0 <= e.universe[i].szDecimals <= 5)
  }

  lemma {:induction false} KeptIff(universe: seq<MetaItem>, x: string)
    ensures x in Kept(universe) <==> Listed(universe, x)
  {
    if universe != [] {
      var before, last := universe[..|universe| - 1], universe[|universe| - 1];
      KeptIff(before, x);
      if Listed(before, x) {
        var i :| 0 <= i < |before| && before[i].name == x && !before[i].discard;
        assert universe[i] == before[i];
      }
      if x in Kept(universe) && x !in Kept(before) { assert universe[|universe| - 1] == last; }
      if Listed(universe, x) {
        var i :| 0 <= i < |universe| && universe[i].name == x && !universe[i].discard;
        if i < |before| { assert before[i] == universe[i]; }
      }
    }
  }

  lemma StepKnows(c: Config, s: State, e: Event, x: string)
    requires c.sliceSize > 0 && Inv(c, s) && !Step(c, s, e).fatal
    ensures !s.fatal && (x in Step(c, s, e).allSymbols <==> x in s.allSymbols || Names(e, x))
  {
    match e
    case OnSubscribe(names) => AnnounceKeepsSymbols(c, s, names); FreshNames(s.allSymbols, names); hide Announce;
    case OnGetMetaAck(universe) =>
      AnnounceKeepsSymbols(c, s, Kept(universe));
      FreshNames(s.allSymbols, Kept(universe));
      KeptIff(universe, x);
      hide Announce, Kept, Listed;
    case _ =>
  }

  /** Unless a fatal error ends the run, the known symbols are exactly those some event named. */
  lemma {:induction false} KnownIffNamed(c: Config, events: seq<Event>, x: string)
    requires c.sliceSize > 0 && !Run(c, events).fatal
    ensures x in Run(c, events).allSymbols <==> exists e :: e in events && Names(e, x)
  {
    hide Names, Step;
    if events != [] {
      var before, last := events[..|events| - 1], events[|events| - 1];
      RunsKeepInv(c, before);
      StepKnows(c, Run(c, before), last, x);
      KnownIffNamed(c, before, x);
      assert events == before + [last];
    }
  }

  lemma SupportedIff(item: MetaItem)
    ensures Supported(item) <==> 0 <= item.szDecimals <= 5
  {
  }

  lemma AcceptedIff(universe: seq<MetaItem>)
    ensures Accepted(universe) < |universe| <==> Unsupported(OnGetMetaAck(universe))
  {
    hide Supported;
    forall i | 0 <= i < |universe|
      ensures Supported(universe[i]) <==> 0 <= universe[i].szDecimals <= 5
    {
      SupportedIff(universe[i]);
    }
  }

  lemma StepFatalIff(c: Config, s: State, e: Event)
    requires c.sliceSize > 0 && Inv(c, s)
    ensures Step(c, s, e).fatal <==> s.fatal || Unsupported(e)
  {
    hide Announce, Inv, Kept;
    if !s.fatal {
      match e
      case OnSubscribe(names) => AnnounceKeepsSymbols(c, s, names);
      case OnGetMetaAck(universe) =>
        AcceptedIff(universe);
        AnnounceKeepsSymbols(c, s, Kept(universe));
      case _ =>
    }
  }

  /** A run is ended by a fatal error iff some meta reply has such an item. */
  lemma {:induction false} FatalIff(c: Config, events: seq<Event>)
    requires c.sliceSize > 0
    ensures Run(c, events).fatal <==> exists e :: e in events && Unsupported(e)
  {
    hide Unsupported, Step;
    if events != [] {
      var before, last := events[..|events| - 1], events[|events| - 1];
      FatalIff(c, before);
      RunsKeepInv(c, before);
      StepFatalIff(c, Run(c, before), last);
      assert events == before + [last];
    }
  }

  // --- which streams are connected ---

  /** Event i is the Ready of stream k, and is acted on. */
  predicate Connects(c: Config, events: seq<Event>, i: nat, k: nat)
    requires c.sliceSize > 0 && i < |events|
  {
    events[i] == OnReady(k) && k < |Run(c, events[..i]).streams| && !Run(c, events[..i]).fatal
  }

  predicate Drops(c: Config, events: seq<Event>, i: nat, k: nat)
    requires c.sliceSize > 0 && i < |events|
  {
    events[i] == OnDisconnected(k) && !Run(c, events[..i]).fatal
  }

  /** Stream k has become ready, at event i, and has not been disconnected since. */
  ghost predicate Connected(c: Config, events: seq<Event>, k: nat)
    requires c.sliceSize > 0
  {
    exists i :: 0 <= i < |events| && Connects(c, events, i, k)
      && forall j :: i < j < |events| ==> !Drops(c, events, j, k)
  }

  lemma ConnectedStep(c: Config, events: seq<Event>, k: nat)
    requires c.sliceSize > 0 && events != []
    ensures var n := |events| - 1;
            Connected(c, events, k)
            <==> Connects(c, events, n, k) || (Connected(c, events[..n], k) && !Drops(c, events, n, k))
  {
    hide Run;
    var n := |events| - 1;
    var before := events[..n];
    forall i | 0 <= i < n
      ensures Connects(c, events, i, k) == Connects(c, before, i, k)
      ensures Drops(c, events, i, k) == Drops(c, before, i, k)
    {
      assert events[..i] == before[..i];
    }
    hide Connects, Drops;
    if Connected(c, events, k) && !Connects(c, events, n, k) {
      var i :| 0 <= i < |events| && Connects(c, events, i, k)
        && forall j :: i < j < |events| ==> !Drops(c, events, j, k);
      assert Connects(c, before, i, k);
    }
    if Connected(c, before, k) && !Drops(c, events, n, k) {
      var i :| 0 <= i < n && Connects(c, before, i, k) && forall j :: i < j < n ==> !Drops(c, before, j, k);
      assert Connects(c, events, i, k);
    }
  }

  lemma UpdateKeepsReady(c: Config, s: State, added: seq<string>, k: nat)
    requires c.sliceSize > 0
    ensures var s' := SymbolsUpdate(c, s, added);
            && |s.streams| <= |s'.streams|
            && (k < |s'.streams| ==> s'.streams[k].ready == (k < |s.streams| && s.streams[k].ready))
  {
    hide Slice, SubscribeMessages, SliceCount, NextIds;
  }

  /** One event: an announcement leaves every stream as ready as it was, and adds none that is. */
  lemma StepReady(c: Config, s: State, e: Event, k: nat)
    requires c.sliceSize > 0
    ensures var s' := Step(c, s, e);
            && |s.streams| <= |s'.streams|
            && (k < |s'.streams| ==>
                  s'.streams[k].ready ==
                  if !s.fatal && e == OnReady(k) then true
                  else if !s.fatal && e == OnDisconnected(k) then false
                  else k < |s.streams| && s.streams[k].ready)
  {
    hide SymbolsUpdate, Slice, SubscribeMessages, Fresh, Kept, Accepted;
    if !s.fatal {
      match e
      case OnSubscribe(names) => UpdateKeepsReady(c, Learn(s, names), Fresh(s.allSymbols, names), k);
      case OnGetMetaAck(universe) =>
        UpdateKeepsReady(c, Learn(s, Kept(universe)), Fresh(s.allSymbols, Kept(universe)), k);
      case _ =>
    }
  }

  lemma {:induction false} StreamsStay(c: Config, events: seq<Event>, n: nat)
    requires c.sliceSize > 0 && n <= |events|
    ensures |Run(c, events[..n]).streams| <= |Run(c, events).streams|
    decreases |events| - n
  {
    if n == |events| {
      assert events[..n] == events;
    } else {
      assert events[..n + 1][..n] == events[..n];
      StepReady(c, Run(c, events[..n]), events[n], 0);
      hide Step;
      StreamsStay(c, events, n + 1);
    }
  }

  /** Over every run: a stream is ready iff its Ready has been seen, while it existed, and no Disconnected
      since. */
  lemma {:induction false} ReadyIff(c: Config, events: seq<Event>, k: nat)
    requires c.sliceSize > 0 && k < |Run(c, events).streams|
    ensures Run(c, events).streams[k].ready <==> Connected(c, events, k)
  {
    if events != [] {
      var n := |events| - 1;
      var s := Run(c, events[..n]);
      ConnectedStep(c, events, k);
      StepReady(c, s, events[n], k);
      assert Run(c, events) == Step(c, s, events[n]);
      hide Step, Connected;
      if k < |s.streams| {
        ReadyIff(c, events[..n], k);
      } else {
        NotBeforeItExists(c, events[..n], k);
      }
    }
  }

  lemma NotBeforeItExists(c: Config, events: seq<Event>, k: nat)
    requires c.sliceSize > 0 && |Run(c, events).streams| <= k
    ensures !Connected(c, events, k)
  {
    hide Run;
    forall i | 0 <= i < |events|
      ensures !Connects(c, events, i, k)
    {
      StreamsStay(c, events, i);
    }
  }

  /** A connected stream has subscribed to exactly its slice, once per channel, on its connection; any
      other has sent nothing on it. */
  lemma SubscribedIff(c: Config, events: seq<Event>, k: nat)
    requires c.sliceSize > 0 && k < |Run(c, events).streams|
    ensures var s := Run(c, events);
            SubscribedTo(s.streams[k].sent, if Connected(c, events, k) then Slice(s.symbols, c.sliceSize, k, 0) else [])
  {
    RunsKeepInv(c, events);
    ReadyIff(c, events, k);
    hide Run, Connected, SubscribedTo, Slice;
    assert StreamOk(Run(c, events).streams[k], k, Run(c, events).symbols, c.sliceSize);
  }

  /** There is one stream per slice. */
  lemma StreamsExist(c: Config, events: seq<Event>, k: nat)
    requires c.sliceSize > 0
    ensures k < |Run(c, events).streams| <==> k * c.sliceSize < |Run(c, events).symbols|
  {
    RunsKeepInv(c, events);
    hide Run;
    SliceBounds(|Run(c, events).symbols|, c.sliceSize, k);
  }

  // --- account streams ---

  /** Event i announces symbols, and is acted on. */
  predicate Announces(c: Config, events: seq<Event>, i: nat)
    requires c.sliceSize > 0 && i < |events|
  {
    (events[i].OnSubscribe? || events[i].OnGetMetaAck?) && !Run(c, events[..i + 1]).fatal
  }

  predicate PoolsAre(c: Config, s: State, created: bool) {
    var n := if created then c.accounts else 0;
    |s.webSockets| == (if c.wsApi then n else 0) && |s.orderEntries| == n && |s.dropCopies| == n
  }

  lemma StepPools(c: Config, s: State, e: Event, created: bool)
    requires c.sliceSize > 0 && PoolsAre(c, s, created)
    ensures var s' := Step(c, s, e);
            && PoolsAre(c, s', created || ((e.OnSubscribe? || e.OnGetMetaAck?) && !s'.fatal))
            && (s.webSockets != [] ==> s'.webSockets == s.webSockets)
            && (s.orderEntries != [] ==> s'.orderEntries == s.orderEntries)
            && (s.dropCopies != [] ==> s'.dropCopies == s.dropCopies)
  {
    hide Fresh, Kept, Accepted, SubscribeAll, SubscribeFrom, SliceCount, NewStreams;
  }

  ghost predicate Announced(c: Config, events: seq<Event>)
    requires c.sliceSize > 0
  {
    exists i :: 0 <= i < |events| && Announces(c, events, i)
  }

  lemma AnnouncedStep(c: Config, events: seq<Event>)
    requires c.sliceSize > 0 && events != []
    ensures var n := |events| - 1; Announced(c, events) <==> Announced(c, events[..n]) || Announces(c, events, n)
  {
    hide Run;
    var n := |events| - 1;
    var before := events[..n];
    forall i | 0 <= i < n
      ensures Announces(c, events, i) == Announces(c, before, i)
    {
      assert events[..i + 1] == before[..i + 1];
    }
    hide Announces;
    if Announced(c, before) {
      var i :| 0 <= i < n && Announces(c, before, i);
      assert Announces(c, events, i);
    }
  }

  /** The account streams are created at the first announcement, one per account in each pool, and stay. */
  lemma {:induction false} PoolsIff(c: Config, events: seq<Event>)
    requires c.sliceSize > 0
    ensures PoolsAre(c, Run(c, events), Announced(c, events))
  {
    if events != [] {
      var n := |events| - 1;
      var s := Run(c, events[..n]);
      PoolsIff(c, events[..n]);
      StepPools(c, s, events[n], Announced(c, events[..n]));
      AnnouncedStep(c, events);
      assert events[..n + 1] == events;
      assert Run(c, events) == Step(c, s, events[n]);
      hide PoolsAre, Step, Announced;
    }
  }
}
