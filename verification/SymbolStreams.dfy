/** Symbols, market-data streams and stream ids: gateway/controller.cpp, the subscription side of
    gateway/market_data.cpp and the symbol announcement of gateway/rest.cpp.

    `core::Symbols` lies outside the repository; its call sites fix the contract used here: an
    append-only list, cut into contiguous slices of a fixed size. Appending returns the number of
    slices and the previous total, and a slice can be asked for from a global position on. */
module SymbolStreams {
  import TickSizeSteps
  import T = TradeSummaries

  // --- slices ---

  function SliceCount(total: nat, size: nat): nat
    requires size > 0
  {
    (total + size - 1) / size
  }

  /** The symbols at positions lo to hi, as far as there are any. */
  function Part(symbols: seq<string>, lo: nat, hi: nat): seq<string> {
    var end := if hi < |symbols| then hi else |symbols|;
    if lo <= end then symbols[lo..end] else []
  }

  /** The symbols of slice k at global position `start` or later. */
  function Slice(symbols: seq<string>, size: nat, k: nat, start: nat): seq<string> {
    Part(symbols, if k * size < start then start else k * size, (k + 1) * size)
  }

  // --- announcing symbols ---

  /** The names not seen before, each once, in order of appearance. */
  function Fresh(seen: set<string>, names: seq<string>): seq<string> {
    if names == [] then []
    else
      var before, last := Fresh(seen, names[..|names| - 1]), names[|names| - 1];
      if last in seen || last in before then before else before + [last]
  }

  datatype MetaItem = MetaItem(name: string, discard: bool, szDecimals: int)

  /** There is a tick table for the item; looking it up is fatal otherwise. */
  predicate Supported(item: MetaItem) { TickSizeSteps.Perps(item.szDecimals).Table? }

  /** How many items come before the first unsupported one. */
  function Accepted(universe: seq<MetaItem>): (n: nat)
    ensures n <= |universe| && (forall i :: 0 <= i < n ==> Supported(universe[i]))
    ensures n < |universe| ==> !Supported(universe[n])
  {
    if universe == [] || !Supported(universe[0]) then 0 else 1 + Accepted(universe[1..])
  }

  function Kept(universe: seq<MetaItem>): seq<string> {
    if universe == [] then []
    else
      var last := universe[|universe| - 1];
      Kept(universe[..|universe| - 1]) + if last.discard then [] else [last.name]
  }

  // --- messages on a connection ---

  datatype Channel = Bbo | L2Book | Trades | ActiveAssetCtx

  datatype Message = Message(channel: Channel, coin: string)

  function ChannelMessages(channel: Channel, coins: seq<string>): (ms: seq<Message>)
    ensures |ms| == |coins|
  {
    seq(|coins|, i requires 0 <= i < |coins| => Message(channel, coins[i]))
  }

  function SubscribeMessages(coins: seq<string>): seq<Message> {
    ChannelMessages(Bbo, coins) + ChannelMessages(L2Book, coins)
      + ChannelMessages(Trades, coins) + ChannelMessages(ActiveAssetCtx, coins)
  }

  /** The coins subscribed on one channel, in order. */
  function Coins(sent: seq<Message>, channel: Channel): seq<string> {
    if sent == [] then []
    else
      var last := sent[|sent| - 1];
      Coins(sent[..|sent| - 1], channel) + if last.channel == channel then [last.coin] else []
  }

  // --- the state machine ---

  datatype Stream = Stream(id: nat, index: nat, ready: bool, sent: seq<Message>)

  datatype Config = Config(sliceSize: nat, accounts: nat, wsApi: bool)

  datatype State = State(
    streamId: nat,  // the 16-bit counter
    allSymbols: set<string>, symbols: seq<string>,
    restId: nat, streams: seq<Stream>, webSockets: seq<nat>, orderEntries: seq<nat>, dropCopies: seq<nat>,
    fatal: bool)

  datatype Event =
    | OnSubscribe(names: seq<string>)
    | OnGetMetaAck(universe: seq<MetaItem>)
    | OnReady(k: nat)
    | OnDisconnected(k: nat)

  /** n values of the pre-incremented 16-bit counter. */
  function NextIds(streamId: nat, n: nat): (ids: seq<nat>)
    ensures |ids| == n
  {
    seq(n, i requires 0 <= i < n => (streamId + 1 + i) % 0x1_0000)
  }

  function Advance(streamId: nat, n: nat): nat { (streamId + n) % 0x1_0000 }

  function NewStreams(streamId: nat, first: nat, n: nat): seq<Stream> {
    seq(n, i requires 0 <= i < n => Stream(NextIds(streamId, n)[i], first + i, false, []))
  }

  function Grow(s: State, count: nat): State {
    if |s.streams| < count then
      var n := count - |s.streams|;
      s.(streams := s.streams + NewStreams(s.streamId, |s.streams|, n), streamId := Advance(s.streamId, n))
    else s
  }

  function SubscribeFrom(st: Stream, symbols: seq<string>, size: nat, start: nat): Stream {
    if st.ready then st.(sent := st.sent + SubscribeMessages(Slice(symbols, size, st.index, start))) else st
  }

  function SubscribeAll(streams: seq<Stream>, symbols: seq<string>, size: nat, start: nat): seq<Stream> {
    seq(|streams|, i requires 0 <= i < |streams| => SubscribeFrom(streams[i], symbols, size, start))
  }

  function CreateWebSockets(c: Config, s: State): State {
    if c.wsApi && s.webSockets == []
    then s.(webSockets := NextIds(s.streamId, c.accounts), streamId := Advance(s.streamId, c.accounts)) else s
  }

  function CreateOrderEntries(c: Config, s: State): State {
    if s.orderEntries == []
    then s.(orderEntries := NextIds(s.streamId, c.accounts), streamId := Advance(s.streamId, c.accounts)) else s
  }

  function CreateDropCopies(c: Config, s: State): State {
    if s.dropCopies == []
    then s.(dropCopies := NextIds(s.streamId, c.accounts), streamId := Advance(s.streamId, c.accounts)) else s
  }

  /** Web sockets, order entries and drop copies are created once, after the first announcement. */
  function CreateOnce(c: Config, s: State): State {
    CreateDropCopies(c, CreateOrderEntries(c, CreateWebSockets(c, s)))
  }

  function SymbolsUpdate(c: Config, s: State, added: seq<string>): State
    requires c.sliceSize > 0
  {
    var s1 := s.(symbols := s.symbols + added);
    var s2 := Grow(s1, SliceCount(|s1.symbols|, c.sliceSize));
    var s3 := s2.(streams := SubscribeAll(s2.streams, s1.symbols, c.sliceSize, |s.symbols|));
    if c.accounts > 0 then CreateOnce(c, s3) else s3
  }

  function Learn(s: State, names: seq<string>): State {
    s.(allSymbols := s.allSymbols + set x | x in Fresh(s.allSymbols, names))
  }

  function Announce(c: Config, s: State, names: seq<string>): State
    requires c.sliceSize > 0
  {
    SymbolsUpdate(c, Learn(s, names), Fresh(s.allSymbols, names))
  }

  /** An unsupported item ends the process before anything is announced. */
  function OnMeta(c: Config, s: State, universe: seq<MetaItem>): State
    requires c.sliceSize > 0
  {
    var n := Accepted(universe);
    if n < |universe| then Learn(s, Kept(universe[..n])).(fatal := true) else Announce(c, s, Kept(universe))
  }

  function Step(c: Config, s: State, e: Event): State
    requires c.sliceSize > 0
  {
    if s.fatal then s
    else
      match e
      case OnSubscribe(names) => Announce(c, s, names)
      case OnGetMetaAck(universe) => OnMeta(c, s, universe)
      case OnReady(k) =>
        if k < |s.streams| then
          var st := s.streams[k].(ready := true, sent := []);
          s.(streams := s.streams[k := SubscribeFrom(st, s.symbols, c.sliceSize, 0)])
        else s
      case OnDisconnected(k) =>
        if k < |s.streams| then s.(streams := s.streams[k := s.streams[k].(ready := false, sent := [])]) else s
  }

  function Initial(): State { State(1, {}, [], 1, [], [], [], [], false) }

  function Run(c: Config, events: seq<Event>): State
    requires c.sliceSize > 0
  {
    if events == [] then Initial()
    else Step(c, Run(c, events[..|events| - 1]), events[|events| - 1])
  }

  lemma ModStep(x: nat)
    ensures (x % 0x1_0000 + 1) % 0x1_0000 == (x + 1) % 0x1_0000
  {
  }

  // --- the classes ---

  class Shared {
    const sliceSize: nat
    var symbols: seq<string>
    var allSymbols: set<string>
    var trades: seq<T.Item>  // a buffer

    constructor (sliceSize: nat)
      ensures this.sliceSize == sliceSize && symbols == [] && allSymbols == {}
    {
      this.sliceSize := sliceSize;
      symbols, allSymbols, trades := [], {}, [];
    }
  }

  class MarketData {
    const streamId: nat
    const index: nat
    const shared: Shared
    var ready: bool
    var sent: seq<Message>  // on the current connection
    var published: seq<T.Summary>

    constructor (streamId: nat, index: nat, shared: Shared)
      ensures this.streamId == streamId && this.index == index && this.shared == shared
      ensures !ready && sent == []
    {
      this.streamId, this.index, this.shared := streamId, index, shared;
      ready, sent, published := false, [], [];
    }

    function Abstract(): Stream
      reads this
    {
      Stream(streamId, index, ready, sent)
    }

    method SubscribeChannel(channel: Channel, coins: seq<string>)
      modifies this`sent
      ensures sent == old(sent) + ChannelMessages(channel, coins)
    {
      for i := 0 to |coins|
        invariant sent == old(sent) + ChannelMessages(channel, coins)[..i]
      {
        sent := sent + [Message(channel, coins[i])];
      }
    }

    method SubscribeCoins(coins: seq<string>)
      modifies this`sent
      ensures sent == old(sent) + SubscribeMessages(coins)
    {
      if coins == [] {
        return;
      }
      SubscribeChannel(Bbo, coins);
      SubscribeChannel(L2Book, coins);
      SubscribeChannel(Trades, coins);
      SubscribeChannel(ActiveAssetCtx, coins);
    }

    method Subscribe(start: nat)
      modifies this`sent
      ensures Abstract() == SubscribeFrom(old(Abstract()), shared.symbols, shared.sliceSize, start)
    {
      if ready {
        SubscribeCoins(Slice(shared.symbols, shared.sliceSize, index, start));
      }
    }

    /** A new connection: nothing is subscribed on it yet. */
    method OnReady()
      modifies this`ready, this`sent
      ensures Abstract() ==
        SubscribeFrom(old(Abstract()).(ready := true, sent := []), shared.symbols, shared.sliceSize, 0)
    {
      ready, sent := true, [];
      Subscribe(0);
    }

    method OnDisconnected()
      modifies this`ready, this`sent
      ensures Abstract() == old(Abstract()).(ready := false, sent := [])
    {
      ready, sent := false, [];
    }

    method DispatchTrades(time: int, coin: string)
      modifies this`published
      ensures published == old(published)
        + if shared.trades == [] then [] else [T.Summary(time, coin, shared.trades)]
    {
      if shared.trades == [] {
        return;
      }
      published := published + [T.Summary(time, coin, shared.trades)];
    }

    /** One pass over the payload, dispatching whenever time or coin changes, and once at the end. */
    method OnTrades(data: seq<T.Item>)
      modifies this`published, shared`trades
      ensures published == old(published) + T.Summaries(data)
      ensures shared.trades == data
    {
      hide T.SummariesAt, T.RunEnds;
      T.EndStep(data, 0);
      var time, coin := 0, "";
      shared.trades := [];
      for i := 0 to |data|
        invariant shared.trades == data[..i]
        invariant i == 0 ==> published == old(published)
        invariant i > 0 ==> time == data[i - 1].time && coin == data[i - 1].coin
        invariant i > 0 ==> published == old(published) + T.SummariesAt(data, T.RunEnds(data, i - 1))
      {
        var item := data[i];
        if item.time != time || item.coin != coin {
          DispatchTrades(time, coin);
          time := item.time;
          coin := item.coin;
        }
        if i > 0 { T.EndStep(data, i); }
        shared.trades := shared.trades + [item];
      }
      DispatchTrades(time, coin);
      if data != [] { T.EndStep(data, |data|); }
    }
  }

  class Controller {
    const config: Config
    const shared: Shared
    const restId: nat
    var streamId: nat
    var marketData: seq<MarketData>
    var webSockets: seq<nat>
    var orderEntries: seq<nat>
    var dropCopies: seq<nat>
    var fatal: bool

    ghost predicate Valid()
      reads this, shared, marketData
    {
      && config.sliceSize > 0 && shared.sliceSize == config.sliceSize
      && (forall i :: 0 <= i < |marketData| ==> marketData[i].shared == shared)
      && (forall i, j :: 0 <= i < j < |marketData| ==> marketData[i] != marketData[j])
    }

    ghost function Streams(): (r: seq<Stream>)
      reads this, marketData
      ensures |r| == |marketData|
    {
      seq(|marketData|, i requires 0 <= i < |marketData| reads this, marketData => marketData[i].Abstract())
    }

    ghost function Abstract(): State
      reads this, shared, marketData
    {
      State(streamId, shared.allSymbols, shared.symbols, restId, Streams(), webSockets, orderEntries, dropCopies, fatal)
    }

    constructor (config: Config)
      requires config.sliceSize > 0
      ensures Valid() && Abstract() == Initial() && this.config == config && fresh(shared)
    {
      this.config := config;
      shared := new Shared(config.sliceSize);
      streamId, restId := 1, 1;
      marketData := [];
      webSockets, orderEntries, dropCopies, fatal := [], [], [], false;
    }

    method NextStreamId() returns (id: nat)
      modifies this`streamId
      ensures id == streamId == (old(streamId) + 1) % 0x1_0000
    {
      streamId := (streamId + 1) % 0x1_0000;
      id := streamId;
    }

    method AddMarketData()
      requires Valid()
      modifies this`streamId, this`marketData
      ensures Valid() && streamId == (old(streamId) + 1) % 0x1_0000
      ensures |marketData| == |old(marketData)| + 1 && marketData[..|old(marketData)|] == old(marketData)
      ensures fresh(marketData[|old(marketData)|])
      ensures marketData[|old(marketData)|].Abstract() == Stream(streamId, |old(marketData)|, false, [])
    {
      var id := NextStreamId();
      var obj := new MarketData(id, |marketData|, shared);
      marketData := marketData + [obj];
    }

    method EnsureSymbolSlices(size: nat)
      requires Valid()
      modifies this`streamId, this`marketData
      ensures Valid() && Abstract() == Grow(old(Abstract()), size)
      ensures old(marketData) <= marketData
      ensures forall i :: |old(marketData)| <= i < |marketData| ==> fresh(marketData[i])
    {
      hide SubscribeAll, SliceCount, CreateOnce;
      ghost var first := |marketData|;
      ghost var n := if first < size then size - first else 0;
      while |marketData| < size
        invariant Valid() && first <= |marketData| && |marketData| - first <= n
        invariant old(marketData) <= marketData
        invariant forall i :: first <= i < |marketData| ==> fresh(marketData[i])
        invariant forall i :: 0 <= i < first ==> marketData[i].Abstract() == old(marketData[i].Abstract())
        invariant forall i :: first <= i < |marketData| ==>
          marketData[i].Abstract() == NewStreams(old(streamId), first, n)[i - first]
        invariant streamId ==
          if |marketData| == first then old(streamId) else Advance(old(streamId), |marketData| - first)
      {
        ghost var i := |marketData| - first;
        ModStep(old(streamId) + i);
        AddMarketData();
        assert streamId == NextIds(old(streamId), n)[i];
      }
      assert Streams() == Grow(old(Abstract()), size).streams;
    }

    method SubscribeStreams(start: nat)
      requires Valid()
      modifies marketData
      ensures Valid() && Abstract() == old(Abstract()).(
        streams := SubscribeAll(old(Streams()), shared.symbols, shared.sliceSize, start))
    {
      hide SubscribeFrom;
      ghost var streams := Streams();
      for i := 0 to |marketData|
        invariant Valid()
        invariant forall j :: 0 <= j < i ==>
          marketData[j].Abstract() == SubscribeFrom(streams[j], shared.symbols, shared.sliceSize, start)
        invariant forall j :: i <= j < |marketData| ==> marketData[j].Abstract() == streams[j]
      {
        marketData[i].Subscribe(start);
      }
      assert Streams() == SubscribeAll(streams, shared.symbols, shared.sliceSize, start);
    }

    method OnSymbolsUpdate(added: seq<string>)
      requires Valid()
      modifies this, shared, marketData
      ensures Valid() && Abstract() == SymbolsUpdate(config, old(Abstract()), added)
    {
      hide Grow, SubscribeAll, CreateOnce;
      var start := |shared.symbols|;
      shared.symbols := shared.symbols + added;
      assert Streams() == old(Streams());
      EnsureSymbolSlices(SliceCount(|shared.symbols|, shared.sliceSize));
      SubscribeStreams(start);
      if config.accounts > 0 {
        CreateAccountStreams();
      }
    }

    method CreateIds(n: nat) returns (ids: seq<nat>)
      modifies this`streamId
      ensures ids == NextIds(old(streamId), n)
      ensures n > 0 ==> streamId == Advance(old(streamId), n)
      ensures n == 0 ==> streamId == old(streamId)
    {
      ids := [];
      for i := 0 to n
        invariant ids == NextIds(old(streamId), n)[..i]
        invariant streamId == if i == 0 then old(streamId) else Advance(old(streamId), i)
      {
        ModStep(old(streamId) + i);
        var id := NextStreamId();
        ids := ids + [id];
      }
    }

    method CreateAccountStreams()
      requires Valid() && config.accounts > 0
      modifies this
      ensures Valid() && Abstract() == CreateOnce(config, old(Abstract()))
    {
      if config.wsApi {
        if webSockets == [] {
          webSockets := CreateIds(config.accounts);
        }
      }
      if orderEntries == [] {
        orderEntries := CreateIds(config.accounts);
      }
      if dropCopies == [] {
        dropCopies := CreateIds(config.accounts);
      }
    }

    /** Client subscription: only names not seen before are announced. */
    method OnSubscribeEvent(names: seq<string>)
      requires Valid() && !fatal
      modifies this, shared, marketData
      ensures Valid() && Abstract() == Step(config, old(Abstract()), OnSubscribe(names))
    {
      var symbols := [];
      for i := 0 to |names|
        invariant marketData == old(marketData)
        invariant symbols == Fresh(old(shared.allSymbols), names[..i])
        invariant shared.allSymbols == old(shared.allSymbols) + set x | x in symbols
        invariant Valid() && Abstract() == old(Abstract()).(allSymbols := shared.allSymbols)
      {
        assert names[..i + 1][..i] == names[..i];
        if names[i] !in shared.allSymbols {
          shared.allSymbols := shared.allSymbols + {names[i]};
          symbols := symbols + [names[i]];
        }
      }
      assert names[..|names|] == names;
      OnSymbolsUpdate(symbols);
    }

    /** The loop over a meta reply: names that are not discarded and not seen before. Size decimals
        without a tick table are fatal. */
    method CollectSymbols(universe: seq<MetaItem>) returns (symbols: seq<string>)
      requires !fatal
      modifies shared`allSymbols, this`fatal
      ensures fatal == (Accepted(universe) < |universe|)
      ensures symbols == Fresh(old(shared.allSymbols), Kept(universe[..Accepted(universe)]))
      ensures shared.allSymbols == old(shared.allSymbols) + set x | x in symbols
    {
      hide Supported, TickSizeSteps.Perps;
      symbols := [];
      for i := 0 to |universe|
        invariant !fatal && i <= Accepted(universe)
        invariant symbols == Fresh(old(shared.allSymbols), Kept(universe[..i]))
        invariant shared.allSymbols == old(shared.allSymbols) + set x | x in symbols
      {
        assert universe[..i + 1][..i] == universe[..i];
        var item := universe[i];
        if !Supported(item) {
          fatal := true;
          return;
        }
        ghost var kept := Kept(universe[..i]);
        assert Kept(universe[..i + 1]) == kept + if item.discard then [] else [item.name];
        if item.discard {
          assert kept + [] == kept;
          continue;
        }
        assert (kept + [item.name])[..|kept|] == kept;
        if item.name !in shared.allSymbols {
          shared.allSymbols := shared.allSymbols + {item.name};
          symbols := symbols + [item.name];
        }
      }
    }

    method OnGetMetaAckEvent(universe: seq<MetaItem>)
      requires Valid() && !fatal
      modifies this, shared, marketData
      ensures Valid() && Abstract() == Step(config, old(Abstract()), OnGetMetaAck(universe))
    {
      hide SymbolsUpdate, Supported, Kept, Fresh;
      assert universe[..|universe|] == universe;
      var symbols := CollectSymbols(universe);
      assert Streams() == old(Streams());
      if !fatal {
        OnSymbolsUpdate(symbols);
      }
    }

    method OnReadyEvent(k: nat)
      requires Valid() && !fatal
      modifies marketData
      ensures Valid() && Abstract() == Step(config, old(Abstract()), OnReady(k))
    {
      if k < |marketData| {
        marketData[k].OnReady();
      }
      assert Streams() == Step(config, old(Abstract()), OnReady(k)).streams;
    }

    method OnDisconnectedEvent(k: nat)
      requires Valid() && !fatal
      modifies marketData
      ensures Valid() && Abstract() == Step(config, old(Abstract()), OnDisconnected(k))
    {
      if k < |marketData| {
        marketData[k].OnDisconnected();
      }
      assert Streams() == Step(config, old(Abstract()), OnDisconnected(k)).streams;
    }
  }
}
