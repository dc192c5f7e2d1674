/** The order path: from an order to the action tree, and on to the signed bytes
    (tools/encoder.cpp `create_order`, `cancel_order`). */
module OrderActions {
  import opened JsonTree
  import opened MessagePack
  import opened SigningPreimage
  import opened Conversions
  import opened Decimals
  import T = TickSizeSteps
  import W = WireText

  datatype Side = UndefinedSide | Buy | Sell

  datatype OrderType = UndefinedType | Market | Limit

  /** All other times in force map to the exchange's undefined enumerator, whose text is empty. */
  datatype TimeInForce = Gtc | Ioc | OtherTif

  datatype CreateOrder = CreateOrder(
    side: Side, orderType: OrderType, timeInForce: TimeInForce,
    postOnly: bool, reduceOnly: bool, price: real, quantity: real)

  datatype RefData = RefData(assetId: int, szDecimals: int)

  datatype ActionResult = Action(tree: Json) | Fatal | Throws

  /** Asset ids from 10000 are taken to be spot. */
  predicate IsSpot(ref: RefData) { ref.assetId >= 10000 }

  function Zeros(n: nat): string { if n == 0 then "" else Zeros(n - 1) + "0" }

  /** "0x" and the id, padded on the left to 32 digits. */
  function Cloid(requestId: string): string {
    "0x" + (if |requestId| < 32 then Zeros(32 - |requestId|) else "") + requestId
  }

  function TifText(o: CreateOrder): string {
    if o.postOnly then "Alo"
    else match o.timeInForce
      case Gtc => "Gtc"
      case Ioc => "Ioc"
      case OtherTif => ""
  }

  function OrderTypeTree(o: CreateOrder): Json {
    if o.orderType.Market? then Obj([Member("isMarket", Bool(true))])
    else Obj([Member("limit", Obj([Member("tif", Str(TifText(o)))]))])
  }

  function RoundedPrice(o: CreateOrder, ref: RefData): real {
    RoundPrice(o.price, ref.szDecimals, IsSpot(ref))
  }

  function RoundedSize(o: CreateOrder, ref: RefData): real {
    RoundSize(o.quantity, ref.szDecimals)
  }

  function OrderTree(assetId: int, isBuy: bool, price: string, size: string, reduceOnly: bool,
                     orderType: Json, cloid: string): Json {
    Obj([
      Member("a", Int(assetId)), Member("b", Bool(isBuy)), Member("p", Str(price)),
      Member("s", Str(size)), Member("r", Bool(reduceOnly)), Member("t", orderType),
      Member("c", Str(cloid))])
  }

  function CreateTree(order: Json): Json {
    Obj([Member("type", Str("order")), Member("orders", Arr([order])), Member("grouping", Str("na"))])
  }

  function CreateAction(o: CreateOrder, ref: RefData, requestId: string): ActionResult {
    if o.side.UndefinedSide? || o.orderType.UndefinedType? then Fatal
    else if !W.Exact(RoundedPrice(o, ref)) || !W.Exact(RoundedSize(o, ref)) then Throws
    else Action(CreateTree(OrderTree(
      ref.assetId, o.side.Buy?,
      W.Wire(W.Units(RoundedPrice(o, ref))), W.Wire(W.Units(RoundedSize(o, ref))),
      o.reduceOnly, OrderTypeTree(o), Cloid(requestId))))
  }

  /** What the C++ types bound: a 64-bit asset id, an id of bytes, and texts a double can print. */
  predicate ByteSized(o: CreateOrder, ref: RefData, requestId: string) {
    && Int64(ref.assetId) && TextOk(Cloid(requestId))
    && |W.Wire(W.Units(RoundedPrice(o, ref)))| < 0x1_0000_0000
    && |W.Wire(W.Units(RoundedSize(o, ref)))| < 0x1_0000_0000
  }

  lemma CreatePackable(o: CreateOrder, ref: RefData, requestId: string)
    requires ByteSized(o, ref, requestId)
    ensures var a := CreateAction(o, ref, requestId);
            a.Action? ==> Packable(a.tree) && WithinLimits(a.tree)
  {
    hide W.Wire, W.Units, W.Exact, RoundedPrice, RoundedSize, Cloid, OrderTree, Packable, WithinLimits;
    W.WireAscii(W.Units(RoundedPrice(o, ref)));
    W.WireAscii(W.Units(RoundedSize(o, ref)));
    OrderTypePackable(o);
    OrderTreePackable(
      ref.assetId, o.side.Buy?, W.Wire(W.Units(RoundedPrice(o, ref))), W.Wire(W.Units(RoundedSize(o, ref))),
      o.reduceOnly, OrderTypeTree(o), Cloid(requestId));
    if CreateAction(o, ref, requestId).Action? {
      CreateTreePackable(CreateAction(o, ref, requestId).tree.members[1].value.items[0]);
    }
  }

  predicate Fits(v: Json) { Packable(v) && WithinLimits(v) }

  predicate MemberFits(m: Member) { TextOk(m.key) && Fits(m.value) }

  lemma ObjFits(ms: seq<Member>)
    requires |ms| < 10 && forall i :: 0 <= i < |ms| ==> MemberFits(ms[i])
    ensures Fits(Obj(ms))
  {
  }

  lemma ArrFits(v: Json)
    requires Fits(v)
    ensures Fits(Arr([v]))
  {
  }

  lemma KeyFits(key: string, v: Json)
    requires |key| < 20 && (forall i :: 0 <= i < |key| ==> key[i] < '~') && Fits(v)
    ensures MemberFits(Member(key, v))
  {
  }

  lemma StrFits(s: string)
    requires TextOk(s)
    ensures Fits(Str(s))
  {
  }

  lemma OrderTypePackable(o: CreateOrder)
    ensures Fits(OrderTypeTree(o))
  {
    var tif := Str(TifText(o));
    StrFits(TifText(o));
    assert Fits(Bool(true));
    hide Fits, MemberFits;
    KeyFits("isMarket", Bool(true));
    KeyFits("tif", tif);
    ObjFits([Member("isMarket", Bool(true))]);
    ObjFits([Member("tif", tif)]);
    KeyFits("limit", Obj([Member("tif", tif)]));
    ObjFits([Member("limit", Obj([Member("tif", tif)]))]);
  }

  lemma OrderTreePackable(a: int, b: bool, p: string, s: string, r: bool, t: Json, c: string)
    requires Int64(a) && TextOk(p) && TextOk(s) && TextOk(c) && Fits(t)
    ensures Fits(OrderTree(a, b, p, s, r, t, c))
  {
    StrFits(p); StrFits(s); StrFits(c);
    assert Fits(Int(a)) && Fits(Bool(b)) && Fits(Bool(r));
    hide Fits, MemberFits, TextOk;
    KeyFits("a", Int(a)); KeyFits("b", Bool(b)); KeyFits("p", Str(p)); KeyFits("s", Str(s));
    KeyFits("r", Bool(r)); KeyFits("t", t); KeyFits("c", Str(c));
    ObjFits(OrderTree(a, b, p, s, r, t, c).members);
  }

  lemma CreateTreePackable(order: Json)
    requires Fits(order)
    ensures Fits(CreateTree(order))
  {
    assert Fits(Str("order")) && Fits(Str("na"));
    hide Fits, MemberFits, TextOk;
    ArrFits(order);
    KeyFits("type", Str("order"));
    KeyFits("orders", Arr([order]));
    KeyFits("grouping", Str("na"));
    ObjFits(CreateTree(order).members);
  }

  /** `create_order` up to the signed bytes. */
  method EncodeCreateOrder(o: CreateOrder, ref: RefData, requestId: string, now: int, expires: int)
      returns (action: ActionResult, packed: seq<Byte>)
    requires Int64(now) && Int64(expires) && ByteSized(o, ref, requestId)
    ensures action.Action? ==> Packable(action.tree)
    ensures action == CreateAction(o, ref, requestId)
    ensures packed == if action.Action? then Preimage(action.tree, now, expires) else []
  {
    CreatePackable(o, ref, requestId);
    hide Encode, Packable, RoundPrice, RoundSize, W.Wire, W.Exact, W.Units, Cloid;
    packed := [];
    if o.side.UndefinedSide? || o.orderType.UndefinedType? {
      return Fatal, packed;
    }
    var price := W.FloatToWire(RoundPrice(o.price, ref.szDecimals, ref.assetId >= 10000));
    if price.CausesRounding? {
      return Throws, packed;
    }
    var size := W.FloatToWire(RoundSize(o.quantity, ref.szDecimals));
    if size.CausesRounding? {
      return Throws, packed;
    }
    action := Action(CreateTree(OrderTree(ref.assetId, o.side.Buy?, price.text, size.text, o.reduceOnly,
                                          OrderTypeTree(o), Cloid(requestId))));
    packed := PackHelper(action.tree, now, expires);
  }

  /** Prices and sizes are rounded to at most 8 decimals: 0 to 8 size decimals, for perps also -1, -2. */
  predicate EightDecimals(ref: RefData) { -8 <= GridExponent(ref.szDecimals, IsSpot(ref)) && ref.szDecimals <= 8 }

  /** No order makes the encoder throw iff prices and sizes are rounded to at most 8 decimals. */
  lemma CreateNeverThrowsIff(ref: RefData, requestId: string)
    ensures (forall o :: !CreateAction(o, ref, requestId).Throws?)
       <==> EightDecimals(ref)
  {
    W.PricesPrintIff(ref.szDecimals, IsSpot(ref));
    W.SizesPrintIff(ref.szDecimals);
    hide RoundPrice, RoundSize, W.Exact, W.Wire, GridExponent;
    if exists price :: !W.Exact(RoundPrice(price, ref.szDecimals, IsSpot(ref))) {
      var price :| !W.Exact(RoundPrice(price, ref.szDecimals, IsSpot(ref)));
      assert CreateAction(CreateOrder(Buy, Limit, Gtc, false, false, price, 0.0), ref, requestId).Throws?;
    } else if exists size :: !W.Exact(RoundSize(size, ref.szDecimals)) {
      var size :| !W.Exact(RoundSize(size, ref.szDecimals));
      assert CreateAction(CreateOrder(Buy, Limit, Gtc, false, false, 0.0, size), ref, requestId).Throws?;
    }
  }

  /** Orders at prices of decade m all land on the perp table of their size decimals iff their asset id
      makes them perps, or the decade is high enough for the spot rounding to be the same, or so low that
      it gives zero. Perps of non-primary dexs have ids that make them spot. */
  lemma OrderPricesOnTableIff(ref: RefData, m: int)
    requires 0 <= ref.szDecimals <= 5
    ensures (forall o: CreateOrder :: o.price > 0.0 && Magnitude(o.price) == m && !Bypasses(o.price) ==>
               RoundedPrice(o, ref) >= 0.0 && T.OnTable(RoundedPrice(o, ref), ref.szDecimals))
       <==> ref.assetId < 10000 || ref.szDecimals - 2 <= m || m < ref.szDecimals - 9
  {
    T.DecadeOnTableIff(ref.szDecimals, IsSpot(ref), m);
    hide T.OnTable, RoundPrice, Bypasses;
    if !T.DecadeOnTable(ref.szDecimals, IsSpot(ref), m) {
      var price :| price > 0.0 && Magnitude(price) == m && !Bypasses(price) &&
        !(var r := RoundPrice(price, ref.szDecimals, IsSpot(ref)); r >= 0.0 && T.OnTable(r, ref.szDecimals));
      var o := CreateOrder(Buy, Limit, Gtc, false, false, price, 0.0);
      assert RoundedPrice(o, ref) == RoundPrice(price, ref.szDecimals, IsSpot(ref));
    }
  }

  lemma OrderTreeInjective(
      a: int, b: bool, p: string, s: string, r: bool, t: Json, c: string,
      a': int, b': bool, p': string, s': string, r': bool, t': Json, c': string)
    ensures OrderTree(a, b, p, s, r, t, c) == OrderTree(a', b', p', s', r', t', c')
       <==> a == a' && b == b' && p == p' && s == s' && r == r' && t == t' && c == c'
  {
    var x, y := OrderTree(a, b, p, s, r, t, c), OrderTree(a', b', p', s', r', t', c');
    if x == y {
      var o, o' := x.members, y.members;
      assert o[0] == o'[0] && o[1] == o'[1] && o[2] == o'[2] && o[3] == o'[3];
      assert o[4] == o'[4] && o[5] == o'[5] && o[6] == o'[6];
    }
  }

  lemma CreateTreeInjective(order: Json, order': Json)
    ensures CreateTree(order) == CreateTree(order') <==> order == order'
  {
    if CreateTree(order) == CreateTree(order') {
      assert CreateTree(order).members[1].value.items[0] == CreateTree(order').members[1].value.items[0];
    }
  }

  lemma OrderTypeTreeInjective(o: CreateOrder, o': CreateOrder)
    requires !o.orderType.UndefinedType? && !o'.orderType.UndefinedType?
    ensures OrderTypeTree(o) == OrderTypeTree(o')
       <==> o.orderType == o'.orderType
            && (o.orderType.Limit? ==> o.postOnly == o'.postOnly && (o.postOnly || o.timeInForce == o'.timeInForce))
  {
    var x, y := OrderTypeTree(o), OrderTypeTree(o');
    TifTexts(o);
    TifTexts(o');
    if x == y {
      assert x.members[0] == y.members[0];
      assert "isMarket"[0] != "limit"[0];
      if o.orderType.Limit? { assert x.members[0].value.members[0] == y.members[0].value.members[0]; }
    }
  }

  lemma TifTexts(o: CreateOrder)
    ensures TifText(o) == "Alo" <==> o.postOnly
    ensures TifText(o) == "Gtc" <==> !o.postOnly && o.timeInForce.Gtc?
    ensures TifText(o) == "Ioc" <==> !o.postOnly && o.timeInForce.Ioc?
    ensures TifText(o) == "" <==> !o.postOnly && o.timeInForce.OtherTif?
  {
    assert "Alo"[0] != "Gtc"[0] && "Alo"[0] != "Ioc"[0] && "Gtc"[0] != "Ioc"[0];
  }

  /** All that the exchange is told about an order; prices and sizes in units of 10^-8. */
  predicate SameOnWire(o: CreateOrder, ref: RefData, id: string, o': CreateOrder, ref': RefData, id': string) {
    && ref.assetId == ref'.assetId && o.side == o'.side
    && W.Units(RoundedPrice(o, ref)) == W.Units(RoundedPrice(o', ref'))
    && W.Units(RoundedSize(o, ref)) == W.Units(RoundedSize(o', ref'))
    && o.reduceOnly == o'.reduceOnly
    && o.orderType == o'.orderType
    && (o.orderType.Limit? ==> o.postOnly == o'.postOnly && (o.postOnly || o.timeInForce == o'.timeInForce))
    && Cloid(id) == Cloid(id')
  }

  /** With at most 8 decimals the units are the rounded values themselves. */
  lemma UnitsAreValues(o: CreateOrder, ref: RefData, o': CreateOrder, ref': RefData)
    requires EightDecimals(ref) && EightDecimals(ref')
    ensures W.Units(RoundedPrice(o, ref)) == W.Units(RoundedPrice(o', ref'))
       <==> RoundedPrice(o, ref) == RoundedPrice(o', ref')
    ensures W.Units(RoundedSize(o, ref)) == W.Units(RoundedSize(o', ref'))
       <==> RoundedSize(o, ref) == RoundedSize(o', ref')
  {
    W.RoundedPricePrints(o.price, ref.szDecimals, IsSpot(ref));
    W.RoundedPricePrints(o'.price, ref'.szDecimals, IsSpot(ref'));
    W.RoundedSizePrints(o.quantity, ref.szDecimals);
    W.RoundedSizePrints(o'.quantity, ref'.szDecimals);
    hide W.Wire, W.Parse, W.Units, W.Exact, RoundPrice, RoundSize;
  }

  predicate Signable(o: CreateOrder, ref: RefData, requestId: string, now: int, expires: int) {
    && CreateAction(o, ref, requestId).Action? && ByteSized(o, ref, requestId)
    && Int64(now) && Int64(expires)
  }

  /** End to end: two order requests sign the same bytes exactly when asset, side, rounded price,
      rounded size, flags, order type, client id, nonce and effective expiry all agree. */
  lemma CreatePreimageIff(
      o: CreateOrder, ref: RefData, id: string, now: int, expires: int,
      o': CreateOrder, ref': RefData, id': string, now': int, expires': int)
    requires Signable(o, ref, id, now, expires) && Signable(o', ref', id', now', expires')
    ensures var a, a' := CreateAction(o, ref, id), CreateAction(o', ref', id');
            && Packable(a.tree) && Packable(a'.tree)
            && (Preimage(a.tree, now, expires) == Preimage(a'.tree, now', expires')
            <==> SameOnWire(o, ref, id, o', ref', id') && now == now' && SameExpiry(now, expires, expires'))
  {
    CreatePackable(o, ref, id);
    CreatePackable(o', ref', id');
    hide Preimage, Packable, WithinLimits, CreateAction, ByteSized, SameOnWire;
    SameTreeIff(o, ref, id, o', ref', id');
    PreimageInjective(CreateAction(o, ref, id).tree, now, expires, CreateAction(o', ref', id').tree, now', expires');
  }

  lemma SameTreeIff(o: CreateOrder, ref: RefData, id: string, o': CreateOrder, ref': RefData, id': string)
    requires CreateAction(o, ref, id).Action? && CreateAction(o', ref', id').Action?
    ensures CreateAction(o, ref, id).tree == CreateAction(o', ref', id').tree
       <==> SameOnWire(o, ref, id, o', ref', id')
  {
    hide OrderTree, OrderTypeTree, TifText, RoundPrice, RoundSize, Cloid;
    hide W.Wire, W.Parse, W.Units, W.Exact;
    var p, p', s, s' := RoundedPrice(o, ref), RoundedPrice(o', ref'), RoundedSize(o, ref), RoundedSize(o', ref');
    W.WireInjective(W.Units(p), W.Units(p'));
    W.WireInjective(W.Units(s), W.Units(s'));
    OrderTypeTreeInjective(o, o');
    CreateTreeInjective(CreateAction(o, ref, id).tree.members[1].value.items[0],
                        CreateAction(o', ref', id').tree.members[1].value.items[0]);
    OrderTreeInjective(
      ref.assetId, o.side.Buy?, W.Wire(W.Units(p)), W.Wire(W.Units(s)), o.reduceOnly, OrderTypeTree(o), Cloid(id),
      ref'.assetId, o'.side.Buy?, W.Wire(W.Units(p')), W.Wire(W.Units(s')), o'.reduceOnly, OrderTypeTree(o'),
      Cloid(id'));
  }

  // --- cancels ---

  /** With no exchange id the client id is used; the parse of the exchange id is an input. */
  datatype Target = ByCloid(clientOrderId: string) | ByOid(oid: int)

  function CancelTree(assetId: int, target: Target): Json {
    match target
    case ByCloid(id) =>
      Obj([Member("type", Str("cancelByCloid")),
           Member("cancels", Arr([Obj([Member("asset", Int(assetId)), Member("cloid", Str(Cloid(id)))])]))])
    case ByOid(oid) =>
      Obj([Member("type", Str("cancel")),
           Member("cancels", Arr([Obj([Member("a", Int(assetId)), Member("o", Int(oid))])]))])
  }

  predicate SameTarget(t: Target, t': Target) {
    match (t, t')
    case (ByCloid(id), ByCloid(id')) => Cloid(id) == Cloid(id')
    case (ByOid(x), ByOid(y)) => x == y
    case _ => false
  }

  lemma CancelTreeInjective(a: int, t: Target, a': int, t': Target)
    ensures CancelTree(a, t) == CancelTree(a', t') <==> a == a' && SameTarget(t, t')
  {
    var x, y := CancelTree(a, t), CancelTree(a', t');
    if x == y {
      assert |x.members[0].value.s| == |y.members[0].value.s|;
      assert |"cancelByCloid"| != |"cancel"|;
      var m, m' := x.members[1].value.items[0].members, y.members[1].value.items[0].members;
      assert m[0] == m'[0] && m[1] == m'[1];
    }
  }

  predicate SignableCancel(a: int, t: Target, now: int, expires: int) {
    && Int64(a) && (if t.ByCloid? then TextOk(Cloid(t.clientOrderId)) else Int64(t.oid))
    && Int64(now) && Int64(expires)
  }

  /** The value of the "cancels" member. */
  lemma TargetFits(a: int, t: Target)
    requires SignableCancel(a, t, 0, 0)
    ensures Fits(CancelTree(a, t).members[1].value)
  {
    hide Cloid;
    assert Fits(Int(a));
    match t { case ByCloid(id) => StrFits(Cloid(id)); case ByOid(oid) => assert Fits(Int(oid)); }
    hide MemberFits, Packable, WithinLimits;
    var cancel := CancelTree(a, t).members[1].value.items[0];
    KeyFits(cancel.members[0].key, cancel.members[0].value);
    KeyFits(cancel.members[1].key, cancel.members[1].value);
    ObjFits(cancel.members);
    ArrFits(cancel);
  }

  lemma CancelPackable(a: int, t: Target)
    requires SignableCancel(a, t, 0, 0)
    ensures Packable(CancelTree(a, t)) && WithinLimits(CancelTree(a, t))
  {
    TargetFits(a, t);
    assert Fits(Str("cancelByCloid")) && Fits(Str("cancel"));
    hide MemberFits, Packable, WithinLimits, Cloid;
    var tree := CancelTree(a, t);
    KeyFits("type", tree.members[0].value);
    KeyFits("cancels", tree.members[1].value);
    ObjFits(tree.members);
  }

  /** Cancels sign the same bytes exactly for the same asset, target, nonce and effective expiry,
      and never the bytes of an order. */
  lemma CancelPreimageIff(a: int, t: Target, now: int, expires: int, a': int, t': Target, now': int, expires': int)
    requires SignableCancel(a, t, now, expires) && SignableCancel(a', t', now', expires')
    ensures Packable(CancelTree(a, t)) && Packable(CancelTree(a', t'))
    ensures Preimage(CancelTree(a, t), now, expires) == Preimage(CancelTree(a', t'), now', expires')
       <==> a == a' && SameTarget(t, t') && now == now' && SameExpiry(now, expires, expires')
  {
    CancelPackable(a, t);
    CancelPackable(a', t');
    hide Preimage, CancelTree, SameTarget;
    CancelTreeInjective(a, t, a', t');
    PreimageInjective(CancelTree(a, t), now, expires, CancelTree(a', t'), now', expires');
  }

  lemma CancelNeverSignsOrder(
      a: int, t: Target, now: int, expires: int,
      o: CreateOrder, ref: RefData, id: string, now': int, expires': int)
    requires SignableCancel(a, t, now, expires) && Signable(o, ref, id, now', expires')
    ensures Packable(CancelTree(a, t)) && Packable(CreateAction(o, ref, id).tree)
    ensures Preimage(CancelTree(a, t), now, expires) != Preimage(CreateAction(o, ref, id).tree, now', expires')
  {
    CancelPackable(a, t);
    CreatePackable(o, ref, id);
    hide Preimage, Packable, WithinLimits;
    var x, y := CancelTree(a, t), CreateAction(o, ref, id).tree;
    assert x.members[0].value.s[0] == 'c' && y.members[0].value.s[0] == 'o';
    PreimageInjective(x, now, expires, y, now', expires');
  }

  lemma WholeNumberText(n: nat)
    ensures W.Wire(n * W.ONE) == W.Digits(n)
  {
    hide W.Digits, W.Padded, W.Trim;
    W.PaddedZero(8);
    W.TrimPrefix(W.Padded(0, 8), 0);
    var units := n * W.ONE;
    assert units / W.ONE == n && units % W.ONE == 0;
    assert W.Wire(units) == "" + W.Digits(n) + "";
  }

  const SAMPLE_ORDER := CreateOrder(Buy, Limit, Gtc, false, false, 1500.0, 1.0)

  const SAMPLE_REF := RefData(1, 4)

  const SAMPLE_ID := "000300515099a47a0000010000000003"

  /** The sample message in the source is what the model builds, and it can be signed at any time. */
  lemma SampleMessage(now: int, expires: int)
    requires Int64(now) && Int64(expires)
    ensures EightDecimals(SAMPLE_REF) && Signable(SAMPLE_ORDER, SAMPLE_REF, SAMPLE_ID, now, expires)
    ensures CreateAction(SAMPLE_ORDER, SAMPLE_REF, SAMPLE_ID)
         == Action(Obj([
              Member("type", Str("order")),
              Member("orders", Arr([Obj([
                Member("a", Int(1)), Member("b", Bool(true)), Member("p", Str("1500")), Member("s", Str("1")),
                Member("r", Bool(false)), Member("t", Obj([Member("limit", Obj([Member("tif", Str("Gtc"))]))])),
                Member("c", Str("0x" + SAMPLE_ID))])])),
              Member("grouping", Str("na"))]))
  {
    SampleNumbers();
    SampleTexts();
    SampleIdBytes();
    FullId(SAMPLE_ID);
    hide Cloid, RoundPrice, RoundSize, W.Wire, W.Units, W.Exact;
  }

  lemma SampleNumbers()
    ensures RoundPrice(1500.0, 4, false) == 1500.0 && RoundSize(1.0, 4) == 1.0
  {
    SampleGrids();
    hide OnTick, Multiple, RoundPrice, RoundSize, GridExponent;
    RoundPriceFixedIff(1500.0, 4, false);
    RoundSizeNearest(1.0, 1.0, 4);
  }

  lemma SampleGrids()
    ensures OnTick(1500.0, GridExponent(4, false)) && Multiple(1.0, -4)
  {
    assert Pow10(3) == 1000.0 && Pow10(4) == 10000.0 && Pow10(-1) == 0.1 && Pow10(-4) == 0.0001;
    MagnitudeUnique(1500.0, 3);
    hide Pow10, Magnitude;
    assert IsInt(1500.0 / 0.1) && IsInt(1.0 / 0.0001);
  }

  lemma SampleIdBytes()
    ensures |SAMPLE_ID| == 32 && TextOk(SAMPLE_ID)
  {
  }

  /** An id of full length is not padded. */
  lemma FullId(id: string)
    requires |id| == 32 && TextOk(id)
    ensures Cloid(id) == "0x" + id && TextOk(Cloid(id))
  {
    assert "0x" + "" + id == "0x" + id;
  }

  lemma SampleTexts()
    ensures W.Exact(1500.0) && W.Wire(W.Units(1500.0)) == "1500"
    ensures W.Exact(1.0) && W.Wire(W.Units(1.0)) == "1"
  {
    WholeNumberText(1500);
    WholeNumberText(1);
    assert W.Units(1500.0) == 1500 * W.ONE && W.Units(1.0) == 1 * W.ONE;
    hide W.Wire, W.Units;
    assert W.Digits(15) == "15";
    assert W.Digits(150) == "150";
  }

  /** How `create_order` ends: fatal for an undefined side or type; an exception when the rounded price or
      size is not within 10^-12 of a whole number of units; else an action. */
  lemma CreateOutcomeIff(o: CreateOrder, ref: RefData, id: string)
    ensures var a := CreateAction(o, ref, id);
            var defined := o.side != UndefinedSide && o.orderType != UndefinedType;
            var prints := (exists k: int :: W.NearUnits(RoundedPrice(o, ref), k))
                       && (exists k: int :: W.NearUnits(RoundedSize(o, ref), k));
            && (a.Fatal? <==> !defined) && (a.Throws? <==> defined && !prints) && (a.Action? <==> defined && prints)
  {
    W.ExactIff(RoundedPrice(o, ref));
    W.ExactIff(RoundedSize(o, ref));
    hide W.Exact, W.NearUnits, W.Wire, W.Units, RoundedPrice, RoundedSize, CreateTree, OrderTree;
  }

  // --- what a reader of the trees finds ---

  function FirstItem(v: Json): Json { if v.Arr? && v.items != [] then v.items[0] else Null }

  lemma KeyAt(members: seq<Member>, i: nat)
    requires i < |members| && forall j :: 0 <= j < i ==> members[j].key != members[i].key
    ensures Get(Obj(members), members[i].key) == members[i].value
  {
    hide IndexOf;
  }

  lemma OrderTreeMembers(a: int, b: bool, p: string, s: string, r: bool, t: Json, c: string)
    ensures var order := OrderTree(a, b, p, s, r, t, c);
            && Get(order, "a") == Int(a) && Get(order, "b") == Bool(b) && Get(order, "p") == Str(p)
            && Get(order, "s") == Str(s) && Get(order, "r") == Bool(r) && Get(order, "t") == t
            && Get(order, "c") == Str(c) && |order.members| == 7
  {
    hide Get, Has, IndexOf;
    var ms := OrderTree(a, b, p, s, r, t, c).members;
    assert forall i, j :: 0 <= j < i < 7 ==> ms[j].key[0] != ms[i].key[0];
    KeyAt(ms, 0); KeyAt(ms, 1); KeyAt(ms, 2); KeyAt(ms, 3); KeyAt(ms, 4); KeyAt(ms, 5); KeyAt(ms, 6);
  }

  lemma CreateTreeMembers(order: Json)
    ensures var tree := CreateTree(order);
            && Get(tree, "type") == Str("order") && Get(tree, "orders") == Arr([order])
            && Get(tree, "grouping") == Str("na") && |tree.members| == 3
  {
    hide Get, Has, IndexOf;
    var ms := CreateTree(order).members;
    assert forall i, j :: 0 <= j < i < 3 ==> ms[j].key[0] != ms[i].key[0];
    KeyAt(ms, 0); KeyAt(ms, 1); KeyAt(ms, 2);
  }

  /** The order inside the action that `CreateAction` builds, member by member. */
  lemma OrderMembers(o: CreateOrder, ref: RefData, id: string)
    requires CreateAction(o, ref, id).Action?
    ensures var tree := CreateAction(o, ref, id).tree;
            var order := FirstItem(Get(tree, "orders"));
            && Get(tree, "type") == Str("order") && Get(tree, "grouping") == Str("na") && |tree.members| == 3
            && Get(tree, "orders") == Arr([order]) && order.Obj? && |order.members| == 7
            && Get(order, "a") == Int(ref.assetId) && Get(order, "b") == Bool(o.side == Buy)
            && Get(order, "p") == Str(W.Wire(W.Units(RoundPrice(o.price, ref.szDecimals, ref.assetId >= 10000))))
            && Get(order, "s") == Str(W.Wire(W.Units(RoundSize(o.quantity, ref.szDecimals))))
            && Get(order, "r") == Bool(o.reduceOnly) && Get(order, "c") == Str(Cloid(id))
            && Get(order, "t") == OrderTypeTree(o)
  {
    hide RoundPrice, RoundSize, W.Wire, W.Units, W.Exact, Cloid, OrderTypeTree, Get, CreateTree, OrderTree;
    var p, s := W.Wire(W.Units(RoundedPrice(o, ref))), W.Wire(W.Units(RoundedSize(o, ref)));
    OrderTreeMembers(ref.assetId, o.side.Buy?, p, s, o.reduceOnly, OrderTypeTree(o), Cloid(id));
    var order := OrderTree(ref.assetId, o.side.Buy?, p, s, o.reduceOnly, OrderTypeTree(o), Cloid(id));
    CreateTreeMembers(order);
    OrderIsObject(ref.assetId, o.side.Buy?, p, s, o.reduceOnly, OrderTypeTree(o), Cloid(id));
  }

  lemma OrderIsObject(a: int, b: bool, p: string, s: string, r: bool, t: Json, c: string)
    ensures OrderTree(a, b, p, s, r, t, c).Obj?
  {
  }

  lemma TypeTreeMembers(o: CreateOrder)
    ensures o.orderType.Market? <==> OrderTypeTree(o) == Obj([Member("isMarket", Bool(true))])
    ensures Get(Get(OrderTypeTree(o), "limit"), "tif") == if o.orderType.Market? then Null else Str(TifText(o))
  {
    hide TifText;
    assert "isMarket"[0] != "limit"[0];
    if !o.orderType.Market? { assert OrderTypeTree(o).members[0].key == "limit"; }
  }

  /** The time in force the exchange is told: post-only orders are "Alo" whatever theirs is, and a market
      order has none. */
  lemma TimeInForceIff(o: CreateOrder, ref: RefData, id: string)
    requires CreateAction(o, ref, id).Action?
    ensures var t := Get(FirstItem(Get(CreateAction(o, ref, id).tree, "orders")), "t");
            var tif := Get(Get(t, "limit"), "tif");
            && (t == Obj([Member("isMarket", Bool(true))]) <==> o.orderType.Market?)
            && (tif == Str("Alo") <==> o.orderType.Limit? && o.postOnly)
            && (tif == Str("Gtc") <==> o.orderType.Limit? && !o.postOnly && o.timeInForce.Gtc?)
            && (tif == Str("Ioc") <==> o.orderType.Limit? && !o.postOnly && o.timeInForce.Ioc?)
  {
    assert !o.orderType.UndefinedType?;
    hide CreateAction, TifText, FirstItem, OrderTypeTree, Get;
    OrderMembers(o, ref, id);
    TypeTreeMembers(o);
    TifTexts(o);
  }

  /** The client id: "0x", zeros up to 32 digits, and the request id. */
  lemma CloidText(id: string)
    ensures Cloid(id)[..2] == "0x" && |Cloid(id)| == 2 + (if |id| < 32 then 32 else |id|)
    ensures Cloid(id)[|Cloid(id)| - |id|..] == id
    ensures forall i :: 2 <= i < |Cloid(id)| - |id| ==> Cloid(id)[i] == '0'
  {
    if |id| < 32 {
      ZerosText(32 - |id|);
    } else {
      ZerosText(0);
    }
    hide Zeros;
  }

  lemma {:induction false} ZerosText(n: nat)
    ensures |Zeros(n)| == n && forall i :: 0 <= i < n ==> Zeros(n)[i] == '0'
  {
    if n > 0 { ZerosText(n - 1); }
  }

  /** The two cancels: by client id with its asset spelt out, by exchange id in single letters. */
  lemma CancelTrees(a: int, id: string, oid: int)
    ensures CancelTree(a, ByCloid(id)) ==
            Obj([Member("type", Str("cancelByCloid")),
                 Member("cancels", Arr([Obj([Member("asset", Int(a)), Member("cloid", Str(Cloid(id)))])]))])
    ensures CancelTree(a, ByOid(oid)) ==
            Obj([Member("type", Str("cancel")),
                 Member("cancels", Arr([Obj([Member("a", Int(a)), Member("o", Int(oid))])]))])
  {
  }

  /** What a reader of a cancel finds: by client id the asset and id spelt out, by exchange id in single
      letters, and nothing of the other form. */
  lemma CancelMembers(a: int, t: Target)
    ensures var tree := CancelTree(a, t);
            var cancel := FirstItem(Get(tree, "cancels"));
            && |tree.members| == 2 && Get(tree, "cancels") == Arr([cancel]) && cancel.Obj? && |cancel.members| == 2
            && Get(tree, "type") == Str(if t.ByCloid? then "cancelByCloid" else "cancel")
            && (t.ByCloid? ==> Get(cancel, "asset") == Int(a) && Get(cancel, "cloid") == Str(Cloid(t.clientOrderId)))
            && (t.ByOid? ==> Get(cancel, "a") == Int(a) && Get(cancel, "o") == Int(t.oid))
  {
    hide Get, Has, IndexOf, Cloid;
    var tree := CancelTree(a, t);
    var cancel := tree.members[1].value.items[0];
    assert tree.members[0].key[0] != tree.members[1].key[0];
    KeyAt(tree.members, 0);
    KeyAt(tree.members, 1);
    assert cancel.members[0].key[0] != cancel.members[1].key[0];
    KeyAt(cancel.members, 0);
    KeyAt(cancel.members, 1);
  }

  // --- the bytes of one action ---

  lemma TextBytes(s: string, bs: seq<Byte>)
    requires TextOk(s) && |s| < 0x20 && |bs| == |s| && forall i :: 0 <= i < |s| ==> bs[i] == s[i] as int
    ensures EncodeText(s) == [0xa0 + |s|] + bs
  {
  }

  lemma SmallInt(n: int)
    requires 0 <= n < 0x80
    ensures Encode(Int(n)) == [n]
  {
    SmallIntByte(n);
  }

  const CANCEL_ITEM := Obj([Member("a", Int(1)), Member("o", Int(77))])

  lemma CancelItemBytes()
    ensures Packable(CANCEL_ITEM) && Encode(CANCEL_ITEM) == [0x82, 0xa1, 0x61, 0x01, 0xa1, 0x6f, 0x4d]
  {
    TextBytes("a", [0x61]);
    TextBytes("o", [0x6f]);
    SmallInt(1);
    SmallInt(77);
    hide EncodeText, Encode, IntBytes;
    EncodePair(Member("a", Int(1)), Member("o", Int(77)));
  }

  lemma OneItem(v: Json)
    requires Packable(v)
    ensures Packable(Arr([v])) && Encode(Arr([v])) == [0x91] + Encode(v)
  {
    assert [v][1..] == [];
    assert EncodeItems([v]) == Encode(v) + EncodeItems([]);
  }

  lemma CancelTexts()
    ensures Packable(Str("cancel"))
    ensures EncodeText("type") == [0xa4, 0x74, 0x79, 0x70, 0x65]
    ensures Encode(Str("cancel")) == EncodeText("cancel") == [0xa6, 0x63, 0x61, 0x6e, 0x63, 0x65, 0x6c]
    ensures EncodeText("cancels") == [0xa7, 0x63, 0x61, 0x6e, 0x63, 0x65, 0x6c, 0x73]
  {
    TextBytes("type", [0x74, 0x79, 0x70, 0x65]);
    TextBytes("cancel", [0x63, 0x61, 0x6e, 0x63, 0x65, 0x6c]);
    TextBytes("cancels", [0x63, 0x61, 0x6e, 0x63, 0x65, 0x6c, 0x73]);
    hide EncodeText;
  }

  /** The packed cancel of order 77 of asset 1. */
  lemma CancelBytes()
    ensures var tree := CancelTree(1, ByOid(77));
            Packable(tree) && Encode(tree) ==
              [0x82, 0xa4, 0x74, 0x79, 0x70, 0x65, 0xa6, 0x63, 0x61, 0x6e, 0x63, 0x65, 0x6c]
              + [0xa7, 0x63, 0x61, 0x6e, 0x63, 0x65, 0x6c, 0x73, 0x91]
              + [0x82, 0xa1, 0x61, 0x01, 0xa1, 0x6f, 0x4d]
  {
    hide EncodeText, Encode, CancelTree, Packable, WithinLimits;
    CancelPackable(1, ByOid(77));
    CancelTrees(1, "", 77);
    CancelItemBytes();
    OneItem(CANCEL_ITEM);
    CancelTexts();
    EncodePair(Member("type", Str("cancel")), Member("cancels", Arr([CANCEL_ITEM])));
  }

  lemma SmallObject(members: seq<Member>)
    requires Packable(Obj(members)) && |members| < 0x10
    ensures Encode(Obj(members)) == [0x80 + |members|] + EncodeMembers(members)
  {
    var n := |members|;
    assert TokenBytes(TMap(n)) == [0x80 + n] && Truncated(n) == n;
    assert forall m | m in members :: TextOk(m.key) && Packable(m.value);
    hide EncodeMembers, EncodeItems, EncodeText, TokenBytes, Truncated, Packable, TextOk;
    assert Encode(Obj(members)) == TokenBytes(TMap(Truncated(n))) + EncodeMembers(members);
  }

  lemma Appended(head: seq<Byte>, a: seq<Byte>, b: seq<Byte>, c: seq<Byte>, d: seq<Byte>)
    ensures head + (a + b + c + d) == head + a + b + c + d
  {
  }

  lemma EncodePair(m: Member, m': Member)
    requires Packable(Obj([m, m']))
    ensures Encode(Obj([m, m'])) ==
            [0x82] + EncodeText(m.key) + Encode(m.value) + EncodeText(m'.key) + Encode(m'.value)
  {
    assert m in [m, m'] && m' in [m, m'];
    assert TextOk(m.key) && Packable(m.value) && TextOk(m'.key) && Packable(m'.value);
    hide EncodeText, Packable, Encode, EncodeMembers, TextOk;
    TwoMembers(m, m');
    SmallObject([m, m']);
    Appended([0x82], EncodeText(m.key), Encode(m.value), EncodeText(m'.key), Encode(m'.value));
  }

  lemma TwoMembers(m: Member, m': Member)
    requires TextOk(m.key) && Packable(m.value) && TextOk(m'.key) && Packable(m'.value)
    ensures EncodeMembers([m, m']) == EncodeText(m.key) + Encode(m.value) + EncodeText(m'.key) + Encode(m'.value)
  {
    hide EncodeText, Encode, Packable, TextOk;
    assert [m, m'][1..] == [m'] && [m'][1..] == [];
    assert EncodeMembers([m']) == EncodeText(m'.key) + Encode(m'.value) + EncodeMembers([]);
    assert EncodeMembers([m, m']) == EncodeText(m.key) + Encode(m.value) + EncodeMembers([m']);
  }
}
