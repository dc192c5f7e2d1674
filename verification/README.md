# Verification of the Hyperliquid gateway core

Dafny 4.11 models of the parts of the gateway where correctness is decided by its own code, with
proofs of what they promise. `dafny verify dfyconfig.toml` checks everything.

| files | what they model |
|---|---|
| `JsonTree`, `Options` | JSON values with ordered members; optional values |
| `MessagePack`, `SigningPreimage` | serialisation of an action tree, the bytes that are hashed and signed, the nonce |
| `Decimals`, `Conversions`, `TickSizeSteps`, `WireText` | price and size rounding, the published tick tables, decimal text |
| `OrderActions` | the order path end to end: order, rounded text, action tree, signed bytes |
| `StreamParser`, `StreamLookup`, `StreamTexts`, `AckParsers`, `ParserOutcome` | callbacks over shared variables that dispatch messages and replies |
| `SymbolStreams`, `SymbolStreamRuns` | symbol announcements, slices, subscriptions under reconnects, stream ids |
| `TradeSummaries` | grouping of trades into summaries |
| `WebSocketActions` | request ids and the attribution of replies |
| `RestResponses`, `PagedQueries`, `StaleOrders` | REST replies, the queries repeated per dex, the stale-order queries |

Code that updates state is a class or a method with loops, proved equal to a step function on the
abstract state; the properties are proved about that function and about runs of it. A state machine
takes events in any order, so its theorems cover every interleaving.

## Where the code differs from what one would expect

For each of these a theorem says exactly when the code does what is expected, and another gives an input
on which it does not.

- The nonce in a request and the time in the signed bytes differ whenever the clock is not past the
  previous nonce (`SigningPreimage.SignatureCoherentIff`, `SameMillisecond`). A request always holds an
  expiry, the signed bytes do not when the receive window is zero
  (`SigningPreimage.SignedBytesMatchPrintedIff`, `ZeroReceiveWindow`).
- Perps of non-primary dexs have asset ids that make the encoder round them as spot, so that small prices
  miss the tick table published for them (`OrderActions.OrderPricesOnTableIff`,
  `TickSizeSteps.SpotRoundedPerpMissesTable`).
- Passing integer prices above 100k through breaks the order of prices around most of them
  (`Conversions.PassThroughOrderIff`, `PassThroughBreaksOrder`) and leaves the tick table
  (`TickSizeSteps.PassedThroughOnTableIff`, `PassedThroughMissesTable`).
- A trade summary carries the trades of all earlier runs of its payload, because the buffer is only
  cleared on entry (`TradeSummaries.OwnTradesIff`, `TwoCoins`).
- When the send of a follow-up query throws, the query never commits, because `finished` has already
  been cleared (`PagedQueries.CommitsOnceIff`, `SecondSendThrows`).
- When a send throws while stale orders are being queried, those already queried are queried again
  (`StaleOrders.RepeatsIff`, `SecondQueryThrows`).
- The streaming parser depends on member order (`StreamLookup.LookupIff`, `DataBeforeChannel`), and the
  cancel parser reports success for an array of strings without delivering anything
  (`AckParsers.SilentSuccessIff`, `SuccessIsSilent`).

## Assumptions

- Prices and sizes are real numbers: floating-point error and the accuracy of logarithms are not
  modelled. How printing to 8 decimals breaks ties does not matter: a value half-way
  between two texts is refused by the check against 10^-12.
- The host is little-endian, so the conversion at `src/roq/hyperliquid/tools/encoder.cpp:112` does
  nothing and the loop after it writes the most significant byte first, as the comment there says the
  exchange's documentation asks. Times are 64-bit millisecond counts.
- Integers in action trees are signed 64-bit; the unsigned branch at
  `src/roq/hyperliquid/tools/encoder.cpp:80-82` is never taken, because the test before it matches
  unsigned values too. MessagePack follows the sections on the nil format, bool format family, int
  format family, str format family, array format family and map format family of the MessagePack
  specification, in the shortest form; the sizes of arrays and objects are truncated to 32 bits as by
  the library, which refuses to pack a string of 2^32 bytes or more.
- A reader of a request either leaves out the expiry by the rule of the encoder or always takes the one
  printed; there is a theorem for each.
- A single brace-initialised element is a one-element array, as the sample message at
  `src/roq/hyperliquid/tools/encoder.cpp:175` shows. A time in force the exchange does not have maps
  to the undefined enumerator with empty text.
- A tick table applies the last row whose minimum the price reaches; the lookup is not part of this
  repository.
- `core::json::Object::dispatch` visits members in document order until a callback returns true, and
  key hashes do not collide. An enumeration decodes from text, is undefined for null and throws for
  other values. Decoding a message for its handler succeeds.
- `core::Symbols` is an append-only list cut into contiguous slices of a fixed positive size; appending
  returns the number of slices and the previous total, and a slice can be asked for from a global
  position on.
- A REST callback runs once and never inside the send. The list of dexs does not change during a
  query and is not empty, as the assertion in the source demands. When a pending request is taken up
  is left open.
- `ORDER_ID_MAX` is 48 bits and request type codes are distinct (create 1, modify 2, cancel 3); both
  come from headers that are not part of this model.

## Model

| member | source | states |
|---|---|---|
| MessagePack.TokenRoundTrip | src/roq/hyperliquid/tools/encoder.cpp:73-98 | a reader written from the MessagePack specification reads back every token the packer writes (nil, bool, shortest-form int64, string, array and map headers), whatever bytes follow |
| MessagePack.TokenShortest | src/roq/hyperliquid/tools/encoder.cpp:73-98 | no bytes that read as a token are shorter than those the packer writes for it |
| MessagePack.SignOfFamily | src/roq/hyperliquid/tools/encoder.cpp:79 | of the forms of equal length, non-negative integers take the unsigned and negative ones the signed family |
| MessagePack.IntLiterals | src/roq/hyperliquid/tools/encoder.cpp:74-79 | nil, booleans and integers at the edges of their formats, byte by byte |
| MessagePack.SizeLiterals | src/roq/hyperliquid/tools/encoder.cpp:85-92 | string, array and map headers at the edges of their formats, byte by byte |
| MessagePack.Packer.PackJson | src/roq/hyperliquid/tools/encoder.cpp:73-98 | the recursive writer appends exactly the encoding of the tree and leaves what was written before alone |
| MessagePack.RoundTrip | src/roq/hyperliquid/tools/encoder.cpp:73-98 | reading a packed tree followed by any bytes returns that tree and those bytes |
| MessagePack.Shortest | src/roq/hyperliquid/tools/encoder.cpp:73-98 | no bytes that decode to a tree are shorter than its packed form |
| MessagePack.RoundTripIff | src/roq/hyperliquid/tools/encoder.cpp:87-92 | for every tree the packer writes, the round trip holds iff every array and object fits the 32-bit size of its header; beyond that the size is truncated and a different tree is read |
| MessagePack.WrapsToEmpty | src/roq/hyperliquid/tools/encoder.cpp:87 | such a tree: an array of 2^32 nulls is read back as the empty array |
| MessagePack.PrefixFree | src/roq/hyperliquid/tools/encoder.cpp:73-98 | packed trees with anything appended are equal iff the trees and the appended bytes are: no packed tree is a proper prefix of another |
| SigningPreimage.BigEndianByte | src/roq/hyperliquid/tools/encoder.cpp:113-116 | the shift-and-mask loop yields the two's complement most significant byte first, for negative counts too |
| SigningPreimage.PackHelper | src/roq/hyperliquid/tools/encoder.cpp:100-130 | the method that pushes bytes builds: packed tree, nonce, vault byte, expiry tail |
| SigningPreimage.PreimageBytesIff | src/roq/hyperliquid/tools/encoder.cpp:110-128 | behind the packed tree come the nonce and a zero byte, and then nothing iff the expiry is zero or equal to the nonce, else a zero byte and the expiry |
| SigningPreimage.TailInjective | src/roq/hyperliquid/tools/encoder.cpp:110-128 | the tail determines nonce and effective expiry |
| SigningPreimage.PreimageInjective | src/roq/hyperliquid/tools/encoder.cpp:100-130 | two preimages are equal iff trees and nonces are equal and the expiries are equal or each is zero or equal to the nonce |
| SigningPreimage.Crypto.SignL1Action | src/roq/hyperliquid/tools/crypto.cpp:57-61 | the update of `nonce_` emits the nonce determined by all signing times so far |
| SigningPreimage.NonceClosedForm | src/roq/hyperliquid/tools/crypto.cpp:57-61 | after k signatures at t_1..t_k the nonce is the maximum of k and all t_i + (k - i) |
| SigningPreimage.NoncesIncrease | src/roq/hyperliquid/tools/crypto.cpp:57-61 | over a run emitted nonces strictly increase, whatever the clock does |
| SigningPreimage.SignedBytesMatchIff | src/roq/hyperliquid/tools/crypto.cpp:54-62 | the signed bytes are those of the emitted nonce, the expiry left out by the rule of the encoder, iff the signing time exceeds the previous nonce |
| SigningPreimage.SignedBytesMatchPrintedIff | src/roq/hyperliquid/tools/crypto.cpp:81-97 | the signed bytes are those of the printed request, which always holds an expiry, iff moreover the expiry is neither zero nor the signing time |
| SigningPreimage.ZeroReceiveWindow | src/roq/hyperliquid/gateway/web_socket.cpp:201-203 | with a receive window of zero the expiry is printed but not signed |
| SigningPreimage.SignatureCoherentIff | src/roq/hyperliquid/tools/crypto.cpp:54-62 | the first of these over a whole run, as a condition on the clock readings alone |
| SigningPreimage.SameMillisecond | src/roq/hyperliquid/tools/crypto.cpp:57-61 | two signatures in one millisecond: the second request holds the next nonce, its signed bytes do not |
| SigningPreimage.CoherentSignaturesDiffer | src/roq/hyperliquid/tools/crypto.cpp:54-62 | two signatures of one run that agree with their nonces never cover the same bytes |
| Conversions.RoundPriceForm | src/roq/hyperliquid/tools/conversions.cpp:23-43 | the scale and multiplier arithmetic is: nearest multiple of 10^(magnitude-4), then nearest multiple of the decimal grid, halves away from zero |
| Conversions.ResultOnTick | src/roq/hyperliquid/tools/conversions.cpp:17-44 | a result that was not passed through lies on the five-figure grid at its own magnitude and on the decimal grid, also when rounding crosses a power of ten |
| Conversions.RoundPriceFixedIff | src/roq/hyperliquid/tools/conversions.cpp:17-44 | a price is unchanged iff it is passed through or lies on the coarser of the two grids |
| Conversions.RoundPriceIdempotent | src/roq/hyperliquid/tools/conversions.cpp:17-44 | rounding twice is rounding once, for every price, size decimals and market |
| Conversions.RoundPriceMonotone | src/roq/hyperliquid/tools/conversions.cpp:17-44 | order is kept across decades, signs and both stages for all prices that are not passed through |
| Conversions.RoundPriceError | src/roq/hyperliquid/tools/conversions.cpp:30-41 | a price moves by at most half of 10^(magnitude-4) when that grid is at least as coarse as the decimal grid, and by at most 0.55 of the decimal unit otherwise |
| Conversions.RoundPriceErrorReached | src/roq/hyperliquid/tools/conversions.cpp:30-41 | the 0.55 bound is attained |
| Conversions.PassThroughOrderIff | src/roq/hyperliquid/tools/conversions.cpp:18-21 | rounding keeps order around an integer price p above 100k iff p lies on its five-figure grid or half-way between two of its points, or, when the decimal grid is the coarser one, on that grid or half a five-figure step in front of a half-way point; otherwise a fractional neighbour is rounded past p. For every p and any size decimals |
| Conversions.PassThroughBreaksOrder | src/roq/hyperliquid/tools/conversions.cpp:18-21 | 123456.5 rounds above the passed-through 123457 |
| Conversions.AroundThreshold | src/roq/hyperliquid/tools/conversions.cpp:18-21 | 100001 is kept, 100000.5 and 99999.5 are rounded |
| Conversions.RoundSizeNearest | src/roq/hyperliquid/tools/conversions.cpp:46-50 | sizes go to a nearest multiple of 10^-szDecimals, exactly the multiples stay, order is kept |
| TickSizeSteps.TableRow | src/roq/hyperliquid/tools/tick_size_steps.cpp:91-140 | the six perp tables follow one pattern of minimum prices and ticks |
| TickSizeSteps.TableIsRule | src/roq/hyperliquid/tools/tick_size_steps.cpp:145-187 | the tick a perp table gives is the documented rule (five significant figures, at most 6 - szDecimals decimals), capped at the last row, for every positive price |
| TickSizeSteps.TableBelowMillion | src/roq/hyperliquid/tools/tick_size_steps.cpp:91-140 | below 10^6 the tick is max(10^-(6-s), 10^(magnitude-4)) |
| TickSizeSteps.RoundedPriceOnTable | src/roq/hyperliquid/tools/conversions.cpp:17-44 | every positive price that is rounded as a perp and not passed through becomes a whole number of the ticks the table gives at the rounded price |
| TickSizeSteps.SpotRoundsAsPerp | src/roq/hyperliquid/tools/conversions.cpp:35-41 | from 10^(szDecimals - 2) up rounding as spot or as a perp is the same |
| TickSizeSteps.DecadeOnTableIff | src/roq/hyperliquid/tools/conversions.cpp:17-44 | all prices of a decade that are not passed through land on the perp table iff they are rounded as perps, or the decade is at least 10^(szDecimals - 2), or it is so low that they become zero |
| TickSizeSteps.PassedThroughOnTableIff | src/roq/hyperliquid/tools/conversions.cpp:18-21 | a passed-through price is on the perp table iff it is a multiple of 10 |
| TickSizeSteps.PassedThroughMissesTable | src/roq/hyperliquid/tools/conversions.cpp:18-21 | 123457 is passed through and off the table |
| TickSizeSteps.SpotRoundedPerpMissesTable | src/roq/hyperliquid/gateway/rest.cpp:484 | a perp price that spot rounding keeps and the published table has not |
| OrderActions.OrderPricesOnTableIff | src/roq/hyperliquid/tools/encoder.cpp:146-148 | the same along the order path, where the asset id decides which rounding is used: ids from 10000, which perps of non-primary dexs have, miss the table exactly in the decades from 10^(szDecimals - 9) to below 10^(szDecimals - 2) |
| WireText.FloatToWire | src/roq/hyperliquid/tools/conversions.cpp:52-84 | throws iff printing to 8 decimals moves the value by 10^-12 or more; otherwise the in-place repair and trimming give the text of the rounded value |
| WireText.ExactIff | src/roq/hyperliquid/tools/conversions.cpp:58-62 | a value prints iff it lies within 10^-12 of a whole number of units of 10^-8 |
| WireText.TrimZeros | src/roq/hyperliquid/tools/conversions.cpp:69-81 | find, cut and pop remove exactly the trailing fraction zeros and then a bare point, never a zero of the integer part |
| WireText.RepairedText | src/roq/hyperliquid/tools/conversions.cpp:64-67 | after the minus-zero repair the printed sign is the sign of the rounded value |
| WireText.WireParses | src/roq/hyperliquid/tools/conversions.cpp:52-84 | the text reads back as the value rounded to 8 decimals |
| WireText.WireCanonical | src/roq/hyperliquid/tools/conversions.cpp:64-83 | no leading integer zero, no trailing fraction zero, no bare point, no minus zero, at most 8 decimals |
| WireText.WireInjective | src/roq/hyperliquid/tools/conversions.cpp:52-84 | equal text iff equal rounded value |
| WireText.WireSamples | src/roq/hyperliquid/tools/conversions.cpp:52-84 | three texts: a negative fraction with leading zeros, an integer part, zero |
| WireText.RoundedPricePrints | src/roq/hyperliquid/tools/encoder.cpp:148 | every rounded price with at most 8 decimals prints and reads back as itself |
| WireText.PricesPrintIff | src/roq/hyperliquid/tools/encoder.cpp:148 | no rounded price throws iff the decimal grid is no finer than 10^-8 |
| WireText.RoundedSizePrints | src/roq/hyperliquid/tools/encoder.cpp:149 | every size rounded to at most 8 decimals prints and reads back as itself |
| WireText.SizesPrintIff | src/roq/hyperliquid/tools/encoder.cpp:149 | no rounded size throws iff there are at most 8 size decimals |
| OrderActions.EncodeCreateOrder | src/roq/hyperliquid/tools/encoder.cpp:135-174 | order to signed bytes: fatal, thrown, or the preimage of the action tree |
| OrderActions.CreateOutcomeIff | src/roq/hyperliquid/tools/encoder.cpp:31-71 | fatal iff side or type is undefined, an exception iff else the rounded price or size is not within 10^-12 of a whole number of units |
| OrderActions.CreateNeverThrowsIff | src/roq/hyperliquid/tools/encoder.cpp:148-149 | no order makes the encoder throw iff prices and sizes are rounded to at most 8 decimals |
| OrderActions.SampleMessage | src/roq/hyperliquid/tools/encoder.cpp:175 | the sample message in the source is what the model builds for that order, and it can be signed at any time |
| OrderActions.OrderMembers | src/roq/hyperliquid/tools/encoder.cpp:150-170 | a lookup in the tree built for an order finds each of its fields under its key, and nothing else |
| OrderActions.TimeInForceIff | src/roq/hyperliquid/tools/encoder.cpp:45-71 | looked up in the tree, the time in force is Alo iff the order is post-only, and else Gtc or Ioc iff that is its own; a market order has exactly isMarket |
| OrderActions.CloidText | src/roq/hyperliquid/tools/encoder.cpp:144 | the client id is 0x, zeros up to 32 digits, and the request id |
| OrderActions.SameTreeIff | src/roq/hyperliquid/tools/encoder.cpp:150-170 | action trees are equal iff asset, side, price and size in units of 10^-8, flags, order type and client id are |
| OrderActions.UnitsAreValues | src/roq/hyperliquid/tools/encoder.cpp:146-149 | with at most 8 decimals equal units are equal rounded prices and sizes |
| OrderActions.CreatePreimageIff | src/roq/hyperliquid/tools/encoder.cpp:135-174 | end to end: two orders sign the same bytes iff asset, side, price and size in units, flags, type, time in force, client id and nonce agree, and the expiries agree or neither is packed |
| OrderActions.CancelMembers | src/roq/hyperliquid/tools/encoder.cpp:218-252 | a lookup in the tree built for a cancel finds the asset and the id under the keys of its form, and nothing else |
| OrderActions.CancelBytes | src/roq/hyperliquid/tools/encoder.cpp:235-251 | the bytes of one packed cancel |
| OrderActions.CancelPreimageIff | src/roq/hyperliquid/tools/encoder.cpp:205-253 | two cancels sign the same bytes iff asset, target, nonce and effective expiry agree |
| OrderActions.CancelNeverSignsOrder | src/roq/hyperliquid/tools/encoder.cpp:205-253 | the bytes signed for a cancel are never those of an order |
| StreamParser.Parser.OnInner | src/roq/hyperliquid/protocol/json/parser.cpp:43-72 | the innermost callback, on the captured `result` |
| StreamParser.Parser.OnPayload | src/roq/hyperliquid/protocol/json/parser.cpp:73-120 | the payload callback, on the captured `status` and `result` |
| StreamParser.Parser.OnTop | src/roq/hyperliquid/protocol/json/parser.cpp:142-207 | the outer callback, on the captured `channel` and `result` |
| StreamParser.Parser.VisitObject | src/roq/hyperliquid/protocol/json/parser.cpp:111-136 | the visit of a nested object ends at the first callback that returns true or throws, in the state the specification of the nested callbacks gives |
| StreamParser.Parser.Dispatch | src/roq/hyperliquid/protocol/json/parser.cpp:208-212 | after the visit: the result, or fatal when nothing matched and unknown types are not allowed |
| StreamLookup.OneHandlerReported | src/roq/hyperliquid/protocol/json/parser.cpp:40-213 | for every tree a dispatch that returns reports true iff it invoked exactly one handler and otherwise invoked none; one that throws or is fatal invoked none |
| StreamLookup.FlagOnlyPreventsFatal | src/roq/hyperliquid/protocol/json/parser.cpp:52-56 | allowing unknown types changes neither handler nor exceptions; it only turns fatal into false |
| StreamLookup.PayloadVisit | src/roq/hyperliquid/protocol/json/parser.cpp:73-120 | what a visit of the payload invokes, as a function of paths, positions and the status carried in |
| StreamLookup.TopVisit | src/roq/hyperliquid/protocol/json/parser.cpp:142-207 | the same for the whole message and the channel carried in |
| StreamLookup.ByOrderIsLookupPayloadIff | src/roq/hyperliquid/protocol/json/parser.cpp:125 | for a payload, document order and path lookup agree iff the lookup finds nothing or the status comes before the response (for spotMeta: a response with a known status does not come first) |
| StreamLookup.DataBeforeChannel | src/roq/hyperliquid/protocol/json/parser.cpp:200-201 | an error reply that a path lookup finds in both orders of channel and data, and the parser handles in one |
| StreamLookup.LookupIff | src/roq/hyperliquid/protocol/json/parser.cpp:40-213 | with unique keys on the path and no exception, the handler is the one of a path lookup iff there is none, or the channel comes before the data and the payload is in that order |
| StreamTexts.ChannelTexts | src/roq/hyperliquid/protocol/json/parser.cpp:147-196 | each direct handler is selected by its own channel text and no other |
| StreamTexts.OtherTexts | src/roq/hyperliquid/protocol/json/parser.cpp:47-67 | the texts of status, response type and payload type |
| StreamTexts.DirectIff | src/roq/hyperliquid/protocol/json/parser.cpp:142-207 | for every message whose own keys are unique, whatever else it holds: a handler the channel selects is invoked, alone, iff the channel is its text |
| StreamTexts.LookupIsAsked | src/roq/hyperliquid/protocol/json/parser.cpp:40-213 | the path lookup finds a handler iff the message holds the texts that ask for it |
| StreamTexts.RunIsAsked | src/roq/hyperliquid/protocol/json/parser.cpp:40-213 | with unique keys on the path, members in order and no exception, a handler is invoked iff the message holds the texts that ask for it |
| StreamTexts.ThrowsIff | src/roq/hyperliquid/protocol/json/parser.cpp:40-208 | with unique keys on the path: exactly the messages that throw, which depends on the order of members too |
| StreamTexts.OutcomeIff | src/roq/hyperliquid/protocol/json/parser.cpp:209-212 | true iff a handler was invoked; else, without an exception, fatal iff unknown types are not allowed |
| AckParsers.AckParser.IsArrayOfString | src/roq/hyperliquid/protocol/json/cancel_order_ack_parser.cpp:44-79 | the early-exit loop decides whether every element is a string |
| AckParsers.AckParser.DataHelper | src/roq/hyperliquid/protocol/json/cancel_order_ack_parser.cpp:80-92 | the statuses callback of both parsers |
| AckParsers.AckParser.Callback | src/roq/hyperliquid/protocol/json/cancel_order_ack_parser.cpp:93-129 | the callbacks above it, shared by both parsers |
| AckParsers.AckParser.Dispatch | src/roq/hyperliquid/protocol/json/cancel_order_ack_parser.cpp:130-134 | after the visit: the result, or fatal |
| AckParsers.DeliveredAtMostOnce | src/roq/hyperliquid/protocol/json/create_order_ack_parser.cpp:43-131 | for every tree nothing is delivered twice or unreported, and a create reply reported as handled was delivered |
| AckParsers.OutcomeIff | src/roq/hyperliquid/protocol/json/cancel_order_ack_parser.cpp:131-134 | a reply that is not handled is fatal iff unknown types are not allowed |
| AckParsers.RunIsLookup | src/roq/hyperliquid/protocol/json/create_order_ack_parser.cpp:56-126 | with unique keys on the path, in whatever order, either parser computes a plain path lookup, exceptions included |
| AckParsers.ArrayOfStatuses | src/roq/hyperliquid/protocol/json/cancel_order_ack_parser.cpp:80-92 | when the statuses are an array both parsers report success; create delivers one acknowledgement, cancel iff some element is not a string |
| AckParsers.SilentSuccessIff | src/roq/hyperliquid/protocol/json/cancel_order_ack_parser.cpp:84-85 | for every tree with unique keys: success is reported without a delivery iff the reply is for a cancel and the statuses are an array of strings |
| AckParsers.SuccessIsSilent | src/roq/hyperliquid/protocol/json/cancel_order_ack_parser.cpp:84-85 | the reply to a successful cancel delivers nothing |
| AckParsers.GeneralErrorIff | src/roq/hyperliquid/protocol/json/cancel_order_ack_parser.cpp:109-126 | a general error is delivered iff the response is a string, and then alone |
| SymbolStreams.MarketData.SubscribeCoins | src/roq/hyperliquid/gateway/market_data.cpp:480-505 | nothing for no symbols, else one message per symbol for each of four channels |
| SymbolStreams.MarketData.Subscribe | src/roq/hyperliquid/gateway/market_data.cpp:185-189 | a ready stream subscribes to its slice from a global position on |
| SymbolStreams.MarketData.OnReady | src/roq/hyperliquid/gateway/market_data.cpp:202-208 | a new connection subscribes to the whole slice |
| SymbolStreams.Controller.EnsureSymbolSlices | src/roq/hyperliquid/gateway/controller.cpp:266-274 | the loop adds streams with consecutive ids and indices until there is one per slice |
| SymbolStreams.Controller.OnSymbolsUpdate | src/roq/hyperliquid/gateway/controller.cpp:229-262 | append, grow the streams, subscribe from the old total, create account streams once |
| SymbolStreams.Controller.OnSubscribeEvent | src/roq/hyperliquid/gateway/controller.cpp:130-144 | announces exactly the names not seen before |
| SymbolStreams.Controller.OnGetMetaAckEvent | src/roq/hyperliquid/gateway/rest.cpp:471-538 | announces exactly the names that are neither discarded nor seen before; size decimals without a tick table are fatal before anything is announced |
| SymbolStreamRuns.FreshNames | src/roq/hyperliquid/gateway/rest.cpp:526-528 | an announcement holds each new name once and no other |
| SymbolStreamRuns.FreshInOrder | src/roq/hyperliquid/gateway/rest.cpp:526-528 | new names are announced in the order in which they first appear |
| SymbolStreamRuns.SliceAppend | src/roq/hyperliquid/gateway/controller.cpp:231-235 | appending extends each slice by exactly what subscribing from the old total returns |
| SymbolStreamRuns.EverySymbolOnOneStream | src/roq/hyperliquid/gateway/market_data.cpp:187 | an announced symbol is in the slice of exactly one stream |
| SymbolStreamRuns.StepKeepsInv | src/roq/hyperliquid/gateway/controller.cpp:229-274 | every event keeps the invariant of the next row |
| SymbolStreamRuns.RunsKeepInv | src/roq/hyperliquid/gateway/controller.cpp:229-274 | over every interleaving of updates, Ready and Disconnected, stream k has index k and has subscribed on its current connection to exactly slice k, once per channel, when it is ready, and to nothing when it is not; announced symbols are duplicate-free and are the known set; ids are the values of the counter |
| SymbolStreamRuns.StreamsExist | src/roq/hyperliquid/gateway/controller.cpp:231-232 | over every run there is one stream per slice |
| SymbolStreamRuns.ReadyIff | src/roq/hyperliquid/gateway/market_data.cpp:196-208 | over every run a stream is ready iff its Ready has been seen, while it existed, and no Disconnected since |
| SymbolStreamRuns.SubscribedIff | src/roq/hyperliquid/gateway/market_data.cpp:185-208 | in terms of events alone: a connected stream has subscribed to exactly its slice, any other to nothing |
| SymbolStreamRuns.PoolsIff | src/roq/hyperliquid/gateway/controller.cpp:236-261 | account streams are created at the first announcement, one per account in each pool that is in use, and no others |
| SymbolStreamRuns.StreamIdsDistinctIff | src/roq/hyperliquid/gateway/controller.cpp:236-274 | all ids handed out (rest, market data, web socket, order entry, drop copy) are distinct iff there are at most 65536 |
| SymbolStreamRuns.UpdatesAreKnownSymbols | src/roq/hyperliquid/gateway/rest.cpp:479-534 | the concatenation of all symbol updates of a run is duplicate-free and, unless a fatal error ended the run, equals the known symbols as a set |
| SymbolStreamRuns.KnownIffNamed | src/roq/hyperliquid/gateway/rest.cpp:479-530 | unless a fatal error ended the run, a symbol is known iff a client subscribed to it or a meta reply listed it without discarding it |
| SymbolStreamRuns.FatalIff | src/roq/hyperliquid/gateway/rest.cpp:484 | a run is ended by a fatal error iff a meta reply has an item with size decimals outside 0 to 5 |
| SymbolStreams.MarketData.OnTrades | src/roq/hyperliquid/gateway/market_data.cpp:345-383 | the loop over the cleared-once buffer publishes the summaries of the specification |
| TradeSummaries.RunEndsExact | src/roq/hyperliquid/gateway/market_data.cpp:364-369 | summaries are cut exactly at the ends of maximal runs of equal time and coin, in order |
| TradeSummaries.RunsAreUniform | src/roq/hyperliquid/gateway/market_data.cpp:365 | between two cuts time and coin do not change |
| TradeSummaries.SummaryIsPrefix | src/roq/hyperliquid/gateway/market_data.cpp:347-363 | the k-th summary is labelled with the k-th run but carries every trade up to its end |
| TradeSummaries.LastSummaryIsWholePayload | src/roq/hyperliquid/gateway/market_data.cpp:383 | the last summary carries the whole payload |
| TradeSummaries.TwoCoins | src/roq/hyperliquid/gateway/market_data.cpp:347-383 | two trades in two coins: the second summary also carries the first trade |
| TradeSummaries.OwnTradesIff | src/roq/hyperliquid/gateway/market_data.cpp:347-383 | summaries hold only trades of their own time and coin iff the payload is a single run |
| WebSocketActions.DecodeUndoesEncode | src/roq/hyperliquid/gateway/web_socket.cpp:92-104 | decoding an encoded id gives back type, user and order iff the order id fits in 48 bits |
| WebSocketActions.EncodeUndoesDecode | src/roq/hyperliquid/gateway/web_socket.cpp:92-104 | every 64-bit id is the encoding of what it decodes to |
| WebSocketActions.SentExactly | src/roq/hyperliquid/gateway/web_socket.cpp:197-275 | whatever the exchange replies, until a reply is fatal the requests sent are exactly the creates and cancels the encoder does not throw on, in order; a modify, on which it always throws, is never sent |
| WebSocketActions.SameIdIff | src/roq/hyperliquid/gateway/web_socket.cpp:92-97 | two requests share an id iff they agree in type, user and order |
| WebSocketActions.WebSocket.ActionError | src/roq/hyperliquid/gateway/web_socket.cpp:458-486 | publishes an error for the decoded request when the order is known |
| WebSocketActions.WebSocket.ActionOrder | src/roq/hyperliquid/gateway/web_socket.cpp:488-530 | scan of the statuses with early return, type check, publication |
| WebSocketActions.WebSocket.ActionCancel | src/roq/hyperliquid/gateway/web_socket.cpp:532-570 | success test, type check, publication |
| WebSocketActions.FirstErrorIff | src/roq/hyperliquid/gateway/web_socket.cpp:492-500 | the message kept by the scan is the first non-empty error |
| WebSocketActions.StepKeepsInv | src/roq/hyperliquid/gateway/web_socket.cpp:458-570 | every event keeps: no fatal, only create and cancel sent, every published error names a sent request |
| WebSocketActions.RunsAreAttributed | src/roq/hyperliquid/gateway/web_socket.cpp:458-570 | the same over every run in which replies echo the id of a request of the matching kind |
| WebSocketActions.ReplyNamesItsRequest | src/roq/hyperliquid/gateway/web_socket.cpp:464-570 | the error published for a reply carries the type, user and order of the request whose id it echoes |
| WebSocketActions.ActionErrorPublished | src/roq/hyperliquid/gateway/web_socket.cpp:458-486 | an action error is published, with the fields of its id, iff the dispatcher knows the order |
| WebSocketActions.ActionOrderPublished | src/roq/hyperliquid/gateway/web_socket.cpp:488-530 | an order reply publishes its first error iff the dispatcher knows the order, the id is of a create and no order was filled under a client id |
| WebSocketActions.ActionCancelPublished | src/roq/hyperliquid/gateway/web_socket.cpp:532-570 | a cancel reply publishes its statuses iff they are neither empty nor a success, the dispatcher knows the order and the id is of a cancel |
| WebSocketActions.FatalIff | src/roq/hyperliquid/gateway/web_socket.cpp:492-547 | without assumptions on the exchange: exactly which replies are fatal |
| PagedQueries.PagedQuery.HandleSuccess | src/roq/hyperliquid/gateway/order_entry.cpp:336-345 | handles the page and sends the next query when a dex is left, with `finished` cleared before the send |
| PagedQueries.PagedQuery.OnAck | src/roq/hyperliquid/gateway/order_entry.cpp:329-351 | the callback together with the categories and exceptions of `process_response` |
| PagedQueries.RunExact | src/roq/hyperliquid/gateway/order_entry.cpp:904-947 | whatever the answers, dexs 0, 1, 2, ... are queried without gap, up to the first answer that does not continue; exactly which pages are handled, which error is reported, when the connection is suspended, and when the query commits |
| PagedQueries.CommitsOnceIff | src/roq/hyperliquid/gateway/order_entry.cpp:389-411 | a finished query has committed, once, iff it did not end in a redirection or a throwing send |
| PagedQueries.LostCommit | src/roq/hyperliquid/gateway/order_entry.cpp:603-625 | a follow-up send that throws loses the commit for good |
| PagedQueries.SecondSendThrows | src/roq/hyperliquid/gateway/order_entry.cpp:603-625 | two dexs, and the query for the second cannot be sent: no commit |
| StaleOrders.Account.CheckStaleOrders | src/roq/hyperliquid/gateway/drop_copy.cpp:534-558 | inserts all stale orders and reports whether the set grew |
| StaleOrders.Account.OnTimerEvent | src/roq/hyperliquid/gateway/drop_copy.cpp:560-567 | the rate-limited check |
| StaleOrders.Account.TakeUpRequest | src/roq/hyperliquid/gateway/order_entry.cpp:889-900 | the loop over the set: query and count the orders found, then clear; a throwing send leaves the set |
| StaleOrders.Account.OnOrderStatus | src/roq/hyperliquid/gateway/order_entry.cpp:498-521 | decrement or fatal, commit at zero |
| StaleOrders.StepKeepsInv | src/roq/hyperliquid/gateway/order_entry.cpp:498-521 | every possible event keeps the statement of the next row |
| StaleOrders.CounterAndCommits | src/roq/hyperliquid/gateway/order_entry.cpp:498-521 | over every run, overlapping batches included, the counter is the number of queries sent and not answered, the fatal is out of reach, and commits happen exactly right after the replies that leave none outstanding |
| StaleOrders.ReplyFatalIff | src/roq/hyperliquid/gateway/order_entry.cpp:511-515 | a redirection is fatal, any other reply iff it answers no query |
| StaleOrders.WaitingIff | src/roq/hyperliquid/gateway/drop_copy.cpp:534-567 | over every run an order waits to be queried iff a check has found it stale, after the open orders or at a due timer, and no batch has succeeded since |
| StaleOrders.BatchQueriesEachOnce | src/roq/hyperliquid/gateway/order_entry.cpp:889-900 | a batch queries each stale order that is still known once, and no other, whatever the order of the set |
| StaleOrders.RepeatedQueryIff | src/roq/hyperliquid/gateway/order_entry.cpp:889-900 | two batches in a row query the same order iff the first is cut short by a throwing send behind that order and the second reaches it |
| StaleOrders.RepeatsIff | src/roq/hyperliquid/gateway/order_entry.cpp:889-900 | before a batch whose sends succeed: some order is queried twice iff a send of the batch throws and an earlier one did not |
| StaleOrders.SecondQueryThrows | src/roq/hyperliquid/gateway/order_entry.cpp:889-900 | two stale orders, the second send throws: the first order is queried twice |
| StaleOrders.RequestIffGrown | src/roq/hyperliquid/gateway/drop_copy.cpp:560-567 | a timed check makes a request iff it added to the set |
| StaleOrders.ChecksAreSpaced | src/roq/hyperliquid/gateway/drop_copy.cpp:560-567 | consecutive timed checks are more than the configured interval apart |

## Left out

- Sockets, TLS, reconnect timers, pings, metrics, logging, flags, configuration and main functions: input and output.
- Keccak, EIP-712 encoding and ECDSA: foreign code; only the bytes given to them are modelled.
- The accuracy of floating-point rounding, logarithms and printing.
- The text form of an action (`dump`) and the JSON envelope around a signed request.
- MessagePack.Packer.PackJson: does not model floating-point values, because no action the encoder builds holds one.
- The spot tick tables: they do not follow the rule in the comment above them, so there is no property to prove.
- `modify_order` beyond the fact that it throws.
- Request throttling, download ordering and readiness: they rest on `core::Download2` and `core::limit::Request`, which are not in the repository, so no liveness is claimed and the fatal at `src/roq/hyperliquid/gateway/drop_copy.cpp:514-516` is not modelled.
- The commit of a stale-order batch in which no order is known: nothing is sent and nothing commits.
- Uniqueness of dex names across downloads: the inner `continue` at `src/roq/hyperliquid/gateway/rest.cpp:395` does not prevent duplicates.
- Contents of published messages beyond type, user, order, version and text; enumeration maps; generated field parsers.
- Order books, bars and funding updates: field copies.
- Dead code behind `if (true)` in `src/roq/hyperliquid/protocol/json/create_order_ack_parser.cpp:63-84`.
