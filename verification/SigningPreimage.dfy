/** The bytes that are hashed and signed: tools/encoder.cpp `pack_helper`, and the nonce that
    tools/crypto.cpp puts in the request.

    Times are int64 millisecond counts. The host is little-endian, so the source's conversion to
    little-endian is the identity and its shift loop writes the most significant byte first. */
module SigningPreimage {
  import opened JsonTree
  import opened MessagePack
  import opened Options

  /** The expiry tail is written only for a non-zero expiry that differs from the nonce. */
  function Expiry(now: int, expires: int): Option<int> {
    if expires != 0 && expires != now then Some(expires) else None
  }

  function Tail(now: int, expires: int): seq<Byte> {
    BigEndian(now, 8) + [0x00] +
    match Expiry(now, expires)
    case Some(e) => [0x00] + BigEndian(e, 8)
    case None => []
  }

  function Preimage(action: Json, now: int, expires: int): seq<Byte>
    requires Packable(action)
  {
    Encode(action) + Tail(now, expires)
  }

  /** The two forms of the signed bytes: a zero vault byte behind the nonce, and behind that nothing iff
      the expiry is zero or the nonce itself, else a zero byte and the expiry. */
  lemma PreimageBytesIff(a: Json, n: int, e: int)
    requires Packable(a)
    ensures Preimage(a, n, e) == Encode(a) + BigEndian(n, 8) + [0x00] <==> e == 0 || e == n
    ensures Preimage(a, n, e) == Encode(a) + BigEndian(n, 8) + [0x00] + [0x00] + BigEndian(e, 8)
       <==> e != 0 && e != n
  {
    hide Encode, BigEndian;
    var short := Encode(a) + BigEndian(n, 8) + [0x00];
    var long := short + [0x00] + BigEndian(e, 8);
    assert |short| != |long|;
    if e == 0 || e == n {
      assert Preimage(a, n, e) == short;
    } else {
      assert Preimage(a, n, e) == long;
    }
  }

  /** Expiries that requests of one nonce do not tell apart: equal ones, and those that are not packed. */
  predicate SameExpiry(nonce: int, e: int, e': int) {
    e == e' || ((e == 0 || e == nonce) && (e' == 0 || e' == nonce))
  }

  lemma MultiplyStep(p: int, a: int, b: int)
    requires p > 0
    ensures a < b ==> p * a + p <= p * b
  {
    if a < b { assert p * (a + 1) <= p * b; }
  }

  lemma DivisionUnique(x: int, p: int, q: int)
    requires p > 0 && p * q <= x < p * q + p
    ensures x / p == q
  {
    MultiplyStep(p, x / p, q);
    MultiplyStep(p, q, x / p);
  }

  lemma NestedDivision(n: int, p: int)
    requires p > 0
    ensures (n / 0x100) / p == n / (0x100 * p)
  {
    var q, r := n / (0x100 * p), n % (0x100 * p);
    assert n == 0x100 * (p * q) + r;
    DivisionUnique(n / 0x100, p, q);
  }

  /** Shifting and masking picks the bytes of the two's complement, most significant first. */
  lemma {:induction false} BigEndianByte(n: int, width: nat, i: nat)
    requires i < width
    ensures BigEndian(n, width)[i] == n / Pow256(width - 1 - i) % 0x100
    decreases width
  {
    if i < width - 1 {
      BigEndianByte(n / 0x100, width - 1, i);
      NestedDivision(n, Pow256(width - 2 - i));
    } else {
      assert Pow256(0) == 1;
    }
  }

  /** Packs the tree, then pushes the nonce, the vault byte and the optional expiry. */
  method PackHelper(action: Json, now: int, expires: int) returns (data: seq<Byte>)
    requires Packable(action) && Int64(now) && Int64(expires)
    ensures data == Preimage(action, now, expires)
  {
    hide Encode, BigEndian, Pow256;
    var packer := new Packer();
    packer.PackJson(action);
    data := packer.buffer;
    for i := 0 to 8
      invariant data == Encode(action) + BigEndian(now, 8)[..i]
    {
      BigEndianByte(now, 8, i);
      data := data + [now / Pow256(7 - i) % 0x100];
    }
    data := data + [0x00];
    ghost var fixed := data;
    if expires != 0 && expires != now {
      data := data + [0x00];
      for i := 0 to 8
        invariant data == fixed + [0x00] + BigEndian(expires, 8)[..i]
      {
        BigEndianByte(expires, 8, i);
        data := data + [expires / Pow256(7 - i) % 0x100];
      }
    }
  }

  lemma Int64Bytes(n: int, m: int)
    requires Int64(n) && Int64(m)
    requires BigEndian(n, 8) == BigEndian(m, 8)
    ensures n == m
  {
    Pow256Values();
    SignedOfBigEndian(n, 8);
    SignedOfBigEndian(m, 8);
  }

  lemma TailInjective(n: int, e: int, n': int, e': int)
    requires Int64(n) && Int64(e) && Int64(n') && Int64(e')
    requires Tail(n, e) == Tail(n', e')
    ensures n == n' && SameExpiry(n, e, e')
  {
    hide BigEndian;
    assert Tail(n, e)[..8] == BigEndian(n, 8);
    assert Tail(n', e')[..8] == BigEndian(n', 8);
    Int64Bytes(n, n');
    match (Expiry(n, e), Expiry(n', e'))
    case (Some(x), Some(y)) =>
      assert Tail(n, e)[10..] == BigEndian(x, 8);
      assert Tail(n', e')[10..] == BigEndian(y, 8);
      Int64Bytes(x, y);
    case _ =>
  }

  /** The signed bytes determine the request: two preimages agree exactly when action, nonce and
      effective expiry agree. The optional tail makes no two requests collide. */
  lemma PreimageInjective(a: Json, n: int, e: int, a': Json, n': int, e': int)
    requires Packable(a) && WithinLimits(a) && Packable(a') && WithinLimits(a')
    requires Int64(n) && Int64(e) && Int64(n') && Int64(e')
    ensures Preimage(a, n, e) == Preimage(a', n', e')
       <==> a == a' && n == n' && (e == e' || ((e == 0 || e == n) && (e' == 0 || e' == n)))
  {
    hide Encode;
    PrefixFree(a, Tail(n, e), a', Tail(n', e'));
    if Tail(n, e) == Tail(n', e') { TailInjective(n, e, n', e'); }
  }

  // --- the nonce generator ---

  function NextNonce(previous: int, now: int): int {
    if previous < now then now else previous + 1
  }

  /** The nonce after signing at the given times, starting from 0. */
  function NonceAfter(times: seq<int>): int {
    if times == [] then 0
    else NextNonce(NonceAfter(times[..|times| - 1]), times[|times| - 1])
  }

  class Crypto {
    var nonce: int
    ghost var times: seq<int>

    ghost predicate Valid()
      reads this
    {
      nonce == NonceAfter(times)
    }

    constructor ()
      ensures Valid() && times == []
    {
      nonce := 0;
      times := [];
    }

    /** The nonce step of `sign_l1_action`; `emitted` is the nonce printed into the request. */
    method SignL1Action(now: int) returns (emitted: int)
      requires Valid()
      modifies this
      ensures Valid() && times == old(times) + [now]
      ensures emitted == NonceAfter(times)
    {
      if nonce < now {
        nonce := now;
      } else {
        nonce := nonce + 1;
      }
      times := times + [now];
      assert times[..|times| - 1] == old(times);
      emitted := nonce;
    }
  }

  /** Closed form: after k signatures the nonce is the largest of k and t_i + (signatures after i). */
  lemma {:induction false} NonceClosedForm(times: seq<int>)
    ensures var n, k := NonceAfter(times), |times|;
            && k <= n
            && (forall i :: 0 <= i < k ==> times[i] + (k - 1 - i) <= n)
            && (n == k || exists i :: 0 <= i < k && n == times[i] + (k - 1 - i))
  {
    var n, k := NonceAfter(times), |times|;
    if k > 0 {
      var before := times[..k - 1];
      NonceClosedForm(before);
      forall i | 0 <= i < k
        ensures times[i] + (k - 1 - i) <= n
      {
        if i < k - 1 { assert before[i] == times[i]; }
      }
      var m := NonceAfter(before);
      if m < times[k - 1] {
        assert n == times[k - 1] + (k - 1 - (k - 1));
      } else if m != k - 1 {
        var i :| 0 <= i < k - 1 && m == before[i] + (k - 2 - i);
        assert n == times[i] + (k - 1 - i);
      }
    }
  }

  /** Later signatures always carry larger nonces, whatever the clock does. */
  lemma {:induction false} NoncesIncrease(times: seq<int>, i: nat, j: nat)
    requires i < j <= |times|
    ensures NonceAfter(times[..i]) < NonceAfter(times[..j])
    decreases j
  {
    assert times[..j][..j - 1] == times[..j - 1];
    if i < j - 1 { NoncesIncrease(times, i, j - 1); }
  }

  /** The hashed bytes hold the signing time, the request holds the nonce. What was signed is what a
      reader of the request reconstructs, given that it leaves out the expiry by the rule of
      `pack_helper`, exactly when the clock is past the previous nonce. */
  lemma SignedBytesMatchIff(action: Json, previous: int, now: int, expires: int)
    requires Packable(action) && WithinLimits(action)
    requires Int64(previous + 1) && Int64(now) && Int64(expires)
    ensures Preimage(action, now, expires) == Preimage(action, NextNonce(previous, now), expires)
       <==> previous < now
  {
    if Int64(NextNonce(previous, now)) {
      PreimageInjective(action, now, expires, action, NextNonce(previous, now), expires);
    }
  }

  /** The bytes a reader reconstructs that goes by the request alone, which always holds an expiry. */
  function PrintedPreimage(action: Json, nonce: int, expires: int): seq<Byte>
    requires Packable(action)
  {
    Encode(action) + (BigEndian(nonce, 8) + [0x00] + [0x00] + BigEndian(expires, 8))
  }

  lemma TailIsPrintedIff(now: int, expires: int, nonce: int)
    requires Int64(now) && Int64(nonce) && Int64(expires)
    ensures Tail(now, expires) == BigEndian(nonce, 8) + [0x00] + [0x00] + BigEndian(expires, 8)
       <==> now == nonce && expires != 0 && expires != now
  {
    hide BigEndian;
    var printed := BigEndian(nonce, 8) + [0x00] + [0x00] + BigEndian(expires, 8);
    assert printed[..8] == BigEndian(nonce, 8);
    assert Tail(now, expires)[..8] == BigEndian(now, 8);
    if Tail(now, expires) == printed { Int64Bytes(now, nonce); }
  }

  /** For such a reader the expiry must also be one that is packed: not zero, and not the signing time,
      which it is when the receive window is zero. */
  lemma SignedBytesMatchPrintedIff(action: Json, previous: int, now: int, expires: int)
    requires Packable(action) && WithinLimits(action)
    requires Int64(previous + 1) && Int64(now) && Int64(expires)
    ensures Preimage(action, now, expires) == PrintedPreimage(action, NextNonce(previous, now), expires)
       <==> previous < now && expires != 0 && expires != now
  {
    hide Encode, BigEndian, Decode, Tail, Packable, WithinLimits;
    var nonce := NextNonce(previous, now);
    PrefixFree(action, Tail(now, expires), action, BigEndian(nonce, 8) + [0x00] + [0x00] + BigEndian(expires, 8));
    TailIsPrintedIff(now, expires, nonce);
  }

  /** A receive window of zero: the expiry is printed but not signed. */
  lemma ZeroReceiveWindow(action: Json, now: int)
    requires Packable(action) && WithinLimits(action) && Int64(now) && 0 < now
    ensures NextNonce(0, now) == now && Preimage(action, now, now) != PrintedPreimage(action, now, now)
  {
    hide Preimage, PrintedPreimage;
    SignedBytesMatchPrintedIff(action, 0, now, now);
  }

  /** Two signatures in one millisecond: the second request holds nonce 6, its signed bytes hold 5. */
  lemma SameMillisecond(action: Json, expires: int)
    requires Packable(action) && WithinLimits(action) && Int64(expires)
    ensures NonceAfter([5]) == 5 && NonceAfter([5, 5]) == 6
    ensures Preimage(action, 5, expires) != Preimage(action, 6, expires)
  {
    assert [5, 5][..1] == [5];
    PreimageInjective(action, 5, expires, action, 6, expires);
  }

  lemma PastPreviousNonceIff(times: seq<int>, k: nat)
    requires k < |times|
    ensures NonceAfter(times[..k]) < times[k]
       <==> k < times[k] && forall i :: 0 <= i < k ==> times[i] + (k - 1 - i) < times[k]
  {
    var before := times[..k];
    NonceClosedForm(before);
    if NonceAfter(before) < times[k] {
      forall i | 0 <= i < k ensures times[i] + (k - 1 - i) < times[k] {
        assert before[i] == times[i];
      }
    }
  }

  /** The same over a whole run, in terms of the clock readings alone: the signature at index k is
      coherent iff its time is past k and past every earlier time plus the signatures since. */
  lemma SignatureCoherentIff(times: seq<int>, k: nat, action: Json, expires: int)
    requires k < |times| && Int64(times[k]) && Int64(NonceAfter(times[..k]) + 1)
    requires Packable(action) && WithinLimits(action) && Int64(expires)
    ensures Preimage(action, times[k], expires) == Preimage(action, NonceAfter(times[..k + 1]), expires)
       <==> k < times[k] && forall i :: 0 <= i < k ==> times[i] + (k - 1 - i) < times[k]
  {
    hide Preimage;
    assert times[..k + 1][..k] == times[..k];
    PastPreviousNonceIff(times, k);
    SignedBytesMatchIff(action, NonceAfter(times[..k]), times[k], expires);
  }

  /** Two requests of one run never sign the same bytes when both are coherent, even when they hold
      the same action and expiry. */
  lemma CoherentSignaturesDiffer(times: seq<int>, i: nat, j: nat, a: Json, e: int, a': Json, e': int)
    requires i < j < |times|
    requires Packable(a) && WithinLimits(a) && Packable(a') && WithinLimits(a')
    requires forall t | t in times :: Int64(t)
    requires Int64(e) && Int64(e')
    requires NonceAfter(times[..i]) < times[i] && NonceAfter(times[..j]) < times[j]
    ensures Preimage(a, times[i], e) != Preimage(a', times[j], e')
  {
    hide Preimage;
    PreimageInjective(a, times[i], e, a', times[j], e');
    NoncesIncrease(times, i + 1, j + 1);
    assert times[..i + 1][..i] == times[..i];
    assert times[..j + 1][..j] == times[..j];
  }
}
