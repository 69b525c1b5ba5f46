/**
 * The keys of the transaction keyspace (src/commit/descriptor.rs): big-endian, so that the byte order
 * of the index is the order (sequence, meta before mutations, ordinal), and so that ten-byte prefixes
 * cut out whole transactions.
 */
module TxKeys {
  import opened Basics
  import opened Index
  import opened ByteCodec
  import opened Cursor

  const TX_MAGIC: Bytes := [0x54, 0x58]

  /** Big-endian bytes. */
  function Be(n: nat, width: nat): (b: Bytes)
    ensures |b| == width
    decreases width, n
  {
    if width == 0 then [] else Be(n / 256, width - 1) + [n % 256]
  }

  function FromBe(b: Bytes): nat {
    if b == [] then 0 else 256 * FromBe(b[..|b| - 1]) + b[|b| - 1]
  }

  lemma {:induction false} BeRoundTrip(n: nat, width: nat)
    requires n < Range(width)
    ensures FromBe(Be(n, width)) == n
    decreases width
  {
    if width > 0 {
      BeRoundTrip(n / 256, width - 1);
      assert Be(n, width)[..width - 1] == Be(n / 256, width - 1);
    }
  }

  lemma {:induction false} FromBeRoundTrip(b: Bytes)
    ensures FromBe(b) < Range(|b|) && Be(FromBe(b), |b|) == b
  {
    if b != [] {
      var init := b[..|b| - 1];
      FromBeRoundTrip(init);
      assert FromBe(b) / 256 == FromBe(init) && FromBe(b) % 256 == b[|b| - 1];
      assert b == init + [b[|b| - 1]];
    }
  }

  // ---------------------------------------------------------------- order of concatenations

  lemma {:induction false} PrefixDecides(p: Bytes, q: Bytes, s: Bytes, t: Bytes)
    requires |p| == |q|
    ensures KeyLess(p + s, q + t) <==> KeyLess(p, q) || (p == q && KeyLess(s, t))
  {
    if p == [] {
      assert p + s == s && q + t == t;
    } else {
      assert (p + s)[1..] == p[1..] + s && (q + t)[1..] == q[1..] + t;
      assert p == [p[0]] + p[1..] && q == [q[0]] + q[1..];
      PrefixDecides(p[1..], q[1..], s, t);
    }
  }

  /** Big-endian numbers of one width are ordered as numbers. */
  lemma {:induction false} BeOrder(a: nat, b: nat, width: nat)
    requires a < Range(width) && b < Range(width)
    ensures KeyLess(Be(a, width), Be(b, width)) <==> a < b
    ensures Be(a, width) == Be(b, width) <==> a == b
    decreases width
  {
    BeRoundTrip(a, width);
    BeRoundTrip(b, width);
    if width > 0 {
      BeOrder(a / 256, b / 256, width - 1);
      PrefixDecides(Be(a / 256, width - 1), Be(b / 256, width - 1), [a % 256], [b % 256]);
    }
  }

  lemma {:induction false} NumberDecides(a: nat, b: nat, width: nat, s: Bytes, t: Bytes)
    requires a < Range(width) && b < Range(width)
    ensures KeyLess(Be(a, width) + s, Be(b, width) + t) <==> a < b || (a == b && KeyLess(s, t))
  {
    BeOrder(a, b, width);
    PrefixDecides(Be(a, width), Be(b, width), s, t);
  }

  // ---------------------------------------------------------------- keys

  predicate KeyValid(k: TxKey) {
    0 < k.seqNo <= U64_MAX && (k.MutationKey? ==> k.ordinal <= U64_MAX)
  }

  function KindAndOrdinal(k: TxKey): Bytes {
    match k
    case MetaKey(_) => [0]
    case MutationKey(_, ordinal) => [1] + Be(ordinal, 8)
  }

  /** The ten bytes that all keys of one transaction share. */
  function TxPrefix(seqNo: nat): (b: Bytes)
    ensures |b| == 10
  {
    TX_MAGIC + Be(seqNo, 8)
  }

  function EncodeKey(k: TxKey): (b: Bytes)
    ensures |b| == if k.MetaKey? then 11 else 19
  {
    TxPrefix(k.seqNo) + KindAndOrdinal(k)
  }

  function DecodeKey(b: Bytes): Result<TxKey> {
    if |b| == 11 && b[..2] == TX_MAGIC && b[10] == 0 then
      var seqNo := FromBe(b[2..10]);
      if seqNo == 0 then Err(Corruption) else Ok(MetaKey(seqNo))
    else if |b| == 19 && b[..2] == TX_MAGIC && b[10] == 1 then
      var seqNo := FromBe(b[2..10]);
      if seqNo == 0 then Err(Corruption) else Ok(MutationKey(seqNo, FromBe(b[11..19])))
    else Err(Corruption)
  }

  lemma {:induction false} KeyRoundTrip(k: TxKey)
    requires KeyValid(k)
    ensures DecodeKey(EncodeKey(k)) == Ok(k)
  {
    var b := EncodeKey(k);
    Ranges();
    assert b[..2] == TX_MAGIC && b[2..10] == Be(k.seqNo, 8);
    BeRoundTrip(k.seqNo, 8);
    if k.MutationKey? {
      assert b[11..19] == Be(k.ordinal, 8);
      BeRoundTrip(k.ordinal, 8);
    }
  }

  /** Only encodings decode: the bytes of a decoded key are its encoding. */
  lemma {:induction false} DecodedKeyIsEncoded(b: Bytes)
    requires DecodeKey(b).Ok?
    ensures KeyValid(DecodeKey(b).value) && EncodeKey(DecodeKey(b).value) == b
  {
    Ranges();
    FromBeRoundTrip(b[2..10]);
    assert b[..2] + b[2..10] == b[..10];
    if |b| == 11 {
      assert b == b[..10] + [b[10]];
    } else {
      FromBeRoundTrip(b[11..19]);
      assert b == b[..10] + ([b[10]] + b[11..19]);
    }
  }

  predicate TxKeyLess(a: TxKey, b: TxKey) {
    || a.seqNo < b.seqNo
    || (a.seqNo == b.seqNo && b.MutationKey? && (a.MetaKey? || a.ordinal < b.ordinal))
  }

  lemma {:induction false} KindOrder(a: TxKey, b: TxKey)
    requires KeyValid(a) && KeyValid(b)
    ensures KeyLess(KindAndOrdinal(a), KindAndOrdinal(b)) <==> b.MutationKey? && (a.MetaKey? || a.ordinal < b.ordinal)
  {
    if a.MutationKey? && b.MutationKey? {
      Ranges();
      var x, y := KindAndOrdinal(a), KindAndOrdinal(b);
      assert x[1..] == Be(a.ordinal, 8) && y[1..] == Be(b.ordinal, 8);
      BeOrder(a.ordinal, b.ordinal, 8);
    } else if a.MetaKey? && b.MetaKey? {
      assert KindAndOrdinal(a)[1..] == [];
    }
  }

  lemma {:induction false} PrefixOrder(a: nat, b: nat, s: Bytes, t: Bytes)
    requires a <= U64_MAX && b <= U64_MAX
    ensures KeyLess(TxPrefix(a) + s, TxPrefix(b) + t) <==> a < b || (a == b && KeyLess(s, t))
  {
    Ranges();
    assert TxPrefix(a) + s == TX_MAGIC + (Be(a, 8) + s) && TxPrefix(b) + t == TX_MAGIC + (Be(b, 8) + t);
    PrefixDecides(TX_MAGIC, TX_MAGIC, Be(a, 8) + s, Be(b, 8) + t);
    KeyOrderIsTotal(TX_MAGIC, TX_MAGIC);
    NumberDecides(a, b, 8, s, t);
  }

  /** The byte order of encoded keys is the order of transactions and, within one, of its entries. */
  lemma {:induction false} KeysSort(a: TxKey, b: TxKey)
    requires KeyValid(a) && KeyValid(b)
    ensures KeyLess(EncodeKey(a), EncodeKey(b)) <==> TxKeyLess(a, b)
  {
    PrefixOrder(a.seqNo, b.seqNo, KindAndOrdinal(a), KindAndOrdinal(b));
    KindOrder(a, b);
  }

  // ---------------------------------------------------------------- prefix ranges

  /** descriptor_range: up to the next prefix, or unbounded after the last possible sequence. */
  function DescriptorRange(seqNo: nat): KeyRange {
    KeyRange(Included(TxPrefix(seqNo)), StableEnd(seqNo))
  }

  function StableEnd(seqNo: nat): Bound {
    if seqNo < U64_MAX then Excluded(TxPrefix(seqNo + 1)) else Unbounded
  }

  /** stable_descriptor_range: everything up to the durable sequence. */
  function StableRange(durable: nat): KeyRange {
    KeyRange(Unbounded, StableEnd(durable))
  }

  lemma {:induction false} BelowPrefix(k: TxKey, seqNo: nat)
    requires KeyValid(k) && seqNo <= U64_MAX
    ensures KeyLess(EncodeKey(k), TxPrefix(seqNo)) <==> k.seqNo < seqNo
  {
    assert TxPrefix(seqNo) + [] == TxPrefix(seqNo);
    PrefixOrder(k.seqNo, seqNo, KindAndOrdinal(k), []);
  }

  /** A descriptor's range selects exactly its own entries, at every sequence number. */
  lemma {:induction false} RangeSelectsTransaction(k: TxKey, seqNo: nat)
    requires KeyValid(k) && seqNo <= U64_MAX
    ensures Contains(DescriptorRange(seqNo), EncodeKey(k)) <==> k.seqNo == seqNo
    ensures Contains(StableRange(seqNo), EncodeKey(k)) <==> k.seqNo <= seqNo
  {
    BelowPrefix(k, seqNo);
    if seqNo < U64_MAX { BelowPrefix(k, seqNo + 1); }
  }
}
