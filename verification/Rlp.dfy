/** The RLP transaction codec (Ethereum Yellow Paper, Appendix B; transaction forms of EIP-2718,
    EIP-1559 and EIP-155): what the encoder writes, the decoder reads back. */
module Rlp {
  import opened Words

  /** The largest Go `int`; every slice is at most this long. */
  const MAX_INT: int := 0x7FFF_FFFF_FFFF_FFFF

  /** `Panic` stands for a Go slice expression whose bounds are out of order. */
  datatype Outcome<+T> = Ok(value: T) | Err | Panic

  datatype Item = Item(payload: Bytes, rest: Bytes)

  datatype RLPTx = RLPTx(nonce: U64, gasPrice: U64, gasLimit: U64, to: Bytes, value: U64, data: Bytes, v: Byte,
                         r: Bytes, s: Bytes, chainId: U64, txType: Byte, maxPriorityFee: U64, accessListRaw: Bytes)

  // ---------------------------------------------------------------- decoding

  /** Two's complement of the low 64 bits, as Go's `int` arithmetic leaves them. */
  function ToInt(x: int): (r: int)
    ensures 0 <= x <= MAX_INT ==> r == x
  {
    var w := Wrap(x);
    if w > MAX_INT then w - 0x1_0000_0000_0000_0000 else w
  }

  function Short(data: Bytes, n: nat): Outcome<Item>
    requires data != []
  {
    if |data| < 1 + n then Err else Ok(Item(data[1..1 + n], data[1 + n..]))
  }

  function Long(data: Bytes, lenLen: nat): Outcome<Item>
    requires data != []
  {
    if |data| < 1 + lenLen then Err
    else
      var end := ToInt(1 + lenLen + ToInt(FromBE(data[1..1 + lenLen])));
      if |data| < end then Err
      else if end < 1 + lenLen then Panic
      else Ok(Item(data[1 + lenLen..end], data[end..]))
  }

  function DecodeItem(data: Bytes): Outcome<Item> {
    if data == [] then Err
    else
      var p := data[0];
      if p < 0x80 then Ok(Item(data[..1], data[1..]))
      else if p <= 0xB7 then Short(data, p - 0x80)
      else if p <= 0xBF then Long(data, p - 0xB7)
      else if p <= 0xF7 then Short(data, p - 0xC0)
      else Long(data, p - 0xF7)
  }

  lemma ItemShrinks(data: Bytes)
    ensures DecodeItem(data).Ok? ==> |DecodeItem(data).value.rest| < |data|
  {
  }

  lemma LongPanicsIff(data: Bytes, n: nat)
    requires data != [] && |data| <= MAX_INT && 1 <= n <= 8
    ensures Long(data, n).Panic? <==> n == 8 && |data| >= 9 && FromBE(data[1..9]) > MAX_INT - 9
  {
    hide FromBE, Pow256;
    if |data| >= 1 + n {
      FromBEBound(data[1..1 + n]);
      SmallPowers();
      if n < 8 {
        Pow256Monotone(n, 7);
      } else {
        Pow256Of8();
        ToIntIs(FromBE(data[1..9]));
      }
    }
  }

  lemma ToIntIs(x: U64)
    ensures ToInt(x) == if x > MAX_INT then x - TWO64 else x
  {
  }

  /** The decoder's one undefined case, exactly: a long item whose eight length bytes announce more
      than fits in an `int` beside the nine header bytes. */
  lemma PanicsExactlyOnHugeLength(data: Bytes)
    requires |data| <= MAX_INT
    ensures DecodeItem(data).Panic?
       <==> |data| >= 9 && (data[0] == 0xBF || data[0] == 0xFF) && FromBE(data[1..9]) > MAX_INT - 9
  {
    hide Long, FromBE;
    if data != [] && 0xB7 < data[0] <= 0xBF {
      LongPanicsIff(data, data[0] - 0xB7);
    } else if data != [] && data[0] > 0xF7 {
      LongPanicsIff(data, data[0] - 0xF7);
    }
  }

  lemma SmallPowers()
    ensures Pow256(7) == 0x100_0000_0000_0000
  {
    assert Pow256(3) == 0x100_0000;
    assert Pow256(5) == 256 * Pow256(4) && Pow256(4) == 256 * Pow256(3);
    assert Pow256(7) == 256 * Pow256(6) && Pow256(6) == 256 * Pow256(5);
  }

  function Items(data: Bytes): Outcome<seq<Bytes>>
    decreases |data|
  {
    if data == [] then Ok([])
    else
      match DecodeItem(data)
      case Err => Err
      case Panic => Panic
      case Ok(item) =>
        ItemShrinks(data);
        match Items(item.rest)
        case Err => Err
        case Panic => Panic
        case Ok(more) => Ok([item.payload] + more)
  }

  /** `decodeRLPBigInt`: only the low 64 bits survive. */
  function Uint(bs: Bytes): U64 {
    Wrap(FromBE(bs))
  }

  predicate Typed(t: Byte) {
    t == 1 || t == 2
  }

  function TypedTx(t: Byte, i: seq<Bytes>): RLPTx
    requires |i| == 12
  {
    var v := Uint(i[9]);
    RLPTx(Uint(i[1]), Uint(i[3]), Uint(i[4]), i[5], Uint(i[6]), i[7],
          if v >= 27 then (v - 27) % 256 else v, i[10], i[11], Uint(i[0]), t, Uint(i[2]), i[8])
  }

  /** The chain and the recovery parity that a legacy `v` folds together (EIP-155). */
  function ChainOf(v: U64): U64 {
    if v >= 35 then (v - 35) / 2 else 0
  }

  function ParityOf(v: U64): Byte {
    if v >= 35 then v - 35 - 2 * ChainOf(v) else if v >= 27 then v - 27 else v
  }

  function LegacyTx(i: seq<Bytes>): RLPTx
    requires |i| >= 9
  {
    RLPTx(Uint(i[0]), Uint(i[1]), Uint(i[2]), i[3], Uint(i[4]), i[5], ParityOf(Uint(i[6])), i[7], i[8],
          ChainOf(Uint(i[6])), 0, 0, [])
  }

  function Build(t: Byte, i: seq<Bytes>): Outcome<RLPTx> {
    if |i| < 9 || |i| > 12 then Err
    else if Typed(t) then (if |i| < 12 then Err else Ok(TypedTx(t, i)))
    else Ok(LegacyTx(i))
  }

  /** `DecodeRLPTransaction`. */
  function DecodeTx(raw: Bytes): Outcome<RLPTx> {
    var t: Byte := if raw != [] && Typed(raw[0]) then raw[0] else 0;
    var body := if raw != [] && Typed(raw[0]) then raw[1..] else raw;
    match DecodeItem(body)
    case Err => Err
    case Panic => Panic
    case Ok(list) =>
      if list.rest != [] then Err
      else
        match Items(list.payload)
        case Err => Err
        case Panic => Panic
        case Ok(items) => Build(t, items)
  }

  // ---------------------------------------------------------------- encoding

  /** `rlpEncodeWithPrefix`. */
  function EncPrefix(data: Bytes, base: Byte): Bytes
    requires base == 0x80 || base == 0xC0
    requires |data| < 0x1_0000_0000_0000_0000
  {
    if data == [] then [base]
    else if |data| <= 55 then [base + |data|] + data
    else
      LengthBytes(|data|);
      [base + 55 + |MinBE(|data|)|] + MinBE(|data|) + data
  }

  lemma LengthBytes(n: nat)
    requires n < TWO64
    ensures |MinBE(n)| <= 8
  {
    Pow256Of8();
    MinBELength(n, 8);
  }

  /** `rlpEncodeBytes`. */
  function EncBytes(data: Bytes): Bytes
    requires |data| < 0x1_0000_0000_0000_0000
  {
    if |data| == 1 && data[0] < 0x80 then data else EncPrefix(data, 0x80)
  }

  /** `rlpEncodeUint64`: the shortest big-endian form as a byte string. */
  function EncUint(n: U64): Bytes {
    LengthBytes(n);
    EncBytes(MinBE(n))
  }

  /** A list member: a byte string, or an already encoded list payload. */
  datatype Field = Str(b: Bytes) | Num(n: U64) | Lst(b: Bytes)

  function Payload(f: Field): Bytes {
    match f
    case Str(b) => b
    case Num(n) => MinBE(n)
    case Lst(b) => b
  }

  function Enc(f: Field): Bytes
    requires |Payload(f)| < 0x1_0000_0000_0000_0000
  {
    match f
    case Str(b) => EncBytes(b)
    case Num(n) => EncUint(n)
    case Lst(b) => EncPrefix(b, 0xC0)
  }

  ghost predicate Fit(fs: seq<Field>) {
    forall i :: 0 <= i < |fs| ==> |Payload(fs[i])| < 0x1_0000_0000_0000_0000
  }

  function Flatten(fs: seq<Field>): Bytes
    requires Fit(fs)
  {
    if fs == [] then [] else Enc(fs[0]) + Flatten(fs[1..])
  }

  function Payloads(fs: seq<Field>): seq<Bytes> {
    if fs == [] then [] else [Payload(fs[0])] + Payloads(fs[1..])
  }

  /** The `v` a legacy transaction carries on the wire. */
  function WireV(tx: RLPTx): U64 {
    if tx.chainId > 0 then Wrap(tx.chainId * 2 + 35 + tx.v) else tx.v
  }

  function TxFields(tx: RLPTx): seq<Field> {
    if Typed(tx.txType) then
      [Num(tx.chainId), Num(tx.nonce), Num(tx.maxPriorityFee), Num(tx.gasPrice), Num(tx.gasLimit), Str(tx.to),
       Num(tx.value), Str(tx.data), Lst(tx.accessListRaw), Num(tx.v), Str(tx.r), Str(tx.s)]
    else
      [Num(tx.nonce), Num(tx.gasPrice), Num(tx.gasLimit), Str(tx.to), Num(tx.value), Str(tx.data),
       Num(WireV(tx)), Str(tx.r), Str(tx.s)]
  }

  function SigningFields(tx: RLPTx): seq<Field> {
    if Typed(tx.txType) then
      [Num(tx.chainId), Num(tx.nonce), Num(tx.maxPriorityFee), Num(tx.gasPrice), Num(tx.gasLimit), Str(tx.to),
       Num(tx.value), Str(tx.data), Lst(tx.accessListRaw)]
    else
      [Num(tx.nonce), Num(tx.gasPrice), Num(tx.gasLimit), Str(tx.to), Num(tx.value), Str(tx.data),
       Num(tx.chainId), Num(0), Num(0)]
  }

  function Envelope(t: Byte, fs: seq<Field>): Bytes
    requires Fit(fs) && |Flatten(fs)| < 0x1_0000_0000_0000_0000
  {
    (if Typed(t) then [t] else []) + EncPrefix(Flatten(fs), 0xC0)
  }

  /** A transaction whose encodings are Go slices, so their lengths fit an `int`. */
  ghost predicate Encodable(t: Byte, fs: seq<Field>) {
    && Fit(fs)
    && |Flatten(fs)| < 0x1_0000_0000_0000_0000
    && |Envelope(t, fs)| <= MAX_INT
  }

  /** The byte string `TxHash` hashes. */
  function TxBytes(tx: RLPTx): Bytes
    requires Encodable(tx.txType, TxFields(tx))
  {
    Envelope(tx.txType, TxFields(tx))
  }

  /** The byte string `SigningHash` hashes. */
  function SigningBytes(tx: RLPTx): Bytes
    requires Encodable(tx.txType, SigningFields(tx))
  {
    Envelope(tx.txType, SigningFields(tx))
  }

  // ---------------------------------------------------------------- parser and printer

  lemma PrefixedDecodes(data: Bytes, base: Byte, rest: Bytes)
    requires base == 0x80 || base == 0xC0
    requires |data| < TWO64 && |EncPrefix(data, base)| + |rest| <= MAX_INT
    ensures DecodeItem(EncPrefix(data, base) + rest) == Ok(Item(data, rest))
  {
    if |data| <= 55 {
      assert EncPrefix(data, base) == [base + |data|] + data;
      ShortDecodes(base, data, rest);
    } else {
      LengthBytes(|data|);
      MinBERoundTrip(|data|);
      MinBENoLeadingZero(|data|);
      LongDecodes(base + 55 + |MinBE(|data|)|, base, MinBE(|data|), data, rest);
    }
  }

  lemma ShortDecodes(base: Byte, data: Bytes, rest: Bytes)
    requires (base == 0x80 || base == 0xC0) && |data| <= 55
    ensures DecodeItem([base + |data|] + data + rest) == Ok(Item(data, rest))
  {
    var all := [base + |data|] + data + rest;
    assert all[1..1 + |data|] == data && all[1 + |data|..] == rest;
  }

  lemma LongDecodes(p: Byte, base: Byte, len: Bytes, data: Bytes, rest: Bytes)
    requires (base == 0x80 || base == 0xC0) && 1 <= |len| <= 8 && p == base + 55 + |len|
    requires FromBE(len) == |data| && 1 + |len| + |data| + |rest| <= MAX_INT
    ensures DecodeItem([p] + len + data + rest) == Ok(Item(data, rest))
  {
    LongSlices(p, len, data, rest);
    LongReads([p] + len + data + rest, base, |len|, |data|);
  }

  lemma LongReads(all: Bytes, base: Byte, n: nat, m: nat)
    requires (base == 0x80 || base == 0xC0) && 1 <= n <= 8 && 1 + n + m <= |all| <= MAX_INT
    requires all[0] == base + 55 + n && FromBE(all[1..1 + n]) == m
    ensures DecodeItem(all) == Ok(Item(all[1 + n..1 + n + m], all[1 + n + m..]))
  {
    assert DecodeItem(all) == Long(all, n);
  }

  lemma LongSlices(p: Byte, len: Bytes, data: Bytes, rest: Bytes)
    ensures var all := [p] + len + data + rest;
      && |all| == 1 + |len| + |data| + |rest| && all[0] == p
      && all[1..1 + |len|] == len
      && all[1 + |len|..1 + |len| + |data|] == data
      && all[1 + |len| + |data|..] == rest
  {
  }

  /** An encoded field followed by anything decodes to its payload, leaving the rest. */
  lemma FieldDecodes(f: Field, rest: Bytes)
    requires |Payload(f)| < TWO64 && |Enc(f)| + |rest| <= MAX_INT
    ensures DecodeItem(Enc(f) + rest) == Ok(Item(Payload(f), rest))
    ensures |Enc(f)| > 0
  {
    var b := Payload(f);
    if !f.Lst? && |b| == 1 && b[0] < 0x80 {
      assert Enc(f) + rest == b + rest && (b + rest)[..1] == b && (b + rest)[1..] == rest;
    } else {
      PrefixedDecodes(b, if f.Lst? then 0xC0 else 0x80, rest);
    }
  }

  lemma {:induction false} FieldsDecode(fs: seq<Field>)
    requires Fit(fs) && |Flatten(fs)| <= MAX_INT
    ensures Items(Flatten(fs)) == Ok(Payloads(fs))
  {
    if fs != [] {
      FieldDecodes(fs[0], Flatten(fs[1..]));
      FieldsDecode(fs[1..]);
    }
  }

  lemma ListDecodes(fs: seq<Field>)
    requires Fit(fs) && |Flatten(fs)| < TWO64 && |EncPrefix(Flatten(fs), 0xC0)| <= MAX_INT
    ensures DecodeItem(EncPrefix(Flatten(fs), 0xC0)) == Ok(Item(Flatten(fs), []))
    ensures Items(Flatten(fs)) == Ok(Payloads(fs))
  {
    var payload := Flatten(fs);
    PrefixedDecodes(payload, 0xC0, []);
    assert EncPrefix(payload, 0xC0) + [] == EncPrefix(payload, 0xC0);
    assert |payload| <= |EncPrefix(payload, 0xC0)|;
    FieldsDecode(fs);
  }

  lemma {:induction false} EnvelopeDecodes(t: Byte, fs: seq<Field>)
    requires Encodable(t, fs)
    ensures DecodeTx(Envelope(t, fs)) == Build(if Typed(t) then t else 0, Payloads(fs))
  {
    ListDecodes(fs);
    BodyDecodes(t, EncPrefix(Flatten(fs), 0xC0), Flatten(fs), Payloads(fs));
  }

  lemma {:induction false} BodyDecodes(t: Byte, body: Bytes, payload: Bytes, items: seq<Bytes>)
    requires body != [] && body[0] >= 0xC0
    requires DecodeItem(body) == Ok(Item(payload, [])) && Items(payload) == Ok(items)
    ensures DecodeTx((if Typed(t) then [t] else []) + body) == Build(if Typed(t) then t else 0, items)
  {
    if Typed(t) {
      assert ([t] + body)[1..] == body;
    } else {
      assert [] + body == body;
    }
  }

  lemma {:induction false} NumberReads(n: U64)
    ensures Uint(MinBE(n)) == n
  {
    MinBERoundTrip(n);
  }

  lemma PayloadsOf9(fs: seq<Field>)
    requires |fs| == 9
    ensures Payloads(fs) == [Payload(fs[0]), Payload(fs[1]), Payload(fs[2]), Payload(fs[3]), Payload(fs[4]),
                             Payload(fs[5]), Payload(fs[6]), Payload(fs[7]), Payload(fs[8])]
  {
    PayloadsSplit(fs[..3], fs[3..]);
    PayloadsSplit(fs[3..6], fs[6..]);
    assert fs == fs[..3] + fs[3..] && fs[3..] == fs[3..6] + fs[6..];
    PayloadsOf3(fs[..3]);
    PayloadsOf3(fs[3..6]);
    PayloadsOf3(fs[6..]);
  }

  lemma PayloadsOf3(fs: seq<Field>)
    requires |fs| == 3
    ensures Payloads(fs) == [Payload(fs[0]), Payload(fs[1]), Payload(fs[2])]
  {
    assert fs[1..][1..] == fs[2..] && fs[2..][1..] == [];
    assert Payloads(fs[2..]) == [Payload(fs[2])] + Payloads([]);
    assert Payloads(fs[1..]) == [Payload(fs[1])] + Payloads(fs[2..]);
  }

  lemma {:induction false} PayloadsSplit(a: seq<Field>, b: seq<Field>)
    ensures Payloads(a + b) == Payloads(a) + Payloads(b)
  {
    if a == [] {
      assert a + b == b;
    } else {
      assert (a + b)[1..] == a[1..] + b;
      PayloadsSplit(a[1..], b);
    }
  }

  lemma PayloadsOf12(fs: seq<Field>)
    requires |fs| == 12
    ensures Payloads(fs) == [Payload(fs[0]), Payload(fs[1]), Payload(fs[2]), Payload(fs[3]), Payload(fs[4]),
                             Payload(fs[5]), Payload(fs[6]), Payload(fs[7]), Payload(fs[8]),
                             Payload(fs[9]), Payload(fs[10]), Payload(fs[11])]
  {
    assert fs == fs[..9] + fs[9..];
    PayloadsSplit(fs[..9], fs[9..]);
    PayloadsOf9(fs[..9]);
    PayloadsOf3(fs[9..]);
  }

  /** What the wire keeps of a transaction. */
  function Received(tx: RLPTx): RLPTx {
    if Typed(tx.txType) then tx.(v := if tx.v >= 27 then tx.v - 27 else tx.v)
    else
      tx.(v := ParityOf(WireV(tx)), chainId := ChainOf(WireV(tx)), txType := 0, maxPriorityFee := 0,
          accessListRaw := [])
  }

  lemma DecodesToReceived(tx: RLPTx)
    requires Encodable(tx.txType, TxFields(tx))
    ensures DecodeTx(TxBytes(tx)) == Ok(Received(tx))
  {
    EnvelopeDecodes(tx.txType, TxFields(tx));
    if Typed(tx.txType) {
      TypedReads(tx);
    } else {
      LegacyReads(tx);
    }
  }

  lemma TypedPayloads(tx: RLPTx)
    requires Typed(tx.txType)
    ensures Payloads(TxFields(tx)) ==
            [MinBE(tx.chainId), MinBE(tx.nonce), MinBE(tx.maxPriorityFee), MinBE(tx.gasPrice), MinBE(tx.gasLimit),
             tx.to, MinBE(tx.value), tx.data, tx.accessListRaw, MinBE(tx.v), tx.r, tx.s]
  {
    PayloadsOf12(TxFields(tx));
  }

  lemma TypedReads(tx: RLPTx)
    requires Typed(tx.txType)
    ensures Build(tx.txType, Payloads(TxFields(tx))) == Ok(Received(tx))
  {
    hide Uint, MinBE, TxFields, Payloads;
    TypedPayloads(tx);
    PricesRead(tx);
    NumberReads(tx.chainId);
    NumberReads(tx.maxPriorityFee);
    NumberReads(tx.v);
  }

  lemma PricesRead(tx: RLPTx)
    ensures Uint(MinBE(tx.nonce)) == tx.nonce && Uint(MinBE(tx.gasPrice)) == tx.gasPrice
    ensures Uint(MinBE(tx.gasLimit)) == tx.gasLimit && Uint(MinBE(tx.value)) == tx.value
  {
    NumberReads(tx.nonce);
    NumberReads(tx.gasPrice);
    NumberReads(tx.gasLimit);
    NumberReads(tx.value);
  }

  lemma LegacyReads(tx: RLPTx)
    requires !Typed(tx.txType)
    ensures Build(0, Payloads(TxFields(tx))) == Ok(Received(tx))
  {
    hide Uint, MinBE, WireV, ChainOf, ParityOf;
    PayloadsOf9(TxFields(tx));
    NumberReads(tx.nonce);
    NumberReads(tx.gasPrice);
    NumberReads(tx.gasLimit);
    NumberReads(tx.value);
    NumberReads(WireV(tx));
  }

  /** The transactions the wire form can represent: a recovery parity below the value it is shifted
      by, and, for legacy transactions, no fields the legacy form lacks. */
  predicate Canonical(tx: RLPTx) {
    if Typed(tx.txType) then tx.v < 27
    else
      && tx.txType == 0 && tx.maxPriorityFee == 0 && tx.accessListRaw == []
      && (if tx.chainId == 0 then tx.v < 27 else tx.v <= 1 && 2 * tx.chainId + 35 + tx.v <= MAX64)
  }

  /** A legacy `v` gives back the chain and the parity it was made from exactly under `Canonical`'s
      condition on them, the wrapped sums included. */
  lemma WireVIff(tx: RLPTx)
    ensures ChainOf(WireV(tx)) == tx.chainId && ParityOf(WireV(tx)) == tx.v
       <==> if tx.chainId == 0 then tx.v < 27 else tx.v <= 1 && 2 * tx.chainId + 35 + tx.v <= MAX64
  {
  }

  /** Round trip, exactly: decoding the bytes `TxHash` hashes returns the transaction if and only if
      it is canonical. Parity 0 or 1 with 2 * chainId + 36 below 2^64 always is. */
  lemma {:induction false} TransactionRoundTrip(tx: RLPTx)
    requires Encodable(tx.txType, TxFields(tx))
    ensures DecodeTx(TxBytes(tx)) == Ok(tx) <==> Canonical(tx)
  {
    hide DecodeTx, TxBytes, Encodable, TxFields, WireV, ChainOf, ParityOf;
    DecodesToReceived(tx);
    WireVIff(tx);
  }

  lemma ParityTransactionsAreCanonical(tx: RLPTx)
    requires tx.txType <= 2 && tx.v <= 1 && 2 * tx.chainId + 36 < TWO64
    requires tx.txType == 0 ==> tx.maxPriorityFee == 0 && tx.accessListRaw == []
    ensures Canonical(tx)
  {
  }

  /** The encoding is uniquely decodable: canonical transactions with the same bytes are the same. */
  lemma TransactionBytesUnique(a: RLPTx, b: RLPTx)
    requires Encodable(a.txType, TxFields(a)) && Encodable(b.txType, TxFields(b)) && Canonical(a) && Canonical(b)
    requires TxBytes(a) == TxBytes(b)
    ensures a == b
  {
    TransactionRoundTrip(a);
    TransactionRoundTrip(b);
  }

  lemma {:induction false} EnvelopeBinds(t: Byte, fs: seq<Field>, u: Byte, gs: seq<Field>)
    requires Encodable(t, fs) && Encodable(u, gs) && Envelope(t, fs) == Envelope(u, gs)
    ensures Typed(t) == Typed(u) && (Typed(t) ==> t == u)
    ensures Payloads(fs) == Payloads(gs)
  {
    SplitEnvelope(t, EncPrefix(Flatten(fs), 0xC0), u, EncPrefix(Flatten(gs), 0xC0));
    ListBinds(fs, gs);
  }

  lemma SplitEnvelope(t: Byte, x: Bytes, u: Byte, y: Bytes)
    requires x != [] && y != [] && x[0] >= 0xC0 && y[0] >= 0xC0
    requires (if Typed(t) then [t] else []) + x == (if Typed(u) then [u] else []) + y
    ensures Typed(t) == Typed(u) && (Typed(t) ==> t == u) && x == y
  {
    var a: Bytes, b: Bytes := if Typed(t) then [t] else [], if Typed(u) then [u] else [];
    assert (a + x)[0] == (if Typed(t) then t else x[0]);
    assert (b + y)[0] == (if Typed(u) then u else y[0]);
    assert (a + x)[|a|..] == x && (b + y)[|b|..] == y;
  }

  lemma ListBinds(fs: seq<Field>, gs: seq<Field>)
    requires Fit(fs) && Fit(gs) && |Flatten(fs)| < TWO64 && |Flatten(gs)| < TWO64
    requires EncPrefix(Flatten(fs), 0xC0) == EncPrefix(Flatten(gs), 0xC0)
    requires |EncPrefix(Flatten(fs), 0xC0)| <= MAX_INT
    ensures Payloads(fs) == Payloads(gs)
  {
    ListDecodes(fs);
    ListDecodes(gs);
  }

  /** What a signature over `SigningHash`'s pre-image commits to. */
  ghost predicate SameSigned(a: RLPTx, b: RLPTx) {
    && Typed(a.txType) == Typed(b.txType)
    && a.nonce == b.nonce && a.gasPrice == b.gasPrice && a.gasLimit == b.gasLimit && a.to == b.to
    && a.value == b.value && a.data == b.data && a.chainId == b.chainId
    && (Typed(a.txType) ==>
        a.txType == b.txType && a.maxPriorityFee == b.maxPriorityFee && a.accessListRaw == b.accessListRaw)
  }

  /** Equal signing pre-images mean equal type and equal signed fields, and conversely. */
  lemma SigningBytesBind(a: RLPTx, b: RLPTx)
    requires Encodable(a.txType, SigningFields(a)) && Encodable(b.txType, SigningFields(b))
    ensures SigningBytes(a) == SigningBytes(b) <==> SameSigned(a, b)
  {
    hide MinBE, Fit, Flatten;
    if SigningBytes(a) == SigningBytes(b) {
      EnvelopeBinds(a.txType, SigningFields(a), b.txType, SigningFields(b));
      PayloadsOf9(SigningFields(a));
      PayloadsOf9(SigningFields(b));
      SameNumber(a.nonce, b.nonce);
      SameNumber(a.gasPrice, b.gasPrice);
      SameNumber(a.gasLimit, b.gasLimit);
      SameNumber(a.value, b.value);
      SameNumber(a.chainId, b.chainId);
      SameNumber(a.maxPriorityFee, b.maxPriorityFee);
    }
  }

  lemma SameNumber(x: U64, y: U64)
    ensures MinBE(x) == MinBE(y) ==> x == y
  {
    MinBERoundTrip(x);
    MinBERoundTrip(y);
  }

  // ---------------------------------------------------------------- the loops

  /** Appending a byte to a length held in an `int`, as the decoder's shift does. */
  lemma ShiftIn(x: int, b: Byte)
    ensures ToInt(ToInt(x) * 256 + b) == ToInt(x * 256 + b)
  {
    var q := (x - ToInt(x)) / 0x1_0000_0000_0000_0000;
    assert x == (x / 0x1_0000_0000_0000_0000) * 0x1_0000_0000_0000_0000 + Wrap(x);
    assert x == ToInt(x) + q * 0x1_0000_0000_0000_0000;
    ShiftedRemainder(ToInt(x) * 256 + b, q * 256, 0x1_0000_0000_0000_0000);
  }

  method ReadLength(data: Bytes, lenLen: nat) returns (length: int)
    requires |data| >= 1 + lenLen
    ensures length == ToInt(FromBE(data[1..1 + lenLen]))
  {
    length := 0;
    for i := 0 to lenLen
      invariant length == ToInt(FromBE(data[1..1 + i]))
    {
      ShiftIn(FromBE(data[1..1 + i]), data[1 + i]);
      assert data[1..1 + (i + 1)][..i] == data[1..1 + i];
      length := ToInt(length * 256 + data[1 + i]);
    }
  }

  method DecodeLong(data: Bytes, lenLen: nat) returns (r: Outcome<Item>)
    requires data != []
    ensures r == Long(data, lenLen)
  {
    if |data| < 1 + lenLen {
      return Err;
    }
    var length := ReadLength(data, lenLen);
    var end := ToInt(1 + lenLen + length);
    if |data| < end {
      return Err;
    }
    if end < 1 + lenLen {
      return Panic;
    }
    return Ok(Item(data[1 + lenLen..end], data[end..]));
  }

  method DecodeRLPItem(data: Bytes) returns (r: Outcome<Item>)
    ensures r == DecodeItem(data)
  {
    if |data| == 0 {
      return Err;
    }
    var prefix := data[0];
    if prefix < 0x80 {
      return Ok(Item(data[0..1], data[1..]));
    }
    if prefix <= 0xB7 || 0xBF < prefix <= 0xF7 {
      var length := if prefix <= 0xB7 then prefix - 0x80 else prefix - 0xC0;
      if |data| < 1 + length {
        return Err;
      }
      return Ok(Item(data[1..1 + length], data[1 + length..]));
    }
    r := DecodeLong(data, if prefix <= 0xBF then prefix - 0xB7 else prefix - 0xF7);
  }

  method DecodeRLPBigInt(data: Bytes) returns (val: U64)
    ensures val == Uint(data)
  {
    val := 0;
    for i := 0 to |data|
      invariant val == Uint(data[..i])
    {
      var x := FromBE(data[..i]);
      assert data[..i + 1][..i] == data[..i];
      WrapShifts(x, data[i]);
      val := Wrap(val * 256 + data[i]);
    }
    assert data[..|data|] == data;
  }

  function After(items: seq<Bytes>, rest: Outcome<seq<Bytes>>): Outcome<seq<Bytes>> {
    match rest
    case Ok(more) => Ok(items + more)
    case Err => Err
    case Panic => Panic
  }

  method DecodeRLPTransaction(raw: Bytes) returns (r: Outcome<RLPTx>)
    ensures r == DecodeTx(raw)
  {
    var txType: Byte := 0;
    var body := raw;
    if |raw| > 0 && 1 <= raw[0] <= 2 {
      txType := raw[0];
      body := raw[1..];
    }
    var list := DecodeRLPItem(body);
    if !list.Ok? {
      return if list.Err? then Err else Panic;
    }
    if |list.value.rest| > 0 {
      return Err;
    }
    var items: seq<Bytes>, listData := [], list.value.payload;
    AfterNone(Items(listData));
    while |listData| > 0
      invariant Items(list.value.payload) == After(items, Items(listData))
      decreases |listData|
    {
      var item := DecodeRLPItem(listData);
      ItemShrinks(listData);
      if !item.Ok? {
        return if item.Err? then Err else Panic;
      }
      ghost var before, data := items, listData;
      items, listData := items + [item.value.payload], item.value.rest;
      AfterOne(before, item.value.payload, Items(listData));
    }
    assert items + [] == items;
    return Build(txType, items);
  }

  lemma AfterNone(rest: Outcome<seq<Bytes>>)
    ensures After([], rest) == rest
  {
    if rest.Ok? {
      assert [] + rest.value == rest.value;
    }
  }

  lemma AfterOne(items: seq<Bytes>, item: Bytes, rest: Outcome<seq<Bytes>>)
    ensures After(items, After([item], rest)) == After(items + [item], rest)
  {
    if rest.Ok? {
      assert items + ([item] + rest.value) == items + [item] + rest.value;
    }
  }

  /** The index of the first byte that is not zero. */
  method FirstSet(buf: Bytes) returns (n: nat)
    ensures n <= |buf| && (forall i :: 0 <= i < n ==> buf[i] == 0) && (n < |buf| ==> buf[n] != 0)
  {
    n := 0;
    while n < |buf| && buf[n] == 0
      invariant n <= |buf| && forall i :: 0 <= i < n ==> buf[i] == 0
    {
      n := n + 1;
    }
  }

  /** Dropping the leading zeros of the eight-byte form leaves the shortest form. */
  lemma StrippedIsShortest(val: U64, n: nat)
    requires 0 < val && n <= 8 && (forall i :: 0 <= i < n ==> FixedBE(val, 8)[i] == 0)
    requires n < 8 ==> FixedBE(val, 8)[n] != 0
    ensures FixedBE(val, 8)[n..] == MinBE(val)
  {
    Pow256Of8();
    FixedIsPadded(val, 8);
    MinBENoLeadingZero(val);
    var pad := 8 - |MinBE(val)|;
    assert FixedBE(val, 8)[pad] == MinBE(val)[0];
    assert forall i :: 0 <= i < pad ==> FixedBE(val, 8)[i] == Zeros(pad)[i];
  }

  method RlpEncodeWithPrefix(data: Bytes, base: Byte) returns (r: Bytes)
    requires base == 0x80 || base == 0xC0
    requires |data| < 0x1_0000_0000_0000_0000
    ensures r == EncPrefix(data, base)
  {
    if |data| == 0 {
      return [base];
    }
    if |data| <= 55 {
      return [base + |data|] + data;
    }
    var lenBytes := FixedBE(|data|, 8);
    var n := FirstSet(lenBytes);
    StrippedIsShortest(|data|, n);
    LengthBytes(|data|);
    var lenPrefix := lenBytes[n..];
    return [base + 55 + |lenPrefix|] + lenPrefix + data;
  }

  method RlpEncodeBytes(data: Bytes) returns (r: Bytes)
    requires |data| < 0x1_0000_0000_0000_0000
    ensures r == EncBytes(data)
  {
    if |data| == 0 {
      return [0x80];
    }
    if |data| == 1 && data[0] < 0x80 {
      return data;
    }
    r := RlpEncodeWithPrefix(data, 0x80);
  }

  method RlpEncodeUint64(val: U64) returns (r: Bytes)
    ensures r == EncUint(val)
  {
    LengthBytes(val);
    if val == 0 {
      return [0x80];
    }
    var buf := FixedBE(val, 8);
    var n := FirstSet(buf);
    StrippedIsShortest(val, n);
    var data := buf[n..];
    if |data| == 1 && data[0] < 0x80 {
      return data;
    }
    r := RlpEncodeWithPrefix(data, 0x80);
  }

  function Concat(items: seq<Bytes>): Bytes {
    if items == [] then [] else Concat(items[..|items| - 1]) + items[|items| - 1]
  }

  method RlpEncodeList(items: seq<Bytes>) returns (r: Bytes)
    requires |Concat(items)| < 0x1_0000_0000_0000_0000
    ensures r == EncPrefix(Concat(items), 0xC0)
  {
    var payload: Bytes := [];
    for i := 0 to |items|
      invariant payload == Concat(items[..i])
    {
      assert items[..i + 1][..i] == items[..i];
      payload := payload + items[i];
    }
    assert items[..|items|] == items;
    r := RlpEncodeWithPrefix(payload, 0xC0);
  }

  function Encodings(fs: seq<Field>): (r: seq<Bytes>)
    requires Fit(fs)
    ensures |r| == |fs| && forall i :: 0 <= i < |fs| ==> r[i] == Enc(fs[i])
  {
    if fs == [] then [] else [Enc(fs[0])] + Encodings(fs[1..])
  }

  lemma {:induction false} ConcatFirst(item: Bytes, items: seq<Bytes>)
    ensures Concat([item] + items) == item + Concat(items)
  {
    var all := [item] + items;
    if items == [] {
      assert Concat(all) == Concat([]) + item;
    } else {
      var init := items[..|items| - 1];
      assert all[..|all| - 1] == [item] + init;
      ConcatFirst(item, init);
    }
  }

  lemma {:induction false} ConcatIsFlatten(fs: seq<Field>)
    requires Fit(fs)
    ensures Concat(Encodings(fs)) == Flatten(fs)
  {
    if fs != [] {
      ConcatFirst(Enc(fs[0]), Encodings(fs[1..]));
      ConcatIsFlatten(fs[1..]);
    }
  }

  /** `encodeAccessList`. */
  method EncodeAccessList(tx: RLPTx) returns (r: Bytes)
    requires |tx.accessListRaw| < 0x1_0000_0000_0000_0000
    ensures r == EncPrefix(tx.accessListRaw, 0xC0)
  {
    if |tx.accessListRaw| == 0 {
      r := RlpEncodeList([]);
    } else {
      r := RlpEncodeWithPrefix(tx.accessListRaw, 0xC0);
    }
  }

  lemma EncodedList(fs: seq<Field>, items: seq<Bytes>)
    requires Fit(fs) && |items| == |fs| && forall i :: 0 <= i < |fs| ==> items[i] == Enc(fs[i])
    ensures Concat(items) == Flatten(fs)
  {
    assert items == Encodings(fs);
    ConcatIsFlatten(fs);
  }

  /** The list members that both forms of every transaction share, in their order on the wire. */
  method EncodeAmounts(tx: RLPTx) returns (nonce: Bytes, gasPrice: Bytes, gasLimit: Bytes, to: Bytes, value: Bytes,
                                           data: Bytes)
    requires |tx.to| < 0x1_0000_0000_0000_0000 && |tx.data| < 0x1_0000_0000_0000_0000
    ensures nonce == EncUint(tx.nonce) && gasPrice == EncUint(tx.gasPrice) && gasLimit == EncUint(tx.gasLimit)
    ensures to == EncBytes(tx.to) && value == EncUint(tx.value) && data == EncBytes(tx.data)
  {
    nonce := RlpEncodeUint64(tx.nonce);
    gasPrice := RlpEncodeUint64(tx.gasPrice);
    gasLimit := RlpEncodeUint64(tx.gasLimit);
    to := RlpEncodeBytes(tx.to);
    value := RlpEncodeUint64(tx.value);
    data := RlpEncodeBytes(tx.data);
  }

  /** The slices of a transaction are short enough to encode. */
  ghost predicate SlicesFit(tx: RLPTx) {
    |tx.to| < TWO64 && |tx.data| < TWO64 && |tx.r| < TWO64 && |tx.s| < TWO64 && |tx.accessListRaw| < TWO64
  }

  function SigningItems(tx: RLPTx): seq<Bytes>
    requires SlicesFit(tx)
  {
    if Typed(tx.txType) then
      [EncUint(tx.chainId), EncUint(tx.nonce), EncUint(tx.maxPriorityFee), EncUint(tx.gasPrice), EncUint(tx.gasLimit),
       EncBytes(tx.to), EncUint(tx.value), EncBytes(tx.data), EncPrefix(tx.accessListRaw, 0xC0)]
    else
      [EncUint(tx.nonce), EncUint(tx.gasPrice), EncUint(tx.gasLimit), EncBytes(tx.to), EncUint(tx.value),
       EncBytes(tx.data), EncUint(tx.chainId), EncUint(0), EncUint(0)]
  }

  function TxItems(tx: RLPTx): seq<Bytes>
    requires SlicesFit(tx)
  {
    if Typed(tx.txType) then
      SigningItems(tx) + [EncUint(tx.v), EncBytes(tx.r), EncBytes(tx.s)]
    else
      SigningItems(tx)[..6] + [EncUint(WireV(tx)), EncBytes(tx.r), EncBytes(tx.s)]
  }

  lemma SigningItemsFlatten(tx: RLPTx)
    requires SlicesFit(tx) && Fit(SigningFields(tx))
    ensures Concat(SigningItems(tx)) == Flatten(SigningFields(tx))
  {
    hide EncBytes, EncUint, EncPrefix, MinBE, Flatten, Concat;
    EncodedList(SigningFields(tx), SigningItems(tx));
  }

  lemma TxItemsFlatten(tx: RLPTx)
    requires SlicesFit(tx) && Fit(TxFields(tx))
    ensures Concat(TxItems(tx)) == Flatten(TxFields(tx))
  {
    hide EncBytes, EncUint, EncPrefix, MinBE, Flatten, Concat, WireV;
    EncodedList(TxFields(tx), TxItems(tx));
  }

  /** The members of the list that `SigningHash` encodes. */
  method EncodeSigned(tx: RLPTx) returns (items: seq<Bytes>)
    requires SlicesFit(tx)
    ensures items == SigningItems(tx)
  {
    var nonce, gasPrice, gasLimit, to, value, data := EncodeAmounts(tx);
    var chainId := RlpEncodeUint64(tx.chainId);
    if tx.txType == 2 || tx.txType == 1 {
      var priorityFee := RlpEncodeUint64(tx.maxPriorityFee);
      var accessList := EncodeAccessList(tx);
      items := [chainId, nonce, priorityFee, gasPrice, gasLimit, to, value, data, accessList];
    } else {
      var zero := RlpEncodeUint64(0);
      items := [nonce, gasPrice, gasLimit, to, value, data, chainId, zero, zero];
    }
  }

  /** The bytes `SigningHash` hands to the hash function. */
  method SigningPreimage(tx: RLPTx) returns (buf: Bytes)
    requires SlicesFit(tx) && Encodable(tx.txType, SigningFields(tx))
    ensures buf == SigningBytes(tx)
  {
    SigningItemsFlatten(tx);
    var items := EncodeSigned(tx);
    buf := RlpEncodeList(items);
    if tx.txType == 2 || tx.txType == 1 {
      buf := [tx.txType] + buf;
    }
  }

  /** The bytes `TxHash` hands to the hash function. */
  method TxPreimage(tx: RLPTx) returns (buf: Bytes)
    requires SlicesFit(tx) && Encodable(tx.txType, TxFields(tx))
    ensures buf == TxBytes(tx)
  {
    TxItemsFlatten(tx);
    var items := EncodeSigned(tx);
    var r := RlpEncodeBytes(tx.r);
    var s := RlpEncodeBytes(tx.s);
    if tx.txType == 2 || tx.txType == 1 {
      var v := RlpEncodeUint64(tx.v);
      buf := RlpEncodeList(items + [v, r, s]);
      buf := [tx.txType] + buf;
    } else {
      var vVal: U64 := tx.v;
      if tx.chainId > 0 {
        vVal := Wrap(tx.chainId * 2 + 35 + tx.v);
      }
      var v := RlpEncodeUint64(vVal);
      buf := RlpEncodeList(items[..6] + [v, r, s]);
    }
  }
}
