/** The wire form of a quorum certificate: `QC.Encode` and `DecodeQC` as printer and parser. */
module QcCodec {
  import opened Words

  datatype Sig = Sig(r: nat, s: nat)

  datatype QC = QC(height: U64, view: U64, phase: Byte, blockHash: Bytes, signatures: map<Bytes, Sig>,
                   addrs: seq<Bytes>)

  datatype Entry = Entry(addr: Bytes, sig: Sig)

  const MAX_ADDR_COUNT := 1000
  const MAX_HASH_LEN := 64
  const MAX_SIG_LEN := 66
  const MAX_ADDR_STR := 128

  // ---------------------------------------------------------------- printing

  /** A byte string behind its two-byte length; longer ones lose the high bits of the length. */
  function Sized(bs: Bytes): Bytes {
    FixedBE(|bs|, 2) + bs
  }

  function EncodeSig(sig: Sig): Bytes {
    Sized(MinBE(sig.r)) + Sized(MinBE(sig.s))
  }

  /** An address without a signature is written without one. */
  function EncodeSigner(addr: Bytes, signatures: map<Bytes, Sig>): Bytes {
    Sized(addr) + if addr in signatures then EncodeSig(signatures[addr]) else []
  }

  function EncodeSigners(addrs: seq<Bytes>, signatures: map<Bytes, Sig>): Bytes {
    if addrs == [] then [] else EncodeSigner(addrs[0], signatures) + EncodeSigners(addrs[1..], signatures)
  }

  function Header(qc: QC): Bytes {
    FixedBE(qc.height, 8) + (FixedBE(qc.view, 8) + ([qc.phase] + (Sized(qc.blockHash) + FixedBE(|qc.addrs|, 4))))
  }

  function Encode(qc: QC): Bytes {
    Header(qc) + EncodeSigners(qc.addrs, qc.signatures)
  }

  // ---------------------------------------------------------------- parsing

  datatype Parsed<+T> = Got(value: T, rest: Bytes) | Fail

  /** `binary.Read` of a `k`-byte number: all of it, or an error. */
  function Number(k: nat, buf: Bytes): Parsed<nat> {
    if |buf| < k then Fail else Got(FromBE(buf[..k]), buf[k..])
  }

  /** `bytes.Reader.Read` into `n` fresh bytes: an error at the end of the data even when `n` is zero,
      and otherwise what there is, the bytes beyond it staying zero. */
  function Chunk(n: nat, buf: Bytes): Parsed<Bytes> {
    if buf == [] then Fail
    else if |buf| < n then Got(buf + Zeros(n - |buf|), [])
    else Got(buf[..n], buf[n..])
  }

  /** A two-byte length, checked against its limit, and that many bytes. */
  function SizedChunk(limit: nat, buf: Bytes): Parsed<Bytes> {
    match Number(2, buf)
    case Fail => Fail
    case Got(n, rest) => if n > limit then Fail else Chunk(n, rest)
  }

  function ParseEntry(buf: Bytes): Parsed<Entry> {
    match SizedChunk(MAX_ADDR_STR, buf)
    case Fail => Fail
    case Got(addr, rest0) =>
      match SizedChunk(MAX_SIG_LEN, rest0)
      case Fail => Fail
      case Got(r, rest1) =>
        match SizedChunk(MAX_SIG_LEN, rest1)
        case Fail => Fail
        case Got(s, rest2) => Got(Entry(addr, Sig(FromBE(r), FromBE(s))), rest2)
  }

  /** `n` values one after the other; what follows the last one is ignored. */
  function Many<T>(parse: Bytes -> Parsed<T>, n: nat, buf: Bytes): Option<seq<T>> {
    if n == 0 then Some([])
    else
      match parse(buf)
      case Fail => None
      case Got(e, rest) =>
        match Many(parse, n - 1, rest)
        case None => None
        case Some(es) => Some([e] + es)
  }

  function AddrsOf(es: seq<Entry>): seq<Bytes> {
    if es == [] then [] else AddrsOf(es[..|es| - 1]) + [es[|es| - 1].addr]
  }

  /** The signature map the entries build: for a repeated address the last one stays. */
  function SigsOf(es: seq<Entry>): map<Bytes, Sig> {
    if es == [] then map[] else SigsOf(es[..|es| - 1])[es[|es| - 1].addr := es[|es| - 1].sig]
  }

  datatype Heading = Heading(height: U64, view: U64, phase: Byte, blockHash: Bytes, count: nat)

  lemma SmallNumber(k: nat, buf: Bytes)
    ensures Number(k, buf).Got? ==> Number(k, buf).value < Pow256(k)
  {
    if |buf| >= k {
      FromBEBound(buf[..k]);
    }
  }

  function ParseHeading(data: Bytes): Parsed<Heading> {
    Pow256Of8();
    match Number(8, data)
    case Fail => Fail
    case Got(height, rest0) =>
      SmallNumber(8, data);
      match Number(8, rest0)
      case Fail => Fail
      case Got(view, rest1) =>
        SmallNumber(8, rest0);
        match Number(1, rest1)
        case Fail => Fail
        case Got(phase, rest2) =>
          SmallNumber(1, rest1);
          match SizedChunk(MAX_HASH_LEN, rest2)
          case Fail => Fail
          case Got(hash, rest3) =>
            match Number(4, rest3)
            case Fail => Fail
            case Got(count, rest4) =>
              if count > MAX_ADDR_COUNT then Fail else Got(Heading(height, view, phase, hash, count), rest4)
  }

  function Assemble(h: Heading, es: seq<Entry>): QC {
    QC(h.height, h.view, h.phase, h.blockHash, SigsOf(es), AddrsOf(es))
  }

  /** `DecodeQC`. */
  function Decode(data: Bytes): Option<QC> {
    match ParseHeading(data)
    case Fail => None
    case Got(h, rest) =>
      match Many(ParseEntry, h.count, rest)
      case None => None
      case Some(es) => Some(Assemble(h, es))
  }

  // ---------------------------------------------------------------- what parsing undoes

  lemma NumberUndone(n: nat, k: nat, rest: Bytes)
    requires n < Pow256(k)
    ensures Number(k, FixedBE(n, k) + rest) == Got(n, rest)
  {
    FixedBERoundTrip(n, k);
    assert (FixedBE(n, k) + rest)[..k] == FixedBE(n, k);
    assert (FixedBE(n, k) + rest)[k..] == rest;
  }

  lemma SizedUndone(bs: Bytes, limit: nat, rest: Bytes)
    requires |bs| <= limit < 65536
    ensures SizedChunk(limit, Sized(bs) + rest) == if bs + rest == [] then Fail else Got(bs, rest)
  {
    assert Pow256(2) == 65536;
    NumberUndone(|bs|, 2, bs + rest);
    assert Sized(bs) + rest == FixedBE(|bs|, 2) + (bs + rest);
    assert (bs + rest)[..|bs|] == bs && (bs + rest)[|bs|..] == rest;
  }

  function EncodeEntry(e: Entry): Bytes {
    Sized(e.addr) + EncodeSig(e.sig)
  }

  function EncodeEntries(es: seq<Entry>): Bytes {
    if es == [] then [] else EncodeEntry(es[0]) + EncodeEntries(es[1..])
  }

  predicate EntryFits(e: Entry) {
    |e.addr| <= MAX_ADDR_STR && |MinBE(e.sig.r)| <= MAX_SIG_LEN && |MinBE(e.sig.s)| <= MAX_SIG_LEN
  }

  /** An entry is read back, unless its S is zero and nothing follows. */
  lemma EntryUndone(e: Entry, rest: Bytes)
    requires EntryFits(e)
    ensures ParseEntry(EncodeEntry(e) + rest) == if e.sig.s == 0 && rest == [] then Fail else Got(e, rest)
  {
    var r, s := MinBE(e.sig.r), MinBE(e.sig.s);
    var tail1 := Sized(s) + rest;
    var tail0 := Sized(r) + tail1;
    assert EncodeEntry(e) + rest == Sized(e.addr) + tail0;
    assert |tail0| >= 2 && |tail1| >= 2;
    SizedUndone(e.addr, MAX_ADDR_STR, tail0);
    SizedUndone(r, MAX_SIG_LEN, tail1);
    SizedUndone(s, MAX_SIG_LEN, rest);
    MinBERoundTrip(e.sig.r);
    MinBERoundTrip(e.sig.s);
    if s == [] {
      assert s + rest == rest;
    }
  }

  lemma EncodingsAreNotEmpty(es: seq<Entry>)
    requires es != []
    ensures EncodeEntries(es) != []
  {
    assert |EncodeEntry(es[0])| >= 2;
  }

  lemma {:induction false} EntriesUndone(es: seq<Entry>)
    requires forall e :: e in es ==> EntryFits(e)
    ensures Many(ParseEntry, |es|, EncodeEntries(es))
         == if es != [] && es[|es| - 1].sig.s == 0 then None else Some(es)
  {
    hide ParseEntry, EncodeEntry, EntryFits;
    if es != [] {
      var rest := EncodeEntries(es[1..]);
      EntryUndone(es[0], rest);
      EntriesUndone(es[1..]);
      if |es| > 1 {
        EncodingsAreNotEmpty(es[1..]);
      }
      assert es == [es[0]] + es[1..];
    }
  }

  function EntriesOf(addrs: seq<Bytes>, signatures: map<Bytes, Sig>): (es: seq<Entry>)
    requires forall a :: a in addrs ==> a in signatures
    ensures |es| == |addrs| && forall i :: 0 <= i < |addrs| ==> es[i] == Entry(addrs[i], signatures[addrs[i]])
  {
    if addrs == [] then [] else [Entry(addrs[0], signatures[addrs[0]])] + EntriesOf(addrs[1..], signatures)
  }

  lemma {:induction false} SignersAreEntries(addrs: seq<Bytes>, signatures: map<Bytes, Sig>)
    requires forall a :: a in addrs ==> a in signatures
    ensures EncodeSigners(addrs, signatures) == EncodeEntries(EntriesOf(addrs, signatures))
  {
    if addrs != [] {
      SignersAreEntries(addrs[1..], signatures);
    }
  }

  lemma {:induction false} AddressesCollect(es: seq<Entry>)
    ensures |AddrsOf(es)| == |es| && forall i :: 0 <= i < |es| ==> AddrsOf(es)[i] == es[i].addr
  {
    if es != [] {
      AddressesCollect(es[..|es| - 1]);
    }
  }

  /** The map holds exactly the listed addresses. */
  lemma {:induction false} KeysCollect(es: seq<Entry>, a: Bytes)
    ensures a in SigsOf(es) <==> a in AddrsOf(es)
  {
    if es != [] {
      KeysCollect(es[..|es| - 1], a);
    }
  }

  lemma {:induction false} SignaturesCollect(es: seq<Entry>, a: Bytes)
    requires a in SigsOf(es)
    ensures Entry(a, SigsOf(es)[a]) in es
  {
    var last := es[|es| - 1];
    if last.addr != a {
      SignaturesCollect(es[..|es| - 1], a);
    }
  }

  lemma EntriesRebuild(addrs: seq<Bytes>, signatures: map<Bytes, Sig>)
    requires forall a :: a in signatures <==> a in addrs
    ensures AddrsOf(EntriesOf(addrs, signatures)) == addrs
    ensures SigsOf(EntriesOf(addrs, signatures)) == signatures
  {
    var es := EntriesOf(addrs, signatures);
    AddressesCollect(es);
    assert AddrsOf(es) == addrs;
    forall a ensures (a in SigsOf(es) <==> a in signatures)
                     && (a in SigsOf(es) ==> SigsOf(es)[a] == signatures[a]) {
      KeysCollect(es, a);
      if a in SigsOf(es) {
        SignaturesCollect(es, a);
      }
    }
  }

  // ---------------------------------------------------------------- the round trip

  ghost predicate SigFits(sig: Sig) {
    |MinBE(sig.r)| <= MAX_SIG_LEN && |MinBE(sig.s)| <= MAX_SIG_LEN
  }

  /** The size limits `DecodeQC` enforces, and a signature for every listed address and no other. */
  ghost predicate Transportable(qc: QC) {
    && |qc.blockHash| <= MAX_HASH_LEN
    && |qc.addrs| <= MAX_ADDR_COUNT
    && (forall a :: a in qc.signatures <==> a in qc.addrs)
    && forall a :: a in qc.addrs ==> |a| <= MAX_ADDR_STR && SigFits(qc.signatures[a])
  }

  /** The last signature on the wire has a zero S, so its bytes end with an empty field. */
  ghost predicate EndsEmpty(qc: QC)
    requires Transportable(qc)
  {
    qc.addrs != [] && qc.signatures[qc.addrs[|qc.addrs| - 1]].s == 0
  }

  lemma ShortNumber(bs: Bytes)
    ensures |MinBE(FromBE(bs))| <= |bs|
  {
    FromBEBound(bs);
    MinBELength(FromBE(bs), |bs|);
  }

  lemma ParsedEntryFits(buf: Bytes)
    ensures ParseEntry(buf).Got? ==> EntryFits(ParseEntry(buf).value)
  {
    if ParseEntry(buf).Got? {
      var rest0 := SizedChunk(MAX_ADDR_STR, buf).rest;
      var r := SizedChunk(MAX_SIG_LEN, rest0);
      ShortNumber(r.value);
      ShortNumber(SizedChunk(MAX_SIG_LEN, r.rest).value);
    }
  }

  /** What holds of everything one parser accepts holds of everything it accepts in a row. */
  lemma {:induction false} ManyFit<T(!new)>(parse: Bytes -> Parsed<T>, fits: T -> bool, n: nat, buf: Bytes)
    requires forall b :: parse(b).Got? ==> fits(parse(b).value)
    ensures Many(parse, n, buf).Some? ==>
              |Many(parse, n, buf).value| == n && forall e :: e in Many(parse, n, buf).value ==> fits(e)
  {
    if n > 0 && parse(buf).Got? {
      ManyFit(parse, fits, n - 1, parse(buf).rest);
    }
  }

  lemma ParsedEntriesFit(n: nat, buf: Bytes)
    ensures Many(ParseEntry, n, buf).Some? ==>
              && |Many(ParseEntry, n, buf).value| == n
              && forall e :: e in Many(ParseEntry, n, buf).value ==> EntryFits(e)
  {
    forall b ensures ParseEntry(b).Got? ==> EntryFits(ParseEntry(b).value) {
      ParsedEntryFits(b);
    }
    ManyFit(ParseEntry, EntryFits, n, buf);
  }

  /** Whatever bytes arrive, an accepted certificate lists exactly its signers and keeps every limit. */
  lemma DecodedIsTransportable(data: Bytes)
    ensures Decode(data).Some? ==> Transportable(Decode(data).value)
  {
    var heading := ParseHeading(data);
    if heading.Got? {
      var parsed := Many(ParseEntry, heading.value.count, heading.rest);
      if parsed.Some? {
        ParsedEntriesFit(heading.value.count, heading.rest);
        AssembledIsTransportable(heading.value, parsed.value);
      }
    }
  }

  lemma AssembledIsTransportable(h: Heading, es: seq<Entry>)
    requires |h.blockHash| <= MAX_HASH_LEN && |es| <= MAX_ADDR_COUNT
    requires forall e :: e in es ==> EntryFits(e)
    ensures Transportable(Assemble(h, es))
  {
    AddressesCollect(es);
    forall a ensures (a in SigsOf(es) <==> a in AddrsOf(es))
                     && (a in SigsOf(es) ==> |a| <= MAX_ADDR_STR && SigFits(SigsOf(es)[a])) {
      KeysCollect(es, a);
      if a in SigsOf(es) {
        SignaturesCollect(es, a);
        assert EntryFits(Entry(a, SigsOf(es)[a]));
      }
    }
  }

  lemma HeadingUndone(qc: QC, rest: Bytes)
    requires |qc.blockHash| <= MAX_HASH_LEN && |qc.addrs| <= MAX_ADDR_COUNT
    ensures ParseHeading(Header(qc) + rest)
         == Got(Heading(qc.height, qc.view, qc.phase, qc.blockHash, |qc.addrs|), rest)
  {
    var tail3 := FixedBE(|qc.addrs|, 4) + rest;
    var tail2 := Sized(qc.blockHash) + tail3;
    var tail1 := [qc.phase] + tail2;
    var tail0 := FixedBE(qc.view, 8) + tail1;
    Pow256Of8();
    assert Pow256(1) == 256 && Pow256(4) > MAX_ADDR_COUNT;
    HeaderNests(qc, rest);
    NumberUndone(qc.height, 8, tail0);
    NumberUndone(qc.view, 8, tail1);
    OneByte(qc.phase);
    NumberUndone(qc.phase, 1, tail2);
    SizedUndone(qc.blockHash, MAX_HASH_LEN, tail3);
    assert |tail3| >= 4;
    NumberUndone(|qc.addrs|, 4, rest);
  }

  lemma HeaderNests(qc: QC, rest: Bytes)
    ensures Header(qc) + rest
         == FixedBE(qc.height, 8) + (FixedBE(qc.view, 8) + ([qc.phase] + (Sized(qc.blockHash) +
              (FixedBE(|qc.addrs|, 4) + rest))))
  {
  }

  lemma OneByte(b: Byte)
    ensures FixedBE(b, 1) == [b]
  {
    assert FixedBE(b / 256, 0) == [];
  }

  lemma EntriesFit(qc: QC)
    requires Transportable(qc)
    ensures forall e :: e in EntriesOf(qc.addrs, qc.signatures) ==> EntryFits(e)
  {
    hide EntriesOf;
  }

  /** Decoding what was encoded returns the certificate, or rejects it when it ends empty. */
  lemma DecodeAfterEncode(qc: QC)
    requires Transportable(qc)
    ensures Decode(Encode(qc)) == if EndsEmpty(qc) then None else Some(qc)
  {
    hide ParseHeading, ParseEntry, Header, EncodeSigner, EncodeSigners, EncodeEntry, EncodeEntries, AddrsOf, SigsOf,
         Many;
    var es := EntriesOf(qc.addrs, qc.signatures);
    EntriesFit(qc);
    hide EntriesOf, EntryFits, SigFits;
    HeadingUndone(qc, EncodeSigners(qc.addrs, qc.signatures));
    SignersAreEntries(qc.addrs, qc.signatures);
    EntriesUndone(es);
    EntriesRebuild(qc.addrs, qc.signatures);
  }

  /** The round trip, exactly: a certificate survives the wire if and only if it lists exactly its
      signers, keeps the size limits, and its last signature has a non-zero S. */
  lemma {:induction false} RoundTrip(qc: QC)
    ensures Decode(Encode(qc)) == Some(qc) <==> Transportable(qc) && !EndsEmpty(qc)
  {
    DecodedIsTransportable(Encode(qc));
    if Transportable(qc) {
      DecodeAfterEncode(qc);
    }
  }

  /** Signatures as ECDSA makes them: both halves non-zero and below 2^256. */
  lemma SignedCertificatesSurvive(qc: QC)
    requires |qc.blockHash| <= 32 && |qc.addrs| <= MAX_ADDR_COUNT
    requires forall a :: a in qc.signatures <==> a in qc.addrs
    requires forall a :: a in qc.addrs ==> |a| == 40
    requires forall a :: a in qc.addrs ==> 0 < qc.signatures[a].r < Pow256(32) && 0 < qc.signatures[a].s < Pow256(32)
    ensures Decode(Encode(qc)) == Some(qc)
  {
    hide Decode, Encode, Pow256, MinBE;
    forall a | a in qc.addrs ensures SigFits(qc.signatures[a]) {
      MinBELength(qc.signatures[a].r, 32);
      MinBELength(qc.signatures[a].s, 32);
    }
    RoundTrip(qc);
  }

  // ---------------------------------------------------------------- the loops

  /** One turn of the encoding loop. */
  method WriteSigner(addr: Bytes, signatures: map<Bytes, Sig>) returns (buf: Bytes)
    ensures buf == EncodeSigner(addr, signatures)
  {
    buf := FixedBE(|addr|, 2) + addr;
    if addr in signatures {
      var sig := signatures[addr];
      var rBytes, sBytes := MinBE(sig.r), MinBE(sig.s);
      buf := buf + (FixedBE(|rBytes|, 2) + rBytes + (FixedBE(|sBytes|, 2) + sBytes));
    }
  }

  method WriteHeader(qc: QC) returns (buf: Bytes)
    ensures buf == Header(qc)
  {
    buf := FixedBE(qc.height, 8) + FixedBE(qc.view, 8) + [qc.phase];
    buf := buf + FixedBE(|qc.blockHash|, 2) + qc.blockHash + FixedBE(|qc.addrs|, 4);
  }

  method EncodeQC(qc: QC) returns (buf: Bytes)
    ensures buf == Encode(qc)
  {
    hide Header, EncodeSigner;
    buf := WriteHeader(qc);
    for i := 0 to |qc.addrs|
      invariant Encode(qc) == buf + EncodeSigners(qc.addrs[i..], qc.signatures)
    {
      var signer := WriteSigner(qc.addrs[i], qc.signatures);
      buf := buf + signer;
    }
  }

  /** `bytes.Reader`: the bytes not read yet. */
  class Reader {
    var rest: Bytes

    constructor (data: Bytes)
      ensures rest == data
    {
      rest := data;
    }

    /** `binary.Read`. */
    method ReadNumber(k: nat) returns (n: Option<nat>)
      modifies this
      ensures Number(k, old(rest)) == if n.None? then Fail else Got(n.value, rest)
    {
      if |rest| < k {
        rest := [];
        return None;
      }
      n, rest := Some(FromBE(rest[..k])), rest[k..];
    }

    /** `Read` into a fresh slice of length `n`. */
    method ReadBytes(n: nat) returns (p: Option<Bytes>)
      modifies this
      ensures Chunk(n, old(rest)) == if p.None? then Fail else Got(p.value, rest)
    {
      if |rest| == 0 {
        return None;
      }
      var copied := if |rest| < n then |rest| else n;
      assert copied == |rest| ==> rest[..copied] == rest;
      assert copied == n ==> rest[..n] + Zeros(0) == rest[..n];
      p, rest := Some(rest[..copied] + Zeros(n - copied)), rest[copied..];
    }

    method ReadSized(limit: nat) returns (p: Option<Bytes>)
      modifies this
      ensures SizedChunk(limit, old(rest)) == if p.None? then Fail else Got(p.value, rest)
    {
      var n := ReadNumber(2);
      if n.None? || n.value > limit {
        return None;
      }
      p := ReadBytes(n.value);
    }

    /** One turn of the decoding loop. */
    method ReadEntry() returns (e: Option<Entry>)
      modifies this
      ensures ParseEntry(old(rest)) == if e.None? then Fail else Got(e.value, rest)
    {
      var addr := ReadSized(MAX_ADDR_STR);
      if addr.None? {
        return None;
      }
      var r := ReadSized(MAX_SIG_LEN);
      if r.None? {
        return None;
      }
      var s := ReadSized(MAX_SIG_LEN);
      if s.None? {
        return None;
      }
      return Some(Entry(addr.value, Sig(FromBE(r.value), FromBE(s.value))));
    }

    method ReadHeading() returns (h: Option<Heading>)
      modifies this
      ensures ParseHeading(old(rest)) == if h.None? then Fail else Got(h.value, rest)
    {
      Pow256Of8();
      SmallNumber(8, rest);
      var height := ReadNumber(8);
      if height.None? {
        return None;
      }
      SmallNumber(8, rest);
      var view := ReadNumber(8);
      if view.None? {
        return None;
      }
      SmallNumber(1, rest);
      var phase := ReadNumber(1);
      if phase.None? {
        return None;
      }
      var hash := ReadSized(MAX_HASH_LEN);
      if hash.None? {
        return None;
      }
      var count := ReadNumber(4);
      if count.None? || count.value > MAX_ADDR_COUNT {
        return None;
      }
      return Some(Heading(height.value, view.value, phase.value, hash.value, count.value));
    }
  }

  function Following<T>(done: seq<T>, more: Option<seq<T>>): Option<seq<T>> {
    match more
    case None => None
    case Some(es) => Some(done + es)
  }

  /** What is left to parse, after the values already collected. */
  ghost predicate Outstanding<T>(parse: Bytes -> Parsed<T>, all: Option<seq<T>>, done: seq<T>, n: nat, buf: Bytes) {
    all == Following(done, Many(parse, n, buf))
  }

  lemma NoneCollected<T>(parse: Bytes -> Parsed<T>, n: nat, buf: Bytes)
    ensures Outstanding(parse, Many(parse, n, buf), [], n, buf)
  {
    if Many(parse, n, buf).Some? {
      assert [] + Many(parse, n, buf).value == Many(parse, n, buf).value;
    }
  }

  lemma NextCollected<T>(parse: Bytes -> Parsed<T>, all: Option<seq<T>>, done: seq<T>, n: nat, buf: Bytes)
    requires n > 0 && Outstanding(parse, all, done, n, buf)
    ensures match parse(buf)
            case Fail => all == None
            case Got(e, rest) => Outstanding(parse, all, done + [e], n - 1, rest)
  {
    if parse(buf).Got? {
      var more := Many(parse, n - 1, parse(buf).rest);
      if more.Some? {
        assert done + ([parse(buf).value] + more.value) == done + [parse(buf).value] + more.value;
      }
    }
  }

  lemma AllCollected<T>(parse: Bytes -> Parsed<T>, all: Option<seq<T>>, done: seq<T>, buf: Bytes)
    requires Outstanding(parse, all, done, 0, buf)
    ensures all == Some(done)
  {
    assert done + [] == done;
  }

  lemma CollectedSoFar(done: seq<Entry>, e: Entry)
    ensures AddrsOf([]) == [] && SigsOf([]) == map[]
    ensures AddrsOf(done + [e]) == AddrsOf(done) + [e.addr]
    ensures SigsOf(done + [e]) == SigsOf(done)[e.addr := e.sig]
  {
    assert (done + [e])[..|done|] == done;
  }

  method DecodeQC(data: Bytes) returns (qc: Option<QC>)
    ensures qc == Decode(data)
  {
    hide ParseEntry;
    var buf := new Reader(data);
    var h := buf.ReadHeading();
    if h.None? {
      return None;
    }
    var addrs: seq<Bytes>, signatures: map<Bytes, Sig> := [], map[];
    ghost var done: seq<Entry> := [];
    ghost var all := Many(ParseEntry, h.value.count, buf.rest);
    NoneCollected(ParseEntry, h.value.count, buf.rest);
    CollectedSoFar(done, Entry([], Sig(0, 0)));
    var left := h.value.count;
    while left > 0
      invariant Outstanding(ParseEntry, all, done, left, buf.rest)
      invariant addrs == AddrsOf(done) && signatures == SigsOf(done)
    {
      NextCollected(ParseEntry, all, done, left, buf.rest);
      var e := buf.ReadEntry();
      if e.None? {
        return None;
      }
      left := left - 1;
      CollectedSoFar(done, e.value);
      addrs, signatures, done := addrs + [e.value.addr], signatures[e.value.addr := e.value.sig], done + [e.value];
    }
    AllCollected(ParseEntry, all, done, buf.rest);
    return Some(QC(h.value.height, h.value.view, h.value.phase, h.value.blockHash, signatures, addrs));
  }
}
