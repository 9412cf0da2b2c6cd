/** Where the wire form of a quorum certificate holds what. */
module QcLayout {
  import opened Words
  import opened QcCodec

  /** At an offset stand a two-byte big-endian length and that many bytes. */
  predicate SizedAt(d: Bytes, k: nat, bs: Bytes) {
    |d| >= k + 2 + |bs| && FromBE(d[k..k + 2]) == |bs| && d[k + 2..k + 2 + |bs|] == bs
  }

  /** A piece at an offset, and what follows it. */
  lemma Piece(d: Bytes, k: nat, x: Bytes, y: Bytes)
    requires k <= |d| && d[k..] == x + y
    ensures |d| >= k + |x| && d[k..k + |x|] == x && d[k + |x|..] == y
  {
    assert d[k..][..|x|] == x && d[k..][|x|..] == y;
  }

  lemma SizedPiece(d: Bytes, k: nat, bs: Bytes, y: Bytes)
    requires k <= |d| && d[k..] == Sized(bs) + y && |bs| < 65536
    ensures SizedAt(d, k, bs) && d[k + 2 + |bs|..] == y
  {
    assert Pow256(2) == 65536;
    FixedBERoundTrip(|bs|, 2);
    assert Sized(bs) + y == FixedBE(|bs|, 2) + (bs + y);
    Piece(d, k, FixedBE(|bs|, 2), bs + y);
    Piece(d, k + 2, bs, y);
  }

  lemma Joined(a: Bytes, b: Bytes, c: Bytes)
    ensures a + b + c == a + (b + c)
  {
  }

  /** Where the heading holds what, in big-endian numbers: height, view, phase, the hash behind its length, and the
      number of listed addresses; the signers follow. */
  lemma HeadingLayout(qc: QC)
    requires |qc.blockHash| < 65536 && |qc.addrs| < 0x1_0000_0000
    ensures var d, n := Encode(qc), |qc.blockHash|;
            && |d| >= 23 + n
            && FromBE(d[..8]) == qc.height && FromBE(d[8..16]) == qc.view && d[16] == qc.phase
            && SizedAt(d, 17, qc.blockHash)
            && FromBE(d[19 + n..23 + n]) == |qc.addrs| && d[23 + n..] == EncodeSigners(qc.addrs, qc.signatures)
  {
    var d, n := Encode(qc), |qc.blockHash|;
    var height, view, count := FixedBE(qc.height, 8), FixedBE(qc.view, 8), FixedBE(|qc.addrs|, 4);
    var signers, hash := EncodeSigners(qc.addrs, qc.signatures), Sized(qc.blockHash);
    U64Bytes(qc.height);
    U64Bytes(qc.view);
    assert Pow256(4) == 0x1_0000_0000;
    FixedBERoundTrip(|qc.addrs|, 4);
    Reassociated(height, view, [qc.phase], hash, count, signers);
    hide EncodeSigners, FixedBE, Sized, SizedAt;
    assert d[0..] == height + (view + ([qc.phase] + (hash + (count + signers))));
    Piece(d, 0, height, view + ([qc.phase] + (hash + (count + signers))));
    Piece(d, 8, view, [qc.phase] + (hash + (count + signers)));
    Piece(d, 16, [qc.phase], hash + (count + signers));
    SizedPiece(d, 17, qc.blockHash, count + signers);
    Piece(d, 19 + n, count, signers);
  }

  lemma Reassociated(a: Bytes, b: Bytes, c: Bytes, d: Bytes, e: Bytes, f: Bytes)
    ensures (a + (b + (c + (d + e)))) + f == a + (b + (c + (d + (e + f))))
  {
    Joined(a, b + (c + (d + e)), f);
    Joined(b, c + (d + e), f);
    Joined(c, d + e, f);
    Joined(d, e, f);
  }

  /** A signer's part: its address and, if it signed, the shortest big-endian forms of R and S, each behind its
      length. */
  predicate SignerAt(d: Bytes, addr: Bytes, sig: Sig) {
    var r, s := MinBE(sig.r), MinBE(sig.s);
    SizedAt(d, 0, addr) && SizedAt(d, 2 + |addr|, r) && SizedAt(d, 4 + |addr| + |r|, s)
  }

  lemma SignedPart(d: Bytes, addr: Bytes, sig: Sig, rest: Bytes)
    requires |addr| < 65536 && |MinBE(sig.r)| < 65536 && |MinBE(sig.s)| < 65536
    requires d == Sized(addr) + EncodeSig(sig) + rest
    ensures SignerAt(d, addr, sig) && d[6 + |addr| + |MinBE(sig.r)| + |MinBE(sig.s)|..] == rest
  {
    var r, s := MinBE(sig.r), MinBE(sig.s);
    Joined(Sized(addr), Sized(r) + Sized(s), rest);
    Joined(Sized(r), Sized(s), rest);
    hide Sized, SizedAt, MinBE;
    assert d[0..] == Sized(addr) + (Sized(r) + (Sized(s) + rest));
    SizedPiece(d, 0, addr, Sized(r) + (Sized(s) + rest));
    SizedPiece(d, 2 + |addr|, r, Sized(s) + rest);
    SizedPiece(d, 4 + |addr| + |r|, s, rest);
  }

  lemma UnsignedPart(d: Bytes, addr: Bytes, rest: Bytes)
    requires |addr| < 65536 && d == Sized(addr) + [] + rest
    ensures SizedAt(d, 0, addr) && d[2 + |addr|..] == rest
  {
    Joined(Sized(addr), [], rest);
    hide Sized, SizedAt;
    assert [] + rest == rest && d[0..] == d;
    SizedPiece(d, 0, addr, rest);
  }

  /** The signers stand in the order they are listed in; one without a signature has none on the wire, so the reader
      must know who signed. */
  lemma SignerLayout(addrs: seq<Bytes>, signatures: map<Bytes, Sig>)
    requires addrs != [] && |addrs[0]| < 65536
    requires addrs[0] in signatures ==>
               |MinBE(signatures[addrs[0]].r)| < 65536 && |MinBE(signatures[addrs[0]].s)| < 65536
    ensures var d, n, rest := EncodeSigners(addrs, signatures), |addrs[0]|, EncodeSigners(addrs[1..], signatures);
            && SizedAt(d, 0, addrs[0])
            && (addrs[0] !in signatures ==> |d| >= 2 + n && d[2 + n..] == rest)
            && (addrs[0] in signatures ==>
                  var sig := signatures[addrs[0]];
                  var end := 6 + n + |MinBE(sig.r)| + |MinBE(sig.s)|;
                  SignerAt(d, addrs[0], sig) && |d| >= end && d[end..] == rest)
  {
    var d, addr, rest := EncodeSigners(addrs, signatures), addrs[0], EncodeSigners(addrs[1..], signatures);
    assert d == EncodeSigner(addr, signatures) + rest;
    hide EncodeSigners, SizedAt, MinBE, Sized, EncodeSig;
    if addr in signatures {
      SignedPart(d, addr, signatures[addr], rest);
    } else {
      UnsignedPart(d, addr, rest);
    }
  }
}
