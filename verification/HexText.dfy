/** Hexadecimal text as the Go code writes and reads it. Text is a byte string. */
module HexText {
  import opened Words

  /** The standard library's decoder takes pairs of digits of either case and nothing else. The
      validator set's own decoder hands each pair to a scanner, which skips a leading blank and stops
      quietly at the first character that is no digit, so many texts name the same bytes. */
  type Text = Bytes

  function Digit(n: nat): Byte
    requires n < 16
  {
    if n < 10 then 0x30 + n else 0x61 + (n - 10)
  }

  function Value(c: Byte): (v: Option<nat>)
    ensures v.Some? ==> v.value < 16
  {
    if 0x30 <= c <= 0x39 then Some(c - 0x30)
    else if 0x61 <= c <= 0x66 then Some(c - 0x61 + 10)
    else if 0x41 <= c <= 0x46 then Some(c - 0x41 + 10)
    else None
  }

  /** `hex.EncodeToString`. */
  function Encode(bs: Bytes): Text {
    if bs == [] then [] else [Digit(bs[0] / 16), Digit(bs[0] % 16)] + Encode(bs[1..])
  }

  /** `hex.DecodeString`. */
  function Decode(t: Text): Option<Bytes> {
    if t == [] then Some([])
    else if |t| == 1 then None
    else
      match (Value(t[0]), Value(t[1]), Decode(t[2..]))
      case (Some(hi), Some(lo), Some(rest)) => Some([16 * hi + lo] + rest)
      case _ => None
  }

  /** The blanks a scanner skips; a line feed is an error. */
  predicate Blank(c: Byte) {
    c == 0x20 || c == 0x09 || c == 0x0B || c == 0x0C || c == 0x0D
  }

  /** Two characters scanned as one hexadecimal number of at most two digits. */
  function Scan(c: Byte, d: Byte): Option<Byte> {
    match (Value(c), Value(d))
    case (Some(hi), Some(lo)) => Some(16 * hi + lo)
    case (Some(only), None) => Some(only)
    case (None, Some(only)) => if Blank(c) then Some(only) else None
    case (None, None) => None
  }

  /** `hexDecode` of the validator set. */
  function Lenient(t: Text): Option<Bytes> {
    if t == [] then Some([])
    else if |t| == 1 then None
    else
      match (Scan(t[0], t[1]), Lenient(t[2..]))
      case (Some(b), Some(rest)) => Some([b] + rest)
      case _ => None
  }

  lemma DigitRoundTrip(n: nat)
    requires n < 16
    ensures Value(Digit(n)) == Some(n)
  {
  }

  /** A character stands for a digit: `0` to `9`, `a` to `f` or `A` to `F`. */
  ghost predicate StandsFor(c: Byte, v: nat) {
    (v < 10 && c == 48 + v) || (10 <= v < 16 && (c == 87 + v || c == 55 + v))
  }

  ghost predicate IsDigit(c: Byte) {
    exists v: nat :: StandsFor(c, v)
  }

  lemma ValueMeans(c: Byte, v: nat)
    ensures StandsFor(c, v) <==> Value(c) == Some(v)
    ensures IsDigit(c) <==> Value(c).Some?
  {
    if Value(c).Some? {
      assert StandsFor(c, Value(c).value);
    }
  }

  /** How the two decoders read two characters: alike for two digits of either case. Otherwise the strict one refuses,
      and the lenient one still takes a digit before a character that is none, or behind a blank. */
  lemma PairMeans(c: Byte, d: Byte, hi: nat, lo: nat)
    ensures StandsFor(c, hi) && StandsFor(d, lo) ==> Decode([c, d]) == Lenient([c, d]) == Some([16 * hi + lo])
    ensures !(IsDigit(c) && IsDigit(d)) ==> Decode([c, d]) == None
    ensures StandsFor(c, hi) && !IsDigit(d) ==> Lenient([c, d]) == Some([hi])
    ensures !IsDigit(c) && StandsFor(d, lo) ==>
              Lenient([c, d]) == if c in [9, 11, 12, 13, 32] then Some([lo]) else None
    ensures !IsDigit(c) && !IsDigit(d) ==> Lenient([c, d]) == None
  {
    ValueMeans(c, hi);
    ValueMeans(d, lo);
    OnePair(c, d);
    hide IsDigit, StandsFor, Decode, Lenient;
  }

  lemma OnePair(c: Byte, d: Byte)
    ensures Lenient([c, d]) == match Scan(c, d) case Some(b) => Some([b]) case None => None
    ensures Decode([c, d])
         == match (Value(c), Value(d)) case (Some(hi), Some(lo)) => Some([16 * hi + lo]) case _ => None
  {
    assert [c, d][2..] == [] && Decode([]) == Lenient([]) == Some([]);
    assert forall b: Byte :: [b] + [] == [b];
  }

  lemma {:induction false} RoundTrip(bs: Bytes)
    ensures Decode(Encode(bs)) == Some(bs) && Lenient(Encode(bs)) == Some(bs)
  {
    if bs != [] {
      DigitRoundTrip(bs[0] / 16);
      DigitRoundTrip(bs[0] % 16);
      RoundTrip(bs[1..]);
      assert Encode(bs)[2..] == Encode(bs[1..]);
      assert bs == [bs[0]] + bs[1..];
    }
  }

  lemma EncodeInjective()
    ensures forall a, b :: Encode(a) == Encode(b) ==> a == b
  {
    forall a, b | Encode(a) == Encode(b) ensures a == b {
      RoundTrip(a);
      RoundTrip(b);
    }
  }

  /** Whatever the strict decoder reads, the lenient one reads the same. */
  lemma {:induction false} StrictIsLenient(t: Text)
    ensures Decode(t).Some? ==> Lenient(t) == Decode(t)
  {
    if |t| >= 2 {
      StrictIsLenient(t[2..]);
    }
  }

  /** The text the encoder would have written. */
  predicate Canonical(t: Text) {
    Lenient(t).Some? && t == Encode(Lenient(t).value)
  }

  /** The texts of a set of byte strings. */
  function Texts(who: set<Bytes>): set<Text> {
    set a | a in who :: Encode(a)
  }

  lemma EncodedIsCanonical(a: Bytes)
    ensures Canonical(Encode(a)) && Lenient(Encode(a)) == Some(a)
  {
    RoundTrip(a);
  }

  function Before(out: Bytes, rest: Option<Bytes>): Option<Bytes> {
    match rest
    case None => None
    case Some(bs) => Some(out + bs)
  }

  lemma BeforeStep(out: Bytes, b: Byte, rest: Option<Bytes>)
    ensures Before([], rest) == rest && Before(out, Some([])) == Some(out)
    ensures Before(out + [b], rest) == Before(out, Before([b], rest))
  {
    if rest.Some? {
      assert [] + rest.value == rest.value;
      assert out + [b] + rest.value == out + ([b] + rest.value);
    }
    assert out + [] == out;
  }

  lemma {:induction false} OddIsRefused(t: Text)
    ensures |t| % 2 != 0 ==> Lenient(t) == None
  {
    if |t| >= 2 {
      OddIsRefused(t[2..]);
    }
  }

  /** The loop of `hexDecode`. */
  method HexDecode(s: Text) returns (r: Option<Bytes>)
    ensures r == Lenient(s)
  {
    OddIsRefused(s);
    if |s| % 2 != 0 {
      return None;
    }
    hide Scan;
    var out: Bytes := [];
    BeforeStep([], 0, Lenient(s));
    var i := 0;
    while i < |s|
      invariant 0 <= i <= |s| && i % 2 == 0
      invariant Lenient(s) == Before(out, Lenient(s[i..]))
    {
      var b := Scan(s[i], s[i + 1]);
      assert s[i..][2..] == s[i + 2..];
      if b.None? {
        return None;
      }
      BeforeStep(out, b.value, Lenient(s[i + 2..]));
      out := out + [b.value];
      i := i + 2;
    }
    BeforeStep(out, 0, None);
    return Some(out);
  }
}
