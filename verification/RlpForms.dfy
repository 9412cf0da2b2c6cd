/** The RLP forms of a transaction read item by item: at which index of which list each field stands. */
module RlpForms {
  import opened Words
  import opened Rlp

  /** The bytes are the type, if it is one of a typed form, and one list with these items. */
  ghost predicate Holds(raw: Bytes, t: Byte, items: seq<Bytes>) {
    && (t == 0 || ((t == 1 || t == 2) && raw != [] && raw[0] == t))
    && (t == 0 && raw != [] ==> raw[0] != 1 && raw[0] != 2)
    && var list := DecodeItem(if t == 0 then raw else raw[1..]);
       list.Ok? && list.value.rest == [] && Items(list.value.payload) == Ok(items)
  }

  /** The items of the legacy form up to the signature. */
  ghost predicate LegacyAmounts(tx: RLPTx, items: seq<Bytes>) {
    && |items| == 9
    && Uint(items[0]) == tx.nonce && Uint(items[1]) == tx.gasPrice && Uint(items[2]) == tx.gasLimit
    && items[3] == tx.to && Uint(items[4]) == tx.value && items[5] == tx.data
  }

  /** The items of the typed forms up to the signature. */
  ghost predicate TypedAmounts(tx: RLPTx, items: seq<Bytes>) {
    && |items| >= 9
    && Uint(items[0]) == tx.chainId && Uint(items[1]) == tx.nonce && Uint(items[2]) == tx.maxPriorityFee
    && Uint(items[3]) == tx.gasPrice && Uint(items[4]) == tx.gasLimit && items[5] == tx.to
    && Uint(items[6]) == tx.value && items[7] == tx.data && items[8] == tx.accessListRaw
  }

  lemma EnvelopeHolds(t: Byte, fs: seq<Field>)
    requires Encodable(t, fs)
    ensures Holds(Envelope(t, fs), if t == 1 || t == 2 then t else 0, Payloads(fs))
  {
    var body := EncPrefix(Flatten(fs), 0xC0);
    ListDecodes(fs);
    assert body[0] >= 0xC0;
    if t == 1 || t == 2 {
      assert ([t] + body)[1..] == body;
    } else {
      assert [] + body == body;
    }
  }

  lemma AmountsRead(tx: RLPTx)
    ensures Uint(MinBE(tx.nonce)) == tx.nonce && Uint(MinBE(tx.gasPrice)) == tx.gasPrice
    ensures Uint(MinBE(tx.gasLimit)) == tx.gasLimit && Uint(MinBE(tx.value)) == tx.value
    ensures Uint(MinBE(tx.chainId)) == tx.chainId && Uint(MinBE(tx.maxPriorityFee)) == tx.maxPriorityFee
    ensures Uint(MinBE(tx.v)) == tx.v
  {
    NumberReads(tx.nonce);
    NumberReads(tx.gasPrice);
    NumberReads(tx.gasLimit);
    NumberReads(tx.value);
    NumberReads(tx.chainId);
    NumberReads(tx.maxPriorityFee);
    NumberReads(tx.v);
  }

  /** The legacy pre-images. What is signed ends with the chain id and two empty items where what is hashed has the
      wire value and the signature; the six items before are the same. */
  lemma {:induction false} LegacyForms(tx: RLPTx)
    requires tx.txType != 1 && tx.txType != 2
    requires Encodable(tx.txType, SigningFields(tx)) && Encodable(tx.txType, TxFields(tx))
    ensures exists signed, sent ::
              && Holds(SigningBytes(tx), 0, signed) && Holds(TxBytes(tx), 0, sent)
              && LegacyAmounts(tx, signed) && LegacyAmounts(tx, sent) && signed[..6] == sent[..6]
              && Uint(signed[6]) == tx.chainId && signed[7] == [] && signed[8] == []
              && Uint(sent[6])
                 == (if tx.chainId > 0 then (2 * tx.chainId + 35 + tx.v) % 0x1_0000_0000_0000_0000 else tx.v)
              && sent[7] == tx.r && sent[8] == tx.s
  {
    hide Holds, Uint, MinBE, Payloads, Encodable, Envelope, Flatten;
    var signed, sent := Payloads(SigningFields(tx)), Payloads(TxFields(tx));
    EnvelopeHolds(tx.txType, SigningFields(tx));
    EnvelopeHolds(tx.txType, TxFields(tx));
    PayloadsOf9(SigningFields(tx));
    PayloadsOf9(TxFields(tx));
    AmountsRead(tx);
    NumberReads(WireV(tx));
    ZeroIsEmpty();
    assert LegacyAmounts(tx, signed) && LegacyAmounts(tx, sent);
  }

  lemma ZeroIsEmpty()
    ensures MinBE(0) == []
  {
  }

  /** The typed pre-images. What is signed is the type and the first nine items of what is hashed. */
  lemma {:induction false} TypedForms(tx: RLPTx)
    requires tx.txType == 1 || tx.txType == 2
    requires Encodable(tx.txType, SigningFields(tx)) && Encodable(tx.txType, TxFields(tx))
    ensures exists signed, sent ::
              && Holds(SigningBytes(tx), tx.txType, signed) && Holds(TxBytes(tx), tx.txType, sent)
              && |sent| == 12 && signed == sent[..9] && TypedAmounts(tx, signed)
              && Uint(sent[9]) == tx.v && sent[10] == tx.r && sent[11] == tx.s
  {
    hide Holds, Uint, MinBE, Payloads, Encodable, Envelope, Flatten;
    var signed, sent := Payloads(SigningFields(tx)), Payloads(TxFields(tx));
    EnvelopeHolds(tx.txType, SigningFields(tx));
    EnvelopeHolds(tx.txType, TxFields(tx));
    PayloadsOf9(SigningFields(tx));
    PayloadsOf12(TxFields(tx));
    AmountsRead(tx);
    assert TypedAmounts(tx, signed);
  }

  /** A decoded transaction takes each field from the index the encoder puts it at. A list of fewer than nine or
      more than twelve items is refused, and a typed one of fewer than twelve. */
  lemma {:induction false} DecoderReads(raw: Bytes, t: Byte, items: seq<Bytes>)
    requires Holds(raw, t, items)
    ensures DecodeTx(raw).Ok? <==> |items| <= 12 && |items| >= if t == 0 then 9 else 12
    ensures !DecodeTx(raw).Panic?
    ensures DecodeTx(raw).Ok? ==>
              var tx := DecodeTx(raw).value;
              && tx.txType == t
              && (t != 0 ==>
                    && TypedAmounts(tx, items) && tx.r == items[10] && tx.s == items[11]
                    && var v := Uint(items[9]); tx.v == if v < 27 then v else (v - 27) % 256)
              && (t == 0 ==>
                    && LegacyAmounts(tx, items[..9]) && tx.r == items[7] && tx.s == items[8]
                    && tx.maxPriorityFee == 0 && tx.accessListRaw == []
                    && var v := Uint(items[6]);
                       (tx.chainId, tx.v) == if v < 27 then (0, v) else if v < 35 then (0, v - 27)
                                             else ((v - 35) / 2, (v - 35) % 2))
  {
    hide Uint, Items, DecodeItem;
  }
}
