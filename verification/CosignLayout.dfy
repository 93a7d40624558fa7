/**
 * The bytes a co-signature commits to, offset by offset: which field stands
 * where in each preimage, and that a field written out reads back.
 */
module CosignLayout {
  import opened Text
  import opened Cosign

  ghost predicate AllZero(bs: seq<Byte>) { forall i :: 0 <= i < |bs| ==> bs[i] == 0 }

  /** Word i of a buffer of words. */
  lemma {:induction false} WordAt(ws: seq<Word>, i: nat)
    requires i < |ws|
    ensures Concat(ws)[32 * i..32 * i + 32] == ws[i]
  {
    var n := |ws| - 1;
    var before := Concat(ws[..n]);
    assert Concat(ws) == before + ws[n] && |before| == 32 * n;
    if i < n {
      WordAt(ws[..n], i);
      assert Concat(ws)[32 * i..32 * i + 32] == before[32 * i..32 * i + 32];
    }
  }

  lemma {:induction false} ZeroBytes(k: nat)
    ensures AllZero(BigEndian(0, k))
  {
    if k > 0 { ZeroBytes(k - 1); }
  }

  /** An address word: twelve zero bytes, then the address. */
  lemma AddressLayout(raw: seq<Byte>)
    requires |raw| == 20
    ensures AllZero(AddressWord(raw)[..12]) && AddressWord(raw)[12..] == raw
  {
    ZeroBytes(12);
    assert AddressWord(raw)[..12] == BigEndian(0, 12);
  }

  lemma NumberLayout(v: int)
    requires Abs(v) < Pow256(WORD)
    ensures NumberOf(UintWord(v)) == Abs(v)
  {
    BigEndianDenotes(Abs(v), WORD);
  }

  /** Most significant byte first. */
  lemma WorkedBytes()
    ensures BigEndian(258, 2) == [1, 2] && NumberOf([1, 2]) == 258
  {
    assert BigEndian(1, 1) == [1] by { assert BigEndian(0, 0) == []; }
    assert [1, 2][..1] == [1] && [1][..0] == [];
    assert NumberOf([1]) == 1;
  }

  // ------------------------------------------------- the hop

  /** The eight words of a hop, in the order the kernel's ABI encodes them. */
  lemma ParamsLayout(p: Params)
    requires ParamWords(p).Some?
    ensures |ParamWords(p).value| == 8
    ensures var ws := ParamWords(p).value;
            && AbiAddress(p.fromVenue).Some? && ws[0] == AddressWord(AbiAddress(p.fromVenue).value)
            && DecodeHex(p.fromBoundary) == Some(ws[1])
            && DecodeHex(p.toBoundary) == Some(ws[2])
            && AbiAddress(p.toVenue).Some? && ws[3] == AddressWord(AbiAddress(p.toVenue).value)
            && DecodeHex(p.toVenueAccount) == Some(ws[4])
            && AbiAddress(p.token).Some? && ws[5] == AddressWord(AbiAddress(p.token).value)
            && AbiDecimal(p.amount).Some? && ws[6] == UintWord(AbiDecimal(p.amount).value)
            && DecodeHex(p.ref) == Some(ws[7])
  {
    hide DecodeHex, AbiDecimal, AbiAddress, AddressWord, UintWord;
  }

  /** The bytes hashed for the parameters: 256 of them, each field at its own offset. */
  lemma ParamsBytesLayout(p: Proposal)
    requires ParamWords(p.params).Some?
    ensures var bytes, f := ParamsBytes(p), p.params;
            && |bytes| == 256
            && AbiAddress(f.fromVenue) == Some(bytes[12..32]) && AllZero(bytes[0..12])
            && DecodeHex(f.fromBoundary) == Some(bytes[32..64])
            && DecodeHex(f.toBoundary) == Some(bytes[64..96])
            && AbiAddress(f.toVenue) == Some(bytes[108..128]) && AllZero(bytes[96..108])
            && DecodeHex(f.toVenueAccount) == Some(bytes[128..160])
            && AbiAddress(f.token) == Some(bytes[172..192]) && AllZero(bytes[160..172])
            && AbiDecimal(f.amount) == Some(NumberOf(bytes[192..224]))
            && DecodeHex(f.ref) == Some(bytes[224..256])
  {
    hide Concat, ParamWords, DecodeHex, AbiDecimal, AbiAddress, AddressWord, UintWord, AllZero, NumberOf, Pow256;
    var ws, bytes := ParamWords(p.params).value, ParamsBytes(p);
    ParamsLayout(p.params);
    WordAt(ws, 0);
    WordAt(ws, 1);
    WordAt(ws, 2);
    WordAt(ws, 3);
    WordAt(ws, 4);
    WordAt(ws, 5);
    WordAt(ws, 6);
    WordAt(ws, 7);
    AddressAt(bytes, 0, AbiAddress(p.params.fromVenue).value);
    AddressAt(bytes, 96, AbiAddress(p.params.toVenue).value);
    AddressAt(bytes, 160, AbiAddress(p.params.token).value);
    NumberLayout(AbiDecimal(p.params.amount).value);
  }

  lemma AddressAt(bytes: seq<Byte>, at: nat, raw: seq<Byte>)
    requires |raw| == 20 && at + 32 <= |bytes| && bytes[at..at + 32] == AddressWord(raw)
    ensures AllZero(bytes[at..at + 12]) && bytes[at + 12..at + 32] == raw
  {
    AddressLayout(raw);
    hide AddressWord;
    assert bytes[at..at + 12] == bytes[at..at + 32][..12];
    assert bytes[at + 12..at + 32] == bytes[at..at + 32][12..];
  }

  // ------------------------------------------------- domain, struct and digest

  /** The domain: its type, name and version hashed, then the chain id and the kernel's address. */
  ghost predicate IsDomain(
    bytes: seq<Byte>, typehash: Word, name: Word, version: Word, chainId: nat, kernel: seq<Byte>) {
    && |bytes| == 160
    && bytes[0..32] == typehash && bytes[32..64] == name && bytes[64..96] == version
    && NumberOf(bytes[96..128]) == chainId
    && AllZero(bytes[128..140]) && bytes[140..160] == kernel
  }

  lemma DomainWords(ws: seq<Word>, chainId: int, kernel: seq<Byte>)
    requires |ws| == 5 && |kernel| == 20 && Abs(chainId) < Pow256(WORD)
    requires ws[3] == UintWord(chainId) && ws[4] == AddressWord(kernel)
    ensures IsDomain(Concat(ws), ws[0], ws[1], ws[2], Abs(chainId), kernel)
  {
    hide Concat, UintWord, AddressWord, NumberOf, AllZero, Pow256;
    WordAt(ws, 0);
    WordAt(ws, 1);
    WordAt(ws, 2);
    WordAt(ws, 3);
    WordAt(ws, 4);
    NumberLayout(chainId);
    AddressAt(Concat(ws), 128, kernel);
  }

  lemma DomainLayout(H: Hash, chainId: int, kernel: seq<Byte>)
    requires |kernel| == 20 && Abs(chainId) < Pow256(WORD)
    ensures IsDomain(DomainPreimage(H, chainId, kernel), DomainTypehash(H), H(Ascii(DOMAIN_NAME)), H(Ascii(DOMAIN_VERSION)),
                     Abs(chainId), kernel)
  {
    hide Concat, DomainTypehash, Ascii, UintWord, AddressWord, IsDomain, Pow256;
    DomainWords(DomainHead(H) + [UintWord(chainId), AddressWord(kernel)], chainId, kernel);
  }

  /** The action: its type hash, the action, the debited boundary, the parameters' hash, the nonce and the deadline. */
  ghost predicate IsAction(
    bytes: seq<Byte>, typehash: Word, action: nat, boundary: Word, params: Word, nonce: nat, deadline: nat) {
    && |bytes| == 192
    && bytes[0..32] == typehash && NumberOf(bytes[32..64]) == action
    && bytes[64..96] == boundary && bytes[96..128] == params
    && NumberOf(bytes[128..160]) == nonce && NumberOf(bytes[160..192]) == deadline
  }

  lemma ActionWords(ws: seq<Word>, action: nat, nonce: nat, deadline: int)
    requires |ws| == 6 && action < Pow256(WORD) && nonce < Pow256(WORD) && Abs(deadline) < Pow256(WORD)
    requires ws[1] == UintWord(action) && ws[4] == UintWord(nonce) && ws[5] == UintWord(deadline)
    ensures IsAction(Concat(ws), ws[0], action, ws[2], ws[3], nonce, Abs(deadline))
  {
    hide Concat, UintWord, NumberOf, Pow256;
    WordAt(ws, 0);
    WordAt(ws, 1);
    WordAt(ws, 2);
    WordAt(ws, 3);
    WordAt(ws, 4);
    WordAt(ws, 5);
    NumberLayout(action);
    NumberLayout(nonce);
    NumberLayout(deadline);
  }

  lemma StructLayout(H: Hash, action: nat, boundary: Word, params: Word, nonce: nat, deadline: int)
    requires action < Pow256(WORD) && nonce < Pow256(WORD) && Abs(deadline) < Pow256(WORD)
    ensures IsAction(StructPreimage(H, action, boundary, params, nonce, deadline), ActionTypehash(H),
                     action, boundary, params, nonce, Abs(deadline))
  {
    hide Concat, ActionTypehash, UintWord, IsAction, Pow256;
    var ws := [ActionTypehash(H), UintWord(action), boundary, params, UintWord(nonce), UintWord(deadline)];
    ActionWords(ws, action, nonce, deadline);
  }

  /** The digest's preimage: the two marker bytes 0x19 0x01, the domain separator and the struct hash. */
  ghost predicate IsDigestPreimage(bytes: seq<Byte>, domain: Word, action: Word) {
    |bytes| == 66 && bytes[0] == 0x19 && bytes[1] == 0x01 && bytes[2..34] == domain && bytes[34..66] == action
  }

  lemma OuterLayout(H: Hash, p: Proposal)
    requires Readable(p)
    ensures IsDigestPreimage(OuterBytes(H, p), H(DomainBytes(H, p)), H(StructBytes(H, p)))
  {
    hide DomainBytes, StructBytes, Readable;
  }

  // ------------------------------------------------- reading back

  /** A number written in decimal reads back, up to what a word can hold; a negative one is refused. */
  lemma DecimalReads(n: nat)
    ensures AbiDecimal(Numeral(n)) == if n < Pow256(WORD) then Some(n) else None
    ensures n > 0 ==> AbiDecimal("-" + Numeral(n)) == None
  {
    NumeralDenotes(n);
    hide Numeral, ToNat, Pow256, TrimSpace;
    var s := Numeral(n);
    IntegerReads(s);
  }

  lemma IntegerReads(s: string)
    requires s != "" && AllDigits(s)
    ensures TrimSpace(s) == s && ParseInteger(s) == Some(ToNat(s))
    ensures TrimSpace("-" + s) == "-" + s && ParseInteger("-" + s) == Some(-(ToNat(s) as int))
  {
    TrimmedNumeral(s);
    TrimmedNumeral("-" + s);
    hide ToNat, TrimSpace;
    assert IsDigit(s[0]) && ("-" + s)[1..] == s && ("-" + s)[0] == '-';
  }

  /**
   * Twenty bytes written in hexadecimal read back as an address, 32 as a word, and
   * nothing of another length as either.
   */
  lemma HexReads(bs: seq<Byte>)
    requires bs != []
    ensures AbiAddress(Printed(bs)) == if |bs| == 20 then Some(bs) else None
    ensures AbiBytes32(Printed(bs)) == if |bs| == 32 then Some(bs) else None
  {
    DecodePrinted(bs);
    hide DecodeHex, Printed;
  }

  /** Domain and actions by name and number. */
  lemma KnownProposals(p: Proposal)
    ensures KnownDomain(p) <==> p.domainName == "ArcaCustodyKernel" && p.domainVersion == "2"
    ensures TRANSFER == 11 && TRANSFER_PRE_AUTH == 12
  {
  }
}
