/**
 * The signing preimage of a venue hop in cosign.go: ABI words, the EIP-712
 * domain separator and struct hash, and Verify. The hash is a parameter: any
 * function from bytes to 32-byte words.
 */
module Cosign {
  import opened Text

  type Byte = b: nat | b < 256

  const WORD := 32

  type Word = w: seq<Byte> | |w| == WORD witness seq(WORD, _ => 0)

  type Hash = seq<Byte> -> Word

  // ------------------------------------------------- big-endian numbers

  function Pow256(k: nat): (p: nat)
    ensures p > 0
  {
    if k == 0 then 1 else 256 * Pow256(k - 1)
  }

  /** n as k bytes, most significant first. */
  function BigEndian(n: nat, k: nat): (bs: seq<Byte>)
    ensures |bs| == k
  {
    if k == 0 then [] else BigEndian(n / 256, k - 1) + [n % 256]
  }

  /** The number that bytes denote, most significant first. */
  function NumberOf(bs: seq<Byte>): nat {
    if bs == [] then 0 else 256 * NumberOf(bs[..|bs| - 1]) + bs[|bs| - 1]
  }

  /** Encoding loses nothing below 256^k. */
  lemma {:induction false} BigEndianDenotes(n: nat, k: nat)
    requires n < Pow256(k)
    ensures NumberOf(BigEndian(n, k)) == n
  {
    if k > 0 {
      BigEndianDenotes(n / 256, k - 1);
      var bs := BigEndian(n, k);
      assert bs[..k - 1] == BigEndian(n / 256, k - 1);
    }
  }

  lemma {:induction false} Pow256Grows(a: nat, b: nat)
    requires a <= b
    ensures Pow256(a) <= Pow256(b)
  {
    if a < b { Pow256Grows(a, b - 1); }
  }

  /** Every number that fits in 64 bits, in magnitude, fits in a word. */
  lemma FitsWord(v: int)
    requires -0x8000_0000_0000_0000 <= v < 0x8000_0000_0000_0000
    ensures Abs(v) < Pow256(WORD)
  {
    Pow256Grows(8, WORD);
    Pow8();
  }

  lemma Pow8()
    ensures Pow256(8) == 0x1_0000_0000_0000_0000
  {
    assert Pow256(4) == 0x1_0000_0000;
  }

  /** abiUint: FillBytes writes the magnitude from the last byte back. */
  method AbiUint(v: int) returns (out: array<Byte>)
    requires Abs(v) < Pow256(WORD)
    ensures out.Length == WORD && fresh(out)
    ensures out[..] == BigEndian(Abs(v), WORD)
  {
    out := new Byte[WORD](_ => 0);
    var rest: nat := Abs(v);
    var i: nat := WORD;
    while i > 0
      invariant 0 <= i <= WORD && out.Length == WORD
      invariant BigEndian(Abs(v), WORD) == BigEndian(rest, i) + out[i..]
    {
      i := i - 1;
      ghost var tail := out[i + 1..];
      out[i] := rest % 256;
      assert out[i..] == [rest % 256] + tail;
      rest := rest / 256;
    }
    assert out[0..] == out[..];
  }

  function UintWord(v: int): Word { BigEndian(Abs(v), WORD) }

  // ------------------------------------------------- hexadecimal

  function HexDigit(d: nat): (c: char)
    requires d < 16
    ensures c != 'x' && c != 'X' && c != ' ' && !IsSpace(c)
  {
    if d < 10 then '0' + d as char else 'a' + (d - 10) as char
  }

  function HexValue(c: char): (d: Option<nat>)
    ensures d.Some? ==> d.value < 16
  {
    if '0' <= c <= '9' then Some(c as nat - '0' as nat)
    else if 'a' <= c <= 'f' then Some(c as nat - 'a' as nat + 10)
    else if 'A' <= c <= 'F' then Some(c as nat - 'A' as nat + 10)
    else None
  }

  function HexString(bs: seq<Byte>): (s: string)
    ensures |s| == 2 * |bs|
  {
    if bs == [] then "" else [HexDigit(bs[0] / 16), HexDigit(bs[0] % 16)] + HexString(bs[1..])
  }

  /** hex.DecodeString: pairs of digits of either case. */
  function DecodePairs(s: string): Option<seq<Byte>>
    decreases |s|
  {
    if s == "" then Some([])
    else if |s| == 1 then None
    else
      var hi, lo, rest := HexValue(s[0]), HexValue(s[1]), DecodePairs(s[2..]);
      if hi.None? || lo.None? || rest.None? then None
      else Some([16 * hi.value + lo.value] + rest.value)
  }

  function Bare(s: string): string { TrimPrefix(TrimPrefix(s, "0x"), "0X") }

  function DecodeHex(s: string): Option<seq<Byte>> {
    var t := Bare(TrimSpace(s));
    if t == "" then None else DecodePairs(t)
  }

  function Printed(bs: seq<Byte>): string { "0x" + HexString(bs) }

  lemma {:induction false} PairsOfHex(bs: seq<Byte>)
    ensures DecodePairs(HexString(bs)) == Some(bs)
  {
    if bs != [] {
      var s := HexString(bs);
      assert s[2..] == HexString(bs[1..]);
      PairsOfHex(bs[1..]);
      HexRoundTrip(bs[0] / 16);
      HexRoundTrip(bs[0] % 16);
      assert [bs[0]] + bs[1..] == bs;
    }
  }

  lemma HexRoundTrip(d: nat)
    requires d < 16
    ensures HexValue(HexDigit(d)) == Some(d)
  {
  }

  lemma BareOfPrinted(bs: seq<Byte>)
    ensures Bare(Printed(bs)) == HexString(bs)
  {
    var h := HexString(bs);
    assert Printed(bs)[2..] == h;
    if |h| >= 2 { assert h[1] != 'X'; }
  }

  lemma TrimPrinted(bs: seq<Byte>)
    ensures TrimSpace(Printed(bs)) == Printed(bs)
  {
    var s := Printed(bs);
    LastHex(bs);
  }

  lemma {:induction false} LastHex(bs: seq<Byte>)
    ensures bs != [] ==> !IsSpace(HexString(bs)[|HexString(bs)| - 1])
  {
    if |bs| > 1 { LastHex(bs[1..]); }
  }

  /** Reading back what was printed. */
  lemma DecodePrinted(bs: seq<Byte>)
    requires bs != []
    ensures DecodeHex(Printed(bs)) == Some(bs)
  {
    TrimPrinted(bs);
    BareOfPrinted(bs);
    PairsOfHex(bs);
  }

  // ------------------------------------------------- ABI words

  /** big.Int.SetString in base ten: an optional sign and at least one digit. */
  function ParseInteger(s: string): Option<int> {
    var digits := if s != "" && (s[0] == '-' || s[0] == '+') then s[1..] else s;
    if digits == "" || !AllDigits(digits) then None
    else
      var n: int := ToNat(digits);
      Some(if s[0] == '-' then -n else n)
  }

  /** The number abiDecimal encodes. */
  function AbiDecimal(s: string): (r: Option<nat>)
    ensures r.Some? ==> r.value < Pow256(WORD)
  {
    match ParseInteger(TrimSpace(s))
    case None => None
    case Some(v) => if 0 <= v < Pow256(WORD) then Some(v) else None
  }

  /** The twenty bytes abiAddress pads to a word. */
  function AbiAddress(s: string): (r: Option<seq<Byte>>)
    ensures r.Some? ==> |r.value| == 20
  {
    match DecodeHex(s)
    case None => None
    case Some(raw) => if |raw| == 20 then Some(raw) else None
  }

  function AddressWord(raw: seq<Byte>): Word
    requires |raw| == 20
  {
    BigEndian(0, 12) + raw
  }

  function AbiBytes32(s: string): (r: Option<Word>)
    ensures r.Some? ==> DecodeHex(s) == Some(r.value)
  {
    match DecodeHex(s)
    case None => None
    case Some(raw) => if |raw| == WORD then Some(raw) else None
  }

  /** Words one after the other. */
  function Concat(ws: seq<Word>): (bs: seq<Byte>)
    ensures |bs| == WORD * |ws|
  {
    if ws == [] then [] else Concat(ws[..|ws| - 1]) + ws[|ws| - 1]
  }

  lemma {:induction false} ConcatInjective(ws: seq<Word>, vs: seq<Word>)
    requires |ws| == |vs| && Concat(ws) == Concat(vs)
    ensures ws == vs
  {
    if ws != [] {
      var n := |ws| - 1;
      assert Concat(ws)[..WORD * n] == Concat(ws[..n]) && Concat(vs)[..WORD * n] == Concat(vs[..n]);
      assert Concat(ws)[WORD * n..] == ws[n] && Concat(vs)[WORD * n..] == vs[n];
      ConcatInjective(ws[..n], vs[..n]);
      assert ws == ws[..n] + [ws[n]] && vs == vs[..n] + [vs[n]];
    }
  }

  /** The loop that appends each word to the buffer. */
  method AppendWords(words: seq<Word>) returns (buf: seq<Byte>)
    ensures buf == Concat(words)
  {
    buf := [];
    for i := 0 to |words|
      invariant buf == Concat(words[..i])
    {
      assert words[..i + 1][..i] == words[..i];
      buf := buf + words[i];
    }
    assert words[..|words|] == words;
  }

  lemma AddressInjective(a: seq<Byte>, b: seq<Byte>)
    requires |a| == |b| == 20 && AddressWord(a) == AddressWord(b)
    ensures a == b
  {
    assert AddressWord(a)[12..] == a && AddressWord(b)[12..] == b;
  }

  lemma UintInjective(a: int, b: int)
    requires Abs(a) < Pow256(WORD) && Abs(b) < Pow256(WORD) && UintWord(a) == UintWord(b)
    ensures Abs(a) == Abs(b)
  {
    BigEndianDenotes(Abs(a), WORD);
    BigEndianDenotes(Abs(b), WORD);
  }

  // ------------------------------------------------- the digest

  const DOMAIN_NAME := "ArcaCustodyKernel"
  const DOMAIN_VERSION := "2"
  const TRANSFER: nat := 11
  const TRANSFER_PRE_AUTH: nat := 12

  /** The bytes of an ASCII text. */
  function Ascii(s: string): (bs: seq<Byte>)
    ensures |bs| == |s| && forall i :: 0 <= i < |s| ==> bs[i] == s[i] as nat % 256
  {
    if s == "" then [] else [s[0] as nat % 256] + Ascii(s[1..])
  }

  function DomainTypehash(H: Hash): Word {
    H(Ascii("EIP712Domain(string name,string version,uint256 chainId,address verifyingContract)"))
  }

  function ActionTypehash(H: Hash): Word {
    H(Ascii("OperatorAction(uint8 actionType,bytes32 boundary,bytes32 paramsHash,uint256 nonce,uint256 deadline)"))
  }

  /** The words every domain shares. */
  function DomainHead(H: Hash): (ws: seq<Word>)
    ensures |ws| == 3
  {
    [DomainTypehash(H), H(Ascii(DOMAIN_NAME)), H(Ascii(DOMAIN_VERSION))]
  }

  function DomainPreimage(H: Hash, chainId: int, kernel: seq<Byte>): (bs: seq<Byte>)
    requires |kernel| == 20
    ensures |bs| == 160
  {
    Concat(DomainHead(H) + [UintWord(chainId), AddressWord(kernel)])
  }

  function DomainSeparator(H: Hash, chainId: int, kernelAddress: string): Option<string> {
    match AbiAddress(kernelAddress)
    case None => None
    case Some(kernel) => Some(Printed(H(DomainPreimage(H, chainId, kernel))))
  }

  datatype OperatorAction = OperatorAction(
    chainId: int,
    kernelAddress: string,
    action: nat,
    boundary: string,
    paramsHash: string,
    nonce: string,
    deadline: int)

  function StructPreimage(
    H: Hash, action: nat, boundary: Word, params: Word, nonce: nat, deadline: int): (bs: seq<Byte>)
    ensures |bs| == 192
  {
    Concat([ActionTypehash(H), UintWord(action), boundary, params, UintWord(nonce), UintWord(deadline)])
  }

  function OuterPreimage(separator: Word, structHash: Word): (bs: seq<Byte>)
    ensures |bs| == 66
  {
    [0x19, 0x01] + separator + structHash
  }

  function OperatorActionDigest(H: Hash, a: OperatorAction): Option<string> {
    var boundary, params, nonce := AbiBytes32(a.boundary), AbiBytes32(a.paramsHash), AbiDecimal(a.nonce);
    var separator := DomainSeparator(H, a.chainId, a.kernelAddress);
    if boundary.None? || params.None? || nonce.None? || separator.None? then None
    else
      var ds := AbiBytes32(separator.value);
      if ds.None? then None
      else
        var structHash := H(StructPreimage(H, a.action, boundary.value, params.value, nonce.value, a.deadline));
        Some(Printed(H(OuterPreimage(ds.value, structHash))))
  }

  datatype Params = Params(
    fromVenue: string,
    fromBoundary: string,
    toBoundary: string,
    toVenue: string,
    toVenueAccount: string,
    token: string,
    amount: string,
    ref: string)

  /** The eight words of a hop, when every field reads. */
  function ParamWords(p: Params): Option<seq<Word>> {
    var fromVenue, fromBoundary, toBoundary := AbiAddress(p.fromVenue), AbiBytes32(p.fromBoundary), AbiBytes32(p.toBoundary);
    var toVenue, account, token := AbiAddress(p.toVenue), AbiBytes32(p.toVenueAccount), AbiAddress(p.token);
    var amount, ref := AbiDecimal(p.amount), AbiBytes32(p.ref);
    if fromVenue.None? || fromBoundary.None? || toBoundary.None? || toVenue.None?
       || account.None? || token.None? || amount.None? || ref.None?
    then None
    else Some([AddressWord(fromVenue.value), fromBoundary.value, toBoundary.value, AddressWord(toVenue.value),
               account.value, AddressWord(token.value), UintWord(amount.value), ref.value])
  }

  method TransferBetweenVenuesParamsHash(H: Hash, p: Params) returns (r: Option<string>)
    ensures r == ParamsHash(H, p)
  {
    var words := ParamWords(p);
    if words.None? {
      return None;
    }
    var buf := AppendWords(words.value);
    return Some(Printed(H(buf)));
  }

  function ParamsHash(H: Hash, p: Params): Option<string> {
    var words := ParamWords(p);
    if words.None? then None else Some(Printed(H(Concat(words.value))))
  }

  // ------------------------------------------------- verification

  datatype Proposal = Proposal(
    domainName: string,
    domainVersion: string,
    chainId: int,
    kernelAddress: string,
    action: nat,
    params: Params,
    nonce: string,
    deadline: int,
    paramsHash: string,
    digest: string)

  predicate HexEqual(a: string, b: string) { ToUpper(Bare(a)) == ToUpper(Bare(b)) }

  function DigestOf(H: Hash, p: Proposal, paramsHash: string): Option<string> {
    OperatorActionDigest(
      H, OperatorAction(p.chainId, p.kernelAddress, p.action, p.params.fromBoundary, paramsHash, p.nonce, p.deadline))
  }

  predicate KnownDomain(p: Proposal) { p.domainName == DOMAIN_NAME && p.domainVersion == DOMAIN_VERSION }

  predicate Verify(H: Hash, p: Proposal) {
    && KnownDomain(p)
    && (p.action == TRANSFER || p.action == TRANSFER_PRE_AUTH)
    && var paramsHash := ParamsHash(H, p.params);
       && paramsHash.Some? && HexEqual(paramsHash.value, p.paramsHash)
       && var digest := DigestOf(H, p, paramsHash.value);
          digest.Some? && HexEqual(digest.value, p.digest)
  }

  /** 64-bit chain ids and deadlines. */
  predicate Wire(p: Proposal) {
    && -0x8000_0000_0000_0000 <= p.chainId < 0x8000_0000_0000_0000
    && -0x8000_0000_0000_0000 <= p.deadline < 0x8000_0000_0000_0000
  }

  // ------------------------------------------------- what a digest binds

  /** What the signer commits to. */
  datatype Hop = Hop(
    action: nat,
    chainId: nat,
    kernel: seq<Byte>,
    words: seq<Word>,
    amount: nat,
    nonce: nat,
    deadline: nat)

  predicate Readable(p: Proposal) {
    ParamWords(p.params).Some? && AbiAddress(p.kernelAddress).Some? && AbiDecimal(p.nonce).Some?
  }

  /** The hop a proposal describes; signs of chain id and deadline are not part of it. */
  function Meaning(p: Proposal): Hop
    requires Readable(p)
  {
    Hop(p.action, Abs(p.chainId), AbiAddress(p.kernelAddress).value, ParamWords(p.params).value,
        AbiDecimal(p.params.amount).value, AbiDecimal(p.nonce).value, Abs(p.deadline))
  }

  function ParamsBytes(p: Proposal): seq<Byte>
    requires ParamWords(p.params).Some?
  {
    Concat(ParamWords(p.params).value)
  }

  function DomainBytes(H: Hash, p: Proposal): seq<Byte>
    requires Readable(p)
  {
    DomainPreimage(H, p.chainId, AbiAddress(p.kernelAddress).value)
  }

  function StructBytes(H: Hash, p: Proposal): seq<Byte>
    requires Readable(p)
  {
    StructPreimage(H, p.action, ParamWords(p.params).value[1], H(ParamsBytes(p)), AbiDecimal(p.nonce).value, p.deadline)
  }

  function OuterBytes(H: Hash, p: Proposal): (bs: seq<Byte>)
    requires Readable(p)
    ensures |bs| == 66
  {
    OuterPreimage(H(DomainBytes(H, p)), H(StructBytes(H, p)))
  }

  lemma {:induction false} UpperDecodes(s: string)
    ensures DecodePairs(ToUpper(s)) == DecodePairs(s)
    decreases |s|
  {
    if |s| >= 2 {
      var u := ToUpper(s);
      assert u[2..] == ToUpper(s[2..]);
      UpperDecodes(s[2..]);
    }
  }

  lemma PrintedDecides(a: seq<Byte>, b: seq<Byte>)
    ensures HexEqual(Printed(a), Printed(b)) <==> a == b
  {
    BareOfPrinted(a);
    BareOfPrinted(b);
    UpperDecodes(HexString(a));
    UpperDecodes(HexString(b));
    PairsOfHex(a);
    PairsOfHex(b);
  }

  lemma PrintedWord(w: Word)
    ensures AbiBytes32(Printed(w)) == Some(w)
  {
    DecodePrinted(w);
  }

  lemma BoundaryWord(p: Params)
    requires ParamWords(p).Some?
    ensures |ParamWords(p).value| == 8 && AbiBytes32(p.fromBoundary) == Some(ParamWords(p).value[1])
  {
    hide AbiBytes32, AbiDecimal, AbiAddress, AddressWord, UintWord;
  }

  lemma DigestIsHash(H: Hash, p: Proposal)
    requires ParamWords(p.params).Some?
    ensures var d := DigestOf(H, p, Printed(H(ParamsBytes(p))));
            && (d.Some? <==> Readable(p))
            && (d.Some? ==> d.value == Printed(H(OuterBytes(H, p))))
  {
    hide Printed, AbiBytes32, Concat, AbiDecimal, AbiAddress, DomainPreimage, StructPreimage, OuterPreimage;
    BoundaryWord(p.params);
    hide ParamWords;
    PrintedWord(H(ParamsBytes(p)));
    if AbiAddress(p.kernelAddress).Some? {
      PrintedWord(H(DomainPreimage(H, p.chainId, AbiAddress(p.kernelAddress).value)));
    }
  }

  /**
   * Verify, both ways: a proposal passes exactly when its domain and action are
   * known, its fields read, and the two hashes it carries are those of its own
   * preimages. So an honest proposal always passes.
   */
  lemma VerifyIffOwnHashes(H: Hash, p: Proposal)
    ensures Verify(H, p) <==>
              && KnownDomain(p) && (p.action == TRANSFER || p.action == TRANSFER_PRE_AUTH) && Readable(p)
              && HexEqual(Printed(H(ParamsBytes(p))), p.paramsHash) && HexEqual(Printed(H(OuterBytes(H, p))), p.digest)
  {
    hide KnownDomain, HexEqual, Printed, ParamWords, OuterBytes, DigestOf, AbiDecimal, AbiAddress, Concat;
    if ParamWords(p.params).Some? {
      DigestIsHash(H, p);
    }
  }

  ghost predicate Collides(H: Hash, x: seq<Byte>, y: seq<Byte>) { x != y && H(x) == H(y) }

  lemma OuterSplits(H: Hash, p: Proposal, q: Proposal)
    requires Readable(p) && Readable(q) && OuterBytes(H, p) == OuterBytes(H, q)
    ensures H(DomainBytes(H, p)) == H(DomainBytes(H, q)) && H(StructBytes(H, p)) == H(StructBytes(H, q))
  {
    hide DomainBytes, StructBytes, Readable;
    var x, y := OuterBytes(H, p), OuterBytes(H, q);
    assert x[2..34] == H(DomainBytes(H, p)) && y[2..34] == H(DomainBytes(H, q));
    assert x[34..] == H(StructBytes(H, p)) && y[34..] == H(StructBytes(H, q));
  }

  lemma DomainBinds(H: Hash, p: Proposal, q: Proposal)
    requires Readable(p) && Readable(q) && Wire(p) && Wire(q) && DomainBytes(H, p) == DomainBytes(H, q)
    ensures Abs(p.chainId) == Abs(q.chainId) && AbiAddress(p.kernelAddress) == AbiAddress(q.kernelAddress)
  {
    var a, b := AbiAddress(p.kernelAddress).value, AbiAddress(q.kernelAddress).value;
    hide Concat, DomainHead, UintWord, AddressWord, Pow256;
    var ws := DomainHead(H) + [UintWord(p.chainId), AddressWord(a)];
    var vs := DomainHead(H) + [UintWord(q.chainId), AddressWord(b)];
    ConcatInjective(ws, vs);
    assert ws[3] == vs[3] && ws[4] == vs[4];
    FitsWord(p.chainId);
    FitsWord(q.chainId);
    UintInjective(p.chainId, q.chainId);
    AddressInjective(a, b);
  }

  lemma StructBinds(H: Hash, p: Proposal, q: Proposal)
    requires Readable(p) && Readable(q) && Wire(p) && Wire(q) && p.action < 256 && q.action < 256
    requires StructBytes(H, p) == StructBytes(H, q)
    ensures p.action == q.action && H(ParamsBytes(p)) == H(ParamsBytes(q))
    ensures AbiDecimal(p.nonce) == AbiDecimal(q.nonce) && Abs(p.deadline) == Abs(q.deadline)
  {
    var m, n := AbiDecimal(p.nonce).value, AbiDecimal(q.nonce).value;
    hide Concat, ActionTypehash, UintWord, AddressWord, Pow256, ParamWords, ParamsBytes;
    var ws := [ActionTypehash(H), UintWord(p.action), ParamWords(p.params).value[1],
               H(ParamsBytes(p)), UintWord(m), UintWord(p.deadline)];
    var vs := [ActionTypehash(H), UintWord(q.action), ParamWords(q.params).value[1],
               H(ParamsBytes(q)), UintWord(n), UintWord(q.deadline)];
    ConcatInjective(ws, vs);
    assert ws[1] == vs[1] && ws[3] == vs[3] && ws[4] == vs[4] && ws[5] == vs[5];
    FitsWord(p.action);
    FitsWord(q.action);
    FitsWord(p.deadline);
    FitsWord(q.deadline);
    UintInjective(p.action, q.action);
    UintInjective(m, n);
    UintInjective(p.deadline, q.deadline);
  }

  lemma ParamsBind(p: Proposal, q: Proposal)
    requires Readable(p) && Readable(q) && ParamsBytes(p) == ParamsBytes(q)
    ensures ParamWords(p.params) == ParamWords(q.params)
    ensures AbiDecimal(p.params.amount) == AbiDecimal(q.params.amount)
  {
    var ws, vs := ParamWords(p.params).value, ParamWords(q.params).value;
    hide Concat, UintWord, AddressWord;
    ConcatInjective(ws, vs);
    assert ws[6] == vs[6];
    UintInjective(AbiDecimal(p.params.amount).value, AbiDecimal(q.params.amount).value);
  }

  /**
   * The digest binds every field. Two proposals that verify and carry the same
   * digest describe the same hop: action, chain, kernel, both boundaries, both
   * venues, sub-account, token, raw amount, ref, nonce and deadline. The only
   * way out is a collision of the hash between two of their own preimages.
   */
  lemma DigestBindsEveryField(H: Hash, p: Proposal, q: Proposal)
    requires Verify(H, p) && Verify(H, q) && Wire(p) && Wire(q) && HexEqual(p.digest, q.digest)
    ensures Readable(p) && Readable(q)
    ensures || Meaning(p) == Meaning(q)
            || Collides(H, OuterBytes(H, p), OuterBytes(H, q))
            || Collides(H, DomainBytes(H, p), DomainBytes(H, q))
            || Collides(H, StructBytes(H, p), StructBytes(H, q))
            || Collides(H, ParamsBytes(p), ParamsBytes(q))
  {
    hide Verify, Printed, ToUpper, Bare, OuterBytes, DomainBytes, StructBytes, ParamsBytes, ParamWords, AbiAddress, AbiDecimal;
    VerifyIffOwnHashes(H, p);
    VerifyIffOwnHashes(H, q);
    PrintedDecides(H(OuterBytes(H, p)), H(OuterBytes(H, q)));
    if OuterBytes(H, p) == OuterBytes(H, q) {
      OuterSplits(H, p, q);
      if DomainBytes(H, p) == DomainBytes(H, q) && StructBytes(H, p) == StructBytes(H, q) {
        DomainBinds(H, p, q);
        StructBinds(H, p, q);
        if ParamsBytes(p) == ParamsBytes(q) {
          ParamsBind(p, q);
        }
      }
    }
  }

  /** Each word of the hop stands for exactly one reading of its field. */
  lemma WordsAreFields(p: Params, q: Params)
    requires ParamWords(p).Some? && ParamWords(p) == ParamWords(q)
    ensures AbiAddress(p.fromVenue) == AbiAddress(q.fromVenue) && AbiAddress(p.toVenue) == AbiAddress(q.toVenue)
    ensures AbiAddress(p.token) == AbiAddress(q.token)
    ensures DecodeHex(p.fromBoundary) == DecodeHex(q.fromBoundary) && DecodeHex(p.toBoundary) == DecodeHex(q.toBoundary)
    ensures DecodeHex(p.toVenueAccount) == DecodeHex(q.toVenueAccount) && DecodeHex(p.ref) == DecodeHex(q.ref)
    ensures AbiDecimal(p.amount) == AbiDecimal(q.amount)
  {
    var ws, vs := ParamWords(p).value, ParamWords(q).value;
    assert ws[0] == vs[0] && ws[1] == vs[1] && ws[2] == vs[2] && ws[3] == vs[3];
    assert ws[4] == vs[4] && ws[5] == vs[5] && ws[6] == vs[6] && ws[7] == vs[7];
    hide DecodeHex, AddressWord, UintWord;
    AddressInjective(AbiAddress(p.fromVenue).value, AbiAddress(q.fromVenue).value);
    AddressInjective(AbiAddress(p.toVenue).value, AbiAddress(q.toVenue).value);
    AddressInjective(AbiAddress(p.token).value, AbiAddress(q.token).value);
    UintInjective(AbiDecimal(p.amount).value, AbiDecimal(q.amount).value);
  }

  /** And nothing else is bound: proposals that describe the same hop, however spelled, carry the same digest. */
  lemma SameHopSameDigest(H: Hash, p: Proposal, q: Proposal)
    requires Verify(H, p) && Verify(H, q) && Readable(p) && Readable(q) && Meaning(p) == Meaning(q)
    ensures HexEqual(p.digest, q.digest) && HexEqual(p.paramsHash, q.paramsHash)
  {
    hide Verify, Printed, ParamWords, AbiAddress, AbiDecimal, Concat, OuterBytes, ParamsBytes, ToUpper, Bare;
    VerifyIffOwnHashes(H, p);
    VerifyIffOwnHashes(H, q);
    SameHopSameBytes(H, p, q);
  }

  lemma SameHopSameBytes(H: Hash, p: Proposal, q: Proposal)
    requires Readable(p) && Readable(q) && Meaning(p) == Meaning(q)
    ensures OuterBytes(H, p) == OuterBytes(H, q) && ParamsBytes(p) == ParamsBytes(q)
  {
    hide ParamWords, AbiAddress, AbiDecimal, Concat, DomainHead, ActionTypehash, OuterPreimage;
  }

  /** Without such a collision, and with chain id and deadline not negative, the two proposals agree field by field. */
  lemma CollisionFreeBinds(H: Hash, p: Proposal, q: Proposal)
    requires Verify(H, p) && Verify(H, q) && Wire(p) && Wire(q) && HexEqual(p.digest, q.digest)
    requires p.chainId >= 0 && q.chainId >= 0 && p.deadline >= 0 && q.deadline >= 0
    requires forall x, y :: x in Hashed(H, p) && y in Hashed(H, q) && H(x) == H(y) ==> x == y
    ensures p.action == q.action && p.chainId == q.chainId && AbiAddress(p.kernelAddress) == AbiAddress(q.kernelAddress)
    ensures DecodeHex(p.params.fromBoundary) == DecodeHex(q.params.fromBoundary)
    ensures DecodeHex(p.params.toBoundary) == DecodeHex(q.params.toBoundary)
    ensures AbiAddress(p.params.fromVenue) == AbiAddress(q.params.fromVenue)
    ensures AbiAddress(p.params.toVenue) == AbiAddress(q.params.toVenue)
    ensures DecodeHex(p.params.toVenueAccount) == DecodeHex(q.params.toVenueAccount)
    ensures AbiAddress(p.params.token) == AbiAddress(q.params.token)
    ensures AbiDecimal(p.params.amount) == AbiDecimal(q.params.amount) && DecodeHex(p.params.ref) == DecodeHex(q.params.ref)
    ensures AbiDecimal(p.nonce) == AbiDecimal(q.nonce) && p.deadline == q.deadline
  {
    hide HexEqual, Verify, ParamWords, DecodeHex, OuterBytes, DomainBytes, StructBytes, ParamsBytes, Pow256;
    DigestBindsEveryField(H, p, q);
    assert Meaning(p) == Meaning(q);
    WordsAreFields(p.params, q.params);
  }

  /** The preimages a proposal's digest hashes. */
  ghost function Hashed(H: Hash, p: Proposal): set<seq<Byte>> {
    if Readable(p) then {OuterBytes(H, p), DomainBytes(H, p), StructBytes(H, p), ParamsBytes(p)} else {}
  }

  /**
   * A chain id and its negation are one word, and so are a deadline and its
   * negation: a digest tells neither pair apart.
   */
  lemma SignIsNotBound(H: Hash, a: OperatorAction)
    ensures OperatorActionDigest(H, a) == OperatorActionDigest(H, a.(chainId := -a.chainId))
    ensures OperatorActionDigest(H, a) == OperatorActionDigest(H, a.(deadline := -a.deadline))
  {
    hide AbiBytes32, AbiDecimal, DomainSeparator, Printed, OuterPreimage, StructPreimage, Pow256, DecodeHex;
    SeparatorSign(H, a.chainId, a.kernelAddress);
    var boundary, params, nonce := AbiBytes32(a.boundary), AbiBytes32(a.paramsHash), AbiDecimal(a.nonce);
    if boundary.Some? && params.Some? && nonce.Some? {
      StructSign(H, a.action, boundary.value, params.value, nonce.value, a.deadline);
    }
  }

  lemma SeparatorSign(H: Hash, chainId: int, kernelAddress: string)
    ensures DomainSeparator(H, chainId, kernelAddress) == DomainSeparator(H, -chainId, kernelAddress)
  {
    hide AbiAddress, Printed, DomainPreimage;
    var kernel := AbiAddress(kernelAddress);
    if kernel.Some? { DomainSign(H, chainId, kernel.value); }
  }

  lemma UintSign(v: int)
    ensures UintWord(v) == UintWord(-v)
  {
    hide BigEndian;
  }

  lemma DomainSign(H: Hash, chainId: int, kernel: seq<Byte>)
    requires |kernel| == 20
    ensures DomainPreimage(H, chainId, kernel) == DomainPreimage(H, -chainId, kernel)
  {
    UintSign(chainId);
    hide UintWord, Concat, DomainHead, AddressWord;
  }

  lemma StructSign(H: Hash, action: nat, boundary: Word, params: Word, nonce: nat, deadline: int)
    ensures StructPreimage(H, action, boundary, params, nonce, deadline) ==
              StructPreimage(H, action, boundary, params, nonce, -deadline)
  {
    UintSign(deadline);
    hide UintWord, Concat, ActionTypehash;
  }
}
