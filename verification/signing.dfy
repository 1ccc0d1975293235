/** The signing half of order submission as the SDK latency harness spells
    it out (src/bin/test_sdk_internal_latency.rs): the byte preimage whose
    keccak256 is signed, the JSON rendering of the signature, and the
    `{action, nonce, signature}` payload. The msgpack encoder, keccak256,
    the EIP-712 signer and `serde_json::to_value` are given as values. */
module Signing {
  import opened Common
  import opened Digits
  import opened Json
  import Req

  /** The marker byte that says "no vault address". */
  const NoVaultMarker: Byte := 0

  /** keccak256 output. */
  type Digest = d: seq<Byte> | |d| == 32 witness seq(32, _ => 0)

  lemma ByteWidth()
    ensures Pow(256, 8) == 0x1_0000_0000_0000_0000
  {
  }

  /** `u64::to_be_bytes`. */
  function BeBytes(n: U64): (b: seq<Byte>)
    ensures |b| == 8
  {
    ToDigits(256, n, 8)
  }

  /** `u64::from_be_bytes`. */
  function FromBeBytes(b: seq<Byte>): (n: U64)
    requires |b| == 8
  {
    FromDigitsBound(256, b);
    ByteWidth();
    FromDigits(256, b)
  }

  /** Decoding the eight big-endian bytes gives back the nonce. */
  lemma BeBytesRoundTrip(n: U64)
    ensures FromBeBytes(BeBytes(n)) == n
  {
    ByteWidth();
    FromToDigits(256, n, 8);
  }

  /** Every eight bytes are the big-endian bytes of exactly one nonce. */
  lemma FromBeBytesRoundTrip(b: seq<Byte>)
    requires |b| == 8
    ensures BeBytes(FromBeBytes(b)) == b
  {
    ToFromDigits(256, b);
  }

  /** The bytes whose keccak256 is the connection id: the msgpack encoding
      of the action, the nonce as eight big-endian bytes, and the marker
      byte for an absent vault address. */
  function Preimage(actionBytes: seq<Byte>, nonce: U64): (p: seq<Byte>)
    ensures |p| == |actionBytes| + 9
    ensures p[..|actionBytes|] == actionBytes
    ensures p[|actionBytes|..|actionBytes| + 8] == BeBytes(nonce)
    ensures p[|p| - 1] == NoVaultMarker
  {
    actionBytes + BeBytes(nonce) + [NoVaultMarker]
  }

  /** Reads a preimage without a vault address back into the action bytes
      and the nonce; `None` when the input is too short or does not end in
      the marker. */
  function SplitPreimage(p: seq<Byte>): Option<(seq<Byte>, U64)>
  {
    if |p| < 9 || p[|p| - 1] != NoVaultMarker then None
    else Some((p[..|p| - 9], FromBeBytes(p[|p| - 9..|p| - 1])))
  }

  /** The preimage can be taken apart again: the action bytes are unchanged
      and the eight bytes before the marker decode to the nonce. */
  lemma PreimageRoundTrip(actionBytes: seq<Byte>, nonce: U64)
    ensures SplitPreimage(Preimage(actionBytes, nonce)) == Some((actionBytes, nonce))
  {
    var p := Preimage(actionBytes, nonce);
    assert p[|p| - 9..|p| - 1] == BeBytes(nonce);
    assert p[..|p| - 9] == actionBytes;
    BeBytesRoundTrip(nonce);
  }

  /** Every byte string that ends in the marker and holds a nonce is the
      preimage of what it splits into. */
  lemma SplitPreimageRoundTrip(p: seq<Byte>)
    requires SplitPreimage(p).Some?
    ensures Preimage(SplitPreimage(p).value.0, SplitPreimage(p).value.1) == p
  {
    FromBeBytesRoundTrip(p[|p| - 9..|p| - 1]);
    assert p == p[..|p| - 9] + p[|p| - 9..|p| - 1] + [p[|p| - 1]];
  }

  /** The preimage commits to both of its inputs: different action bytes
      or a different nonce give a different preimage. */
  lemma PreimageInjective(a1: seq<Byte>, n1: U64, a2: seq<Byte>, n2: U64)
    requires Preimage(a1, n1) == Preimage(a2, n2)
    ensures a1 == a2 && n1 == n2
  {
    PreimageRoundTrip(a1, n1);
    PreimageRoundTrip(a2, n2);
  }

  /** The characters `{:x}` writes, in digit order. */
  const HexAlphabet: string := "0123456789abcdef"

  function HexChar(d: nat): char
    requires d < 16
  {
    HexAlphabet[d]
  }

  /** The digit a lower-case hex character stands for. */
  function HexValue(c: char): Option<nat>
  {
    if '0' <= c <= '9' then Some(c as int - '0' as int)
    else if 'a' <= c <= 'f' then Some(c as int - 'a' as int + 10)
    else None
  }

  lemma HexCharRoundTrip(d: nat)
    requires d < 16
    ensures HexValue(HexChar(d)) == Some(d)
  {
  }

  lemma HexValueRoundTrip(c: char)
    requires HexValue(c).Some?
    ensures HexValue(c).value < 16 && HexChar(HexValue(c).value) == c
  {
  }

  predicate IsHexDigit(c: char)
  {
    HexValue(c).Some?
  }

  function HexString(ds: seq<nat>): (s: string)
    requires AllBelow(16, ds)
    ensures |s| == |ds|
  {
    seq(|ds|, i requires 0 <= i < |ds| => HexChar(ds[i]))
  }

  /** The digits a string of hex characters spells, or `None`. */
  function HexDigits(s: string): (ds: Option<seq<nat>>)
    ensures ds.Some? ==> |ds.value| == |s| && AllBelow(16, ds.value)
  {
    if forall i :: 0 <= i < |s| ==> IsHexDigit(s[i])
    then Some(seq(|s|, i requires 0 <= i < |s| => HexValue(s[i]).value))
    else None
  }

  lemma {:induction false} HexWidth()
    ensures Pow(16, 64) == 0x1_0000_0000_0000_0000_0000_0000_0000_0000_0000_0000_0000_0000_0000_0000_0000_0000
  {
    assert Pow(16, 4) == 0x1_0000;
    PowAdd(16, 4, 4);
    assert Pow(16, 8) == 0x1_0000_0000;
    PowAdd(16, 8, 8);
    assert Pow(16, 16) == 0x1_0000_0000_0000_0000;
    PowAdd(16, 16, 16);
    assert Pow(16, 32) == 0x1_0000_0000_0000_0000_0000_0000_0000_0000;
    PowAdd(16, 32, 32);
  }

  /** `format!("0x{:064x}", x)` for a 256-bit scalar. */
  function RenderScalar(x: U256): (s: string)
    ensures |s| == 66 && s[..2] == "0x"
    ensures forall i :: 2 <= i < |s| ==> s[i] in HexAlphabet
  {
    "0x" + HexString(ToDigits(16, x, 64))
  }

  /** Reads back what `RenderScalar` writes: `0x` and exactly 64 lower-case
      hex digits. */
  function ParseScalar(s: string): Option<U256>
  {
    if |s| != 66 || s[..2] != "0x" then None
    else match HexDigits(s[2..])
      case None => None
      case Some(ds) =>
        FromDigitsBound(16, ds);
        HexWidth();
        Some(FromDigits(16, ds))
  }

  lemma RenderScalarRoundTrip(x: U256)
    ensures ParseScalar(RenderScalar(x)) == Some(x)
  {
    var ds := ToDigits(16, x, 64);
    var s := RenderScalar(x);
    var digits := s[2..];
    forall i | 0 <= i < 64
      ensures HexValue(digits[i]) == Some(ds[i])
    {
      HexCharRoundTrip(ds[i]);
    }
    assert HexDigits(digits).value == ds;
    HexWidth();
    FromToDigits(16, x, 64);
  }

  /** The rendering is canonical: the only string that parses to `x` is
      `RenderScalar(x)`, so no upper-case digit, missing zero or extra
      digit is ever read as a scalar. */
  lemma ParseScalarRoundTrip(s: string)
    requires ParseScalar(s).Some?
    ensures RenderScalar(ParseScalar(s).value) == s
  {
    var ds := HexDigits(s[2..]).value;
    ToFromDigits(16, ds);
    var r := RenderScalar(ParseScalar(s).value);
    forall i | 2 <= i < 66
      ensures r[i] == s[i]
    {
      HexValueRoundTrip(s[i]);
      assert s[i] == s[2..][i - 2];
    }
    assert r == s;
  }

  /** A recoverable ECDSA signature: the scalars and the y-parity bit. */
  datatype Signature = Signature(r: U256, s: U256, yParity: bool)

  /** `27 + sig.v() as u64`. */
  function V(sig: Signature): (v: nat)
    ensures v == 27 || v == 28
    ensures v == 28 <==> sig.yParity
  {
    27 + if sig.yParity then 1 else 0
  }

  /** `serialize_sig`. */
  function SignatureJson(sig: Signature): (j: Json)
    ensures j.JObject? && j.fields.Keys == {"r", "s", "v"}
  {
    JObject(map["r" := JString(RenderScalar(sig.r)), "s" := JString(RenderScalar(sig.s)), "v" := JNumber(V(sig))])
  }

  /** Reads a signature back out of its JSON form. */
  function ParseSignatureJson(j: Json): Option<Signature>
  {
    match (Field(j, "r"), Field(j, "s"), Field(j, "v"))
    case (Some(JString(rs)), Some(JString(ss)), Some(JNumber(v))) =>
      (match (ParseScalar(rs), ParseScalar(ss))
       case (Some(r), Some(s)) =>
         if v == 27 then Some(Signature(r, s, false))
         else if v == 28 then Some(Signature(r, s, true))
         else None
       case _ => None)
    case _ => None
  }

  /** The JSON form of a signature loses nothing. */
  lemma SignatureJsonRoundTrip(sig: Signature)
    ensures ParseSignatureJson(SignatureJson(sig)) == Some(sig)
  {
    RenderScalarRoundTrip(sig.r);
    RenderScalarRoundTrip(sig.s);
  }

  /** The `json!({"action", "nonce", "signature"})` envelope. */
  function Payload(actionJson: Json, nonce: U64, sig: Signature): (j: Json)
    ensures j.JObject? && j.fields.Keys == {"action", "nonce", "signature"}
    ensures Field(j, "action") == Some(actionJson)
  {
    JObject(map["action" := actionJson, "nonce" := JNumber(nonce), "signature" := SignatureJson(sig)])
  }

  /** The nonce an envelope carries, if it carries a `u64` one. */
  function PayloadNonce(j: Json): Option<U64>
  {
    match Field(j, "nonce")
    case Some(JNumber(n)) => if 0 <= n < 0x1_0000_0000_0000_0000 then Some(n) else None
    case _ => None
  }

  /** The library steps of one submission. Each may fail except keccak256. */
  datatype Collaborators = Collaborators(
    encodeAction: Fallible<seq<Byte>>,
    keccak256: seq<Byte> -> Digest,
    signL1Action: (Digest, bool) -> Fallible<Signature>,
    actionToJson: Fallible<Json>)

  /** The connection id of an encoded action: keccak256 of its preimage. */
  function ConnectionId(c: Collaborators, actionBytes: seq<Byte>, nonce: U64): Digest
  {
    c.keccak256(Preimage(actionBytes, nonce))
  }

  /** Steps 5 to 8 of the harness: encode, hash, sign for the network the
      exchange client's base URL names, render the action as JSON and
      assemble the envelope. The first failing step ends the run with its
      message. */
  function SignedPayload(c: Collaborators, client: Req.HttpClient, nonce: U64): (r: Fallible<Json>)
    ensures r.Done? <==>
      && c.encodeAction.Done?
      && c.signL1Action(ConnectionId(c, c.encodeAction.value, nonce), Req.IsMainnet(client)).Done?
      && c.actionToJson.Done?
    ensures c.encodeAction.Failed? ==> r == Failed("Failed to serialize: " + c.encodeAction.reason)
    ensures c.encodeAction.Done? ==>
      var signed := c.signL1Action(ConnectionId(c, c.encodeAction.value, nonce), Req.IsMainnet(client));
      && (signed.Failed? ==> r == Failed(signed.reason))
      && (signed.Done? && c.actionToJson.Failed? ==>
            r == Failed("Failed to serialize to JSON: " + c.actionToJson.reason))
    ensures r.Done? ==> Field(r.value, "action") == Some(c.actionToJson.value)
  {
    match c.encodeAction
    case Failed(e) => Failed("Failed to serialize: " + e)
    case Done(bytes) =>
      match c.signL1Action(ConnectionId(c, bytes, nonce), Req.IsMainnet(client))
      case Failed(e) => Failed(e)
      case Done(sig) =>
        match c.actionToJson
        case Failed(e) => Failed("Failed to serialize to JSON: " + e)
        case Done(actionJson) => Done(Payload(actionJson, nonce, sig))
  }

  /** A payload that is produced sends the same nonce that was hashed into
      the signed preimage, and its signature is the one the signer gave for
      that preimage's digest on the network the client targets. */
  lemma PayloadAgreesWithPreimage(c: Collaborators, client: Req.HttpClient, nonce: U64)
    requires SignedPayload(c, client, nonce).Done?
    ensures var payload := SignedPayload(c, client, nonce).value;
      var preimage := Preimage(c.encodeAction.value, nonce);
      && SplitPreimage(preimage).Some?
      && PayloadNonce(payload) == Some(SplitPreimage(preimage).value.1)
      && Field(payload, "signature").Some?
      && ParseSignatureJson(Field(payload, "signature").value)
         == Some(c.signL1Action(c.keccak256(preimage), Req.IsMainnet(client)).value)
  {
    PreimageRoundTrip(c.encodeAction.value, nonce);
    SignatureJsonRoundTrip(c.signL1Action(ConnectionId(c, c.encodeAction.value, nonce), Req.IsMainnet(client)).value);
  }
}
