/** `verifyHmac`: the wrapper around an HMAC-SHA256 check of the request
    body. The digest and hex decoding are library calls and stay abstract;
    what is modelled is the guard, prefix stripping, length check, byte
    comparison and the fail-closed handling of exceptions. */
module Signature {
  import opened Js

  newtype byte = x: int | 0 <= x < 256

  /** The library primitives the check relies on.
      `hmacHex(key, message)` is HMAC-SHA256 of `message` under `key`, as
      lower-case hex (`createHmac('sha256', key).update(message).digest('hex')`).
      `fromHex(s)` is `Buffer.from(s, 'hex')`. Node's decoder does not throw
      on a string: it stops at the first non-hex character or at a trailing
      odd digit. The decoder stays abstract here, and its None result is a
      defensive over-approximation that exercises the `catch` of `verifyHmac`. */
  datatype Crypto = Crypto(
    hmacHex: (string, string) -> string,
    fromHex: string -> Option<seq<byte>>)

  const Sha256Prefix := "sha256="

  /** `headerSig.startsWith('sha256=') ? headerSig.slice(7) : headerSig`. */
  function StripSignaturePrefix(headerSig: string): (r: string)
    ensures Sha256Prefix <= headerSig ==> Sha256Prefix + r == headerSig
    ensures !(Sha256Prefix <= headerSig) ==> r == headerSig
  {
    if Sha256Prefix <= headerSig then headerSig[|Sha256Prefix|..] else headerSig
  }

  /** `crypto.timingSafeEqual(a, b)` on buffers of equal length (it throws on
      unequal lengths, which its caller rules out beforehand). */
  function TimingSafeEqual(a: seq<byte>, b: seq<byte>): (r: bool)
    requires |a| == |b|
    ensures r <==> forall i :: 0 <= i < |a| ==> a[i] == b[i]
  {
    a == b
  }

  /** `verifyHmac(rawBody, secret, headerSig)`; a missing argument is None.
      Every failure, including a throw from a primitive, yields false. */
  function VerifyHmac(c: Crypto, rawBody: Option<string>, secret: Option<string>, headerSig: Option<string>): (r: bool)
    ensures !TruthyStr(secret) || !TruthyStr(headerSig) || !TruthyStr(rawBody) ==> !r
    ensures r <==>
      && TruthyStr(secret) && TruthyStr(headerSig) && TruthyStr(rawBody)
      && c.fromHex(c.hmacHex(secret.value, rawBody.value)).Some?
      && c.fromHex(StripSignaturePrefix(headerSig.value)) == c.fromHex(c.hmacHex(secret.value, rawBody.value))
  {
    if !TruthyStr(secret) || !TruthyStr(headerSig) || !TruthyStr(rawBody) then false
    else
      var sig := StripSignaturePrefix(headerSig.value);
      var computed := c.hmacHex(secret.value, rawBody.value);
      match c.fromHex(computed)
      case None => false
      case Some(a) =>
        match c.fromHex(sig)
        case None => false
        case Some(b) =>
          if |a| != |b| then false else TimingSafeEqual(a, b)
  }

  /** Exactly one leading `sha256=` is removed, even when the rest starts
      with another. */
  lemma StripsOnePrefix(hex: string)
    ensures StripSignaturePrefix(Sha256Prefix + hex) == hex
    ensures StripSignaturePrefix(Sha256Prefix + Sha256Prefix + hex) == Sha256Prefix + hex
  {
  }

  /** Decoded lengths that differ always fail, without reaching the
      (throwing) constant-time comparison. */
  lemma LengthMismatchRejects(c: Crypto, rawBody: string, secret: string, headerSig: string)
    requires c.fromHex(c.hmacHex(secret, rawBody)).Some? && c.fromHex(StripSignaturePrefix(headerSig)).Some?
    requires |c.fromHex(c.hmacHex(secret, rawBody)).value| != |c.fromHex(StripSignaturePrefix(headerSig)).value|
    ensures !VerifyHmac(c, Some(rawBody), Some(secret), Some(headerSig))
  {
  }

  /** A signature that cannot be decoded fails closed: false, not an error. */
  lemma UndecodableRejects(c: Crypto, rawBody: string, secret: string, headerSig: string)
    requires c.fromHex(StripSignaturePrefix(headerSig)).None? || c.fromHex(c.hmacHex(secret, rawBody)).None?
    ensures !VerifyHmac(c, Some(rawBody), Some(secret), Some(headerSig))
  {
  }

  /** The signature a sender computes over the exact body with the shared
      secret is accepted, bare or with the `sha256=` prefix, as long as the
      digest decodes. */
  lemma CorrectSignatureAccepted(c: Crypto, rawBody: string, secret: string)
    requires rawBody != "" && secret != ""
    requires c.fromHex(c.hmacHex(secret, rawBody)).Some?
    ensures VerifyHmac(c, Some(rawBody), Some(secret), Some(Sha256Prefix + c.hmacHex(secret, rawBody)))
    ensures !(Sha256Prefix <= c.hmacHex(secret, rawBody)) && c.hmacHex(secret, rawBody) != "" ==>
      VerifyHmac(c, Some(rawBody), Some(secret), Some(c.hmacHex(secret, rawBody)))
  {
  }

  /** A body whose decoded digest differs from the signed body's (for a
      collision-free HMAC: any altered body) is rejected under the original
      signature. */
  lemma TamperedBodyRejected(c: Crypto, signed: string, tampered: string, secret: string)
    requires c.fromHex(c.hmacHex(secret, tampered)) != c.fromHex(c.hmacHex(secret, signed))
    ensures !VerifyHmac(c, Some(tampered), Some(secret), Some(Sha256Prefix + c.hmacHex(secret, signed)))
  {
  }
}
