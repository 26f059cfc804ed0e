/**
  The cryptographic collaborator of the peer identity, seen only at its
  interface: opaque key objects, JSON Web Keys as text, and a provider whose
  operations are passed in as total functions (a rejected promise is `None`).
  Nothing here says how RSASSA-PKCS1-v1_5 over SHA-512 works.
 */
module Crypto {
  import opened Wrappers
  import opened Bytes

  /** A WebCrypto `CryptoKey`, known only by identity. */
  datatype CryptoKey = CryptoKey(handle: nat)

  /** The two halves returned by key generation. */
  datatype KeyPair = KeyPair(privateKey: CryptoKey, publicKey: CryptoKey)

  /** The key usage requested on import: `sign` for private keys, `verify` for public ones. */
  datatype Usage = SignUsage | VerifyUsage

  /** An exported JSON Web Key: a JSON object whose members are kept as opaque text. */
  datatype Jwk = Jwk(members: string)

  /** `JSON.stringify` of a key: an object text, so never empty. */
  function Stringify(j: Jwk): (t: string)
    ensures |t| >= 2 && t[0] == '{' && t[|t| - 1] == '}'
  {
    "{" + j.members + "}"
  }

  /**
    A stand-in for `JSON.parse` of a key text: it accepts exactly the texts
    that start with `{` and end with `}`, and their inside is the key.
    `None` stands for a parse that throws.
   */
  function Parse(t: string): (r: Option<Jwk>)
    ensures r.Some? <==> |t| >= 2 && t[0] == '{' && t[|t| - 1] == '}'
    ensures r.Some? ==> Stringify(r.value) == t
  {
    if |t| >= 2 && t[0] == '{' && t[|t| - 1] == '}' then Some(Jwk(t[1..|t| - 1])) else None
  }

  /** Parsing the text of a key gives back that key. */
  lemma ParseStringify(j: Jwk)
    ensures Parse(Stringify(j)) == Some(j)
  {
    assert Stringify(j)[1..|Stringify(j)| - 1] == j.members;
  }

  /**
    What the verifier is handed as the signature: octets, as WebCrypto
    expects, or a JavaScript string (`None` when the field was missing).
   */
  datatype SignatureArg = SignatureBytes(octets: seq<Byte>) | SignatureText(text: Option<string>)

  /**
    The WebCrypto operations the identity calls. Messages are strings; the
    provider signs and verifies their UTF-8 octets (`Buffer.from(text)`).
    Key export cannot fail here because every key is created extractable.
   */
  datatype Provider = Provider(
    importKey: (Jwk, Usage) -> Option<CryptoKey>,
    exportKey: CryptoKey -> Jwk,
    sign: (CryptoKey, string) -> Option<seq<Byte>>,
    verify: (CryptoKey, SignatureArg, string) -> Option<bool>)

  /**
    The provider accepts back the exported keys of `pair` for their own
    usages: the private key for signing and the public key for verifying.
   */
  predicate ReimportsPair(c: Provider, pair: KeyPair)
  {
    && c.importKey(c.exportKey(pair.privateKey), SignUsage).Some?
    && c.importKey(c.exportKey(pair.publicKey), VerifyUsage).Some?
  }

  /** Verifying with `pub` accepts every signature made with `priv`, over the same message. */
  ghost predicate Verifies(c: Provider, priv: CryptoKey, pub: CryptoKey)
  {
    forall m: string, s: seq<Byte> :: c.sign(priv, m) == Some(s) ==> c.verify(pub, SignatureBytes(s), m) == Some(true)
  }
}
