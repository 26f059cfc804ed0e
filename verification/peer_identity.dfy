/**
  The `PeerIdentity` of index.js: one session key pair with its identifier,
  two status flags, a registry of other peers' verification keys, and the
  host key-value storage the session is saved to.

  Every method of the JavaScript class is a transition over an immutable
  `Peer` record. A method that awaits the cryptographic provider can reject
  after it has already changed the object, so each transition reports
  either the value it returned or the fault it threw, together with the
  state the object is left in.
 */
module PeerIdentity {
  import opened Wrappers
  import opened Bytes
  import opened Crypto
  import Text
  import Base58
  import Base64

  /** The three storage keys of a saved session. */
  const PrivateKeySlot := "sessionPrivateJWK"
  const PublicKeySlot := "sessionPublicJWK"
  const IdSlot := "sessionId"

  /** The field separator of signed messages. */
  const Separator: char := '.'

  /** The host's string-to-string storage (`localStorage`). */
  type Storage = map<string, string>

  /** The session: identifier and key pair, each `None` while it is `null`. */
  datatype Session = Session(id: Option<string>, privateKey: Option<CryptoKey>, publicKey: Option<CryptoKey>)

  datatype Flags = Flags(hasSession: bool, inLocalStorage: bool)

  /** One `PeerIdentity` object: `session`, `state`, `peer.sessions` and the storage it writes to. */
  datatype Peer = Peer(session: Session, state: Flags, sessions: map<string, CryptoKey>, storage: Storage)

  /** Why a transition threw. */
  datatype Fault =
    | JsonSyntax      // JSON.parse of a key text threw
    | ImportRejected  // importKey rejected the key
    | NullKey         // exportKey or sign was handed a null key
    | GenerateRejected
    | SignRejected
    | VerifyRejected
    | DecodeFailed    // a message field is missing or is not base58
    | NullId          // the session id to encode is null

  /** A transition's result: what it returned or threw, and the object afterwards. */
  datatype Outcome<+T> = Returned(value: T, after: Peer) | Threw(fault: Fault, after: Peer)

  /** `localStorage.getItem`: `None` for a key never set. */
  function GetItem(storage: Storage, key: string): Option<string>
  {
    if key in storage then Some(storage[key]) else None
  }

  /** JavaScript truthiness of a `getItem` result: set and not the empty string. */
  predicate Present(item: Option<string>)
  {
    item.Some? && item.value != ""
  }

  /** `localStorage.setItem` stores `String(value)`, so a null id is written as "null". */
  function IdText(id: Option<string>): string
  {
    match id
    case None => "null"
    case Some(s) => s
  }

  predicate IsSessionSlot(key: string)
  {
    key == PrivateKeySlot || key == PublicKeySlot || key == IdSlot
  }

  /** Whether `text` parses to a key that the provider imports for `usage`. */
  predicate Imports(c: Provider, text: string, usage: Usage)
  {
    Parse(text).Some? && c.importKey(Parse(text).value, usage).Some?
  }

  /** The constructor: no session, no peers, over the given storage. */
  function New(storage: Storage): (p: Peer)
    ensures !p.state.hasSession && !p.state.inLocalStorage
    ensures p.session.privateKey.None? && p.session.publicKey.None? && p.session.id.None?
    ensures p.sessions == map[] && p.storage == storage
  {
    Peer(Session(None, None, None), Flags(false, false), map[], storage)
  }

  /** A stored key text, imported if truthy; otherwise the key the session already holds. */
  function ImportStored(c: Provider, item: Option<string>, usage: Usage, current: Option<CryptoKey>): (r: Result<Option<CryptoKey>, Fault>)
    ensures !Present(item) ==> r == Ok(current)
    ensures Present(item) ==> (r.Ok? <==> Imports(c, item.value, usage))
    ensures Present(item) && r.Ok? ==> r.value == c.importKey(Parse(item.value).value, usage)
  {
    if !Present(item) then Ok(current)
    else match Parse(item.value)
      case None => Err(JsonSyntax)
      case Some(jwk) =>
        match c.importKey(jwk, usage)
        case None => Err(ImportRejected)
        case Some(k) => Ok(Some(k))
  }

  /**
    `loadFromLocalStorage`. The session id is overwritten with the stored one
    (possibly absent) before anything else happens, so also when the load
    returns false or throws. The private key is installed before the public
    key is imported, so it stays when that import throws.
   */
  function Load(p: Peer, c: Provider): (r: Outcome<bool>)
    ensures r.after.session.id == GetItem(p.storage, IdSlot)
    ensures r.after.storage == p.storage && r.after.sessions == p.sessions
    ensures var priv, pub := GetItem(p.storage, PrivateKeySlot), GetItem(p.storage, PublicKeySlot);
      && (r.Returned? && !r.value <==> !Present(priv) && !Present(pub))
      && (r.Returned? && r.value <==>
            (Present(priv) || Present(pub))
            && (Present(priv) ==> Imports(c, priv.value, SignUsage))
            && (Present(pub) ==> Imports(c, pub.value, VerifyUsage)))
      && (r.Returned? && !r.value ==>
            r.after.state == p.state && r.after.session.privateKey == p.session.privateKey
            && r.after.session.publicKey == p.session.publicKey)
      && (r.Returned? && r.value ==> r.after.state == Flags(true, true))
      && (r.Threw? ==> r.after.state == p.state)
      && (r.Threw? ==>
            && r.after.session.publicKey == p.session.publicKey
            && r.after.session.privateKey ==
                 (if Present(priv) && Imports(c, priv.value, SignUsage)
                  then c.importKey(Parse(priv.value).value, SignUsage) else p.session.privateKey))
      && (r.Returned? && !Present(priv) ==> r.after.session.privateKey == p.session.privateKey)
      && (r.Returned? && Present(priv) ==> r.after.session.privateKey == c.importKey(Parse(priv.value).value, SignUsage))
      && (r.Returned? && !Present(pub) ==> r.after.session.publicKey == p.session.publicKey)
      && (r.Returned? && Present(pub) ==> r.after.session.publicKey == c.importKey(Parse(pub.value).value, VerifyUsage))
  {
    var priv, pub := GetItem(p.storage, PrivateKeySlot), GetItem(p.storage, PublicKeySlot);
    var p1 := p.(session := p.session.(id := GetItem(p.storage, IdSlot)));
    match ImportStored(c, priv, SignUsage, p1.session.privateKey)
    case Err(f) => Threw(f, p1)
    case Ok(sk) =>
      var p2 := p1.(session := p1.session.(privateKey := sk));
      match ImportStored(c, pub, VerifyUsage, p2.session.publicKey)
      case Err(f) => Threw(f, p2)
      case Ok(pk) =>
        var p3 := p2.(session := p2.session.(publicKey := pk));
        if !Present(pub) && !Present(priv) then Returned(false, p3)
        else Returned(true, p3.(state := p3.state.(inLocalStorage := true, hasSession := true)))
  }

  /**
    `saveToLocalStorage`. Both keys are exported before anything is written,
    so a null key makes it throw with storage untouched.
   */
  function Save(p: Peer, c: Provider): (r: Outcome<bool>)
    ensures !p.state.hasSession ==> r == Returned(false, p)
    ensures p.state.hasSession && (p.session.privateKey.None? || p.session.publicKey.None?) ==> r == Threw(NullKey, p)
    ensures r.Returned? && r.value <==> p.state.hasSession && p.session.privateKey.Some? && p.session.publicKey.Some?
    ensures r.Returned? && r.value ==>
      && r.after.state == p.state.(inLocalStorage := true)
      && r.after.session == p.session && r.after.sessions == p.sessions
      && r.after.storage.Keys == p.storage.Keys + {PrivateKeySlot, PublicKeySlot, IdSlot}
      && r.after.storage[PrivateKeySlot] == Stringify(c.exportKey(p.session.privateKey.value))
      && r.after.storage[PublicKeySlot] == Stringify(c.exportKey(p.session.publicKey.value))
      && r.after.storage[IdSlot] == IdText(p.session.id)
      && (forall key :: key in p.storage && !IsSessionSlot(key) ==> r.after.storage[key] == p.storage[key])
  {
    if !p.state.hasSession then Returned(false, p)
    else match (p.session.privateKey, p.session.publicKey)
      case (Some(sk), Some(pk)) =>
        var storage := p.storage[PrivateKeySlot := Stringify(c.exportKey(sk))]
                                [PublicKeySlot := Stringify(c.exportKey(pk))]
                                [IdSlot := IdText(p.session.id)];
        Returned(true, p.(storage := storage, state := p.state.(inLocalStorage := true)))
      case _ => Threw(NullKey, p)
  }

  /**
    `generateSessionKeys`, with the fresh UUID and the provider's key pair
    (`None` when generation rejects) as inputs. The id is replaced before the
    pair is awaited. The new session is neither registered in `peer.sessions`
    nor saved.
   */
  function Generate(p: Peer, uuid: string, generated: Option<KeyPair>): (r: Outcome<KeyPair>)
    ensures r.after.session.id == Some(uuid)
    ensures r.after.storage == p.storage && r.after.sessions == p.sessions
    ensures r.after.state.inLocalStorage == p.state.inLocalStorage
    ensures generated.None? ==>
      && r.Threw? && r.after.state == p.state
      && r.after.session.privateKey == p.session.privateKey && r.after.session.publicKey == p.session.publicKey
    ensures generated.Some? ==>
      && r.Returned? && r.value == generated.value && r.after.state.hasSession
      && r.after.session.privateKey == Some(r.value.privateKey) && r.after.session.publicKey == Some(r.value.publicKey)
  {
    var p1 := p.(session := p.session.(id := Some(uuid)));
    match generated
    case None => Threw(GenerateRejected, p1)
    case Some(pair) =>
      Returned(pair, p1.(session := p1.session.(privateKey := Some(pair.privateKey), publicKey := Some(pair.publicKey)),
                         state := p1.state.(hasSession := true)))
  }

  /** The `jwk` argument of `addSession`: key text, parsed first, or an already parsed key. */
  datatype JwkArg = JwkText(text: string) | JwkObject(jwk: Jwk)

  function ParsedJwk(jwk: JwkArg): Option<Jwk>
  {
    match jwk
    case JwkText(text) => Parse(text)
    case JwkObject(j) => Some(j)
  }

  /** `addSession`: registers the imported key under `id`, replacing any earlier one. */
  function AddSession(p: Peer, c: Provider, id: string, jwk: JwkArg): (r: Outcome<bool>)
    ensures r.Returned? <==> ParsedJwk(jwk).Some? && c.importKey(ParsedJwk(jwk).value, VerifyUsage).Some?
    ensures r.Threw? ==> r.after == p
    ensures r.Returned? ==>
      && r.value
      && r.after.session == p.session && r.after.state == p.state && r.after.storage == p.storage
      && r.after.sessions.Keys == p.sessions.Keys + {id}
      && r.after.sessions[id] == c.importKey(ParsedJwk(jwk).value, VerifyUsage).value
      && (forall other :: other in p.sessions && other != id ==> r.after.sessions[other] == p.sessions[other])
  {
    match ParsedJwk(jwk)
    case None => Threw(JsonSyntax, p)
    case Some(j) =>
      match c.importKey(j, VerifyUsage)
      case None => Threw(ImportRejected, p)
      case Some(k) => Returned(true, p.(sessions := p.sessions[id := k]))
  }

  /**
    The first step of `signData`: without a session, generate one and save
    it; the result of the save is not looked at. A rejected generation
    leaves the fresh id in place.
   */
  function EnsureSession(p: Peer, c: Provider, uuid: string, generated: Option<KeyPair>): (r: Outcome<bool>)
    ensures p.state.hasSession ==> r == Returned(true, p)
    ensures !p.state.hasSession && generated.Some? ==>
      && r.Returned?
      && r.after.state == Flags(true, true)
      && r.after.session == Session(Some(uuid), Some(generated.value.privateKey), Some(generated.value.publicKey))
      && r.after.sessions == p.sessions
      && r.after.storage == Save(Generate(p, uuid, generated).after, c).after.storage
    ensures !p.state.hasSession && generated.None? ==>
      r == Threw(GenerateRejected, p.(session := p.session.(id := Some(uuid))))
    ensures r.Returned? && !p.state.hasSession ==> r.after.state.hasSession && r.after.session.privateKey.Some?
  {
    if p.state.hasSession then Returned(true, p)
    else match Generate(p, uuid, generated)
      case Threw(f, q) => Threw(f, q)
      case Returned(_, q) => Save(q, c)
  }

  /** The wire form of a signed message: base58 text of the data, of the signer's id, and the signature. */
  function Format(data: string, id: string, sig: string): string
  {
    Base58.Encode(data) + [Separator] + Base58.Encode(id) + [Separator] + sig
  }

  /**
    `signData` on a string. The signature covers the base58 text of the data,
    not the data; it travels as base64 (`btoa`).
   */
  function SignData(p: Peer, c: Provider, data: string, uuid: string, generated: Option<KeyPair>): (r: Outcome<string>)
    ensures r.after.sessions == p.sessions
    ensures p.state.hasSession ==> r.after == p
    ensures !p.state.hasSession && generated.Some? ==>
      && r.after == EnsureSession(p, c, uuid, generated).after
      && r.after.state == Flags(true, true) && r.after.session.id == Some(uuid)
    ensures !p.state.hasSession && generated.None? ==>
      r == Threw(GenerateRejected, p.(session := p.session.(id := Some(uuid))))
    ensures r.Returned? ==>
      && r.after.session.privateKey.Some? && r.after.session.id.Some?
      && c.sign(r.after.session.privateKey.value, Base58.Encode(data)).Some?
      && r.value == Format(data, r.after.session.id.value,
                           Base64.Encode(c.sign(r.after.session.privateKey.value, Base58.Encode(data)).value))
    ensures var e := EnsureSession(p, c, uuid, generated);
      r.Returned? <==>
        && e.Returned? && e.after.session.privateKey.Some? && e.after.session.id.Some?
        && c.sign(e.after.session.privateKey.value, Base58.Encode(data)).Some?
  {
    match EnsureSession(p, c, uuid, generated)
    case Threw(f, q) => Threw(f, q)
    case Returned(_, q) =>
      var encoded := Base58.Encode(data);
      match q.session.privateKey
      case None => Threw(NullKey, q)
      case Some(sk) =>
        match c.sign(sk, encoded)
        case None => Threw(SignRejected, q)
        case Some(octets) =>
          match q.session.id
          case None => Threw(NullId, q)
          case Some(id) => Returned(Format(data, id, Base64.Encode(octets)), q)
  }

  /** The fields `verifyData` takes out of a message; `sig` is `None` when there is no third field. */
  datatype SignedFields = SignedFields(data: string, id: string, sig: Option<string>)

  /**
    The first half of `verifyData`: split on `.`, keep the first three fields
    and decode the first two. A field that is missing or not base58 makes the
    decoder throw.
   */
  function ParseSigned(signed: string): (r: Result<SignedFields, Fault>)
    ensures var parts := Text.Split(signed, Separator);
      && (r.Ok? <==> |parts| >= 2 && Base58.Decode(parts[0]).Some? && Base58.Decode(parts[1]).Some?)
      && (r.Err? ==> r.error == DecodeFailed)
      && (r.Ok? ==> Base58.Encode(r.value.data) == parts[0] && Base58.Encode(r.value.id) == parts[1]
                    && r.value.sig == (if |parts| > 2 then Some(parts[2]) else None))
  {
    var parts := Text.Split(signed, Separator);
    match Base58.Decode(parts[0])
    case None => Err(DecodeFailed)
    case Some(data) =>
      if |parts| < 2 then Err(DecodeFailed)
      else match Base58.Decode(parts[1])
        case None => Err(DecodeFailed)
        case Some(id) => Ok(SignedFields(data, id, if |parts| > 2 then Some(parts[2]) else None))
  }

  /** Parsing the wire form gives back its three fields. */
  lemma ParseFormat(data: string, id: string, sig: string)
    requires Separator !in sig
    ensures ParseSigned(Format(data, id, sig)) == Ok(SignedFields(data, id, Some(sig)))
  {
    Base58.NoSeparator(data);
    Base58.NoSeparator(id);
    Text.SplitThree(Base58.Encode(data), Base58.Encode(id), sig, Separator);
    Base58.DecodeEncode(data);
    Base58.DecodeEncode(id);
  }

  /** A message with exactly three fields that parses is the wire form of what it parses to. */
  lemma FormatParse(signed: string)
    requires |Text.Split(signed, Separator)| == 3
    requires ParseSigned(signed).Ok?
    ensures var m := ParseSigned(signed).value;
      m.sig.Some? && Format(m.data, m.id, m.sig.value) == signed
  {
    var parts := Text.Split(signed, Separator);
    var m := ParseSigned(signed).value;
    assert Base58.Encode(m.data) == parts[0] && Base58.Encode(m.id) == parts[1] && m.sig == Some(parts[2]);
    Text.JoinSplit(signed, Separator);
    Text.JoinThree(parts, Separator);
  }

  /** The answer of `verifyData`: the `SESSION_NOT_FOUND` error, or the decoded fields and the verdict. */
  datatype Verification =
    | SessionNotFound
    | Checked(data: string, id: string, sig: Option<string>, verified: bool)

  /**
    `verifyData`, as written: the verdict is asked for the DECODED data, with
    the signature passed as its base64 text. It changes no state.
   */
  function VerifyData(p: Peer, c: Provider, signed: string): (r: Result<Verification, Fault>)
    ensures ParseSigned(signed).Err? ==> r == Err(DecodeFailed)
    ensures ParseSigned(signed).Ok? ==> var m := ParseSigned(signed).value;
      && (m.id !in p.sessions ==> r == Ok(SessionNotFound))
      && (m.id in p.sessions ==>
            match c.verify(p.sessions[m.id], SignatureText(m.sig), m.data)
            case None => r == Err(VerifyRejected)
            case Some(v) => r == Ok(Checked(m.data, m.id, m.sig, v)))
  {
    match ParseSigned(signed)
    case Err(f) => Err(f)
    case Ok(m) =>
      if m.id !in p.sessions then Ok(SessionNotFound)
      else match c.verify(p.sessions[m.id], SignatureText(m.sig), m.data)
        case None => Err(VerifyRejected)
        case Some(v) => Ok(Checked(m.data, m.id, m.sig, v))
  }

  /** An unknown signer is reported without consulting the provider: any two providers agree. */
  lemma UnknownSignerSkipsProvider(p: Peer, c: Provider, c': Provider, signed: string)
    requires ParseSigned(signed).Ok? && ParseSigned(signed).value.id !in p.sessions
    ensures VerifyData(p, c, signed) == VerifyData(p, c', signed) == Ok(SessionNotFound)
  {
  }

  /** Every message `signData` produces has exactly three fields, the second decoding to the signer's id. */
  lemma SignedMessageFields(p: Peer, c: Provider, data: string, uuid: string, generated: Option<KeyPair>)
    requires SignData(p, c, data, uuid, generated).Returned?
    ensures var r := SignData(p, c, data, uuid, generated);
      var parts := Text.Split(r.value, Separator);
      && |parts| == 3
      && parts[0] == Base58.Encode(data)
      && Base58.Decode(parts[1]) == Some(r.after.session.id.value)
      && parts[2] == Base64.Encode(c.sign(r.after.session.privateKey.value, Base58.Encode(data)).value)
      && ParseSigned(r.value) == Ok(SignedFields(data, r.after.session.id.value, Some(parts[2])))
  {
    var r := SignData(p, c, data, uuid, generated);
    var id := r.after.session.id.value;
    var sig := Base64.Encode(c.sign(r.after.session.privateKey.value, Base58.Encode(data)).value);
    Base58.NoSeparator(data);
    Base58.NoSeparator(id);
    Base64.NoSeparator(c.sign(r.after.session.privateKey.value, Base58.Encode(data)).value);
    Text.SplitThree(Base58.Encode(data), Base58.Encode(id), sig, Separator);
    Base58.DecodeEncode(id);
    ParseFormat(data, id, sig);
  }

  /**
    What `verifyData` answers for a message `signData` produced, as written:
    the verdict is the provider's answer about the decoded data and the
    base64 text, whereas the signature was made over the base58 text.
   */
  lemma SignThenVerifyAsWritten(p: Peer, c: Provider, data: string, uuid: string, generated: Option<KeyPair>, verifier: Peer)
    requires SignData(p, c, data, uuid, generated).Returned?
    requires SignData(p, c, data, uuid, generated).after.session.id.value in verifier.sessions
    ensures var r := SignData(p, c, data, uuid, generated);
      var id := r.after.session.id.value;
      var sig := Base64.Encode(c.sign(r.after.session.privateKey.value, Base58.Encode(data)).value);
      && (data != "" ==> data != Base58.Encode(data))
      && match c.verify(verifier.sessions[id], SignatureText(Some(sig)), data)
         case None => VerifyData(verifier, c, r.value) == Err(VerifyRejected)
         case Some(v) => VerifyData(verifier, c, r.value) == Ok(Checked(data, id, Some(sig), v))
  {
    SignedMessageFields(p, c, data, uuid, generated);
    if data != "" {
      Base58.EncodeChangesText(data);
    }
  }

  /** A provider that signs exactly and accepts exactly the signature octets it would produce. */
  function Exact(): (c: Provider)
    ensures forall priv, pub :: Verifies(c, priv, pub)
  {
    Provider(
      (j: Jwk, u: Usage) => Some(CryptoKey(0)),
      (k: CryptoKey) => Jwk(""),
      (k: CryptoKey, m: string) => Some(Digest(m)),
      (k: CryptoKey, s: SignatureArg, m: string) => Some(s == SignatureBytes(Digest(m))))
  }

  /** A stand-in digest: one octet, the message length modulo 256. */
  function Digest(m: string): seq<Byte>
  {
    [(|m| % 256) as Byte]
  }

  /**
    With a provider that verifies every genuine signature, `verifyData` as
    written still answers `verified: false` for a message this very session
    signed and registered. `Exact` refuses every signature passed as text,
    so this exhibits the half of the defect where the base64 text is passed
    instead of the signature octets. The other half, that the decoded data
    is checked instead of the signed base58 text, is the
    `data != Base58.Encode(data)` clause of `SignThenVerifyAsWritten`.
   */
  lemma AsWrittenRejectsGenuineSignature(storage: Storage, data: string, uuid: string, pair: KeyPair)
    ensures var r := SignData(New(storage), Exact(), data, uuid, Some(pair));
      var verifier := New(map[]).(sessions := map[uuid := pair.publicKey]);
      && r.Returned?
      && VerifyData(verifier, Exact(), r.value).Ok?
      && VerifyData(verifier, Exact(), r.value).value.Checked?
      && !VerifyData(verifier, Exact(), r.value).value.verified
  {
    var c := Exact();
    var r := SignData(New(storage), c, data, uuid, Some(pair));
    var verifier := New(map[]).(sessions := map[uuid := pair.publicKey]);
    SignThenVerifyAsWritten(New(storage), c, data, uuid, Some(pair), verifier);
  }

  /**
    `verifyData` as it must work to accept what `signData` produces: the
    signature field is decoded from base64 and checked against the base58
    text of the data, which is what `signData` signed. Decoding, lookup and the
    `SESSION_NOT_FOUND` answer are as written.
   */
  function VerifyDataCorrected(p: Peer, c: Provider, signed: string): (r: Result<Verification, Fault>)
    ensures ParseSigned(signed).Err? ==> r == Err(DecodeFailed)
    ensures ParseSigned(signed).Ok? && ParseSigned(signed).value.id !in p.sessions ==> r == Ok(SessionNotFound)
    ensures r.Ok? && r.value.Checked? ==>
      var m := ParseSigned(signed).value;
      && ParseSigned(signed).Ok? && m.id in p.sessions && m.sig.Some?
      && Base64.Decode(m.sig.value).Some?
      && r.value.data == m.data && r.value.id == m.id && r.value.sig == m.sig
      && c.verify(p.sessions[m.id], SignatureBytes(Base64.Decode(m.sig.value).value), Base58.Encode(m.data))
         == Some(r.value.verified)
    ensures ParseSigned(signed).Ok? && ParseSigned(signed).value.id in p.sessions ==>
      var m := ParseSigned(signed).value;
      && (m.sig.None? || Base64.Decode(m.sig.value).None? ==> r == Err(DecodeFailed))
      && (m.sig.Some? && Base64.Decode(m.sig.value).Some? ==>
            match c.verify(p.sessions[m.id], SignatureBytes(Base64.Decode(m.sig.value).value), Base58.Encode(m.data))
            case None => r == Err(VerifyRejected)
            case Some(v) => r == Ok(Checked(m.data, m.id, m.sig, v)))
  {
    match ParseSigned(signed)
    case Err(f) => Err(f)
    case Ok(m) =>
      if m.id !in p.sessions then Ok(SessionNotFound)
      else if m.sig.None? then Err(DecodeFailed)
      else match Base64.Decode(m.sig.value)
        case None => Err(DecodeFailed)
        case Some(octets) =>
          match c.verify(p.sessions[m.id], SignatureBytes(octets), Base58.Encode(m.data))
          case None => Err(VerifyRejected)
          case Some(v) => Ok(Checked(m.data, m.id, m.sig, v))
  }

  /**
    Sign then verify, corrected: a verifier holding the signer's public key,
    with a provider that accepts genuine signatures, answers `verified: true`
    with the original data and the signer's id.
   */
  lemma SignThenVerifyCorrected(p: Peer, c: Provider, data: string, uuid: string, generated: Option<KeyPair>, verifier: Peer)
    requires SignData(p, c, data, uuid, generated).Returned?
    requires var signer := SignData(p, c, data, uuid, generated).after;
      && signer.session.id.value in verifier.sessions
      && Verifies(c, signer.session.privateKey.value, verifier.sessions[signer.session.id.value])
    ensures var r := SignData(p, c, data, uuid, generated);
      var v := VerifyDataCorrected(verifier, c, r.value);
      v.Ok? && v.value.Checked? && v.value.verified && v.value.data == data && v.value.id == r.after.session.id.value
  {
    var r := SignData(p, c, data, uuid, generated);
    var sk := r.after.session.privateKey.value;
    var octets := c.sign(sk, Base58.Encode(data)).value;
    SignedMessageFields(p, c, data, uuid, generated);
    Base64.DecodeEncode(octets);
  }

  /**
    Generate, save, then load into a new object over the same storage: the
    load succeeds with both flags set and the original session id, provided
    the provider accepts back the keys it exported.
   */
  lemma SaveLoadRoundTrip(storage: Storage, c: Provider, uuid: string, pair: KeyPair)
    requires ReimportsPair(c, pair)
    ensures var g := Generate(New(storage), uuid, Some(pair));
      var s := Save(g.after, c);
      var l := Load(New(s.after.storage), c);
      && !New(storage).state.hasSession
      && s.Returned? && s.value
      && l.Returned? && l.value
      && l.after.state == Flags(true, true)
      && l.after.session.id == Some(uuid)
      && l.after.session.privateKey == c.importKey(c.exportKey(pair.privateKey), SignUsage)
      && l.after.session.publicKey == c.importKey(c.exportKey(pair.publicKey), VerifyUsage)
  {
    var g := Generate(New(storage), uuid, Some(pair));
    var s := Save(g.after, c);
    ParseStringify(c.exportKey(pair.privateKey));
    ParseStringify(c.exportKey(pair.publicKey));
    assert GetItem(s.after.storage, IdSlot) == Some(uuid);
  }

  /** Saving twice leaves the same object as saving once. */
  lemma SaveIdempotent(p: Peer, c: Provider)
    ensures Save(Save(p, c).after, c) == Save(p, c)
  {
  }

  /** Adding a key for the same id twice keeps only the later key. */
  lemma AddSessionOverwrites(p: Peer, c: Provider, id: string, first: JwkArg, second: JwkArg)
    requires AddSession(p, c, id, second).Returned?
    ensures AddSession(AddSession(p, c, id, first).after, c, id, second) == AddSession(p, c, id, second)
  {
  }
}
