# peer-identity, modelled in Dafny

This project models the two components of `peer-identity`, a JavaScript
library that gives a peer a signing identity.

- `PeerIdentity` (index.js) has a session key pair with its id, two flags
  (`hasSession`, `inLocalStorage`), a registry `peer.sessions` from peer id to
  verification key, and a key-value storage to which the session is saved under
  `sessionPrivateJWK`, `sessionPublicJWK` and `sessionId`. It signs strings into
  dot-separated messages `base58(data).base58(id).base64(signature)` and checks
  such messages against the registry.
- `DID` (did.js) builds a JSON-LD identity document. The document has a fixed
  `@context` and `@type`, the caller's profile fields merged over those
  defaults, and an optional `publicKey` block that names the document's id.

Each JavaScript method becomes a pure function over an immutable record. The
record holds the session, the flags, the registry and the storage. A method of
`PeerIdentity` can change the object and then throw, because a rejected
`await` aborts it half-way. For that reason a transition returns an `Outcome`:
either `Returned(value, after)` or `Threw(fault, after)`. WebCrypto is passed
in as a `Provider` record of total functions, and its keys are opaque handles.
A fresh UUID and the provider's freshly generated key pair are parameters of
the operations that draw them.

Modules, one per file: `Wrappers` (Option, Result), `Bytes`, `Text` (JavaScript
`split` on one character, and `join`), `Base58`, `Base64`, `Crypto`,
`PeerIdentity` and `Did`.

The model follows the code as written in index.js:

- `generateSessionKeys` uses a bare UUID as the session id. It does not register the session in `peer.sessions`
  and does not save it.
- `loadFromLocalStorage` overwrites `session.id` also when it returns false. It
  does not register the session either.
- A stored key counts as present when it is truthy, so an empty string counts
  as absent.
- `verifyData` checks the decoded data, not the signed base58 text. This is
  logged under Findings.

## Model

| member | source | states |
|---|---|---|
| PeerIdentity.New | index.js:17-29 | A new object has no session (null id and null keys), both flags false, an empty peer registry, and the given storage. |
| PeerIdentity.Load | index.js:45-69 | `session.id` becomes the stored `sessionId` (possibly absent) in every case. The result is false iff neither key text is truthy, and then flags and keys are unchanged. The result is true iff some key text is truthy and every truthy one parses and imports, and then both flags are true. A key that fails to parse or import makes the load throw with the flags and the public key unchanged. The private key is then the imported one when the private key text is truthy and imports, because it is installed before the public key is imported, and is unchanged otherwise. Storage and registry never change. |
| PeerIdentity.ImportStored | index.js:51-62 | A falsy stored key keeps the session's current key. A truthy one must parse and import, and the result is the imported key. |
| PeerIdentity.Save | index.js:83-97 | Without a session the result is false and nothing changes. With a session but a null key it throws before writing anything. Otherwise the result is true and storage gains exactly the three slots: both exported key texts and `sessionId` equal to `session.id`. Every other key is unchanged, `inLocalStorage` becomes true, and session and registry are unchanged. |
| PeerIdentity.SaveIdempotent | index.js:83-97 | Saving a second time changes nothing more. |
| PeerIdentity.SaveLoadRoundTrip | test/index.js:16-39 | A fresh object has no session. If the provider accepts back the exported private key for signing and the exported public key for verifying, then generate, save, and load into a new object over the same storage give: save returns true, load returns true, both flags are true, the session id is the generated one, and the keys are the re-imported exports. |
| PeerIdentity.Generate | index.js:102-117 | The session id becomes the fresh UUID even if generation rejects. On success it returns the pair, installs both keys and sets `hasSession`. `inLocalStorage`, storage and registry are unchanged. |
| PeerIdentity.AddSession | index.js:71-81 | Succeeds (returning true) iff the JWK parses (when given as text) and imports. On success the registry maps `id` to the imported key, replacing any earlier entry, and every other entry and field is unchanged. On failure nothing changes. |
| PeerIdentity.AddSessionOverwrites | index.js:76-80 | Registering two keys under one id leaves the same object as registering only the second, whether or not the first registration succeeds. |
| PeerIdentity.EnsureSession | index.js:124-127 | An object with a session is left alone. Without one, a successful generation yields both flags true and the fresh session, with storage as the save leaves it. A failed generation throws `GenerateRejected` with the fresh UUID already installed as the session id and everything else unchanged. |
| PeerIdentity.SignData | index.js:122-138 | The registry never changes. With a session nothing else changes. Without one, a session is generated and saved, and both flags end true. If generation rejects, it throws with the fresh UUID installed as the session id and nothing else changed. A returned message is the base58 text of the data, `.`, the base58 text of the session id, `.`, and the base64 text of the provider's signature over the base58 text of the data. A message is returned exactly when the session step returns with a private key and an id and the provider signs. |
| PeerIdentity.SignedMessageFields | index.js:131-144 | Every message `SignData` returns splits on `.` into exactly three fields. The second decodes to the signer's id, and the whole message parses back to the original data, that id and the signature field. |
| PeerIdentity.ParseSigned | index.js:142-144 | Parsing succeeds iff there are at least two fields and the first two are valid base58. Each decoded field re-encodes to the field it came from. `sig` is the third field, or absent when there is none. Any failure is a decode fault. |
| PeerIdentity.ParseFormat | index.js:137-144 | For a signature field without `.`, parsing the wire form gives back exactly its data, id and signature. |
| PeerIdentity.FormatParse | index.js:137-144 | A three-field message that parses is the wire form of the fields it parses to. |
| PeerIdentity.VerifyData | index.js:140-159 | A malformed message is a decode fault. An id not in the registry gives `SESSION_NOT_FOUND`. A known id returns the decoded data, the decoded id, the raw third field and the provider's verdict. The verdict is asked for the decoded data and the signature as text. A rejected verify is a fault. |
| PeerIdentity.UnknownSignerSkipsProvider | index.js:146-150 | For an unknown signer the answer is `SESSION_NOT_FOUND` whatever the provider, because verification is never consulted. |
| PeerIdentity.SignThenVerifyAsWritten | index.js:132-152 | For a message this library signed, `verifyData` returns the original data, the signer's id and the signature text, with the provider's verdict about the decoded data. For non-empty data that is not the text that was signed. |
| PeerIdentity.AsWrittenRejectsGenuineSignature | index.js:132-152 | With a provider that accepts every genuine signature, a message signed by a fresh session and checked against that session's registered public key gets `verified: false`. |
| PeerIdentity.VerifyDataCorrected | index.js:140-159 | Parsing, lookup and `SESSION_NOT_FOUND` behave as in `VerifyData`. A verdict is asked for the base58 data text with the signature decoded from base64, and a missing or non-base64 signature is a decode fault. For a known signer with a decodable signature, a rejected verify is a fault and otherwise the answer carries the decoded data, the id, the signature field and the provider's verdict. |
| PeerIdentity.SignThenVerifyCorrected | index.js:132-152 | The corrected check answers `verified: true` with the original data and the signer's id, given a verifier that registered the signer's public key and a provider that accepts genuine signatures. |
| Text.Split | index.js:142 | Splitting yields at least one field, and no field contains the separator. |
| Text.JoinSplit | index.js:142 | Joining the fields of a split with the separator gives back the string. |
| Text.SplitJoin | index.js:142 | Splitting a join of separator-free fields gives back the fields. |
| Text.SplitThree | index.js:137-142 | `a.b.c` with separator-free `a`, `b`, `c` splits into exactly `[a, b, c]`. |
| Base58.Encode | index.js:131 | Encoded text has four alphabet letters per character. |
| Base58.Decode | index.js:143-144 | Decoding succeeds only on text that is exactly the encoding of its result. |
| Base58.DecodeEncode | index.js:143-144 | Decoding undoes encoding for every string, the empty one included. |
| Base58.EncodeInjective | index.js:137 | Different strings encode differently. |
| Base58.NoSeparator | index.js:137 | Base58 text contains no `.`. |
| Base58.EncodeChangesText | index.js:131 | The encoding of a non-empty string differs from the string. |
| Base64.Encode | index.js:134-136 | The text has four characters per started group of three octets. |
| Base64.EncodeAlphabet | index.js:134-136 | Every character of the text is a base64 letter or the `=` pad. |
| Base64.DecodeEncode | index.js:134-136 | Decoding undoes encoding for every octet string. |
| Base64.NoSeparator | index.js:134-137 | Base64 text contains no `.`. |
| Crypto.Parse | index.js:52 | The stand-in for `JSON.parse` succeeds exactly on brace-delimited texts, and re-stringifying the result gives the text back. |
| Crypto.Stringify | index.js:89-90 | A stringified key is an object text, so it is never empty and counts as present on load. |
| Crypto.ParseStringify | index.js:89-90 | Parsing a stringified key gives back the key. |
| Did.Assign | did.js:10-14 | Merging keeps the keys of both objects. A key of the source takes the source's value, and every other key keeps the target's value. |
| Did.NewDid | did.js:5-19 | `id` is the argument when that is truthy, else `did:ipfspeerstar:` plus the UUID. `obj` has the three default keys, the profile's keys, and `publicKey` when `jwk` is truthy. Defaults the profile lacks hold the three context URLs, `Person` and the id. Every profile field is kept except a `publicKey` a truthy `jwk` overrides. `publicKey` is present iff `jwk` is truthy or the profile has one. |
| Did.SetId | did.js:21-25 | `id` and `obj.id` become the new id. `obj` gains no other key, and every other field keeps its value, the `publicKey` block included. |
| Did.SetPublicJwk | did.js:32-40 | `obj.publicKey` becomes `{id, type: RsaVerificationKey2018, owner: id, publicKeyJwk}` for the current id. `id` and every other field are unchanged. |
| Did.SetPublicJwkIdempotent | did.js:32-40 | Installing the same key twice equals installing it once. |
| Did.SetPublicJwkLastWins | did.js:32-40 | Of two keys installed in turn only the later remains. |
| Did.SetIdKeepsKeyOwner | did.js:21-40 | After a key is installed, renaming leaves the block naming the old id as key id and owner. |
| Did.RenameAndKeyCommuteIff | did.js:21-40 | Renaming then installing a key equals installing then renaming exactly when the new id is the current id. |
| Did.NewWithKey | did.js:16-18 | Constructing with a truthy key equals constructing without one and then calling `setPublicJWK`. |

## Left out

- WebCrypto (`generateKey`, `importKey`, `exportKey`, `sign`, `verify`) is an injected `Provider` of total functions over opaque key handles. `None` stands for a rejected promise. RSASSA-PKCS1-v1_5, SHA-512 and the 2048-bit modulus are not modelled. The verdict of `verify` is uninterpreted.
- Base58.Encode: the `base58` package is not part of this model. The stand-in writes each character as four base-58 digits of its code point. It has the properties the message format relies on: the Bitcoin alphabet, which has no `.`, a decode that undoes encode, and decode errors outside the alphabet. It is not the package's byte-for-byte output.
- The bytes that `Buffer.from` makes of a message are left to the provider, which signs and verifies strings.
- JSON serialisation of keys: a JWK is an object whose members are opaque text. Valid JSON that is not an object is folded into the parse fault.
- Crypto.Parse: it is a stand-in for `JSON.parse` that accepts exactly the texts starting with `{` and ending with `}`. It refuses an object text with surrounding whitespace, such as `" {}"` or `"{}\n"`, which `JSON.parse` accepts, and it accepts malformed text such as `{x}`, which `JSON.parse` rejects. So `PeerIdentity.AddSession` given such a padded key text, and `PeerIdentity.Load` of such a stored key text, throw `JsonSyntax` where the library would import the key, and malformed brace-delimited text reaches the provider's import instead of throwing. JSON grammar is not modelled. Texts this library writes itself come from `Stringify` and round-trip exactly.
- `signData` on an object argument, which is stringified first, is left out. Data is a string.
- The package-specific behaviour of decoding `undefined` (a missing field) or encoding a null session id is not known. It is modelled as a fault (`DecodeFailed`, `NullId`).
- UUID generation is a parameter, in both `generateSessionKeys` and the `DID` constructor.
- Environment detection, `config`, `localStoragePath` and the storage and crypto wiring are host plumbing. Storage is a `map<string, string>` in the record.
- `async`/`await` ordering: each method is one sequential transition. Concurrent callers are out of scope.
- The `save`/`load` aliases are the same functions as `Save` and `Load`.
- The empty stubs `loadPeerFromDID` and `exportDID`, the `DID.sign` delegation and the `peerId` it signs with are left out, since they hold no logic of their own.
- Proof export/import, `loadOrCreate` and storage clearing do not exist in this source, so they are not modelled.
- JavaScript object-key quirks are not modelled, such as `__proto__` as a registry id or non-string ids.
- The DID profile is a map of JSON values, with integral numbers. Profiles that are not objects, `undefined` members and non-string `id` arguments are left out.
- PeerIdentity.SaveLoadRoundTrip assumes the provider imports the generated pair's exported private key again for signing and its exported public key again for verifying. That is what a WebCrypto implementation does with keys it generated as extractable. It is a hypothesis about the provider and is not derived here.

## Findings

| source | as written | input that shows it | evidently intended | confidence | as-written member | corrected member |
|---|---|---|---|---|---|---|
| index.js:152 | `verifyData` verifies the decoded `data` and passes the base64 signature as a string. `signData` signed the base58 text of the data (index.js:132). | `signData("How are you?")`, then `verifyData` of its output by an object that has the signer's public key registered | verify the base58 text of the data, which is the signed message, against the signature octets decoded from base64 | high; not executed | PeerIdentity.AsWrittenRejectsGenuineSignature | PeerIdentity.SignThenVerifyCorrected |
