/**
  The `DID` document builder of did.js: an identifier and a JSON-LD object
  holding a fixed `@context` and `@type`, the identifier, the caller's
  profile fields, and optionally a `publicKey` block tied to the identifier.
 */
module Did {
  import opened Wrappers

  /** JSON values as JavaScript holds them; numbers are kept integral. */
  datatype Json =
    | JNull
    | JBool(b: bool)
    | JNumber(n: int)
    | JString(s: string)
    | JArray(items: seq<Json>)
    | JObject(members: map<string, Json>)

  /** JavaScript truthiness: `null`, `false`, `0` and `""` are falsy; arrays and objects are truthy. */
  predicate Truthy(j: Json)
  {
    match j
    case JNull => false
    case JBool(b) => b
    case JNumber(n) => n != 0
    case JString(s) => s != ""
    case JArray(_) => true
    case JObject(_) => true
  }

  /** Prefix of the identifiers the builder makes up itself. */
  const IdPrefix := "did:ipfspeerstar:"
  const KeyType := "RsaVerificationKey2018"
  const PersonType := "Person"
  const Contexts: seq<string> := ["https://w3id.org/did/v1", "https://w3id.org/security/v1", "https://schema.org"]

  /** The default `@context`: the three context URLs in order. */
  function ContextValue(): Json
  {
    JArray([JString(Contexts[0]), JString(Contexts[1]), JString(Contexts[2])])
  }

  /** A DID: `this.id` and `this.obj`. The `peerId` it signs with is not modelled. */
  datatype Did = Did(id: string, obj: map<string, Json>)

  /** The fields every document starts from, before the profile is merged in. */
  function Defaults(id: string): (m: map<string, Json>)
    ensures m.Keys == {"@context", "@type", "id"}
  {
    map["@context" := ContextValue(), "@type" := JString(PersonType), "id" := JString(id)]
  }

  /** `Object.assign(target, source)` on plain objects: every field of `source` lands on `target`. */
  function Assign(target: map<string, Json>, source: map<string, Json>): (m: map<string, Json>)
    ensures m.Keys == target.Keys + source.Keys
    ensures forall k :: k in source ==> m[k] == source[k]
    ensures forall k :: k in target && k !in source ==> m[k] == target[k]
  {
    target + source
  }

  /** The `publicKey` block naming `id` as both key id and owner. */
  function KeyBlock(id: string, jwk: Json): Json
  {
    JObject(map["id" := JString(id), "type" := JString(KeyType), "owner" := JString(id), "publicKeyJwk" := jwk])
  }

  /** Whether the optional `jwk` argument is truthy, as `if (jwk)` tests it. */
  predicate Supplied(jwk: Option<Json>)
  {
    jwk.Some? && Truthy(jwk.value)
  }

  /** Whether the optional `id` argument is truthy, as `id || …` tests it. */
  predicate GivenId(id: Option<string>)
  {
    id.Some? && id.value != ""
  }

  /** `setPublicJWK`: installs a `publicKey` block for the current id. */
  function SetPublicJwk(d: Did, jwk: Json): (d': Did)
    ensures d'.id == d.id
    ensures d'.obj.Keys == d.obj.Keys + {"publicKey"}
    ensures d'.obj["publicKey"] == JObject(map["id" := JString(d.id), "type" := JString("RsaVerificationKey2018"),
                                               "owner" := JString(d.id), "publicKeyJwk" := jwk])
    ensures forall k :: k in d.obj && k != "publicKey" ==> d'.obj[k] == d.obj[k]
  {
    d.(obj := d.obj["publicKey" := KeyBlock(d.id, jwk)])
  }

  /** `setId`: renames the document; an existing `publicKey` block keeps the old id and owner. */
  function SetId(d: Did, id: string): (d': Did)
    ensures d'.id == id
    ensures d'.obj.Keys == d.obj.Keys + {"id"}
    ensures d'.obj["id"] == JString(id)
    ensures forall k :: k in d.obj && k != "id" ==> d'.obj[k] == d.obj[k]
  {
    Did(id, d.obj["id" := JString(id)])
  }

  /**
    The constructor, with the UUID it would draw as an input. Profile fields
    override the defaults (`Object.assign`), and a truthy `jwk` then
    overrides any `publicKey` the profile brought.
   */
  function NewDid(person: map<string, Json>, id: Option<string>, jwk: Option<Json>, uuid: string): (d: Did)
    ensures GivenId(id) ==> d.id == id.value
    ensures !GivenId(id) ==> d.id == "did:ipfspeerstar:" + uuid
    ensures d.obj.Keys == {"@context", "@type", "id"} + person.Keys + (if Supplied(jwk) then {"publicKey"} else {})
    ensures "@context" !in person ==>
      && "@context" in d.obj
      && d.obj["@context"] == JArray([JString("https://w3id.org/did/v1"), JString("https://w3id.org/security/v1"),
                                      JString("https://schema.org")])
    ensures "@type" !in person ==> "@type" in d.obj && d.obj["@type"] == JString("Person")
    ensures "id" !in person ==> "id" in d.obj && d.obj["id"] == JString(d.id)
    ensures forall k :: k in person && !(k == "publicKey" && Supplied(jwk)) ==> k in d.obj && d.obj[k] == person[k]
    ensures Supplied(jwk) ==> "publicKey" in d.obj && d.obj["publicKey"] == KeyBlock(d.id, jwk.value)
    ensures "publicKey" in d.obj <==> Supplied(jwk) || "publicKey" in person
  {
    var ident := if GivenId(id) then id.value else IdPrefix + uuid;
    var d := Did(ident, Assign(Defaults(ident), person));
    if Supplied(jwk) then SetPublicJwk(d, jwk.value) else d
  }

  /** Installing the same key twice is the same as installing it once. */
  lemma SetPublicJwkIdempotent(d: Did, jwk: Json)
    ensures SetPublicJwk(SetPublicJwk(d, jwk), jwk) == SetPublicJwk(d, jwk)
  {
  }

  /** Of two keys installed in turn, only the later one remains. */
  lemma SetPublicJwkLastWins(d: Did, first: Json, second: Json)
    ensures SetPublicJwk(SetPublicJwk(d, first), second) == SetPublicJwk(d, second)
  {
  }

  /** Renaming leaves an installed key block naming the old id. */
  lemma SetIdKeepsKeyOwner(d: Did, jwk: Json, id: string)
    ensures var d' := SetId(SetPublicJwk(d, jwk), id);
      d'.id == id && d'.obj["publicKey"] == KeyBlock(d.id, jwk)
  {
  }

  /** Renaming and installing a key commute exactly when the new id is the current one. */
  lemma {:induction false} RenameAndKeyCommuteIff(d: Did, jwk: Json, id: string)
    ensures SetId(SetPublicJwk(d, jwk), id) == SetPublicJwk(SetId(d, id), jwk) <==> id == d.id
  {
    var renamedLast, keyedLast := SetId(SetPublicJwk(d, jwk), id), SetPublicJwk(SetId(d, id), jwk);
    if renamedLast == keyedLast {
      assert renamedLast.obj["publicKey"] == KeyBlock(d.id, jwk);
      assert keyedLast.obj["publicKey"] == KeyBlock(id, jwk);
      assert KeyBlock(d.id, jwk).members["id"] == JString(d.id);
    }
  }

  /** A constructor given a key is the keyless constructor followed by `setPublicJWK`. */
  lemma NewWithKey(person: map<string, Json>, id: Option<string>, jwk: Json, uuid: string)
    requires Truthy(jwk)
    ensures NewDid(person, id, Some(jwk), uuid) == SetPublicJwk(NewDid(person, id, None, uuid), jwk)
  {
  }
}
