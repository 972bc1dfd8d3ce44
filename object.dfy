/** The values the client builds and hands to the store: identifiers, object
    headers with their attributes, checksums and signatures, and session
    tokens. Identifier parsing, hashing and signing belong to the SDK and
    are not part of this model; their results appear here as symbolic terms
    that record what they were computed from. */
module Objects {
  import opened Common

  /** A decoded container identifier (`cid.ID`). */
  datatype ContainerId = ContainerId(raw: seq<byte>)

  /** The client's ECDSA key; only its identity matters here. */
  datatype Key = Key(id: nat)

  /** The owner derived from a key (`user.IDFromKey`). */
  datatype OwnerId = OwnerOf(key: Key)

  /** `version.Current()` of the SDK. */
  datatype Version = CurrentVersion

  datatype ObjectType = Regular

  /** A checksum as the library computes it from the payload
      (`sha256.Sum256`, `tz.Sum`). */
  datatype Checksum = Sha256Of(data: seq<byte>) | TillichZemorOf(data: seq<byte>)

  /** One object attribute: a key and its value. */
  datatype Attribute = Attribute(key: string, value: string)

  /** An object header. `id` and `signature` are set by the PUT paths that
      compute them. */
  datatype Header = Header(
    version: Option<Version>,
    objectType: Option<ObjectType>,
    container: Option<ContainerId>,
    owner: Option<OwnerId>,
    payloadSize: u64,
    creationEpoch: u64,
    payloadChecksum: Option<Checksum>,
    homomorphicHash: Option<Checksum>,
    attributes: seq<Attribute>,
    id: Option<ObjectId>,
    signature: Option<Signature>)

  /** An object identifier: the hash of a header (`object.CalculateID`), or an
      identifier decoded from its text form. */
  datatype ObjectId = IdOf(header: Header) | Decoded(raw: seq<byte>)

  /** The signature `object.CalculateAndSetSignature` puts on an object. */
  datatype Signature = SignedBy(key: Key, id: ObjectId)

  /** `var o object.Object`: every field unset. */
  const EmptyHeader: Header :=
    Header(None, None, None, None, 0, 0, None, None, [], None, None)

  /** An object address: a container and, for GET, an object in it. */
  datatype Address = Address(container: ContainerId, object: Option<ObjectId>)

  datatype Verb = VerbUnset | ObjectPut | ObjectGet

  /** A session token. `base` stands for the fields copied unchanged from the
      client's template (issuer, lifetime, session key). */
  datatype SessionToken = SessionToken(
    base: nat,
    verb: Verb,
    target: Option<Address>,
    signer: Option<Key>)

  /** `tok := c.tok; tok.ForVerb(verb); tok.ApplyTo(addr); tok.Sign(key)` on a
      successful signing. */
  function Scoped(template: SessionToken, verb: Verb, addr: Address, key: Key): (tok: SessionToken)
    ensures tok.verb == verb && tok.target == Some(addr) && tok.signer == Some(key)
    ensures tok.base == template.base
  {
    template.(verb := verb, target := Some(addr), signer := Some(key))
  }

  /** The attribute list holds each pair of the map exactly once, in some order. */
  ghost predicate ListsEachPairOnce(attrs: seq<Attribute>, headers: map<string, string>)
  {
    && |attrs| == |headers|
    && (forall i :: 0 <= i < |attrs| ==> attrs[i].key in headers && headers[attrs[i].key] == attrs[i].value)
    && (forall i, j :: 0 <= i < j < |attrs| ==> attrs[i].key != attrs[j].key)
    && (forall k :: k in headers ==> exists i :: 0 <= i < |attrs| && attrs[i] == Attribute(k, headers[k]))
  }
}
