/**
 Object encryption with an ideal cipher: a sealed message opens under the same key, nonce and
 associated data, and under nothing else. The associated data is laid out byte by byte.
 */
module Crypto {
  import opened Wrappers
  import opened Bytes

  type U16 = n: nat | n < 0x1_0000
  type U32 = n: nat | n < 0x1_0000_0000
  type U64 = n: nat | n < 0x1_0000_0000_0000_0000

  /** A point in time, as its RFC 3339 text. */
  datatype Timestamp = Timestamp(text: Text)

  datatype Metadata = Metadata(
    protocol: U16, objectId: Uuid, namespace: Text, deviceId: Uuid, revision: U64, modifiedAt: Timestamp)

  datatype CryptoError = MetadataTooLarge | Deleted | UnsupportedEnvelope | AuthenticationFailed

  const PROTOCOL: U16 := 1
  const ALGORITHM := "XCHACHA20-POLY1305"
  const AAD_LABEL := "helium-sync/aad/v1"
  const KEY_LABEL := "helium-sync/object-key/"
  const NONCE_BYTES := 24
  const TAG_BYTES := 16

  // ----- associated data -----

  /** A length prefix of four bytes and the field; longer fields are refused. */
  function Field(field: seq<Byte>): Result<seq<Byte>, CryptoError>
  {
    if |field| < 0x1_0000_0000 then Ok(BigEndian(|field|, 4) + field) else Err(MetadataTooLarge)
  }

  function AssociatedData(m: Metadata, envelopeVersion: Byte): Result<seq<Byte>, CryptoError>
  {
    if Field(m.namespace).Err? || Field(m.modifiedAt.text).Err? then Err(MetadataTooLarge)
    else Ok(
      Ascii(AAD_LABEL)
      + (BigEndian(m.protocol, 2)
      + (Field(m.objectId).value
      + (Field(m.namespace).value
      + (Field(m.deviceId).value
      + (BigEndian(m.revision, 8)
      + (Field(m.modifiedAt.text).value
      + [envelopeVersion])))))))
  }

  // ----- and its decoder -----

  datatype Parsed<+T> = Parsed(value: T, rest: seq<Byte>)

  function ParseUint(bytes: seq<Byte>, width: nat): Option<Parsed<nat>>
  {
    if |bytes| < width then None
    else Some(Parsed(FromBigEndian(bytes[..width]), bytes[width..]))
  }

  function ParseField(bytes: seq<Byte>): Option<Parsed<seq<Byte>>>
  {
    match ParseUint(bytes, 4)
    case None => None
    case Some(Parsed(length, rest)) =>
      if |rest| < length then None else Some(Parsed(rest[..length], rest[length..]))
  }

  function ParseUuid(bytes: seq<Byte>): Option<Parsed<Uuid>>
  {
    match ParseField(bytes)
    case Some(Parsed(id, rest)) => if |id| == 16 then Some(Parsed(id, rest)) else None
    case None => None
  }

  /** Reads associated data back, for any bytes at all. */
  function ParseAssociatedData(bytes: seq<Byte>): Option<(Metadata, Byte)>
  {
    var prefix := Ascii(AAD_LABEL);
    if !(prefix <= bytes) then None
    else
      match ParseUint(bytes[|prefix|..], 2)
      case None => None
      case Some(Parsed(protocol, rest)) =>
      match ParseUuid(rest)
      case None => None
      case Some(Parsed(objectId, rest)) =>
      match ParseField(rest)
      case None => None
      case Some(Parsed(namespace, rest)) =>
      match ParseUuid(rest)
      case None => None
      case Some(Parsed(deviceId, rest)) =>
      match ParseUint(rest, 8)
      case None => None
      case Some(Parsed(revision, rest)) =>
      match ParseField(rest)
      case None => None
      case Some(Parsed(time, rest)) =>
        if |rest| == 1 && protocol < 0x1_0000 && revision < 0x1_0000_0000_0000_0000 then
          Some((Metadata(protocol, objectId, namespace, deviceId, revision, Timestamp(time)), rest[0]))
        else None
  }

  lemma UintRoundTrip(n: nat, width: nat, rest: seq<Byte>)
    requires n < Power256(width)
    ensures ParseUint(BigEndian(n, width) + rest, width) == Some(Parsed(n, rest))
  {
    BigEndianRoundTrip(n, width);
    var bytes := BigEndian(n, width) + rest;
    assert bytes[..width] == BigEndian(n, width) && bytes[width..] == rest;
  }

  lemma FieldRoundTrip(field: seq<Byte>, rest: seq<Byte>)
    requires Field(field).Ok?
    ensures ParseField(Field(field).value + rest) == Some(Parsed(field, rest))
  {
    Widths();
    UintRoundTrip(|field|, 4, field + rest);
    assert Field(field).value + rest == BigEndian(|field|, 4) + (field + rest);
    assert (field + rest)[..|field|] == field && (field + rest)[|field|..] == rest;
  }

  /** Decoding undoes encoding. */
  lemma AssociatedDataRoundTrip(m: Metadata, envelopeVersion: Byte)
    requires AssociatedData(m, envelopeVersion).Ok?
    ensures ParseAssociatedData(AssociatedData(m, envelopeVersion).value) == Some((m, envelopeVersion))
  {
    hide BigEndian, ParseUint, ParseField;
    Widths();
    var prefix := Ascii(AAD_LABEL);
    var last := [envelopeVersion];
    assert Field(m.modifiedAt.text).Ok? && Field(m.namespace).Ok?;
    var time := Field(m.modifiedAt.text).value + last;
    var revision := BigEndian(m.revision, 8) + time;
    var device := Field(m.deviceId).value + revision;
    var namespace := Field(m.namespace).value + device;
    var obj := Field(m.objectId).value + namespace;
    var protocol := BigEndian(m.protocol, 2) + obj;
    FieldRoundTrip(m.modifiedAt.text, last);
    UintRoundTrip(m.revision, 8, time);
    FieldRoundTrip(m.deviceId, revision);
    FieldRoundTrip(m.namespace, device);
    FieldRoundTrip(m.objectId, namespace);
    UintRoundTrip(m.protocol, 2, obj);
    assert (prefix + protocol)[|prefix|..] == protocol;
  }

  /** No two sets of metadata share their associated data. */
  lemma AssociatedDataInjective(m: Metadata, v: Byte, m': Metadata, v': Byte)
    requires AssociatedData(m, v).Ok? && AssociatedData(m, v) == AssociatedData(m', v')
    ensures m == m' && v == v'
  {
    hide AssociatedData, ParseAssociatedData;
    AssociatedDataRoundTrip(m, v);
    AssociatedDataRoundTrip(m', v');
  }

  // ----- the byte vector the program builds it in -----

  class ByteVector {
    var bytes: seq<Byte>

    constructor (initial: seq<Byte>)
      ensures bytes == initial
    {
      bytes := initial;
    }

    method Extend(more: seq<Byte>)
      modifies this
      ensures bytes == old(bytes) + more
    {
      bytes := bytes + more;
    }

    /** A field that does not fit its length prefix leaves the vector as it was. */
    method AppendField(field: seq<Byte>) returns (ok: bool)
      modifies this
      ensures ok <==> Field(field).Ok?
      ensures bytes == if ok then old(bytes) + Field(field).value else old(bytes)
    {
      if |field| >= 0x1_0000_0000 {
        return false;
      }
      Extend(BigEndian(|field|, 4));
      Extend(field);
      ok := true;
    }
  }

  lemma Regroup(a: seq<Byte>, b: seq<Byte>, c: seq<Byte>, d: seq<Byte>,
                e: seq<Byte>, f: seq<Byte>, g: seq<Byte>, h: seq<Byte>)
    ensures a + b + c + d + e + f + g + h == a + (b + (c + (d + (e + (f + (g + h))))))
  {
  }

  lemma ShortFields(m: Metadata)
    ensures Field(m.objectId).Ok? && Field(m.deviceId).Ok?
  {
  }

  method BuildAssociatedData(m: Metadata, envelopeVersion: Byte) returns (r: Result<seq<Byte>, CryptoError>)
    ensures r == AssociatedData(m, envelopeVersion)
  {
    hide Field, BigEndian;
    var aad := new ByteVector(Ascii(AAD_LABEL));
    assert Field(m.objectId).Ok? && Field(m.deviceId).Ok? by { ShortFields(m); }
    aad.Extend(BigEndian(m.protocol, 2));
    var ok := aad.AppendField(m.objectId);
    if !ok { return Err(MetadataTooLarge); }
    ok := aad.AppendField(m.namespace);
    if !ok { return Err(MetadataTooLarge); }
    ok := aad.AppendField(m.deviceId);
    if !ok { return Err(MetadataTooLarge); }
    aad.Extend(BigEndian(m.revision, 8));
    ok := aad.AppendField(m.modifiedAt.text);
    if !ok { return Err(MetadataTooLarge); }
    aad.Extend([envelopeVersion]);
    Regroup(Ascii(AAD_LABEL), BigEndian(m.protocol, 2), Field(m.objectId).value, Field(m.namespace).value,
            Field(m.deviceId).value, BigEndian(m.revision, 8), Field(m.modifiedAt.text).value, [envelopeVersion]);
    r := Ok(aad.bytes);
  }

  // ----- keys and envelopes -----

  datatype MasterKey = MasterKey(secret: seq<Byte>)

  /** What the key derivation binds: the master key, the object id as salt, and the info string. */
  datatype ObjectKey = ObjectKey(master: MasterKey, salt: Uuid, info: seq<Byte>)

  function DeriveKey(master: MasterKey, objectId: Uuid, namespace: Text, keyVersion: U32)
    : Result<ObjectKey, CryptoError>
  {
    if Field(namespace).Err? then Err(MetadataTooLarge)
    else Ok(ObjectKey(master, objectId, Ascii(KEY_LABEL) + Field(namespace).value + BigEndian(keyVersion, 4)))
  }

  /** A sealed message, with the length of its ciphertext in bytes, tag included. */
  datatype Sealed<+T> = Sealed(key: ObjectKey, nonce: seq<Byte>, aad: seq<Byte>, message: T, length: nat)

  datatype Envelope<+T> = Envelope(
    version: Byte, algorithm: string, keyVersion: U32, nonce: seq<Byte>, ciphertext: Sealed<T>)

  datatype SyncObject<+T> = SyncObject(
    id: Uuid, namespace: Text, revision: U64, cursor: nat, deviceId: Uuid, modifiedAt: Timestamp,
    deleted: bool, envelope: Option<Envelope<T>>)

  function Encrypt<T>(master: MasterKey, m: Metadata, nonce: seq<Byte>, plaintext: T, plaintextBytes: nat)
    : Result<Envelope<T>, CryptoError>
    requires |nonce| == NONCE_BYTES
  {
    match (DeriveKey(master, m.objectId, m.namespace, 1), AssociatedData(m, 1))
    case (Ok(key), Ok(aad)) =>
      Ok(Envelope(1, ALGORITHM, 1, nonce, Sealed(key, nonce, aad, plaintext, plaintextBytes + TAG_BYTES)))
    case _ => Err(MetadataTooLarge)
  }

  function MetadataOf<T>(obj: SyncObject<T>): Metadata
  {
    Metadata(PROTOCOL, obj.id, obj.namespace, obj.deviceId, obj.revision, obj.modifiedAt)
  }

  function Decrypt<T>(master: MasterKey, obj: SyncObject<T>): Result<T, CryptoError>
  {
    if obj.envelope.None? then Err(Deleted)
    else
      var e := obj.envelope.value;
      if e.version != 1 || e.keyVersion != 1 || e.algorithm != ALGORITHM || |e.nonce| != NONCE_BYTES then
        Err(UnsupportedEnvelope)
      else
        match (DeriveKey(master, obj.id, obj.namespace, e.keyVersion), AssociatedData(MetadataOf(obj), e.version))
        case (Ok(key), Ok(aad)) =>
          if e.ciphertext.key == key && e.ciphertext.nonce == e.nonce && e.ciphertext.aad == aad
          then Ok(e.ciphertext.message)
          else Err(AuthenticationFailed)
        case _ => Err(MetadataTooLarge)
  }

  /**
   An encrypted payload decrypts under a stored object exactly when the reader holds the same
   master key and every authenticated field of the object is the one it was encrypted for.
   */
  lemma DecryptsExactly<T>(
      master: MasterKey, m: Metadata, nonce: seq<Byte>, plaintext: T, size: nat,
      reader: MasterKey, obj: SyncObject<T>)
    requires |nonce| == NONCE_BYTES
    requires Encrypt(master, m, nonce, plaintext, size).Ok?
    requires obj.envelope == Some(Encrypt(master, m, nonce, plaintext, size).value)
    ensures Decrypt(reader, obj) == Ok(plaintext) <==> reader == master && MetadataOf(obj) == m
    ensures !(reader == master && MetadataOf(obj) == m) ==> Decrypt(reader, obj).Err?
    ensures reader != master && MetadataOf(obj) == m ==> Decrypt(reader, obj) == Err(AuthenticationFailed)
  {
    hide Field, ParseAssociatedData;
    if Decrypt(reader, obj).Ok? {
      AssociatedDataInjective(m, 1, MetadataOf(obj), 1);
    }
  }

  // ----- the layout, byte by byte -----

  /** Every field stands at its place: fixed widths, big-endian numbers, four-byte lengths. */
  lemma AssociatedDataLayout(m: Metadata, envelopeVersion: Byte)
    requires AssociatedData(m, envelopeVersion).Ok?
    ensures var aad, n, t := AssociatedData(m, envelopeVersion).value, |m.namespace|, |m.modifiedAt.text|;
            && |aad| == 18 + 2 + 4 + 16 + 4 + n + 4 + 16 + 8 + 4 + t + 1
            && aad[..18] == Ascii("helium-sync/aad/v1")
            && aad[18..20] == BigEndian(m.protocol, 2)
            && aad[20..24] == BigEndian(16, 4) && aad[24..40] == m.objectId
            && aad[40..44] == BigEndian(n, 4) && aad[44..44 + n] == m.namespace
            && aad[44 + n..48 + n] == BigEndian(16, 4) && aad[48 + n..64 + n] == m.deviceId
            && aad[64 + n..72 + n] == BigEndian(m.revision, 8)
            && aad[72 + n..76 + n] == BigEndian(t, 4) && aad[76 + n..76 + n + t] == m.modifiedAt.text
            && aad[76 + n + t] == envelopeVersion
  {
    hide BigEndian;
  }

  // ----- sealing and opening -----

  /** Sealing fails only for texts too long for their length prefix; the tag adds sixteen bytes. */
  lemma EncryptsExactly<T>(master: MasterKey, m: Metadata, nonce: seq<Byte>, plaintext: T, size: nat)
    requires |nonce| == NONCE_BYTES
    ensures var r := Encrypt(master, m, nonce, plaintext, size);
            && (r.Ok? <==> |m.namespace| < 0x1_0000_0000 && |m.modifiedAt.text| < 0x1_0000_0000)
            && (r.Ok? ==>
                  && r.value.version == 1 && r.value.keyVersion == 1 && r.value.algorithm == "XCHACHA20-POLY1305"
                  && r.value.nonce == nonce && r.value.ciphertext.length == size + 16)
  {
    ShortFields(m);
  }

  /** Which error a row that does not open meets, in the order of the checks. */
  lemma DecryptFailsAs<T>(reader: MasterKey, obj: SyncObject<T>)
    requires Decrypt(reader, obj).Err?
    ensures var e := Decrypt(reader, obj).error;
            if obj.envelope.None? then e == Deleted
            else if obj.envelope.value.version != 1 || obj.envelope.value.keyVersion != 1
                    || obj.envelope.value.algorithm != "XCHACHA20-POLY1305" || |obj.envelope.value.nonce| != 24 then
              e == UnsupportedEnvelope
            else if |obj.namespace| >= 0x1_0000_0000
                    || |obj.modifiedAt.text| >= 0x1_0000_0000 then e == MetadataTooLarge
            else e == AuthenticationFailed
  {
    ShortFields(MetadataOf(obj));
  }

  lemma KeyParts(master: MasterKey, id: Uuid, ns: Text, v: U32)
    requires DeriveKey(master, id, ns, v).Ok?
    ensures var key, k := DeriveKey(master, id, ns, v).value, |Ascii(KEY_LABEL)|;
            && key.master == master && key.salt == id
            && |key.info| == k + 8 + |ns| && FromBigEndian(key.info[k..k + 4]) == |ns|
            && ns == key.info[k + 4..k + 4 + |ns|] && FromBigEndian(key.info[k + 4 + |ns|..]) == v
  {
    Widths();
    BigEndianRoundTrip(|ns|, 4);
    BigEndianRoundTrip(v, 4);
    var info, k := DeriveKey(master, id, ns, v).value.info, |Ascii(KEY_LABEL)|;
    assert info == Ascii(KEY_LABEL) + BigEndian(|ns|, 4) + ns + BigEndian(v, 4);
    hide BigEndian, FromBigEndian, DeriveKey, Field, Ascii;
    assert info[k..k + 4] == BigEndian(|ns|, 4);
    assert info[k + 4 + |ns|..] == BigEndian(v, 4);
  }

  /** Another master key, object, namespace or key version is another object key. */
  lemma KeysApart(x: MasterKey, id: Uuid, ns: Text, v: U32, x': MasterKey, id': Uuid, ns': Text, v': U32)
    requires DeriveKey(x, id, ns, v).Ok? && DeriveKey(x, id, ns, v) == DeriveKey(x', id', ns', v')
    ensures x == x' && id == id' && ns == ns' && v == v'
  {
    KeyParts(x, id, ns, v);
    KeyParts(x', id', ns', v');
    hide DeriveKey, FromBigEndian, Ascii;
  }
}
