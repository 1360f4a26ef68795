/** The already-parsed certificate the parser reads, as the `cryptography` library hands
    it over; only the fields the parser reads are kept. */
module X509 {
  import opened Wrappers
  import opened Hex

  /** An attribute value as Python holds it: `None`, a bool or an int. */
  datatype PyValue = PyNone | PyBool(b: bool) | PyInt(i: int)

  /** Python truthiness of such a value. */
  predicate Truthy(v: PyValue) {
    match v
    case PyNone => false
    case PyBool(b) => b
    case PyInt(i) => i != 0
  }

  /** `vars(obj).items()`: attribute names with their values, in assignment order. */
  type Attributes = seq<(string, PyValue)>

  /** `x509.NameAttribute`: `oid._name`, `oid.dotted_string` and `value`. */
  datatype NameAttribute = NameAttribute(oidName: string, dottedString: string, value: string)

  /** A general name of subjectAltName. For every kind but otherName, `value` is the text
      `str()` gives of the library's value. */
  datatype GeneralName =
    | DNSName(value: string)
    | IPAddress(value: string)
    | RFC822Name(value: string)
    | OtherName(typeId: string, payload: seq<Byte>)
    | OtherGeneralName(value: string)  // URI, directory name or registered ID

  /** `x509.AccessDescription`: `access_method._name` and `access_location.value`. */
  datatype AccessDescription = AccessDescription(accessMethodName: string, accessLocation: string)

  /** `x509.DistributionPoint`: the `.value` of each full-name entry, or `None`; and the
      CRL issuers, each a directory name given by its attributes, or `None`. */
  datatype DistributionPoint =
    DistributionPoint(fullName: Option<seq<string>>, crlIssuer: Option<seq<seq<NameAttribute>>>)

  /** `x509.KeyUsage`. */
  datatype KeyUsage = KeyUsage(
    digitalSignature: bool, contentCommitment: bool, keyEncipherment: bool,
    dataEncipherment: bool, keyAgreement: bool, keyCertSign: bool, crlSign: bool,
    encipherOnly: bool, decipherOnly: bool)

  /** The private attribute under which the library stores the property `name`. */
  function Private(name: string): string {
    "_" + name
  }

  /** The flags of a `KeyUsage` with their property names, in the order its constructor
      assigns them. */
  function KeyUsageBits(ku: KeyUsage): seq<(bool, string)> {
    [(ku.digitalSignature, "digital_signature"),
     (ku.contentCommitment, "content_commitment"),
     (ku.keyEncipherment, "key_encipherment"),
     (ku.dataEncipherment, "data_encipherment"),
     (ku.keyAgreement, "key_agreement"),
     (ku.keyCertSign, "key_cert_sign"),
     (ku.crlSign, "crl_sign"),
     (ku.encipherOnly, "encipher_only"),
     (ku.decipherOnly, "decipher_only")]
  }

  /** `vars()` of a `KeyUsage`: each flag under its private attribute. */
  function KeyUsageVars(ku: KeyUsage): Attributes {
    var bits := KeyUsageBits(ku);
    seq(|bits|, i requires 0 <= i < |bits| => (Private(bits[i].1), PyBool(bits[i].0)))
  }

  /** `vars()` of a `BasicConstraints`. */
  function BasicConstraintsVars(ca: bool, pathLength: Option<nat>): Attributes {
    [(Private("ca"), PyBool(ca)),
     (Private("path_length"), match pathLength case Some(n) => PyInt(n) case None => PyNone)]
  }

  /** The typed `ext.value` of an extension. */
  datatype ExtensionValue =
    | BasicConstraints(ca: bool, pathLength: Option<nat>)
    | KeyUsageValue(usage: KeyUsage)
    | ExtendedKeyUsage(usages: seq<string>)  // dotted OIDs
    | AuthorityKeyIdentifier(keyIdentifier: Option<seq<Byte>>)
    | SubjectKeyIdentifier(digest: seq<Byte>)
    | SubjectAlternativeName(names: seq<GeneralName>)
    | CRLDistributionPoints(points: seq<DistributionPoint>)
    | AuthorityInformationAccess(descriptions: seq<AccessDescription>)
    | UnparsedValue  // the value of any extension the parser has no decoder for

  /** `x509.Extension`: `oid._name`, `critical` and `value`. */
  datatype Extension = Extension(name: string, critical: bool, value: ExtensionValue)

  /** The parts of `x509.Certificate` the parser reads. Validity times are kept as the
      text they serialise to. */
  datatype X509Cert = X509Cert(
    subject: seq<NameAttribute>,
    extensions: seq<Extension>,
    signatureAlgorithmName: string,
    signature: seq<Byte>,
    keySize: nat,
    notValidBefore: string,
    notValidAfter: string)
}
