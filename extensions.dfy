/** The extension layer of `Certificate` (certreader/parse.py:151-241): one decoder per
    supported extension, and the dispatch that maps each extension name to its decoder's
    result or to the "not implemented" sentinel. */
module Extensions {
  import opened Wrappers
  import opened Text
  import opened Hex
  import opened Seqs
  import opened Oid
  import opened Principal
  import opened X509

  /** What an extension with no decoder is stored as. */
  const NotImplemented: string := "** Not implemented by parser **"

  /** The names `n` for which `Certificate` has a method `_get_extension_<n>`. */
  const DecodedNames: set<string> := {
    "cRLDistributionPoints", "extendedKeyUsage", "authorityInfoAccess", "basicConstraints",
    "authorityKeyIdentifier", "subjectKeyIdentifier", "keyUsage", "subjectAltName"}

  /** The exceptions a decoder can raise; each one ends the whole decoding. */
  datatype DecodeError =
    | PrincipalDecodeError(oid: string)    // the DER decoder rejects an otherName payload
    | NoneNotIterable(field: string)       // TypeError: a field that is None is iterated
    | KindMismatch(extension: string)      // a value not of the kind its name announces (not raised by the source)

  /** Code outside the parser that it calls: the DER decoder with the two principal
      schemas, and `str()` of a bytes value. */
  datatype PayloadCodec = PayloadCodec(
    krb5: seq<Byte> -> Option<Krb5PrincipalName>,
    utf8: seq<Byte> -> Option<string>,
    bytesText: seq<Byte> -> string)

  /** The OID name table and the payload decoders. */
  datatype Context = Context(registry: map<string, string>, codec: PayloadCodec)

  datatype DistPointOut = DistPointOut(fullName: seq<string>, crlIssuer: Option<seq<map<string, string>>>)
  datatype EkuOut = EkuOut(name: Option<string>, oid: string)
  datatype AccessOut = AccessOut(accessMethod: string, location: string)
  datatype SanOut = SanOut(name: string, value: string, oid: Option<string>)

  /** The result of each decoder. */
  datatype ExtOutput =
    | DistributionPointsOut(points: seq<DistPointOut>)
    | ExtendedKeyUsageOut(usages: seq<EkuOut>)
    | AccessDescriptionsOut(descriptions: seq<AccessOut>)
    | BasicConstraintsOut(fields: seq<(string, PyValue)>)
    | KeyIdentifierOut(hex: string)
    | KeyUsageOut(flags: seq<string>)
    | SubjectAltNameOut(names: seq<SanOut>)

  /** A value of the `extensions` dict: `{"value": ..., "critical": ...}` or the bare sentinel. */
  datatype ExtEntry = Decoded(value: ExtOutput, critical: bool) | Sentinel(text: string)

  // ---------------------------------------------------------------- basicConstraints, keyUsage

  predicate IsNotNone(a: (string, PyValue)) { a.1 != PyNone }
  predicate IsActive(a: (string, PyValue)) { Truthy(a.1) }
  function StrippedPair(a: (string, PyValue)): (string, PyValue) { (LStrip(a.0, '_'), a.1) }
  function StrippedName(a: (string, PyValue)): string { LStrip(a.0, '_') }

  /** `{constraint.lstrip("_"): value for constraint, value in vars(ext.value).items()
      if value is not None}`: exactly the attributes that are not `None`, in order, with
      their leading underscores removed. */
  function DecodeBasicConstraints(attrs: Attributes): (r: seq<(string, PyValue)>)
    ensures |r| == |Indices(attrs, IsNotNone)|
    ensures forall k :: 0 <= k < |r| ==>
              r[k] == (LStrip(attrs[Indices(attrs, IsNotNone)[k]].0, '_'), attrs[Indices(attrs, IsNotNone)[k]].1)
    ensures forall k :: 0 <= k < |r| ==> r[k].1 != PyNone
  {
    FilterMapAt(attrs, IsNotNone, StrippedPair);
    FilterMap(attrs, IsNotNone, StrippedPair)
  }

  /** Stripping the underscore of a private attribute gives back the property's name. */
  lemma StripPrivate(name: string)
    requires name != [] && name[0] != '_'
    ensures LStrip(Private(name), '_') == name
  {
    assert Private(name)[1..] == name;
  }

  /** For the library's `BasicConstraints`: `ca` always, `path_length` only when set. */
  lemma BasicConstraintsFields(ca: bool, pathLength: Option<nat>)
    ensures DecodeBasicConstraints(BasicConstraintsVars(ca, pathLength)) ==
              [("ca", PyBool(ca))] + (if pathLength.Some? then [("path_length", PyInt(pathLength.value))] else [])
  {
    var attrs := BasicConstraintsVars(ca, pathLength);
    var a0, a1 := attrs[0], attrs[1];
    StripPrivate("ca");
    StripPrivate("path_length");
    assert attrs[..1] == [a0] && [a0][..0] == [];
    assert FilterMap([a0], IsNotNone, StrippedPair) == [("ca", PyBool(ca))];
    assert FilterMap(attrs, IsNotNone, StrippedPair) ==
           FilterMap([a0], IsNotNone, StrippedPair) + (if IsNotNone(a1) then [StrippedPair(a1)] else []);
  }

  /** `[ku.lstrip("_") for ku, active in vars(ext.value).items() if active]`: the names of
      exactly the true flags, in declared order, and an empty list when none is true. */
  function DecodeKeyUsage(attrs: Attributes): (r: seq<string>)
    ensures |r| == |Indices(attrs, IsActive)|
    ensures forall k :: 0 <= k < |r| ==> r[k] == LStrip(attrs[Indices(attrs, IsActive)[k]].0, '_')
    ensures r == [] <==> forall i :: 0 <= i < |attrs| ==> !Truthy(attrs[i].1)
  {
    FilterMapAt(attrs, IsActive, StrippedName);
    IndicesEmpty(attrs, IsActive);
    FilterMap(attrs, IsActive, StrippedName)
  }

  predicate IsSet(bit: (bool, string)) { bit.0 }
  function BitName(bit: (bool, string)): string { bit.1 }

  /** For the library's `KeyUsage`: the names of exactly the flags that are set, in the
      order the constructor assigns them. */
  lemma KeyUsageNames(ku: KeyUsage)
    ensures DecodeKeyUsage(KeyUsageVars(ku)) == FilterMap(KeyUsageBits(ku), IsSet, BitName)
  {
    var a, bits := KeyUsageVars(ku), KeyUsageBits(ku);
    forall i | 0 <= i < |bits|
      ensures IsActive(a[i]) == IsSet(bits[i]) && StrippedName(a[i]) == BitName(bits[i])
    {
      assert bits[i].1 != [] && bits[i].1[0] != '_';
      StripPrivate(bits[i].1);
    }
    FilterMapPointwise(a, IsActive, StrippedName, bits, IsSet, BitName);
  }

  // ---------------------------------------------------------------- key identifiers

  /** `hexlify(ext.value.key_identifier)`; a missing key identifier is `None`, which
      `hexlify` cannot iterate. */
  function DecodeAuthorityKeyIdentifier(keyIdentifier: Option<seq<Byte>>): (r: Result<string, DecodeError>)
    ensures r.Ok? <==> keyIdentifier.Some?
    ensures r.Ok? ==> Unhexlify(r.value) == Some(keyIdentifier.value)
    ensures r.Err? ==> r.error == NoneNotIterable("key_identifier")
  {
    match keyIdentifier
    case None => Err(NoneNotIterable("key_identifier"))
    case Some(k) => UnhexlifyHexlify(k); Ok(Hexlify(k))
  }

  /** `hexlify(ext.value.digest)`. */
  function DecodeSubjectKeyIdentifier(digest: seq<Byte>): (r: string)
    ensures Unhexlify(r) == Some(digest)
  {
    UnhexlifyHexlify(digest);
    Hexlify(digest)
  }

  // ---------------------------------------------------------------- extendedKeyUsage

  function UsageList(usages: seq<string>, registry: map<string, string>): seq<EkuOut> {
    seq(|usages|, i requires 0 <= i < |usages| => EkuOut(GetNameform(registry, usages[i]), usages[i]))
  }

  /** One `{"name": get_nameform(oid), "oid": oid}` per usage, in order. */
  method DecodeExtendedKeyUsage(usages: seq<string>, registry: map<string, string>) returns (values: seq<EkuOut>)
    ensures |values| == |usages|
    ensures forall i :: 0 <= i < |usages| ==>
              values[i].oid == usages[i] && values[i].name == GetNameform(registry, usages[i])
    ensures values == UsageList(usages, registry)
  {
    values := [];
    for i := 0 to |usages|
      invariant |values| == i
      invariant forall j :: 0 <= j < i ==> values[j] == EkuOut(GetNameform(registry, usages[j]), usages[j])
    {
      var eku := usages[i];
      values := values + [EkuOut(GetNameform(registry, eku), eku)];
    }
  }

  // ---------------------------------------------------------------- authorityInfoAccess

  function AccessList(descriptions: seq<AccessDescription>): seq<AccessOut> {
    seq(|descriptions|, i requires 0 <= i < |descriptions| =>
      AccessOut(descriptions[i].accessMethodName, descriptions[i].accessLocation))
  }

  /** One `{"method": ..., "location": ...}` per access description, in order. */
  method DecodeAuthorityInfoAccess(descriptions: seq<AccessDescription>) returns (values: seq<AccessOut>)
    ensures |values| == |descriptions|
    ensures forall i :: 0 <= i < |descriptions| ==>
              values[i].accessMethod == descriptions[i].accessMethodName &&
              values[i].location == descriptions[i].accessLocation
    ensures values == AccessList(descriptions)
  {
    values := [];
    for i := 0 to |descriptions|
      invariant |values| == i
      invariant forall j :: 0 <= j < i ==>
                  values[j] == AccessOut(descriptions[j].accessMethodName, descriptions[j].accessLocation)
    {
      var info := descriptions[i];
      values := values + [AccessOut(info.accessMethodName, info.accessLocation)];
    }
  }

  // ---------------------------------------------------------------- cRLDistributionPoints

  /** `{dn_part.oid._name: dn_part.value for dn_part in issuer.value}`. */
  function AttributeMap(parts: seq<NameAttribute>): (m: map<string, string>)
    ensures forall k :: k in m <==> exists i :: 0 <= i < |parts| && parts[i].oidName == k
    decreases |parts|
  {
    if parts == [] then map[]
    else
      var init := parts[..|parts| - 1];
      assert forall i :: 0 <= i < |init| ==> init[i] == parts[i];
      AttributeMap(init)[parts[|parts| - 1].oidName := parts[|parts| - 1].value]
  }

  /** A later attribute with the same name overwrites an earlier one. */
  lemma {:induction false} AttributeMapLastWins(parts: seq<NameAttribute>, i: nat)
    requires i < |parts|
    requires forall j :: i < j < |parts| ==> parts[j].oidName != parts[i].oidName
    ensures parts[i].oidName in AttributeMap(parts) && AttributeMap(parts)[parts[i].oidName] == parts[i].value
    decreases |parts|
  {
    if i < |parts| - 1 {
      var init := parts[..|parts| - 1];
      AttributeMapLastWins(init, i);
    }
  }

  /** `dist_point.crl_issuer or []`. */
  function IssuersOf(dp: DistributionPoint): seq<seq<NameAttribute>> {
    dp.crlIssuer.GetOr([])
  }

  function IssuerMaps(issuers: seq<seq<NameAttribute>>): seq<map<string, string>> {
    seq(|issuers|, k requires 0 <= k < |issuers| => AttributeMap(issuers[k]))
  }

  /** One distribution point: `full_name` copied, `crl_issuer` present exactly when there
      is an issuer, and then never an empty list. */
  function DistPointEntry(dp: DistributionPoint): (r: Result<DistPointOut, DecodeError>)
    ensures r.Ok? <==> dp.fullName.Some?
    ensures r.Err? ==> r.error == NoneNotIterable("full_name")
    ensures r.Ok? ==> r.value.fullName == dp.fullName.value
    ensures r.Ok? ==> (r.value.crlIssuer.Some? <==> IssuersOf(dp) != [])
    ensures r.Ok? && r.value.crlIssuer.Some? ==>
              r.value.crlIssuer.value != [] && r.value.crlIssuer.value == IssuerMaps(IssuersOf(dp))
  {
    match dp.fullName
    case None => Err(NoneNotIterable("full_name"))
    case Some(names) =>
      var issuers := IssuerMaps(IssuersOf(dp));
      Ok(DistPointOut(names, if issuers != [] then Some(issuers) else None))
  }

  /** `_get_extension_cRLDistributionPoints`: one entry per distribution point, in order;
      a point without a full name ends the decoding. */
  method DecodeCRLDistributionPoints(points: seq<DistributionPoint>) returns (r: Result<seq<DistPointOut>, DecodeError>)
    ensures r.Ok? <==> forall i :: 0 <= i < |points| ==> points[i].fullName.Some?
    ensures r.Err? ==> r.error == NoneNotIterable("full_name")
    ensures r.Ok? ==>
              |r.value| == |points| &&
              forall i :: 0 <= i < |points| ==> r.value[i] == DistPointEntry(points[i]).value
    ensures r == MapResult(points, DistPointEntry)
  {
    var values: seq<DistPointOut> := [];
    for i := 0 to |points|
      invariant MapResult(points[..i], DistPointEntry) == Ok(values)
      invariant forall j :: 0 <= j < i ==> DistPointEntry(points[j]).Ok?
    {
      var distPoint := points[i];
      assert points[..i + 1][..i] == points[..i];
      if distPoint.fullName.None? {
        MapResultFirstError(points, DistPointEntry, i);
        MapResultOk(points, DistPointEntry);
        return Err(NoneNotIterable("full_name"));
      }
      var fullName := distPoint.fullName.value;
      var crlIssuer: seq<map<string, string>> := [];
      var issuers := IssuersOf(distPoint);
      for j := 0 to |issuers|
        invariant crlIssuer == IssuerMaps(issuers[..j])
      {
        crlIssuer := crlIssuer + [AttributeMap(issuers[j])];
      }
      assert issuers[..|issuers|] == issuers;
      var value := DistPointOut(fullName, if crlIssuer != [] then Some(crlIssuer) else None);
      values := values + [value];
    }
    assert points[..|points|] == points;
    MapResultOk(points, DistPointEntry);
    r := Ok(values);
  }

  // ---------------------------------------------------------------- subjectAltName

  /** `subjectAltName_class_name_map.get(san.__class__, "Unknown")`. */
  function KindLabel(gn: GeneralName): string {
    match gn
    case DNSName(_) => "DNS"
    case IPAddress(_) => "IP Address"
    case RFC822Name(_) => "email"
    case _ => "Unknown"
  }

  /** `san.type_id`, or `None` where reading it raises `AttributeError`. */
  function TypeId(gn: GeneralName): Option<string> {
    if gn.OtherName? then Some(gn.typeId) else None
  }

  /** `str(san.value)`. */
  function ValueText(gn: GeneralName, codec: PayloadCodec): string {
    match gn
    case OtherName(_, payload) => codec.bytesText(payload)
    case DNSName(v) => v
    case IPAddress(v) => v
    case RFC822Name(v) => v
    case OtherGeneralName(v) => v
  }

  /** The otherName type ids of `subjectAltName_oid_class_map`. */
  predicate IsPrincipalOid(oid: string) {
    oid == KerberosOid || oid == UpnOid
  }

  /** One subjectAltName entry. The label follows the name's kind; an otherName of a
      principal type is replaced by its decoded principal and label, and fails when its
      payload does not decode; `oid` is present exactly for otherNames. */
  function SanEntry(gn: GeneralName, codec: PayloadCodec): (r: Result<SanOut, DecodeError>)
    ensures r.Err? <==>
              gn.OtherName? &&
              ((gn.typeId == KerberosOid && codec.krb5(gn.payload).None?) ||
               (gn.typeId == UpnOid && codec.utf8(gn.payload).None?))
    ensures r.Err? ==> r.error == PrincipalDecodeError(gn.typeId)
    ensures r.Ok? ==> (r.value.oid.Some? <==> gn.OtherName?)
    ensures r.Ok? && gn.OtherName? ==> r.value.oid.value == gn.typeId
    ensures r.Ok? && gn.OtherName? && gn.typeId == KerberosOid ==>
              r.value.name == KerberosLabel && r.value.value == DecodeName(codec.krb5(gn.payload).value)
    ensures r.Ok? && gn.OtherName? && gn.typeId == UpnOid ==>
              r.value.name == UpnLabel && r.value.value == codec.utf8(gn.payload).value
    ensures r.Ok? && gn.DNSName? ==> r.value.name == "DNS"
    ensures r.Ok? && gn.IPAddress? ==> r.value.name == "IP Address"
    ensures r.Ok? && gn.RFC822Name? ==> r.value.name == "email"
    ensures r.Ok? && (gn.OtherGeneralName? || (gn.OtherName? && !IsPrincipalOid(gn.typeId))) ==>
              r.value.name == "Unknown"
    ensures r.Ok? && !(gn.OtherName? && IsPrincipalOid(gn.typeId)) ==> r.value.value == ValueText(gn, codec)
  {
    var oid := TypeId(gn);
    if oid == Some(KerberosOid) then
      match codec.krb5(gn.payload)
      case None => Err(PrincipalDecodeError(KerberosOid))
      case Some(p) => Ok(SanOut(KerberosLabel, DecodeName(p), oid))
    else if oid == Some(UpnOid) then
      match codec.utf8(gn.payload)
      case None => Err(PrincipalDecodeError(UpnOid))
      case Some(s) => Ok(SanOut(UpnLabel, s, oid))
    else Ok(SanOut(KindLabel(gn), ValueText(gn, codec), oid))
  }

  /** The body of the loop of `_get_extension_subjectAltName`, for one name. */
  method DecodeGeneralName(san: GeneralName, codec: PayloadCodec) returns (r: Result<SanOut, DecodeError>)
    ensures r == SanEntry(san, codec)
  {
    var name := KindLabel(san);
    var value := ValueText(san, codec);
    var oid := TypeId(san);
    if oid == Some(KerberosOid) {
      var principal := codec.krb5(san.payload);
      if principal.None? {
        return Err(PrincipalDecodeError(KerberosOid));
      }
      name := KerberosLabel;
      value := DecodeName(principal.value);
    } else if oid == Some(UpnOid) {
      var upn := codec.utf8(san.payload);
      if upn.None? {
        return Err(PrincipalDecodeError(UpnOid));
      }
      name := UpnLabel;
      value := upn.value;
    }
    r := Ok(SanOut(name, value, oid));
  }

  function SanEntryOf(codec: PayloadCodec): GeneralName -> Result<SanOut, DecodeError> {
    gn => SanEntry(gn, codec)
  }

  /** `_get_extension_subjectAltName`: one entry per name, in order; a principal payload
      that does not decode ends the decoding. */
  method DecodeSubjectAltName(names: seq<GeneralName>, codec: PayloadCodec) returns (r: Result<seq<SanOut>, DecodeError>)
    ensures r.Ok? <==> forall i :: 0 <= i < |names| ==> SanEntry(names[i], codec).Ok?
    ensures r.Ok? ==>
              |r.value| == |names| &&
              forall i :: 0 <= i < |names| ==> r.value[i] == SanEntry(names[i], codec).value
    ensures r == MapResult(names, SanEntryOf(codec))
  {
    var values: seq<SanOut> := [];
    for i := 0 to |names|
      invariant MapResult(names[..i], SanEntryOf(codec)) == Ok(values)
      invariant forall j :: 0 <= j < i ==> SanEntry(names[j], codec).Ok?
    {
      var san := names[i];
      assert names[..i + 1][..i] == names[..i];
      var entry := DecodeGeneralName(san, codec);
      if entry.Err? {
        MapResultFirstError(names, SanEntryOf(codec), i);
        MapResultOk(names, SanEntryOf(codec));
        return Err(entry.error);
      }
      assert SanEntryOf(codec)(san) == entry;
      values := values + [entry.value];
    }
    assert names[..|names|] == names;
    MapResultOk(names, SanEntryOf(codec));
    r := Ok(values);
  }

  // ---------------------------------------------------------------- dispatch

  /** The extension name under which the library hands over a value of this kind. */
  function ValueKind(v: ExtensionValue): Option<string> {
    match v
    case BasicConstraints(_, _) => Some("basicConstraints")
    case KeyUsageValue(_) => Some("keyUsage")
    case ExtendedKeyUsage(_) => Some("extendedKeyUsage")
    case AuthorityKeyIdentifier(_) => Some("authorityKeyIdentifier")
    case SubjectKeyIdentifier(_) => Some("subjectKeyIdentifier")
    case SubjectAlternativeName(_) => Some("subjectAltName")
    case CRLDistributionPoints(_) => Some("cRLDistributionPoints")
    case AuthorityInformationAccess(_) => Some("authorityInfoAccess")
    case UnparsedValue => None
  }

  /** `getattr(self, "_get_extension_" + name)(ext)`: the decoder named by `name` applied
      to the value. The library always hands over the value of the kind its name
      announces; a mismatched pair is answered with `KindMismatch`. */
  function DecodeValue(name: string, v: ExtensionValue, ctx: Context): (r: Result<ExtOutput, DecodeError>)
    ensures ValueKind(v) != Some(name) ==> r == Err(KindMismatch(name))
    ensures ValueKind(v) == Some(name) && r.Err? ==>
              v.AuthorityKeyIdentifier? || v.SubjectAlternativeName? || v.CRLDistributionPoints?
    ensures ValueKind(v) == Some(name) && v.BasicConstraints? ==>
              r == Ok(BasicConstraintsOut(DecodeBasicConstraints(BasicConstraintsVars(v.ca, v.pathLength))))
    ensures ValueKind(v) == Some(name) && v.KeyUsageValue? ==>
              r == Ok(KeyUsageOut(DecodeKeyUsage(KeyUsageVars(v.usage))))
    ensures ValueKind(v) == Some(name) && v.ExtendedKeyUsage? ==>
              r == Ok(ExtendedKeyUsageOut(UsageList(v.usages, ctx.registry)))
    ensures ValueKind(v) == Some(name) && v.AuthorityInformationAccess? ==>
              r == Ok(AccessDescriptionsOut(AccessList(v.descriptions)))
    ensures v.AuthorityKeyIdentifier? && ValueKind(v) == Some(name) ==>
              (r.Ok? <==> v.keyIdentifier.Some?) &&
              (r.Ok? ==> r.value.KeyIdentifierOut? && Unhexlify(r.value.hex) == Some(v.keyIdentifier.value)) &&
              (r.Err? ==> r.error == NoneNotIterable("key_identifier"))
    ensures v.SubjectKeyIdentifier? && ValueKind(v) == Some(name) ==>
              r.Ok? && r.value.KeyIdentifierOut? && Unhexlify(r.value.hex) == Some(v.digest)
    ensures v.CRLDistributionPoints? && ValueKind(v) == Some(name) ==>
              (r.Ok? <==> forall i :: 0 <= i < |v.points| ==> v.points[i].fullName.Some?) &&
              (r.Ok? ==> r.value.DistributionPointsOut? && MapResult(v.points, DistPointEntry) == Ok(r.value.points)) &&
              (r.Err? ==> MapResult(v.points, DistPointEntry) == Err(r.error))
    ensures v.SubjectAlternativeName? && ValueKind(v) == Some(name) ==>
              (r.Ok? <==> forall i :: 0 <= i < |v.names| ==> SanEntry(v.names[i], ctx.codec).Ok?) &&
              (r.Ok? ==> r.value.SubjectAltNameOut? && MapResult(v.names, SanEntryOf(ctx.codec)) == Ok(r.value.names)) &&
              (r.Err? ==> MapResult(v.names, SanEntryOf(ctx.codec)) == Err(r.error))
  {
    if ValueKind(v) != Some(name) then Err(KindMismatch(name))
    else match v
      case BasicConstraints(ca, pathLength) =>
        Ok(BasicConstraintsOut(DecodeBasicConstraints(BasicConstraintsVars(ca, pathLength))))
      case KeyUsageValue(ku) => Ok(KeyUsageOut(DecodeKeyUsage(KeyUsageVars(ku))))
      case ExtendedKeyUsage(usages) => Ok(ExtendedKeyUsageOut(UsageList(usages, ctx.registry)))
      case AuthorityKeyIdentifier(keyIdentifier) =>
        (match DecodeAuthorityKeyIdentifier(keyIdentifier)
         case Ok(h) => Ok(KeyIdentifierOut(h))
         case Err(e) => Err(e))
      case SubjectKeyIdentifier(digest) => Ok(KeyIdentifierOut(DecodeSubjectKeyIdentifier(digest)))
      case SubjectAlternativeName(names) =>
        MapResultOk(names, SanEntryOf(ctx.codec));
        (match MapResult(names, SanEntryOf(ctx.codec))
         case Ok(entries) => Ok(SubjectAltNameOut(entries))
         case Err(e) => Err(e))
      case CRLDistributionPoints(points) =>
        MapResultOk(points, DistPointEntry);
        (match MapResult(points, DistPointEntry)
         case Ok(entries) => Ok(DistributionPointsOut(entries))
         case Err(e) => Err(e))
      case AuthorityInformationAccess(descriptions) => Ok(AccessDescriptionsOut(AccessList(descriptions)))
      case UnparsedValue => Err(KindMismatch(name))
  }

  /** What one iteration of `_get_extensions` stores under the extension's name: a decoded
      extension keeps its own criticality; an extension without a decoder becomes the bare
      sentinel and never fails. */
  function ExtensionEntry(ext: Extension, ctx: Context): (r: Result<ExtEntry, DecodeError>)
    ensures ext.name !in DecodedNames ==> r == Ok(Sentinel(NotImplemented))
    ensures ext.name in DecodedNames && r.Ok? ==> r.value.Decoded? && r.value.critical == ext.critical
    ensures ext.name in DecodedNames && r.Ok? ==> ValueKind(ext.value) == Some(ext.name)
    ensures ext.name in DecodedNames ==>
              (r.Ok? <==> DecodeValue(ext.name, ext.value, ctx).Ok?) &&
              (r.Ok? ==> r.value == Decoded(DecodeValue(ext.name, ext.value, ctx).value, ext.critical)) &&
              (r.Err? ==> r.error == DecodeValue(ext.name, ext.value, ctx).error)
  {
    if ext.name in DecodedNames then
      match DecodeValue(ext.name, ext.value, ctx)
      case Ok(v) => Ok(Decoded(v, ext.critical))
      case Err(e) => Err(e)
    else Ok(Sentinel(NotImplemented))
  }

  /** The `extensions` dict after the loop of `_get_extensions` has visited `exts`. */
  function Extensions(exts: seq<Extension>, ctx: Context): Result<map<string, ExtEntry>, DecodeError>
    decreases |exts|
  {
    if exts == [] then Ok(map[])
    else
      var last := exts[|exts| - 1];
      match Extensions(exts[..|exts| - 1], ctx)
      case Err(e) => Err(e)
      case Ok(m) =>
        (match ExtensionEntry(last, ctx)
         case Err(e) => Err(e)
         case Ok(entry) => Ok(m[last.name := entry]))
  }

  /** The decoding succeeds exactly when every extension's entry does. */
  lemma {:induction false} ExtensionsOk(exts: seq<Extension>, ctx: Context)
    ensures Extensions(exts, ctx).Ok? <==> forall i :: 0 <= i < |exts| ==> ExtensionEntry(exts[i], ctx).Ok?
    decreases |exts|
  {
    if exts != [] {
      var init := exts[..|exts| - 1];
      ExtensionsOk(init, ctx);
      assert forall i :: 0 <= i < |init| ==> init[i] == exts[i];
    }
  }

  /** When the entries before `i` succeed and entry `i` fails, its error ends the decoding. */
  lemma {:induction false} ExtensionsFirstError(exts: seq<Extension>, ctx: Context, i: nat)
    requires i < |exts|
    requires forall j :: 0 <= j < i ==> ExtensionEntry(exts[j], ctx).Ok?
    requires ExtensionEntry(exts[i], ctx).Err?
    ensures Extensions(exts, ctx) == Err(ExtensionEntry(exts[i], ctx).error)
    decreases |exts|
  {
    var init := exts[..|exts| - 1];
    if i < |exts| - 1 {
      ExtensionsFirstError(init, ctx, i);
    } else {
      ExtensionsOk(init, ctx);
    }
  }

  /** One key per distinct extension name, and no other key. */
  lemma {:induction false} ExtensionsKeys(exts: seq<Extension>, ctx: Context)
    requires Extensions(exts, ctx).Ok?
    ensures forall k :: k in Extensions(exts, ctx).value <==> exists i :: 0 <= i < |exts| && exts[i].name == k
    decreases |exts|
  {
    if exts != [] {
      var init := exts[..|exts| - 1];
      ExtensionsKeys(init, ctx);
      assert forall i :: 0 <= i < |init| ==> init[i] == exts[i];
    }
  }

  /** The last extension of a name decides what is stored under it: a later duplicate
      overwrites an earlier one. */
  lemma {:induction false} ExtensionsLastWins(exts: seq<Extension>, ctx: Context, i: nat)
    requires Extensions(exts, ctx).Ok?
    requires i < |exts|
    requires forall j :: i < j < |exts| ==> exts[j].name != exts[i].name
    ensures exts[i].name in Extensions(exts, ctx).value
    ensures ExtensionEntry(exts[i], ctx).Ok?
    ensures Extensions(exts, ctx).value[exts[i].name] == ExtensionEntry(exts[i], ctx).value
    decreases |exts|
  {
    if i < |exts| - 1 {
      var init := exts[..|exts| - 1];
      ExtensionsLastWins(init, ctx, i);
    }
  }

  /** `_get_extensions`' call of the decoder: dispatch on the name, then decode. */
  method DecodeExtensionValue(name: string, v: ExtensionValue, ctx: Context) returns (r: Result<ExtOutput, DecodeError>)
    requires name in DecodedNames
    ensures r == DecodeValue(name, v, ctx)
  {
    if ValueKind(v) != Some(name) {
      return Err(KindMismatch(name));
    }
    match v
    case BasicConstraints(ca, pathLength) =>
      r := Ok(BasicConstraintsOut(DecodeBasicConstraints(BasicConstraintsVars(ca, pathLength))));
    case KeyUsageValue(ku) =>
      r := Ok(KeyUsageOut(DecodeKeyUsage(KeyUsageVars(ku))));
    case ExtendedKeyUsage(usages) =>
      var values := DecodeExtendedKeyUsage(usages, ctx.registry);
      r := Ok(ExtendedKeyUsageOut(values));
    case AuthorityKeyIdentifier(keyIdentifier) =>
      var h := DecodeAuthorityKeyIdentifier(keyIdentifier);
      r := if h.Ok? then Ok(KeyIdentifierOut(h.value)) else Err(h.error);
    case SubjectKeyIdentifier(digest) =>
      r := Ok(KeyIdentifierOut(DecodeSubjectKeyIdentifier(digest)));
    case SubjectAlternativeName(names) =>
      var values := DecodeSubjectAltName(names, ctx.codec);
      r := if values.Ok? then Ok(SubjectAltNameOut(values.value)) else Err(values.error);
    case CRLDistributionPoints(points) =>
      var values := DecodeCRLDistributionPoints(points);
      r := if values.Ok? then Ok(DistributionPointsOut(values.value)) else Err(values.error);
    case AuthorityInformationAccess(descriptions) =>
      var values := DecodeAuthorityInfoAccess(descriptions);
      r := Ok(AccessDescriptionsOut(values));
    case UnparsedValue =>
      r := Err(KindMismatch(name));
  }

  /** `_get_extensions`: one entry per extension name, the last extension of a name
      deciding it; the first decoder that fails ends the whole decoding. */
  method GetExtensions(exts: seq<Extension>, ctx: Context) returns (r: Result<map<string, ExtEntry>, DecodeError>)
    ensures r == Extensions(exts, ctx)
    ensures r.Ok? <==> forall i :: 0 <= i < |exts| ==> ExtensionEntry(exts[i], ctx).Ok?
    ensures r.Ok? ==> forall k :: k in r.value <==> exists i :: 0 <= i < |exts| && exts[i].name == k
  {
    var extensions: map<string, ExtEntry> := map[];
    for i := 0 to |exts|
      invariant Extensions(exts[..i], ctx) == Ok(extensions)
      invariant forall j :: 0 <= j < i ==> ExtensionEntry(exts[j], ctx).Ok?
    {
      var ext := exts[i];
      assert exts[..i + 1][..i] == exts[..i];
      var name := ext.name;
      if name in DecodedNames {
        var extensionValue := DecodeExtensionValue(name, ext.value, ctx);
        if extensionValue.Err? {
          ExtensionsFirstError(exts, ctx, i);
          ExtensionsOk(exts, ctx);
          return Err(extensionValue.error);
        }
        extensions := extensions[name := Decoded(extensionValue.value, ext.critical)];
      } else {
        extensions := extensions[name := Sentinel(NotImplemented)];
      }
    }
    assert exts[..|exts|] == exts;
    ExtensionsOk(exts, ctx);
    ExtensionsKeys(exts, ctx);
    r := Ok(extensions);
  }
}
