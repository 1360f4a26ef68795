# certreader parser core in Dafny

certreader reads an X.509 certificate and turns it into a plain dictionary. The
dictionary holds:

- the subject's attributes;
- every extension, decoded or marked as not implemented;
- the signature algorithm with the signature in colon-separated hex;
- the key size and the validity window.

This project models the part of `certreader/parse.py` that builds that dictionary.
The certificate is taken as the `cryptography` library has already parsed it. The
model covers:

- `hexlify`, and the reading that undoes it;
- the escaped text form `KRB5PrincipalName._decode_name` gives a Kerberos principal
  (`comp/comp@REALM`, with `\`, `/` and `@` escaped), and the parser that reads it back;
- the OIDs and labels of the two otherName principal types (UPN and Kerberos);
- `_get_extensions`, which dispatches each extension to its `_get_extension_<name>`
  decoder or stores the bare sentinel `"** Not implemented by parser **"`;
- the eight decoders: cRLDistributionPoints, extendedKeyUsage, authorityInfoAccess,
  basicConstraints, authorityKeyIdentifier, subjectKeyIdentifier, keyUsage and
  subjectAltName;
- `_get_subject_from_x509`, `_get_signature_algorithm` and their composition in
  `_decode_x509_cert`;
- the `Certificate` object, which sets its two fields once, in its constructor.

A Python exception raised by a decoder ends the whole decoding. The model returns it
as an `Err` of `Extensions.DecodeError`, and no certificate object is made. Loops that
build lists are methods with loop invariants. Each is proved equal to a specification
function, and the properties are proved about that function.

Files, one module each:

| file | module | what |
|---|---|---|
| wrappers.dfy | Wrappers | `Option`, `Result` |
| text.dfy | Text | `join`, ASCII `upper`, `lstrip` |
| seqs.dfy | Seqs | map-until-first-error, filtered comprehension |
| hex.dfy | Hex | `hexlify` and its inverse |
| escaping.dfy | Escaping | backslash escaping, splitting at unescaped delimiters |
| principal.dfy | Principal | principal OIDs, labels, Kerberos principal text |
| oid.dfy | Oid | `get_nameform` |
| x509.dfy | X509 | what the parser reads of the library's certificate |
| extensions.dfy | Extensions | the decoders and `_get_extensions` |
| certificate.dfy | Certificates | subject, signature, `_decode_x509_cert`, `Certificate` |

## Model

| member | source | states |
|---|---|---|
| Text.LStrip | certreader/parse.py:203 | `lstrip("_")` removes exactly the leading run of `_`: the result is a suffix, starts with something else or is empty, and only `_` was removed |
| Hex.HexlifyFormat | certreader/parse.py:10-11 | `hexlify` of n bytes has length 3n-1 (0 for no bytes); `:` sits exactly at positions 2 mod 3; the two positions before it are the upper-case high and low nibble of the byte |
| Hex.UnhexlifyHexlify | certreader/parse.py:10-11 | reading the hex text back gives the original bytes (round trip) |
| Hex.HexlifyUnhexlify | certreader/parse.py:10-11 | any text that reads back as bytes is exactly `hexlify` of those bytes (converse round trip) |
| Hex.HexlifyInjective | certreader/parse.py:10-11 | different byte strings never get the same hex text |
| Escaping.UnescapeEscape | certreader/parse.py:85 | removing escapes from an escaped string gives the string back |
| Escaping.EscapeUnescape | certreader/parse.py:85 | every string that unescapes is the escaping of its unescaped form |
| Escaping.EscapeNoBare | certreader/parse.py:85 | after escaping, no escaped delimiter occurs unescaped |
| Escaping.JoinSplitAt | certreader/parse.py:84 | splitting at unescaped delimiters and joining with that delimiter gives the text back |
| Principal.EscapeComponentSinglePass | certreader/parse.py:85 | the chain of `replace("\\", "\\\\")`, `replace("/", "\\/")` and `replace("@", "\\@")` escapes each of `\`, `/` and `@` exactly once, in one pass |
| Principal.EscapeRealmSinglePass | certreader/parse.py:81 | the realm's `replace` chain escapes each of `\` and `@` exactly once |
| Principal.PrincipalTextSplitsOnce | certreader/parse.py:88 | the text `name@realm` has exactly one unescaped `@`, and it separates the escaped name from the escaped realm |
| Principal.NamePartSplit | certreader/parse.py:84-87 | splitting the name part at unescaped `/` gives the escaped components back, one for one |
| Principal.DecodeName | certreader/parse.py:78-89 | for a principal with at least one name component, the text read back gives exactly its components and realm; with no component, the text is `@` followed by the escaped realm |
| Principal.ParseRender | certreader/parse.py:78-89 | reading back the principal text gives the components and the realm (round trip) |
| Principal.RenderParse | certreader/parse.py:78-89 | every text that reads back is the principal text of what it reads back to (converse round trip) |
| Principal.PrincipalTextInjective | certreader/parse.py:78-89 | two principals with name components get the same text only when components and realm are equal |
| Principal.EmptyNameParts | certreader/parse.py:84-88 | a principal with no name component and one with a single empty component get the same text, `@` followed by the escaped realm |
| Oid.GetNameform | certreader/oid.py:9-10 | the registered name exactly for registered OIDs, `None` for the others |
| Extensions.DecodeBasicConstraints | certreader/parse.py:201-206 | exactly the attributes whose value is not `None`, in order, each with its leading underscores removed |
| Extensions.BasicConstraintsFields | certreader/parse.py:201-206 | for the library's basicConstraints value: `ca` always, then `path_length` exactly when it is set |
| Extensions.DecodeKeyUsage | certreader/parse.py:214-215 | the stripped names of exactly the truthy attributes, in order; empty exactly when no attribute is truthy |
| Extensions.KeyUsageNames | certreader/parse.py:214-215 | for the library's keyUsage value: the names of exactly the set flags, in the order the constructor assigns them |
| Extensions.DecodeAuthorityKeyIdentifier | certreader/parse.py:208-209 | hex text that reads back as the key identifier; a missing (`None`) key identifier raises, and only then |
| Extensions.DecodeSubjectKeyIdentifier | certreader/parse.py:211-212 | hex text that reads back as the digest |
| Extensions.DecodeExtendedKeyUsage | certreader/parse.py:182-188 | one entry per usage, in order, with its dotted OID and its registered name or `None` |
| Extensions.DecodeAuthorityInfoAccess | certreader/parse.py:190-199 | one entry per access description, in order, with its method name and location |
| Extensions.AttributeMap | certreader/parse.py:172 | the keys are exactly the attribute names of the issuer |
| Extensions.AttributeMapLastWins | certreader/parse.py:172 | a name that occurs more than once maps to its last value |
| Extensions.DistPointEntry | certreader/parse.py:164-178 | fails exactly when `full_name` is `None`, with the `TypeError` of iterating `None`; keeps the full names; has `crl_issuer` exactly when there is at least one issuer, one map per issuer |
| Extensions.DecodeCRLDistributionPoints | certreader/parse.py:162-180 | succeeds exactly when every point has a full name; then one entry per point, in order; otherwise the `TypeError` of iterating a `None` full name |
| Extensions.SanEntry | certreader/parse.py:219-239 | the label is `DNS` for a DNS name, `IP Address` for an IP address, `email` for an RFC 822 name, and `Unknown` for any other kind and for an otherName of another type, whose value is its `str()` text; a Kerberos (1.3.6.1.5.2.2) or UPN (1.3.6.1.4.1.311.20.2.3) otherName is replaced by its decoded principal and label; it fails exactly when that payload does not decode; `oid` is present exactly for otherNames |
| Extensions.DecodeGeneralName | certreader/parse.py:220-239 | the loop body computes the entry `SanEntry` states |
| Extensions.DecodeSubjectAltName | certreader/parse.py:217-241 | succeeds exactly when every name decodes; then one entry per name, in order; otherwise the first failure |
| Extensions.DecodeValue | certreader/parse.py:156 | each name's decoder result: basicConstraints, keyUsage, extendedKeyUsage and authorityInfoAccess always succeed with their decoder's list; the key identifiers give hex that reads back as the bytes, authorityKeyIdentifier failing exactly on `None`; subjectAltName and cRLDistributionPoints give their entry lists or the first entry's error; only those three can fail |
| Extensions.ExtensionEntry | certreader/parse.py:154-159 | a name without a decoder stores the bare sentinel and never fails; a name with a decoder stores `{value: decoder result, critical: the extension's criticality}`, and fails exactly when its decoder does, with the decoder's error |
| Extensions.ExtensionsOk | certreader/parse.py:151-160 | the extensions decode exactly when every extension's entry does |
| Extensions.ExtensionsFirstError | certreader/parse.py:153-157 | the error is that of the first extension that fails |
| Extensions.ExtensionsKeys | certreader/parse.py:151-160 | the keys of the result are exactly the names of the extensions |
| Extensions.ExtensionsLastWins | certreader/parse.py:157-159 | when a name repeats, the last extension with that name decides its entry |
| Extensions.DecodeExtensionValue | certreader/parse.py:156 | the dispatch by name computes `DecodeValue` |
| Extensions.GetExtensions | certreader/parse.py:151-160 | the loop computes `Extensions`; it succeeds exactly when every entry does, and its keys are the extension names |
| Certificates.GetSubject | certreader/parse.py:142-149 | one entry per subject attribute, in order, with its name, dotted OID and value |
| Certificates.GetSignatureAlgorithm | certreader/parse.py:137-140 | the algorithm's name, and hex text that reads back as the signature bytes |
| Certificates.DecodedCert | certreader/parse.py:122-129 | fails exactly when the extensions fail, with their error; otherwise the subject is one entry per attribute with its name, OID and value, the extensions are their decoding, the algorithm is the certificate's algorithm name and the signature reads back, and key size and validity are the certificate's |
| Certificates.DecodeX509Cert | certreader/parse.py:122-129 | the method computes `DecodedCert` |
| Certificates.Certificate.constructor | certreader/parse.py:105-107 | both fields are set once, and the record is the decoding of the certificate |
| Certificates.Certificate.FromX509 | certreader/parse.py:105-107 | an object exists exactly when decoding succeeds; it holds the certificate and its decoded record; otherwise the decoding error is returned |

## Left out

- `load_certificate` (certreader/parse.py:109-120) is not modelled. It reads a file or a stream and parses PEM, which is I/O and library parsing; the model starts from the parsed certificate. Its test `hasattr("read", encoded_certificate)` has its arguments swapped: for any argument that is not a `str` it raises `TypeError` (attribute name must be string), so a stream is never accepted.
- DER decoding of otherName payloads (the schemas at certreader/parse.py:14-45 and `UniversalPrincipalName._decode_name`) is a parameter, `PayloadCodec`. It returns the decoded principal or string, or nothing when the decoder raises.
- `str()` of an otherName's bytes value is a parameter of `PayloadCodec`. For the other general-name kinds, the model holds the text `str()` gives.
- The OID name table that certreader/oid.py loads from data/oid.yml is a map parameter. The YAML loading and certreader/cli.py are not part of this model.
- `oid._name` of the library's OID objects is taken as given text.
- The key size and the validity timestamps are copied as they are. `X509.X509Cert` always has a key size; for Ed25519 and Ed448 keys `public_key().key_size` does not exist and the source raises `AttributeError`, which the model does not capture.
- The `extensions` dict and each `crl_issuer` dict keep insertion order in the source, and certreader/cli.py prints them in that order. The model uses Dafny `map`s, which have no order.
- Hex.Hexlify: `str.upper` is modelled on ASCII only. That is all the hex text contains.
- Extensions.DistPointEntry: `full_name` entries are taken as their `.value` text. A CRL issuer is taken as a directory name given by its attributes; the other general-name kinds there would raise in the source and are not modelled.
- An extension without a decoder is stored as the bare sentinel string, without its criticality, as the code does.
- The Kerberos principal text joins the name with a plain `/` between escaped components, as the code does. A Kerberos principal `host/server.example.com` in realm `EXAMPLE.COM` renders as `host/server.example.com@EXAMPLE.COM`.
- Principal.DecodeName: a principal with no name component renders as `@` followed by the escaped realm, like one with a single empty component (`Principal.EmptyNameParts`). The round trip therefore holds only for at least one component.
- The `name-type` of a Kerberos principal is decoded but not used by the parser, and is carried without a property.
- The library's own checks are not modelled. For example, the library raises when `encipher_only` is read without `key_agreement`; the parser reads the private attributes and never triggers it.
- Extensions.DecodeValue: a value whose kind does not match the extension's name is answered with `KindMismatch`. The source never meets that case, because the library builds the value from the same OID that gives the name. The branch is a modelling choice, not the source's behaviour.
- Extensions.DecodeBasicConstraints: the result is the ordered list of pairs, where the source builds a dict. Two attributes that strip to the same name would merge in the source. The library's value has only `_ca` and `_path_length`, so this never happens (`Extensions.BasicConstraintsFields`).
