/** `Certificate` (certreader/parse.py:92-160): the subject, the signature algorithm and
    the record `_decode_x509_cert` assembles, held by an object that sets its two fields
    once. */
module Certificates {
  import opened Wrappers
  import opened Hex
  import opened X509
  import opened Extensions

  datatype SubjectOut = SubjectOut(name: string, oid: string, value: string)
  datatype SignatureOut = SignatureOut(algorithm: string, signature: string)
  datatype Validity = Validity(notValidAfter: string, notValidBefore: string)

  /** The dict `_decode_x509_cert` returns. */
  datatype CertRecord = CertRecord(
    subject: seq<SubjectOut>,
    extensions: map<string, ExtEntry>,
    signatureAlgorithm: SignatureOut,
    keySize: nat,
    validity: Validity)

  function SubjectList(attributes: seq<NameAttribute>): (subject: seq<SubjectOut>)
    ensures |subject| == |attributes|
    ensures forall i :: 0 <= i < |attributes| ==>
              subject[i].name == attributes[i].oidName &&
              subject[i].oid == attributes[i].dottedString &&
              subject[i].value == attributes[i].value
  {
    seq(|attributes|, i requires 0 <= i < |attributes| =>
      SubjectOut(attributes[i].oidName, attributes[i].dottedString, attributes[i].value))
  }

  /** `_get_subject_from_x509`: one `{"name", "oid", "value"}` per subject attribute, in order. */
  method GetSubject(attributes: seq<NameAttribute>) returns (subject: seq<SubjectOut>)
    ensures |subject| == |attributes|
    ensures forall i :: 0 <= i < |attributes| ==>
              subject[i].name == attributes[i].oidName &&
              subject[i].oid == attributes[i].dottedString &&
              subject[i].value == attributes[i].value
    ensures subject == SubjectList(attributes)
  {
    subject := [];
    for i := 0 to |attributes|
      invariant |subject| == i
      invariant forall j :: 0 <= j < i ==>
                  subject[j] == SubjectOut(attributes[j].oidName, attributes[j].dottedString, attributes[j].value)
    {
      var nameAttr := attributes[i];
      subject := subject + [SubjectOut(nameAttr.oidName, nameAttr.dottedString, nameAttr.value)];
    }
  }

  /** `_get_signature_algorithm`: the algorithm's name and the signature in hex, from
      which the signature bytes can be read back. */
  function GetSignatureAlgorithm(cert: X509Cert): (r: SignatureOut)
    ensures r.algorithm == cert.signatureAlgorithmName
    ensures Unhexlify(r.signature) == Some(cert.signature)
  {
    UnhexlifyHexlify(cert.signature);
    SignatureOut(cert.signatureAlgorithmName, Hexlify(cert.signature))
  }

  /** What `_decode_x509_cert` returns for `cert`: it fails exactly when the extensions
      fail, with their error; otherwise every part comes from its own source. */
  function DecodedCert(cert: X509Cert, ctx: Context): (r: Result<CertRecord, DecodeError>)
    ensures r.Ok? <==> Extensions.Extensions(cert.extensions, ctx).Ok?
    ensures r.Err? ==> r.error == Extensions.Extensions(cert.extensions, ctx).error
    ensures r.Ok? ==>
              r.value.extensions == Extensions.Extensions(cert.extensions, ctx).value &&
              r.value.subject == SubjectList(cert.subject) &&
              r.value.signatureAlgorithm.algorithm == cert.signatureAlgorithmName &&
              Unhexlify(r.value.signatureAlgorithm.signature) == Some(cert.signature) &&
              r.value.keySize == cert.keySize &&
              r.value.validity.notValidBefore == cert.notValidBefore &&
              r.value.validity.notValidAfter == cert.notValidAfter
  {
    match Extensions.Extensions(cert.extensions, ctx)
    case Err(e) => Err(e)
    case Ok(extensions) =>
      Ok(CertRecord(
        SubjectList(cert.subject),
        extensions,
        GetSignatureAlgorithm(cert),
        cert.keySize,
        Validity(cert.notValidAfter, cert.notValidBefore)))
  }

  /** `_decode_x509_cert`: subject, extensions, signature algorithm, key size and validity,
      in that order. */
  method DecodeX509Cert(cert: X509Cert, ctx: Context) returns (r: Result<CertRecord, DecodeError>)
    ensures r == DecodedCert(cert, ctx)
  {
    var subject := GetSubject(cert.subject);
    var extensions := GetExtensions(cert.extensions, ctx);
    if extensions.Err? {
      return Err(extensions.error);
    }
    var signatureAlgorithm := GetSignatureAlgorithm(cert);
    var keySize := cert.keySize;
    var validity := Validity(cert.notValidAfter, cert.notValidBefore);
    r := Ok(CertRecord(subject, extensions.value, signatureAlgorithm, keySize, validity));
  }

  /** A decoded certificate: the library's certificate and the record decoded from it,
      both set once. */
  class Certificate {
    const x509Cert: X509Cert
    const decodedCert: CertRecord

    /** The decoded record is always the one decoded from the certificate. */
    constructor (cert: X509Cert, ctx: Context, decoded: CertRecord)
      requires DecodedCert(cert, ctx) == Ok(decoded)
      ensures x509Cert == cert && decodedCert == decoded
      ensures DecodedCert(x509Cert, ctx) == Ok(decodedCert)
    {
      x509Cert := cert;
      decodedCert := decoded;
    }

    /** `Certificate(...)` once the certificate is loaded: no object when decoding raises. */
    static method FromX509(cert: X509Cert, ctx: Context) returns (r: Result<Certificate, DecodeError>)
      ensures r.Ok? <==> DecodedCert(cert, ctx).Ok?
      ensures r.Err? ==> r.error == DecodedCert(cert, ctx).error
      ensures r.Ok? ==>
                fresh(r.value) && r.value.x509Cert == cert &&
                r.value.decodedCert == DecodedCert(cert, ctx).value
    {
      var decoded := DecodeX509Cert(cert, ctx);
      if decoded.Err? {
        return Err(decoded.error);
      }
      var c := new Certificate(cert, ctx, decoded.value);
      r := Ok(c);
    }
  }
}
