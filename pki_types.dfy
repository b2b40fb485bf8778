/**
 * The decoded material the revocation check consumes: certificates as the
 * path builder hands them over, and certificate revocation lists (CRLs) as the
 * CRL decoder produces them (RFC 5280, section 5). Nothing here is parsed; the
 * fields are the ones the revocation decision reads.
 */
module PkiTypes {

  /** One octet of a DER encoding. */
  newtype byte = b: int | 0 <= b < 256

  /** A distinguished name, compared byte for byte (no normalisation). */
  type Name = seq<byte>

  /** A certificate serial number, compared byte for byte. */
  type Serial = seq<byte>

  datatype Option<T> = None | Some(value: T)

  /** webpki's error type, reduced to the one variant the revocation scenarios observe. */
  datatype Error = UnknownIssuer

  datatype Result<T> = Ok(value: T) | Err(error: Error)

  /** A decoded certificate of the presented chain (leaf or intermediate). */
  datatype Certificate = Certificate(issuer: Name, serial: Serial)

  /**
   * The position a certificate holds in a built path: webpki's `EndEntityOrCa`,
   * `Leaf` standing for its `EndEntity` variant and `Ca` for `Ca(_)`.
   */
  datatype Role = Leaf | Ca

  /** A certificate as the CRL provider is asked about it: webpki's `Cert`. */
  datatype Cert = Cert(issuer: Name, serial: Serial, role: Role)

  /** The role a certificate is given by the path builder. */
  function Classify(c: Certificate, role: Role): Cert
  {
    Cert(c.issuer, c.serial, role)
  }

  /**
   * One entry of a CRL's revokedCertificates list (RFC 5280, section 5.1.2.6):
   * the serial, the revocation date in seconds since the Unix epoch, and the
   * raw reasonCode extension value when one is present.
   */
  datatype RevokedCert = RevokedCert(serial: Serial, revocationDate: int, reason: Option<nat>)

  /**
   * A decoded CRL. `sigValid` stands for the outcome of verifying the CRL's
   * signature with the issuer's key, which this model takes as given.
   */
  datatype Crl = Crl(issuer: Name, sigValid: bool, revoked: seq<RevokedCert>)

  /** The CRL lists `serial` among its revoked certificates. */
  predicate Lists(crl: Crl, serial: Serial)
  {
    exists i :: 0 <= i < |crl.revoked| && crl.revoked[i].serial == serial
  }

  /**
   * The entry for `serial` in a revoked-certificates list, scanning in list
   * order (webpki's `CertRevocationList::find_serial`).
   */
  function FindSerial(revoked: seq<RevokedCert>, serial: Serial): (r: Option<RevokedCert>)
    ensures r.Some? ==> r.value in revoked && r.value.serial == serial
    ensures r.None? <==> forall i :: 0 <= i < |revoked| ==> revoked[i].serial != serial
    decreases |revoked|
  {
    if revoked == [] then None
    else if revoked[0].serial == serial then Some(revoked[0])
    else FindSerial(revoked[1..], serial)
  }

  /** Looking a serial up in a CRL finds an entry exactly when the CRL lists it. */
  lemma FindSerialIffLists(crl: Crl, serial: Serial)
    ensures FindSerial(crl.revoked, serial).Some? <==> Lists(crl, serial)
  {
  }
}
