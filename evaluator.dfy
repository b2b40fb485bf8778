/**
 * The per-certificate revocation decision (RFC 5280, section 6.3.3, reduced to
 * the parts the scenarios exercise): ask the provider for the authoritative
 * CRL; with none, the certificate is not revoked; with one, the CRL must be
 * validly signed before its revoked list is consulted.
 */
module Evaluator {
  import opened PkiTypes
  import opened CrlProvider

  /** The three outcomes of checking one certificate. */
  datatype CertStatus =
    | NotRevoked     // no applicable CRL, or the applicable CRL does not list the serial
    | Revoked        // the applicable, validly signed CRL lists the serial
    | UntrustedCrl   // the applicable CRL is badly signed

  /** The revocation status of `cert` against the CRLs of `provider`. */
  function RevocationStatus(provider: TestCrls, cert: Cert): (s: CertStatus)
    ensures provider.Gated(cert) ==> s == NotRevoked
    ensures !provider.Gated(cert) && NoneIssuedBy(provider.crls, cert.issuer) ==> s == NotRevoked
    ensures s == Revoked ==>
      exists k :: IsFirstMatch(provider.crls, cert.issuer, k)
        && provider.crls[k].sigValid && Lists(provider.crls[k], cert.serial)
    ensures s == UntrustedCrl ==>
      exists k :: IsFirstMatch(provider.crls, cert.issuer, k) && !provider.crls[k].sigValid
  {
    match provider.CrlForCert(cert)
    case None => NotRevoked
    case Some(crl) =>
      if !crl.sigValid then UntrustedCrl
      else if FindSerial(crl.revoked, cert.serial).Some? then
        FindSerialIffLists(crl, cert.serial);
        Revoked
      else NotRevoked
  }

  /**
   * Ungated, the status is decided by the first CRL issued by the
   * certificate's issuer alone: bad signature, listed serial, or clean.
   * Together with the contract above this characterises every outcome.
   */
  lemma StatusOfFirstMatch(provider: TestCrls, cert: Cert, k: int)
    requires !provider.Gated(cert)
    requires IsFirstMatch(provider.crls, cert.issuer, k)
    ensures RevocationStatus(provider, cert) ==
      if !provider.crls[k].sigValid then UntrustedCrl
      else if Lists(provider.crls[k], cert.serial) then Revoked
      else NotRevoked
  {
    CrlForCertIsFirstMatch(provider, cert, k);
    FindSerialIffLists(provider.crls[k], cert.serial);
  }

  /** A badly signed authoritative CRL is never taken as evidence of a clean certificate. */
  lemma BadSignatureNeverClean(provider: TestCrls, cert: Cert, k: int)
    requires !provider.Gated(cert)
    requires IsFirstMatch(provider.crls, cert.issuer, k)
    requires !provider.crls[k].sigValid
    ensures RevocationStatus(provider, cert) == UntrustedCrl
  {
    StatusOfFirstMatch(provider, cert, k);
  }

  /** A serial listed in the authoritative, validly signed CRL is revoked. */
  lemma ListedSerialRevoked(provider: TestCrls, cert: Cert, k: int)
    requires !provider.Gated(cert)
    requires IsFirstMatch(provider.crls, cert.issuer, k)
    requires provider.crls[k].sigValid && Lists(provider.crls[k], cert.serial)
    ensures RevocationStatus(provider, cert) == Revoked
  {
    StatusOfFirstMatch(provider, cert, k);
  }
}
