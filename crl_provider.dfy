/**
 * The test CRL provider: given a certificate, return the CRL that is
 * authoritative for it, or nothing. Two rules: a CA certificate is never
 * answered for when only end-entity revocation is checked, and otherwise the
 * first CRL of the pool whose issuer equals the certificate's issuer wins.
 */
module CrlProvider {
  import opened PkiTypes

  /** How much of a certificate chain is checked for revocation status. */
  datatype Depth =
    | EndEntity   // only the end-entity certificate
    | Chain       // the end-entity certificate and every intermediate

  /** Position `k` holds the first CRL of `crls` issued by `issuer`. */
  predicate IsFirstMatch(crls: seq<Crl>, issuer: Name, k: int)
  {
    && 0 <= k < |crls|
    && crls[k].issuer == issuer
    && forall j :: 0 <= j < k ==> crls[j].issuer != issuer
  }

  /** No CRL of the pool was issued by `issuer`. */
  predicate NoneIssuedBy(crls: seq<Crl>, issuer: Name)
  {
    forall i :: 0 <= i < |crls| ==> crls[i].issuer != issuer
  }

  /** The first CRL of `crls` whose issuer equals `issuer` byte for byte (`iter().find`). */
  function FindByIssuer(crls: seq<Crl>, issuer: Name): (r: Option<Crl>)
    ensures r.None? <==> NoneIssuedBy(crls, issuer)
    ensures r.Some? ==> exists k :: IsFirstMatch(crls, issuer, k) && crls[k] == r.value
    decreases |crls|
  {
    if crls == [] then None
    else if crls[0].issuer == issuer then
      assert IsFirstMatch(crls, issuer, 0);
      Some(crls[0])
    else
      var r := FindByIssuer(crls[1..], issuer);
      if r.Some? then
        var k :| IsFirstMatch(crls[1..], issuer, k) && crls[1..][k] == r.value;
        assert IsFirstMatch(crls, issuer, k + 1);
        r
      else
        r
  }

  /** A fixed, ordered pool of CRLs together with the configured depth (`TestCrls`). */
  datatype TestCrls = TestCrls(crls: seq<Crl>, depth: Depth)
  {
    /** The provider's depth gate: a CA certificate under end-entity depth is not looked up. */
    predicate Gated(cert: Cert)
    {
      cert.role.Ca? && depth.EndEntity?
    }

    /** The CRL for `cert`, or `None` when gated or when no CRL of the pool was issued by its issuer. */
    function CrlForCert(cert: Cert): (r: Option<Crl>)
      ensures Gated(cert) ==> r.None?
      ensures !Gated(cert) ==> (r.None? <==> NoneIssuedBy(crls, cert.issuer))
      ensures r.Some? ==> r.value in crls && r.value.issuer == cert.issuer
      ensures r.Some? ==> exists k :: IsFirstMatch(crls, cert.issuer, k) && crls[k] == r.value
    {
      if Gated(cert) then None
      else FindByIssuer(crls, cert.issuer)
    }
  }

  /** The first match in pool order is the one returned. */
  lemma FindByIssuerFirstMatch(crls: seq<Crl>, issuer: Name, k: int)
    requires IsFirstMatch(crls, issuer, k)
    ensures FindByIssuer(crls, issuer) == Some(crls[k])
  {
  }

  /** Ungated, the provider answers with the earliest CRL of the pool issued by the certificate's issuer. */
  lemma CrlForCertIsFirstMatch(p: TestCrls, cert: Cert, k: int)
    requires !p.Gated(cert)
    requires IsFirstMatch(p.crls, cert.issuer, k)
    ensures p.CrlForCert(cert) == Some(p.crls[k])
  {
    FindByIssuerFirstMatch(p.crls, cert.issuer, k);
  }

  /** An empty pool never yields a CRL, whatever the depth and the certificate. */
  lemma EmptyPoolHasNoCrl(depth: Depth, cert: Cert)
    ensures TestCrls([], depth).CrlForCert(cert) == None
  {
  }

  /** For an end-entity certificate the depth setting does not affect the lookup. */
  lemma LeafLookupIgnoresDepth(crls: seq<Crl>, cert: Cert)
    requires cert.role.Leaf?
    ensures TestCrls(crls, EndEntity).CrlForCert(cert) == TestCrls(crls, Chain).CrlForCert(cert)
  {
  }

  /**
   * A CRL from another issuer is never consulted: inserting it anywhere in the
   * pool leaves the answer for `cert` unchanged.
   */
  lemma {:induction false} UnrelatedCrlIgnored(pre: seq<Crl>, c: Crl, post: seq<Crl>, issuer: Name)
    requires c.issuer != issuer
    ensures FindByIssuer(pre + [c] + post, issuer) == FindByIssuer(pre + post, issuer)
    decreases |pre|
  {
    if pre == [] {
      assert pre + [c] + post == [c] + post;
      assert pre + post == post;
      assert ([c] + post)[1..] == post;
    } else {
      assert (pre + [c] + post)[1..] == pre[1..] + [c] + post;
      assert (pre + post)[1..] == pre[1..] + post;
      UnrelatedCrlIgnored(pre[1..], c, post, issuer);
    }
  }

  /**
   * Duplicate issuers resolve to the earliest entry: once the pool holds a CRL
   * for the issuer, appending more CRLs changes nothing.
   */
  lemma {:induction false} LaterCrlsIgnored(crls: seq<Crl>, more: seq<Crl>, issuer: Name)
    requires !NoneIssuedBy(crls, issuer)
    ensures FindByIssuer(crls + more, issuer) == FindByIssuer(crls, issuer)
    decreases |crls|
  {
    if crls[0].issuer != issuer {
      assert (crls + more)[1..] == crls[1..] + more;
      assert !NoneIssuedBy(crls[1..], issuer) by {
        var i :| 0 <= i < |crls| && crls[i].issuer == issuer;
        assert crls[1..][i - 1].issuer == issuer;
      }
      LaterCrlsIgnored(crls[1..], more, issuer);
    }
  }
}
