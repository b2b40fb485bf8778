/**
 * The chain revocation check driven by the test harness's `check_cert`: the
 * leaf and then each intermediate (never the trust anchor) are put to the
 * evaluator in issuance order; the first certificate that is not clean fails
 * the whole chain, and every such failure surfaces as `UnknownIssuer`.
 */
module ChainCheck {
  import opened PkiTypes
  import opened CrlProvider
  import opened Evaluator

  /**
   * The certificates whose revocation status is asked about, in walk order:
   * the leaf as an end-entity certificate, then each intermediate as a CA.
   */
  function Path(ee: Certificate, intermediates: seq<Certificate>): seq<Cert>
  {
    [Classify(ee, Leaf)]
      + seq(|intermediates|, i requires 0 <= i < |intermediates| => Classify(intermediates[i], Ca))
  }

  /** `cert` passes the revocation gate. */
  predicate Clean(provider: TestCrls, cert: Cert)
  {
    RevocationStatus(provider, cert) == NotRevoked
  }

  /** Walk `path` front to back, stopping at the first certificate that is not clean. */
  function CheckPath(provider: TestCrls, path: seq<Cert>): (r: Result<()>)
    ensures r.Ok? <==> forall i :: 0 <= i < |path| ==> Clean(provider, path[i])
    decreases |path|
  {
    if path == [] then Ok(())
    else if !Clean(provider, path[0]) then Err(UnknownIssuer)
    else
      var r := CheckPath(provider, path[1..]);
      assert forall i :: 1 <= i < |path| ==> path[i] == path[1..][i - 1];
      r
  }

  /**
   * `check_cert`: the revocation gate over the chain `ee`, `intermediates`,
   * with a provider built from `crls` and `depth`. The chain is taken as
   * already path-built to `anchor`, which is never revocation-checked.
   */
  function CheckCert(ee: Certificate, intermediates: seq<Certificate>, anchor: Certificate,
                     depth: Depth, crls: seq<Crl>): (r: Result<()>)
    ensures r.Ok? <==>
      && Clean(TestCrls(crls, depth), Classify(ee, Leaf))
      && (depth == Chain ==>
            forall i :: 0 <= i < |intermediates| ==> Clean(TestCrls(crls, depth), Classify(intermediates[i], Ca)))
  {
    var provider := TestCrls(crls, depth);
    PathClean(provider, ee, intermediates);
    CheckPath(provider, Path(ee, intermediates))
  }

  /** Every certificate of the walk is clean exactly when the leaf and every intermediate are. */
  lemma PathClean(provider: TestCrls, ee: Certificate, intermediates: seq<Certificate>)
    ensures (forall i :: 0 <= i < |Path(ee, intermediates)| ==> Clean(provider, Path(ee, intermediates)[i]))
        <==> (&& Clean(provider, Classify(ee, Leaf))
              && (provider.depth == Chain ==>
                    forall i :: 0 <= i < |intermediates| ==> Clean(provider, Classify(intermediates[i], Ca))))
  {
    var p := Path(ee, intermediates);
    assert |p| == |intermediates| + 1 && p[0] == Classify(ee, Leaf);
    assert forall i :: 0 <= i < |intermediates| ==> p[i + 1] == Classify(intermediates[i], Ca);
    if provider.depth == EndEntity {
      forall i | 0 <= i < |intermediates|
        ensures Clean(provider, Classify(intermediates[i], Ca))
      {
        assert provider.Gated(Classify(intermediates[i], Ca));
      }
    }
  }

  /** With no CRLs at all, every chain passes under either depth. */
  lemma EmptyPoolPasses(ee: Certificate, intermediates: seq<Certificate>, anchor: Certificate, depth: Depth)
    ensures CheckCert(ee, intermediates, anchor, depth, []) == Ok(())
  {
    NoRelevantCrlPasses(ee, intermediates, anchor, depth, []);
  }

  /** When no CRL was issued by the issuer of any certificate of the chain, the chain passes. */
  lemma NoRelevantCrlPasses(ee: Certificate, intermediates: seq<Certificate>, anchor: Certificate,
                            depth: Depth, crls: seq<Crl>)
    requires NoneIssuedBy(crls, ee.issuer)
    requires forall i :: 0 <= i < |intermediates| ==> NoneIssuedBy(crls, intermediates[i].issuer)
    ensures CheckCert(ee, intermediates, anchor, depth, crls) == Ok(())
  {
    var r := CheckCert(ee, intermediates, anchor, depth, crls);
    assert r.Ok?;
    assert r.value == ();
  }

  /** A leaf listed in its issuer's validly signed CRL fails the check under either depth. */
  lemma RevokedLeafFails(ee: Certificate, intermediates: seq<Certificate>, anchor: Certificate,
                         depth: Depth, crls: seq<Crl>, k: int)
    requires IsFirstMatch(crls, ee.issuer, k)
    requires crls[k].sigValid && Lists(crls[k], ee.serial)
    ensures CheckCert(ee, intermediates, anchor, depth, crls) == Err(UnknownIssuer)
  {
    ListedSerialRevoked(TestCrls(crls, depth), Classify(ee, Leaf), k);
  }

  /** A badly signed CRL from the leaf's issuer fails the check under either depth, listed or not. */
  lemma BadSignatureLeafFails(ee: Certificate, intermediates: seq<Certificate>, anchor: Certificate,
                              depth: Depth, crls: seq<Crl>, k: int)
    requires IsFirstMatch(crls, ee.issuer, k)
    requires !crls[k].sigValid
    ensures CheckCert(ee, intermediates, anchor, depth, crls) == Err(UnknownIssuer)
  {
    BadSignatureNeverClean(TestCrls(crls, depth), Classify(ee, Leaf), k);
  }

  /** Under `Chain` depth, an intermediate listed in its issuer's validly signed CRL fails the chain. */
  lemma RevokedIntermediateFailsUnderChain(ee: Certificate, intermediates: seq<Certificate>,
                                           anchor: Certificate, crls: seq<Crl>, j: int, k: int)
    requires 0 <= j < |intermediates|
    requires IsFirstMatch(crls, intermediates[j].issuer, k)
    requires crls[k].sigValid && Lists(crls[k], intermediates[j].serial)
    ensures CheckCert(ee, intermediates, anchor, Chain, crls) == Err(UnknownIssuer)
  {
    ListedSerialRevoked(TestCrls(crls, Chain), Classify(intermediates[j], Ca), k);
  }

  /** Under `Chain` depth, a badly signed CRL from an intermediate's issuer fails the chain. */
  lemma BadSignatureIntermediateFailsUnderChain(ee: Certificate, intermediates: seq<Certificate>,
                                                anchor: Certificate, crls: seq<Crl>, j: int, k: int)
    requires 0 <= j < |intermediates|
    requires IsFirstMatch(crls, intermediates[j].issuer, k)
    requires !crls[k].sigValid
    ensures CheckCert(ee, intermediates, anchor, Chain, crls) == Err(UnknownIssuer)
  {
    BadSignatureNeverClean(TestCrls(crls, Chain), Classify(intermediates[j], Ca), k);
  }

  /**
   * Under `EndEntity` depth the intermediates cannot influence the verdict:
   * the provider's gate makes the walk agree with one that checks the leaf only.
   */
  lemma EndEntityIgnoresIntermediates(ee: Certificate, intermediates: seq<Certificate>,
                                      anchor: Certificate, crls: seq<Crl>)
    ensures CheckCert(ee, intermediates, anchor, EndEntity, crls) == CheckCert(ee, [], anchor, EndEntity, crls)
    ensures CheckCert(ee, intermediates, anchor, EndEntity, crls).Ok? <==>
      RevocationStatus(TestCrls(crls, EndEntity), Classify(ee, Leaf)) == NotRevoked
  {
    var r, r' := CheckCert(ee, intermediates, anchor, EndEntity, crls), CheckCert(ee, [], anchor, EndEntity, crls);
    assert r.Ok? == r'.Ok?;
    if r.Ok? {
      assert r.value == () == r'.value;
    }
  }

  /** `Chain` depth is at least as strict as `EndEntity` depth. */
  lemma ChainAtLeastAsStrict(ee: Certificate, intermediates: seq<Certificate>,
                             anchor: Certificate, crls: seq<Crl>)
    ensures CheckCert(ee, intermediates, anchor, Chain, crls).Ok? ==>
      CheckCert(ee, intermediates, anchor, EndEntity, crls).Ok?
  {
    LeafLookupIgnoresDepth(crls, Classify(ee, Leaf));
  }

  /** A CRL issued by none of the chain's issuers never changes the verdict, wherever it sits in the pool. */
  lemma UnrelatedCrlNeverChangesVerdict(ee: Certificate, intermediates: seq<Certificate>,
                                        anchor: Certificate, depth: Depth,
                                        pre: seq<Crl>, c: Crl, post: seq<Crl>)
    requires c.issuer != ee.issuer
    requires forall i :: 0 <= i < |intermediates| ==> c.issuer != intermediates[i].issuer
    ensures CheckCert(ee, intermediates, anchor, depth, pre + [c] + post)
         == CheckCert(ee, intermediates, anchor, depth, pre + post)
  {
    var with, without := TestCrls(pre + [c] + post, depth), TestCrls(pre + post, depth);
    forall cert: Cert | cert.issuer != c.issuer
      ensures RevocationStatus(with, cert) == RevocationStatus(without, cert)
    {
      UnrelatedCrlIgnored(pre, c, post, cert.issuer);
    }
    assert Clean(with, Classify(ee, Leaf)) == Clean(without, Classify(ee, Leaf));
    assert forall i :: 0 <= i < |intermediates| ==>
      Clean(with, Classify(intermediates[i], Ca)) == Clean(without, Classify(intermediates[i], Ca));
    var r, r' := CheckCert(ee, intermediates, anchor, depth, pre + [c] + post),
                 CheckCert(ee, intermediates, anchor, depth, pre + post);
    assert r.Ok? == r'.Ok?;
    if r.Ok? {
      assert r.value == () == r'.value;
    }
  }
}
