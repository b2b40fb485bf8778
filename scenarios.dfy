/**
 * The generated revocation scenarios, over a three-certificate fixture chain:
 * a root, one intermediate issued by the root, and a leaf issued by the
 * intermediate. The fixture names, serials and CRL contents stand for the DER
 * files the scenarios load and are chosen to match what each scenario's name
 * says of them.
 */
module Scenarios {
  import opened PkiTypes
  import opened CrlProvider
  import opened Evaluator
  import opened ChainCheck

  const RootName: Name := [0x52, 0x6f, 0x6f, 0x74]
  const IntName: Name := [0x49, 0x6e, 0x74]
  const OtherName: Name := [0x4f, 0x74, 0x68, 0x65, 0x72]

  const Root: Certificate := Certificate(RootName, [0x01])
  const Int: Certificate := Certificate(RootName, [0x02])
  const Ee: Certificate := Certificate(IntName, [0x03])

  /** The reference time of the scenarios, also used as every revocation date. */
  const Time: int := 0x1fed_f00d

  function Entry(serial: Serial): RevokedCert
  {
    RevokedCert(serial, Time, None)
  }

  /** A CRL from an issuer that signs none of the chain's certificates. */
  const UnrelatedCrl: Crl := Crl(OtherName, true, [Entry(Ee.serial), Entry(Int.serial)])
  /** The intermediate's CRL, validly signed, listing some other serial. */
  const IntCrlOther: Crl := Crl(IntName, true, [Entry([0x7f])])
  /** The intermediate's CRL listing the leaf. */
  const IntCrlEe: Crl := Crl(IntName, true, [Entry(Ee.serial)])
  /** The intermediate's CRL listing the leaf, with a bad signature. */
  const IntCrlEeBadSig: Crl := Crl(IntName, false, [Entry(Ee.serial)])
  /** The root's CRL, validly signed, listing some other serial. */
  const RootCrlOther: Crl := Crl(RootName, true, [Entry([0x7f])])
  /** The root's CRL listing the intermediate. */
  const RootCrlInt: Crl := Crl(RootName, true, [Entry(Int.serial)])
  /** The root's CRL listing the intermediate, with a bad signature. */
  const RootCrlIntBadSig: Crl := Crl(RootName, false, [Entry(Int.serial)])

  lemma NoCrlsTestEeDepth()
    ensures CheckCert(Ee, [Int], Root, EndEntity, []) == Ok(())
  {
    EmptyPoolPasses(Ee, [Int], Root, EndEntity);
  }

  lemma NoRelevantCrlEeDepth()
    ensures CheckCert(Ee, [Int], Root, EndEntity, [UnrelatedCrl]) == Ok(())
  {
    NoRelevantCrlPasses(Ee, [Int], Root, EndEntity, [UnrelatedCrl]);
  }

  lemma EeNotRevokedEeDepth()
    ensures CheckCert(Ee, [Int], Root, EndEntity, [IntCrlOther]) == Ok(())
  {
    StatusOfFirstMatch(TestCrls([IntCrlOther], EndEntity), Classify(Ee, Leaf), 0);
    EndEntityIgnoresIntermediates(Ee, [Int], Root, [IntCrlOther]);
    var r := CheckCert(Ee, [Int], Root, EndEntity, [IntCrlOther]);
    assert r.value == ();
  }

  lemma EeRevokedBadsigEeDepth()
    ensures CheckCert(Ee, [Int], Root, EndEntity, [IntCrlEeBadSig]) == Err(UnknownIssuer)
  {
    BadSignatureLeafFails(Ee, [Int], Root, EndEntity, [IntCrlEeBadSig], 0);
  }

  lemma EeRevokedNoKuEeDepth()
    ensures CheckCert(Ee, [Int], Root, EndEntity, [IntCrlEe]) == Err(UnknownIssuer)
  {
    assert IntCrlEe.revoked[0].serial == Ee.serial;
    RevokedLeafFails(Ee, [Int], Root, EndEntity, [IntCrlEe], 0);
  }

  lemma NoCrlsTestChainDepth()
    ensures CheckCert(Ee, [Int], Root, Chain, []) == Ok(())
  {
    EmptyPoolPasses(Ee, [Int], Root, Chain);
  }

  lemma NoRelevantCrlChainDepth()
    ensures CheckCert(Ee, [Int], Root, Chain, [UnrelatedCrl]) == Ok(())
  {
    NoRelevantCrlPasses(Ee, [Int], Root, Chain, [UnrelatedCrl]);
  }

  lemma IntNotRevokedChainDepth()
    ensures CheckCert(Ee, [Int], Root, Chain, [RootCrlOther]) == Ok(())
  {
    var p := TestCrls([RootCrlOther], Chain);
    StatusOfFirstMatch(p, Classify(Int, Ca), 0);
    assert Clean(p, Classify(Ee, Leaf));
    var r := CheckCert(Ee, [Int], Root, Chain, [RootCrlOther]);
    assert r.value == ();
  }

  lemma IntRevokedBadsigChainDepth()
    ensures CheckCert(Ee, [Int], Root, Chain, [RootCrlIntBadSig]) == Err(UnknownIssuer)
  {
    BadSignatureIntermediateFailsUnderChain(Ee, [Int], Root, [RootCrlIntBadSig], 0, 0);
  }

  lemma EeRevokedChainDepth()
    ensures CheckCert(Ee, [Int], Root, Chain, [IntCrlEe]) == Err(UnknownIssuer)
  {
    assert IntCrlEe.revoked[0].serial == Ee.serial;
    RevokedLeafFails(Ee, [Int], Root, Chain, [IntCrlEe], 0);
  }

  lemma IntRevokedEeDepth()
    ensures CheckCert(Ee, [Int], Root, EndEntity, [RootCrlInt]) == Ok(())
  {
    NoRelevantCrlPasses(Ee, [], Root, EndEntity, [RootCrlInt]);
    EndEntityIgnoresIntermediates(Ee, [Int], Root, [RootCrlInt]);
  }

  lemma IntRevokedNoKuChainDepth()
    ensures CheckCert(Ee, [Int], Root, Chain, [RootCrlInt]) == Err(UnknownIssuer)
  {
    assert RootCrlInt.revoked[0].serial == Int.serial;
    RevokedIntermediateFailsUnderChain(Ee, [Int], Root, [RootCrlInt], 0, 0);
  }
}
