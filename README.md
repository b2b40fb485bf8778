# Revocation gate of webpki's client-certificate verification

This project models the CRL-based revocation gate that webpki's TLS
client-certificate verification applies to an already path-built chain, as
driven by the test harness in `tests/client_auth_revocation.rs`:

- `RevocationCheckDepth` (`CrlProvider.Depth`): check the end-entity
  certificate only, or the end-entity certificate and every intermediate.
- `TestCrls::crl_for_cert` (`CrlProvider.TestCrls.CrlForCert`): a CA
  certificate under `EndEntity` depth gets no CRL; otherwise the first CRL of
  the ordered pool whose issuer name equals the certificate's issuer name,
  byte for byte, is returned (`iter().find`).
- The per-certificate decision (`Evaluator.RevocationStatus`): no CRL means
  not revoked; a CRL whose signature does not verify is untrusted; a validly
  signed CRL that lists the serial among its revoked certificates (RFC 5280,
  section 5.1.2.6) means revoked. This is the part of CRL processing in
  section 6.3.3 of RFC 5280 that the scenarios exercise.
- `check_cert` (`ChainCheck.CheckCert`): the leaf, then each intermediate in
  issuance order, never the trust anchor, are put to that decision; the first
  certificate that is not clean fails the chain, and every such failure is
  reported as `Err(UnknownIssuer)`, the single error the scenarios expect.
- The generated scenarios (`Scenarios`), each as a lemma over a fixture chain
  root → intermediate → leaf.

All of it is pure: datatypes, recursive functions over sequences, and lemmas.
Repeated evaluation of the same inputs gives the same outcome because every
operation is a function of its arguments.

The depth reaches the walk only through the provider's gate, as in the code:
`check_cert` hands the depth to `TestCrls` alone, and the library asks the
provider about every non-anchor certificate. A walk that itself skips the
intermediates under `EndEntity` depth gives the same verdict;
`ChainCheck.EndEntityIgnoresIntermediates` proves it.

Each certificate's role (`Leaf` for the end-entity certificate, `Ca` for
an intermediate) is given by its position in the walk (`ChainCheck.Path`),
as webpki's path builder assigns `EndEntityOrCa`.

## Model

| member | source | states |
|---|---|---|
| `CrlProvider.TestCrls.CrlForCert` | tests/client_auth_revocation.rs:48-61 | a CA certificate under `EndEntity` depth gets `None` whatever the pool holds; otherwise `None` exactly when no CRL of the pool has the certificate's issuer; any CRL returned is an element of the pool, has the certificate's issuer, and is the first such CRL in pool order |
| `CrlProvider.FindByIssuer` | tests/client_auth_revocation.rs:58-60 | the search yields nothing exactly when no CRL has the issuer, and otherwise the CRL at the first position whose issuer matches |
| `CrlProvider.FindByIssuerFirstMatch` | tests/client_auth_revocation.rs:58-60 | conversely, whenever position k holds the first CRL with the issuer, the search returns exactly that CRL |
| `CrlProvider.CrlForCertIsFirstMatch` | tests/client_auth_revocation.rs:50-61 | when not gated, the provider returns the earliest CRL of the pool issued by the certificate's issuer |
| `CrlProvider.EmptyPoolHasNoCrl` | tests/client_auth_revocation.rs:58-60 | an empty pool yields no CRL under either depth |
| `CrlProvider.LeafLookupIgnoresDepth` | tests/client_auth_revocation.rs:53-54 | for an end-entity certificate the lookup gives the same answer under both depths |
| `CrlProvider.UnrelatedCrlIgnored` | tests/client_auth_revocation.rs:60 | inserting a CRL of a different issuer anywhere in the pool never changes the answer |
| `CrlProvider.LaterCrlsIgnored` | tests/client_auth_revocation.rs:58-60 | once the pool holds a CRL for the issuer, appending further CRLs (duplicates included) never changes the answer: duplicates resolve to the earliest entry |
| `PkiTypes.FindSerial` | tests/client_auth_revocation.rs:79 | the serial lookup in a CRL's revoked list finds nothing exactly when no entry has that serial, and any entry found is in the list and has that serial |
| `PkiTypes.FindSerialIffLists` | tests/client_auth_revocation.rs:79 | the lookup finds an entry exactly when the CRL lists the serial |
| `Evaluator.RevocationStatus` | tests/client_auth_revocation.rs:64-80 | a gated certificate and a certificate with no CRL from its issuer are not revoked; `Revoked` only when the first CRL from its issuer is validly signed and lists its serial; `UntrustedCrl` only when that CRL is badly signed |
| `Evaluator.StatusOfFirstMatch` | tests/client_auth_revocation.rs:64-80 | when not gated and position k holds the first CRL from the issuer, the status is `UntrustedCrl`, `Revoked` or `NotRevoked` according to that CRL's signature flag and whether it lists the serial |
| `Evaluator.BadSignatureNeverClean` | tests/client_auth_revocation.rs:132-147 | a badly signed authoritative CRL makes the status `UntrustedCrl`, never `NotRevoked` |
| `Evaluator.ListedSerialRevoked` | tests/client_auth_revocation.rs:184-199 | a serial listed in the authoritative, validly signed CRL is `Revoked` |
| `ChainCheck.CheckPath` | tests/client_auth_revocation.rs:79 | the walk succeeds exactly when every certificate of the path is clean; otherwise it fails |
| `ChainCheck.PathClean` | tests/client_auth_revocation.rs:64-80 | every certificate of the walk is clean exactly when the leaf is clean and, under `Chain` depth, every intermediate is; under `EndEntity` depth the intermediates are clean by the gate |
| `ChainCheck.CheckCert` | tests/client_auth_revocation.rs:64-80 | `Ok` exactly when the leaf's status is `NotRevoked` (not listed, and no badly signed CRL from its issuer) and, under `Chain` depth, no intermediate is revoked or has a badly signed CRL; the anchor is never consulted |
| `ChainCheck.EmptyPoolPasses` | tests/client_auth_revocation.rs:86-96 | with no CRLs every chain gives `Ok(())` under either depth (also lines 219-229) |
| `ChainCheck.NoRelevantCrlPasses` | tests/client_auth_revocation.rs:98-113 | when no CRL is issued by the issuer of any certificate of the chain, the result is `Ok(())` under either depth (also lines 231-246) |
| `ChainCheck.RevokedLeafFails` | tests/client_auth_revocation.rs:184-199 | a leaf listed in its issuer's first, validly signed CRL gives `Err(UnknownIssuer)` under either depth (also lines 300-315) |
| `ChainCheck.BadSignatureLeafFails` | tests/client_auth_revocation.rs:132-147 | a badly signed first CRL from the leaf's issuer gives `Err(UnknownIssuer)` under either depth, whether or not it lists the leaf |
| `ChainCheck.RevokedIntermediateFailsUnderChain` | tests/client_auth_revocation.rs:334-349 | under `Chain` depth an intermediate listed in its issuer's first, validly signed CRL gives `Err(UnknownIssuer)` |
| `ChainCheck.BadSignatureIntermediateFailsUnderChain` | tests/client_auth_revocation.rs:265-280 | under `Chain` depth a badly signed first CRL from an intermediate's issuer gives `Err(UnknownIssuer)` |
| `ChainCheck.EndEntityIgnoresIntermediates` | tests/client_auth_revocation.rs:317-332 | under `EndEntity` depth the result equals that of the leaf alone, and is `Ok` exactly when the leaf's status is `NotRevoked` (not listed, and no badly signed CRL from its issuer): a revoked intermediate cannot fail the check |
| `ChainCheck.ChainAtLeastAsStrict` | tests/client_auth_revocation.rs:33-41 | a chain that passes under `Chain` depth also passes under `EndEntity` depth |
| `ChainCheck.UnrelatedCrlNeverChangesVerdict` | tests/client_auth_revocation.rs:58-60 | a CRL issued by none of the chain's issuers, inserted anywhere in the pool, never changes the result |
| `Scenarios.NoCrlsTestEeDepth` | tests/client_auth_revocation.rs:84-96 | empty pool, `EndEntity` depth: `Ok(())` |
| `Scenarios.NoRelevantCrlEeDepth` | tests/client_auth_revocation.rs:98-113 | only an unrelated issuer's CRL, `EndEntity` depth: `Ok(())` |
| `Scenarios.EeNotRevokedEeDepth` | tests/client_auth_revocation.rs:115-130 | the intermediate's valid CRL lists another serial, `EndEntity` depth: `Ok(())` |
| `Scenarios.EeRevokedBadsigEeDepth` | tests/client_auth_revocation.rs:132-147 | the intermediate's badly signed CRL lists the leaf, `EndEntity` depth: `Err(UnknownIssuer)` |
| `Scenarios.EeRevokedNoKuEeDepth` | tests/client_auth_revocation.rs:184-199 | the intermediate's valid CRL lists the leaf, `EndEntity` depth: `Err(UnknownIssuer)` |
| `Scenarios.NoCrlsTestChainDepth` | tests/client_auth_revocation.rs:217-229 | empty pool, `Chain` depth: `Ok(())` |
| `Scenarios.NoRelevantCrlChainDepth` | tests/client_auth_revocation.rs:231-246 | only an unrelated issuer's CRL, `Chain` depth: `Ok(())` |
| `Scenarios.IntNotRevokedChainDepth` | tests/client_auth_revocation.rs:248-263 | the root's valid CRL lists another serial, `Chain` depth: `Ok(())` |
| `Scenarios.IntRevokedBadsigChainDepth` | tests/client_auth_revocation.rs:265-280 | the root's badly signed CRL lists the intermediate, `Chain` depth: `Err(UnknownIssuer)` |
| `Scenarios.EeRevokedChainDepth` | tests/client_auth_revocation.rs:300-315 | the intermediate's valid CRL lists the leaf, `Chain` depth: `Err(UnknownIssuer)` |
| `Scenarios.IntRevokedEeDepth` | tests/client_auth_revocation.rs:317-332 | the root's valid CRL lists the intermediate, `EndEntity` depth: `Ok(())` |
| `Scenarios.IntRevokedNoKuChainDepth` | tests/client_auth_revocation.rs:334-349 | the root's valid CRL lists the intermediate, `Chain` depth: `Err(UnknownIssuer)` |

## Left out

- Signature verification and the accepted algorithms (`ALL_SIGALGS`, lines 17-31): cryptography inside webpki and ring; a CRL's signature validity is the boolean `Crl.sigValid`.
- DER decoding of certificates, CRLs and the trust anchor (`include_bytes!`, `EndEntityCert::try_from`, `CertRevocationList::try_from`, `TrustAnchor::try_from_cert_der`): parsing done by the library; the model starts from decoded values.
- Path building, trust-anchor matching and the rest of `verify_is_valid_tls_client_cert`: library code that is not part of this model; the chain is taken as already built, and the anchor argument of `ChainCheck.CheckCert` is carried but never consulted.
- How the library turns a failed path into `UnknownIssuer`: the model maps every revoked or untrusted-CRL outcome to that one error directly, as the scenarios observe.
- The key-usage scenarios `*_wrong_ku_*` (lines 149-182, 282-298) and `*_crl_ku_*` (lines 201-215, 351-365): their outcome depends on the library's key-usage rule for CRL signers (RFC 5280, section 4.2.1.3, cRLSign), whose code is not part of this model. The `*_no_ku_*` scenarios are modelled as plain validly signed CRLs.
- The CRL freshness window (`thisUpdate`/`nextUpdate`) and the reference time (line 74): the scenarios use one fixed time and exercise no freshness case; revocation dates and reason codes are carried in `RevokedCert` but not interpreted.
- The certificate's subject name and validity window: only path building reads them.
- Per-key CRL signature checking: the issuing certificate's public key, against which the library verifies a CRL's signature, is not modelled; signature validity is one flag per CRL. A CRL therefore counts as validly signed for every certificate whose issuer name it matches, whereas the library verifies it under the key of that particular certificate's issuer. Two certificates of one chain with the same issuer name but different issuing keys (a self-issued intermediate, say) can have the CRL accepted for one and rejected for the other in the library, but not in this model.
- The `#[cfg(feature = "alloc")]` gating and the test-harness attributes.
- The scenario fixtures (`Scenarios`): the DER files are not available, so the fixture names, serials and CRL contents are chosen to match what each scenario's name says of them.
