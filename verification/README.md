# Verified models of the release and contract tooling

The scripts under `scripts/` decide what is released, what is signed, what may be published and which evidence is
believed. This project models their algorithmic cores in Dafny and proves what those cores are for. Nothing here is
compiled into the tools; it is checked with `dafny verify dfyconfig.toml`.

What is modelled, by module:

- **Ed25519, twice** (`ModArith`, `Primes`, `Bits`, `CurveAlgebra`, `Edwards`, `PointCodec`, `Ed25519`, `Witness`,
  `PrimeCertificates`, `BasePoint`, `BaseCertificate`, `Constants`). The delivery verifier signs and verifies; the
  team-context verifier only verifies, with a stricter point check, another multiplication loop and another decoder.
  Nothing about the curve is taken as given. Associativity and closure of the addition law, the absence of zero
  denominators, primality of q and L, the residue properties of d and I and the order of the base point are all proved,
  so `Constants.SignaturesAccepted` has no hypothesis but the seed length.
- **Canonical JSON** (`Utf`, `CanonicalJson`, `JsonReader`, `JsonIdentity`, `JsonShortest`). The RFC 8785 printer; a
  reader that takes every RFC 8259 text without white space, fractions and capital hex digits; what the canonical text is among
  all texts of a value; and the identity of values that a digest binds.
- **Version chains** (`VersionChains`). Rule 11 over a finite bundle of records.
- **Rust source scanning** (`RustMask`, `RustTokens`, `UseTree`, `UseTreePaths`, `AliasResolution`, `CommentStrip`,
  `CommentTokens`). The masking lexer, the use-tree expander and the alias iteration of the boundary check, and the
  comment stripper of the local-free check. For both scanners, what they leave is proved on texts built from tokens.
- **Pinned evidence** (`PinnedEvidence`, `FixtureReceipt`). The producer that re-derives every committed digest, and the
  gates that must accept what it wrote, down to the signature on the delivery fixture.
- **Public export** (`PathGlob`, `PublicExport`), **release manifests** (`ReleaseManifest`), **source layout**
  (`SourceClosure`), **SPDX expressions** (`Spdx`, `SpdxParsers`) and the **bounded capture** of a subprocess
  (`BoundedCapture`).

How to read it:

- A loop or an object that the scripts update is a method or a class here, proved equal to a specification function or
  predicate; the lemmas are about that specification. Members whose contract speaks of `old` state are listed with the rest.
- Hash functions are parameters. Injectivity is a hypothesis only where a theorem says that a digest binds its content.
- Numbers are unbounded, as in Python; bit masks and shifts are written as `%`, `/` and `*` of powers of two.
- The group law is proved over a ring of reals with a prime ideal and carried over to residues: polynomial identities
  are then decided by arithmetic instead of being spelled out.
- `PrimeCertificates` and `BaseCertificate` are tables of numbers with the checks that make them proofs (Pocklington
  certificates for q and L, an addition chain from the base point to its L-fold multiple).
- A file's bytes are a document and the form it is printed in, where only that matters (`PinnedEvidence`).

Where the code differs from what one would expect of it, the model follows the code:

- A signature whose nonce reduces to zero is produced but not accepted; completeness holds exactly when it does not
  (`Ed25519.Suite.SignVerify`).
- Alias resolution can meet its limit although every alias is well formed, and can settle although aliases are circular;
  the exact condition is `AliasResolution.Growing`, with an example of each (`GrowingExample`, `CircleThatSettles`).
- Rule 11 checks one step at a time. It lets two records share a parent, in every bundle that has a parent at all
  (`VersionChains.ForkPasses`). The identity field it compares is the first one that the later record carries, so a chain
  that passes can end with another identity than it began with (`IdentityDrifts`); it keeps its identity exactly if the
  same field names all its records (`IdentityExact`).
- The two SPDX parsers do not accept the same expressions: only the audit allows an exception after a parenthesised
  expression, and only it reads operators in any case (`Spdx.AuditAcceptsMore`). They agree on exactly the token lists
  with neither (`Spdx.NoticesExact`).
- Re-attesting the baseline can make the gate reject the checkout: exactly where the report fails its content checks, or
  is itself a scanner source and gets another digest (`PinnedEvidence.World.BaselineExact`, with an instance in
  `ListedReportExample`).

## Model

| member | source | states |
|---|---|---|
| Edwards.Params.AddOnCurve | scripts/verify-delivery-manifest.py:182-189 | The sum of two curve points is a curve point |
| Edwards.Params.AddCommutes | scripts/verify-delivery-manifest.py:182-189 | Addition of curve points is commutative |
| Edwards.Params.AddAssociates | scripts/verify-delivery-manifest.py:182-189 | Addition of curve points is associative, for every three points |
| Edwards.Params.AddNegative | scripts/verify-delivery-manifest.py:182-189 | Every curve point has an inverse |
| Edwards.Params.EdwardsAddIsAdd | scripts/verify-team-context-v1.py:177-183 | The addition that reduces only at the end is the addition that reduces at every step, on all inputs |
| Edwards.Params.MultipleSum | scripts/verify-delivery-manifest.py:191-200 | The n-fold sum is additive in n |
| Edwards.Params.MultipleProduct | scripts/verify-delivery-manifest.py:191-200 | Multiplying by m and then by n is multiplying by their product |
| Edwards.Params.Scale | scripts/verify-delivery-manifest.py:191-200 | The low-bit-first loop computes the n-fold sum, for every n |
| Edwards.Params.ScalarMult | scripts/verify-team-context-v1.py:186-193 | The high-bit-first loop computes the same n-fold sum |
| Edwards.Params.BinaryDenotes | scripts/verify-team-context-v1.py:189 | The binary digits that loop walks over denote the scalar |
| PointCodec.RecoverXCorrect | scripts/verify-delivery-manifest.py:166-174 | Square-root recovery finds an x on the curve exactly when there is one |
| PointCodec.XRecoverIsRecoverX | scripts/verify-team-context-v1.py:162-169 | The other recovery, from an unreduced quotient, finds the even one of the same two roots |
| PointCodec.DecodeIffEncode | scripts/verify-delivery-manifest.py:202-221 | A byte string decodes to a point if and only if the point is on the curve and the string is its encoding: each point has exactly one accepted encoding |
| PointCodec.DecodersAgree | scripts/verify-team-context-v1.py:196-211 | Both decoders accept the same 32 bytes, as the same points |
| PointCodec.ToFromLittle | scripts/verify-delivery-manifest.py:202-211 | Bytes read as a little-endian number and written again are the same bytes |
| PointCodec.FromToLittle | scripts/verify-delivery-manifest.py:202-211 | A number in range written as little-endian bytes and read again is the same number |
| PointCodec.FromLittleByte | scripts/verify-delivery-manifest.py:202-211 | The i-th byte weighs 256^i: byte i of the number that bytes spell is the i-th byte |
| Ed25519.Suite.ClampBound | scripts/verify-delivery-manifest.py:232-234 | A clamped scalar is a multiple of 8 between 2^254 and 2^255, whatever the digest |
| Ed25519.Suite.ClampNotIdentity | scripts/verify-delivery-manifest.py:232-235 | No clamped scalar, even eight times over, is a multiple of the group order |
| Ed25519.Suite.ClampBits | scripts/verify-delivery-manifest.py:233-234 | Bit by bit, clamping sets bit 254, clears bits 0 to 2 and everything from 255 on, and keeps bits 3 to 253 |
| Ed25519.Suite.PublicKeyBits | scripts/verify-delivery-manifest.py:227-235 | The public key is the point of the scalar with those bits of the first half of the seed's hash |
| Ed25519.Suite.PublicKeyAccepted | scripts/verify-delivery-manifest.py:223-235 | A public key made from a seed decodes and is never rejected for small order |
| Ed25519.Suite.SmallOrderTimes | scripts/verify-delivery-manifest.py:223-225 | Among multiples of the base point only the identity is of small order |
| Ed25519.Suite.SmallOrderMeans | scripts/verify-delivery-manifest.py:223-225 | A point is of small order exactly if its n-fold sum vanishes for some n that divides 8 |
| Ed25519.Suite.PublicFromSeed | scripts/verify-delivery-manifest.py:227-235 | The method computes the specified key, and refuses exactly the seeds that are not 32 bytes |
| Ed25519.Suite.Sign | scripts/verify-delivery-manifest.py:237-249 | The method computes the specified signature |
| Ed25519.Suite.Verify | scripts/verify-delivery-manifest.py:251-267 | The method accepts exactly what the verification equation and all rejections allow |
| Ed25519.Suite.SignVerify | scripts/verify-delivery-manifest.py:237-267 | For every seed and message, the signature is accepted under the seed's public key if and only if its nonce is not zero |
| Ed25519.Suite.SignStrict | scripts/verify-team-context-v1.py:217-242 | The same under the strict verifier |
| Ed25519.Suite.SignatureNonce | scripts/verify-delivery-manifest.py:244-246 | The first half of a signature encodes the multiple of the base point by the hash of the seed's second half and the message |
| Ed25519.Suite.NonceBinds | scripts/verify-delivery-manifest.py:244-246 | Two signatures of one seed begin alike if and only if those hashes are equal modulo the group order |
| Ed25519.Suite.AcceptedPoints | scripts/verify-delivery-manifest.py:251-267 | For every pair of curve points and every scalar: accepted if and only if the scalar is below the order, neither point of small order, and S·B = R + k·A with k the hash of R, A and the message in this order |
| Ed25519.Suite.AcceptedScalar | scripts/verify-delivery-manifest.py:251-267 | Between multiples n and a of the base point, exactly the scalar n + k·a modulo the order is accepted, and none where n or a is 0 modulo the order |
| Ed25519.Suite.MessageBound | scripts/verify-delivery-manifest.py:262-265 | A signature accepted for one message is accepted for another if and only if the two hashes agree modulo the group order, under any key that 8L annihilates |
| Ed25519.Suite.StrictMessageBound | scripts/verify-team-context-v1.py:223-242 | The same under the strict verifier, with no condition on the key |
| Ed25519.Suite.ScalarDetermined | scripts/verify-delivery-manifest.py:256-265 | Two accepted signatures with the same R are the same: the scalar cannot be altered |
| Ed25519.Suite.StrictIff | scripts/verify-team-context-v1.py:217-242 | The strict verifier accepts exactly what the other accepts with both points in the prime-order subgroup |
| Ed25519.Suite.StrictMeansOrder | scripts/verify-team-context-v1.py:217-220 | For every curve point, 8P is not the identity while LP is, if and only if P has order exactly L: nP is the identity just for the multiples n of L |
| Ed25519.Suite.IsStrictPrimeOrder | scripts/verify-team-context-v1.py:217-220 | The two multiplications decide whether the point has order exactly L |
| Ed25519.StrictVerifier.Verify | scripts/verify-team-context-v1.py:223-242 | With its memory of answers, the verifier always answers as specified, and records exactly that answer |
| Constants.Ed25519Sound | scripts/verify-team-context-v1.py:150-174 | The constants have every property that the theorems ask for: primes, residues, base point and its order |
| Constants.ConstantsAsComputed | scripts/verify-delivery-manifest.py:152-155 | The literal q, L, d and I are what the source's expressions evaluate to |
| Constants.BasesAgree | scripts/verify-delivery-manifest.py:176-180 | Both derivations of the base point give the same point |
| Constants.SignaturesAccepted | scripts/verify-delivery-manifest.py:237-267 | Completeness for the constants of the source, under both verifiers, with no assumption but the seed length |
| Primes.Fermat | scripts/verify-team-context-v1.py:154-155 | Fermat's little theorem, on which inversion by exponentiation rests |
| PrimeCertificates.FieldSize | scripts/verify-delivery-manifest.py:152 | The field size 2^255 - 19 is prime |
| PrimeCertificates.GroupOrder | scripts/verify-delivery-manifest.py:153 | The group order is prime |
| BaseCertificate.BaseOrder | scripts/verify-delivery-manifest.py:176-180 | The group order annihilates the base point |
| Utf.SortsByCodeUnits | scripts/verify-team-context-v1.py:87-90 | Sorting keys by UTF-16BE bytes is sorting them by code units, for surrogates too |
| Utf.CodePointOrderDiffers | scripts/verify-team-context-v1.py:87-90 | It is not sorting by code points |
| Utf.LessMeans | scripts/verify-team-context-v1.py:87-90 | One sequence sorts before another where they first differ, or if it ends there |
| Utf.UnitsDecode | scripts/verify-team-context-v1.py:87-90 | Above U+FFFF the two surrogates hold the 20 bits of the code point, high ones first |
| Utf.UnitsInjective | scripts/verify-team-context-v1.py:87-90 | Texts without lone surrogates with the same code units are equal |
| Utf.Utf8Injective | scripts/verify-team-context-v1.py:127-128 | Encoding the canonical text in UTF-8 loses nothing |
| Utf.Utf8Decodes | scripts/verify-team-context-v1.py:127-128 | The bytes of a code point are well formed, as few as possible, and hold its bits |
| CanonicalJson.CanonicalOk | scripts/verify-team-context-v1.py:71-120 | Exactly the values with a float, an integer out of range or a lone surrogate anywhere are refused |
| JsonReader.ReadsValue | scripts/verify-team-context-v1.py:93-120 | A parser reads every printed value back in normal form, whatever follows it |
| JsonReader.NoLeadingZero | scripts/verify-team-context-v1.py:100-103 | A number is printed without a leading zero |
| JsonShortest.CanonicalShortest | scripts/verify-team-context-v1.py:74-120 | Of all texts that the reader takes for a value, member order included, none is shorter than the canonical one, and no other of the same length has its members in the canonical order |
| JsonIdentity.NormalAscends | scripts/verify-team-context-v1.py:113-119 | In the normal form, at every depth, the members ascend by the code units of their names |
| JsonIdentity.NormalSame | scripts/verify-team-context-v1.py:113-119 | Two values are the same up to member order exactly when their normal forms are equal |
| JsonIdentity.CanonicalIffSame | scripts/verify-team-context-v1.py:93-124 | Two accepted values have the same canonical text if and only if they are the same value up to member order |
| JsonIdentity.DigestIffSame | scripts/verify-team-context-v1.py:131-132 | With an injective hash, so do their digests |
| JsonIdentity.PreimageBinds | scripts/verify-team-context-v1.py:135-143 | A digest with one member left out binds all the other members |
| JsonIdentity.PreimageFilled | scripts/verify-team-context-v1.py:135-138 | Adding the left-out member afterwards, in whatever place, does not change the digest |
| JsonIdentity.PreimageStable | scripts/verify-team-context-v1.py:135-138 | Nor does overwriting it |
| VersionChains.Bundle.constructor | scripts/verify-team-context-v1.py:1348-1352 | The digest index lists, for every digest, exactly the labels of its records |
| VersionChains.Bundle.ResolveLabel | scripts/verify-team-context-v1.py:847-852 | A digest resolves if exactly one record of the bundle has it |
| VersionChains.Bundle.CheckRecord | scripts/verify-team-context-v1.py:1217-1256 | Looking the parent up in the digest index gives the verdict that a scan of all the records would give |
| VersionChains.Bundle.Rule11 | scripts/verify-team-context-v1.py:1201-1256 | The rule reports the verdicts of all records, in order |
| VersionChains.ResolveMeans | scripts/verify-team-context-v1.py:847-852 | A digest resolves to a record exactly if that record has it and no other does |
| VersionChains.StepMeans | scripts/verify-team-context-v1.py:1217-1256 | A later version passes exactly if its parent is the only record with the digest it names, of one type, one version lower, agreeing on the first identity field and on every scope field |
| VersionChains.VersionChainsComplete | scripts/verify-team-context-v1.py:1201-1256 | If nothing is reported, each versioned record has a parent chain of version - 1 resolvable steps to a parentless genesis, of one type and one scope, no longer than the bundle |
| VersionChains.QuietIffComplete | scripts/verify-team-context-v1.py:1201-1256 | Nothing is reported if and only if every versioned record has such a chain |
| VersionChains.IdentityExact | scripts/verify-team-context-v1.py:1203-1248 | A chain whose every step passes has one logical identity if and only if one and the same field names all its records |
| VersionChains.IdentityOfGenesis | scripts/verify-team-context-v1.py:1203-1248 | If nothing is reported and one field names every versioned record of the type, each has the identity of its genesis |
| VersionChains.IdentityDrifts | scripts/verify-team-context-v1.py:1203-1248 | Without that it fails, with the source's list of fields: three versions pass, and the third disagrees with the genesis on the field that names it |
| VersionChains.ForkPasses | scripts/verify-team-context-v1.py:1201-1256 | To every bundle that passes, a second child of any parent can be added: same type, version, identity and scope, and a digest of its own |
| RustMask.BlankRange | scripts/check-open-core-boundary.py:664-667 | A range is overwritten in place by spaces, line ends kept, everything else untouched |
| RustMask.QuotedEnd | scripts/check-open-core-boundary.py:669-678 | Where a quoted literal ends, escapes and missing ends included |
| RustMask.TokenEnd | scripts/check-open-core-boundary.py:681-731 | Where the comment or literal at an offset ends, if there is one |
| RustMask.MaskRustNonCode | scripts/check-open-core-boundary.py:658-733 | The in-place loop computes the specified mask |
| RustMask.MaskStable | scripts/check-open-core-boundary.py:658-733 | For every text: length and line ends kept, other characters changed only to spaces, no double quote, `//` or `/*` left, and masking again changes nothing |
| RustTokens.MaskTokens | scripts/check-open-core-boundary.py:658-733 | For every token sequence, nested comments and raw strings included, the mask keeps the code, where by its text nothing opens, and blanks each comment and literal whole |
| RustTokens.OpensToken | scripts/check-open-core-boundary.py:681-731 | A token is taken exactly where the text opens one: `//`, `/*`, a quote, a raw string or a closed character literal |
| RustTokens.LifetimeKept | scripts/check-open-core-boundary.py:719-731 | An apostrophe that closes no character literal stays, as in a lifetime |
| UseTree.TopLevelUseItems | scripts/check-open-core-boundary.py:782-797 | The one-pass split with a depth counter is the recursive split at top-level commas |
| UseTree.FindGroup | scripts/check-open-core-boundary.py:816-839 | The two scans find the specified group, its base and its inner text |
| UseTree.ExpandUseTree | scripts/check-open-core-boundary.py:805-845 | The recursive expansion terminates on every text and computes the specified list |
| UseTreePaths.ExpandsToPaths | scripts/check-open-core-boundary.py:782-845 | Expanding a printed use tree gives exactly its root-to-leaf paths, in order, at any depth and with any white space |
| UseTreePaths.ExpandsToRoutes | scripts/check-open-core-boundary.py:800-845 | Each of them is the names on the way from the root to the leaf, with `::` between them |
| AliasResolution.ResolveAliases | scripts/check-open-core-boundary.py:987-1019 | It yields exactly the derivable paths and globs, or fails; and it fails if and only if a circle of aliases lengthens its path |
| AliasResolution.StandsExact | scripts/check-open-core-boundary.py:1000-1012 | What a leaf stands for, by its own fields: its path, or the path of the alias it begins with followed by the rest |
| AliasResolution.DerivableLeast | scripts/check-open-core-boundary.py:987-1019 | The derivable pairs are the least table in which each leaf gives its alias, or else its last component, the path it stands for |
| AliasResolution.PlainUse | scripts/check-open-core-boundary.py:1006-1012 | `use crate::proto::Envelope` binds `Envelope` to that path, and nothing else |
| AliasResolution.AcyclicResolves | scripts/check-open-core-boundary.py:989-1019 | Without circular aliases the limit is never met, since every derivation is at most as long as the list of leaves |
| AliasResolution.GrowingExample | scripts/check-open-core-boundary.py:1018-1019 | An input on which the limit is met |
| AliasResolution.CircleThatSettles | scripts/check-open-core-boundary.py:1016-1017 | A circular input on which it is not |
| CommentStrip.StripComments | scripts/check-local-free.py:67-113 | The loop writes exactly what the fate of each character says |
| CommentStrip.LinesKept | scripts/check-local-free.py:67-113 | For every text, each output line is the input line with characters dropped or blanked; no line is lost or made |
| CommentTokens.StripTokens | scripts/check-local-free.py:67-113 | For every token sequence, code and literals stay as they are, a line comment goes up to its line feed, and of a block comment, nested ones included, line feeds and a space for each other character stay |
| PinnedEvidence.LayoutDistinct | scripts/pinned-evidence.py:60-65 | The fixed paths are distinct and inside their output scopes |
| PinnedEvidence.World.RepinAgain | scripts/pinned-evidence.py:308-325 | Re-pinning a document twice is re-pinning it once, at any nesting depth |
| PinnedEvidence.World.RunPins | scripts/pinned-evidence.py:342-345 | After both chains every pinned digest agrees with what it pins, although later steps wrote files |
| PinnedEvidence.World.ConsistentIff | scripts/pinned-evidence.py:308-325 | All references of a value agree with their files if and only if it can be re-pinned and re-pinning changes nothing |
| PinnedEvidence.World.ReferencesNamed | scripts/pinned-evidence.py:328-331 | A contract is refused for naming no reference exactly if it names no file at any depth |
| PinnedEvidence.World.RunKeeps | scripts/pinned-evidence.py:349-361 | A run changes nothing but digests, the receipt, the report's fingerprint and the contract pack's version, and no other file |
| PinnedEvidence.World.PinsFixed | scripts/pinned-evidence.py:349-361 | Where all pins agree, a run succeeds and derives the bytes that are there |
| PinnedEvidence.World.OneRun | scripts/pinned-evidence.py:349-361 | One run reaches the fixed point: running again after writing stages identical bytes, provided no listed path is derived later in its chain |
| PinnedEvidence.World.PinnedBaselineAccepted | scripts/history-policy-gate.py:202-214 | The gate accepts a re-attested baseline: both digests hold at once, since the fingerprint leaves out the report's |
| PinnedEvidence.World.BaselineExact | scripts/history-policy-gate.py:202-245 | Whatever the sources, the gate accepts a re-attested baseline if and only if the report passes its content checks and is no scanner source, or keeps its digest |
| PinnedEvidence.World.FingerprintBinds | scripts/history-policy-gate.py:202-214 | With an injective hash, one report is accepted under one policy only, whatever its own digest there |
| PinnedEvidence.ListedReportExample | scripts/history-policy-gate.py:240-245 | A policy that lists its own report, re-attested without a refusal and then rejected |
| PinnedEvidence.Tree.DeriveContractPack | scripts/pinned-evidence.py:229-259 | Reading through what is already staged and re-pinning artifact by artifact, the step adds the specified pack to the staged files, and a refusal adds nothing |
| PinnedEvidence.Tree.DeriveDeliveryFixture | scripts/pinned-evidence.py:273-305 | Receipt and manifest, bound to each other, are staged together or not at all; an output that is not there already is refused |
| PinnedEvidence.Tree.DeriveDeliveryEvidence | scripts/pinned-evidence.py:328-332 | What is staged is pinned to the fixture staged before it, and a refusal leaves the staged files alone |
| PinnedEvidence.Tree.DeriveHistoryPolicy | scripts/pinned-evidence.py:187-192 | The loop over the sources gives the policy the digests of the staged view, or the staged files stay as they were |
| PinnedEvidence.Tree.DeriveBaselineReattest | scripts/pinned-evidence.py:195-226 | Report and policy, bound to each other, are staged together or not at all |
| PinnedEvidence.Tree.DeriveAll | scripts/pinned-evidence.py:349-361 | Without a refusal the staged files are those of a full run; a refusal means that there is no full run |
| PinnedEvidence.Tree.Write | scripts/pinned-evidence.py:408-436 | A refused step leaves the checkout as it was; otherwise exactly the derived files are written |
| FixtureReceipt.PinnedReceiptAccepted | scripts/verify-delivery-manifest.py:308-338 | The derived receipt verifies against the derived manifest, since the payload leaves out the signature entry |
| FixtureReceipt.PayloadBinds | scripts/verify-delivery-manifest.py:308-338 | With an injective hash, one receipt is accepted for one manifest only, its signature entry apart: the payload covers SBOM, provenance, vulnerability report, pack digest and version |
| FixtureReceipt.RunAccepted | scripts/pinned-evidence.py:349-361 | One run ends with everything accepted: all pins, the gate's baseline, and the fixture's signature under the real curve |
| PathGlob.Pattern | scripts/public-export.py:43-64 | The compiler loop accepts exactly the valid patterns and translates them piece by piece |
| PathGlob.ValidMeans | scripts/public-export.py:45-46 | A pattern is refused exactly if it is empty, absolute, has a backslash, or has `..` between slashes |
| PathGlob.MatchesCut | scripts/public-export.py:47-64 | A path matches if and only if it can be cut into parts, one for each piece, that fit the pieces |
| PathGlob.PlainGlob | scripts/public-export.py:43-64 | A pattern without `*` and `?` matches only itself |
| PathGlob.AnyDepth | scripts/public-export.py:49-51 | `**/name` matches the name at every depth, the top included, and nothing else |
| PathGlob.StaysInComponent | scripts/public-export.py:43-64 | A pattern text without `**` compiles to something that matches only paths with as many slashes as the text |
| PathGlob.CrossesDirectories | scripts/public-export.py:43-64 | `directory/**` matches everything below the directory |
| PublicExport.Select | scripts/public-export.py:159-218 | Selection succeeds exactly when every selected entry is exportable, the new paths are selected minus published and the removed paths are the dropped set; then it returns the selected rows |
| PublicExport.NamedExactly | scripts/public-export.py:132-217 | In terms of included and excluded patterns: a selection against a baseline names exactly the paths that the baseline lacks, and exactly those it drops |
| PublicExport.ForbiddenDirectory | scripts/public-export.py:137-141 | A forbidden directory forbids itself and everything below it, and nothing else |
| PublicExport.SafeMeans | scripts/public-export.py:151-156 | Which paths are safe, in terms of the texts between the slashes |
| PublicExport.BeforeMeans | scripts/public-export.py:218 | Paths are ordered by the character at which they first differ |
| PublicExport.SortAscends | scripts/public-export.py:218 | The rows come in ascending order of path, none lost, none doubled |
| PublicExport.Export | scripts/public-export.py:243-267 | An export writes exactly the selection with the commit's contents and modes, and its receipt |
| PublicExport.Verify | scripts/public-export.py:286-387 | The checks decide the specified acceptance, against a commit, a pinned receipt digest or nothing |
| PublicExport.ExportVerifies | scripts/public-export.py:243-387 | What is exported passes verification in staging mode against the same commit |
| PublicExport.AcceptedExact | scripts/public-export.py:317-387 | Acceptance against a commit means that the directory is exactly the selection plus named generated files, whatever the receipt says |
| PublicExport.AcceptedContents | scripts/public-export.py:317-387 | File by file: every accepted file is a regular entry of the commit that is included and not excluded, with its bytes and its executable bit, or a generated file with its pinned digest; and none is missing |
| PublicExport.AcceptedIffExact | scripts/public-export.py:243-387 | With the receipt of the export, acceptance is equivalent to that |
| PublicExport.PinnedIffExact | scripts/public-export.py:286-387 | Against the pinned digest of an export's receipt exactly that receipt is accepted, with exactly the same directories as against the commit, though object ids are not compared |
| ReleaseManifest.ParseChecksums | scripts/verify-release-integrity.py:48-62 | The line loop accepts exactly texts whose lines are all well formed, at least one, no name twice |
| ReleaseManifest.LineExact | scripts/verify-release-integrity.py:52-57 | A line is 64 hex digits, a space, a space or star and a safe file name, and means just these |
| ReleaseManifest.ChecksumsRoundTrip | scripts/generate-release-manifest.py:62 | The parser inverts the checksum printer entry for entry |
| ReleaseManifest.Inventory.Generate | scripts/generate-release-manifest.py:48-73 | The generator binds every collected artifact, and fails only where an archive does not hold exactly one binary |
| ReleaseManifest.Inventory.VerifyRelease | scripts/verify-release-integrity.py:177-219 | The verifier decides the specified acceptance |
| ReleaseManifest.Inventory.GeneratedValid | scripts/verify-release-integrity.py:78-133 | A generated manifest passes every schema rule |
| ReleaseManifest.Inventory.ReleaseRoundTrip | scripts/generate-release-manifest.py:48-73 | What the generator writes is verified for the same tag, for every collected inventory, full commit id and well-formed SBOM |
| ReleaseManifest.Inventory.VerifiedMeans | scripts/verify-release-integrity.py:177-219 | In a verified directory every entry gives digest and size of the file of its name, every checksum line its digest, and both name the same files |
| ReleaseManifest.Inventory.VerifiedExact | scripts/verify-release-integrity.py:177-219 | With an injective hash, a directory with the manifest of a generated release verifies if and only if it has that release's files, byte for byte |
| ReleaseManifest.LeanCtxLawful | scripts/release_inventory.py:9-49 | The repository's own names and tables meet the conditions of the round trip |
| SourceClosure.Scan | scripts/check-source-layout.py:149-169 | The nested loops collect what a manifest leads to, or the first reason to refuse it |
| SourceClosure.LeadsMeans | scripts/check-source-layout.py:138-169 | In the manifest's own terms, which manifests are good, and that a good one leads to exactly the dependencies and members it names |
| SourceClosure.Close | scripts/check-source-layout.py:128-169 | The worklist terminates on every graph, cycles included, with the closure or a justified refusal |
| SourceClosure.Verify | scripts/check-source-layout.py:120-178 | It accepts exactly when every reachable manifest is good, there are at most 500 and the required ones are among them; it visits exactly the reachable ones, none separately licensed in the community profile |
| Spdx.AcceptsIffGrammar | scripts/ip-provenance-audit.py:589-647 | The descent accepts exactly the token lists of the grammar: WITH over AND over OR, and parentheses |
| Spdx.AuditAcceptsNotices | scripts/generate-third-party-notices.py:184-230 | Over one set of names, whatever the notice generator accepts, the audit accepts |
| Spdx.NoticesExact | scripts/generate-third-party-notices.py:184-230 | The notice generator accepts exactly what the audit accepts and spells every operator as its upper-case word, with no WITH right after a closing parenthesis |
| Spdx.AuditAcceptsMore | scripts/ip-provenance-audit.py:616-625 | Both occur: the audit alone accepts an exception after a parenthesised expression, and an operator in another case |
| SpdxParsers.ParseSpdx | scripts/ip-provenance-audit.py:589-647 | The shared-index parser accepts exactly the grammar and consumes every token |
| SpdxParsers.ValidateSpdx | scripts/generate-third-party-notices.py:184-230 | The raising parser accepts exactly its grammar |
| BoundedCapture.BoundedOutput.Append | scripts/verify-ocla-contract-suite.py:84-92 | Every append keeps both buffers, the total and the overflow flag equal to what the history of appends says |
| BoundedCapture.CapturedPrefixes | scripts/verify-ocla-contract-suite.py:74-92 | Under every interleaving the buffers hold together the smaller of what was delivered and the bound, each a prefix of its own stream |
| BoundedCapture.InterleavedDelivery | scripts/verify-ocla-contract-suite.py:468-476 | What a reader delivered does not depend on how the two readers interleave |

## Left out

- Ed25519.Suite.Verify: the hash is a parameter; SHA-512 itself, and that it is hard to invert, is not modelled.
- Ed25519.Suite.Sign: the arguments are byte strings; the refusals of arguments that are no bytes at all are not modelled.
- VersionChains.Bundle.Rule11: values are compared as printed texts, and a version is an integer or absent; Python's
  `True == 1` and versions of another type, which the schemas exclude, are not modelled.
- JsonIdentity.DigestIffSame: injectivity of the hash is a hypothesis, since SHA-256 is a parameter; the same holds of
  `PinnedEvidence.World.FingerprintBinds`, `FixtureReceipt.PayloadBinds` and `ReleaseManifest.Inventory.VerifiedExact`.
- Ed25519.Suite.MessageBound: of curve points that 8L does not annihilate nothing is said. The curve has none, but its
  number of points is not proved here; every key in the subgroup of the base point, and every strict one, is covered.
- JsonShortest.CanonicalShortest: the reader takes no white space, no fraction or exponent and no capital hex digit.
  White space only makes a text longer; a capital hex digit makes another text of the same length.
- CommentStrip.LinesKept: the word test (`isalnum` or underscore) is a parameter; it matters only before a raw string.
- PinnedEvidence.World.RepinAgain: re-pinning works on values, not on the nested dictionaries in place.
- PinnedEvidence.Tree.Write: a file is a document and its printed form, so JSON text and parsing are not modelled.
- PublicExport.Verify: a receipt is a record; its schema name and the form of its commit id are not checked.
- PublicExport.AcceptedExact: git is a table of commits and objects, and its object id is taken to be injective, as are
  the content and receipt digests in `PublicExport.PinnedIffExact`.
- PathGlob.Pattern: a compiled pattern is a list of pieces; the regular expressions it becomes are not modelled.
- ReleaseManifest.Inventory.Generate: collecting the inventory and reading archives are parameters; texts are not encoded.
- SourceClosure.Verify: the scan for stray copies and the comparison of skill aliases are flat and left out, and a path
  is resolved by a table instead of a file system.
- SpdxParsers.ParseSpdx: token lists are the input; the regular expressions that cut the text into tokens are left out.
- AliasResolution.ResolveAliases: use leaves are the input; cutting a leaf into components and an alias is left out.
- BoundedCapture.BoundedOutput.Append: the lock makes an append atomic; threads and pipes are a history of appends.
- The field-by-field schema validators, `field_drift`, rotation plans, rules 1 to 10 and 12 of the team-context verifier:
  each is settled by reading one branch.
- Symbolic links, sub-processes, the network, argument parsing and report texts.
- Statement and macro scanning with regular expressions, and base64.
