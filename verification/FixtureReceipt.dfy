/** The receipt of the derived delivery fixture, signed and verified with Ed25519. */
module FixtureReceipt {
  import opened Common
  import opened Ed25519
  import opened Constants
  import P = PinnedEvidence

  /** The producer's key and signatures are those of one seed. */
  ghost predicate SignsWith(w: P.World, s: Suite, h: Hash, bytes: P.File -> seq<byte>, seed: seq<byte>)
    requires s.c.q > 2 && s.l > 0
  {
    && |seed| == 32 && Some(w.public) == s.PublicSpec(h, seed)
    && forall f :: Some(w.sign(f)) == s.SignSpec(h, bytes(f), seed)
  }

  ghost function PayloadFile(w: P.World, m: P.Manifest): P.File {
    P.File(P.PayloadDoc(w.PayloadOf(m)), P.Canonical)
  }

  /** The release verifier's check of a receipt against a trusted key. */
  ghost predicate ReceiptAccepted(w: P.World, s: Suite, h: Hash, bytes: P.File -> seq<byte>,
                                  m: P.Manifest, r: P.Receipt, public: seq<byte>, keyId: string)
    requires s.c.q > 2 && s.l > 0
  {
    && r.keyId == keyId && r.payloadSha == w.sha(PayloadFile(w, m))
    && s.VerifySpec(h, r.signature, bytes(PayloadFile(w, m)), public)
  }

  /** The derived receipt verifies against the derived manifest and the trust root, unless its nonce is zero:
      the payload leaves out the signature entry, so binding the receipt into the manifest does not change it. */
  lemma PinnedReceiptAccepted(w: P.World, s: Suite, h: Hash, bytes: P.File -> seq<byte>, seed: seq<byte>,
                              files: P.Files)
    requires s.Sound() && SignsWith(w, s, h, bytes, seed) && w.FixturePinned(files)
    ensures files[w.at.receipt].doc.ReceiptDoc?
    ensures var m, trust, receipt :=
      files[w.at.manifest].doc.manifest, files[w.at.trustRoot].doc, files[w.at.receipt].doc.receipt;
      ReceiptAccepted(w, s, h, bytes, m, receipt, trust.public, trust.keyId)
      <==> s.Nonce(h, bytes(PayloadFile(w, m)), seed) != 0
  {
    var m := files[w.at.manifest].doc.manifest;
    s.SignVerify(h, bytes(PayloadFile(w, m)), seed);
  }

  /** With a collision-free digest a receipt is accepted for one manifest only, the signature entry aside. */
  lemma PayloadBinds(w: P.World, s: Suite, h: Hash, bytes: P.File -> seq<byte>, m: P.Manifest, n: P.Manifest,
                     r: P.Receipt, public: seq<byte>, keyId: string)
    requires s.c.q > 2 && s.l > 0 && forall f, g :: w.sha(f) == w.sha(g) ==> f == g
    requires ReceiptAccepted(w, s, h, bytes, m, r, public, keyId)
    requires ReceiptAccepted(w, s, h, bytes, n, r, public, keyId)
    ensures m.(signature := n.signature) == n
  {
    assert PayloadFile(w, m) == PayloadFile(w, n);
  }

  /** One run of the producer ends with everything accepted: the gate's baseline, and the fixture's receipt under the
      constants of the source. */
  lemma RunAccepted(w: P.World, s: Suite, h: Hash, bytes: P.File -> seq<byte>, seed: seq<byte>,
                    files: P.Files, version: Option<string>, o: P.Outputs)
    requires w.Lawful() && w.Separated(files) && w.Run(files, version, o)
    requires s == ED25519 && SignsWith(w, s, h, bytes, seed)
    ensures var after := files + o.All();
      && w.AllPinned(after, version)
      && (w.BaselineAccepted(after) <==> w.reportCore(after[w.PolicyIn(after).value.report].doc.report.rest))
      && var m, trust, receipt :=
        after[w.at.manifest].doc.manifest, after[w.at.trustRoot].doc, after[w.at.receipt].doc.receipt;
      (ReceiptAccepted(w, s, h, bytes, m, receipt, trust.public, trust.keyId)
       <==> s.Nonce(h, bytes(PayloadFile(w, m)), seed) != 0)
  {
    Ed25519Sound();
    o.Written(files);
    w.RunPins(files, version, o);
    w.PinnedBaselineAccepted(files + o.All());
    PinnedReceiptAccepted(w, s, h, bytes, seed, files + o.All());
  }
}
