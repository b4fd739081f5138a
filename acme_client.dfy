/**
 * The last step of the ACME client's certificate-creation handler: once the
 * external ACME tool has written the issued bundle to `<certs path><subject>.crt`
 * inside the workload container, the handler reads it, splits it on "\n\n" (cut
 * at every leftmost, non-overlapping occurrence, as Python's `str.split` does)
 * and hands leaf, CA and chain to the certificates relation.
 */
module AcmeClient {
  import opened Wrappers
  import opened TextSplit

  /** The separator the bundle is split on; see TextSplit.Split for where it cuts. */
  const Separator: string := "\n\n"
  const CertificateExtension: string := ".crt"

  /** The values handed to the relation's set_relation_certificate call. */
  datatype RelationCertificate = RelationCertificate(
    certificate: string,
    certificateSigningRequest: string,
    ca: string,
    chain: seq<string>,
    relationId: int)

  /** Where the issued bundle for `subject` is read from. */
  function CertificateFile(certsPath: string, subject: string): (path: string)
    ensures |path| == |certsPath| + |subject| + |CertificateExtension|
    ensures path[..|certsPath|] == certsPath
    ensures path[|certsPath|..|certsPath| + |subject|] == subject
    ensures path[|path| - |CertificateExtension|..] == CertificateExtension
  {
    certsPath + subject + CertificateExtension
  }

  /** Python's `list(reversed(s))`. */
  function Reversed<T>(s: seq<T>): (r: seq<T>)
    ensures |r| == |s|
    ensures forall i :: 0 <= i < |s| ==> r[i] == s[|s| - 1 - i]
  {
    if s == [] then [] else [s[|s| - 1]] + Reversed(s[..|s| - 1])
  }

  lemma ReversedTwice<T>(s: seq<T>)
    ensures Reversed(Reversed(s)) == s
  {
    assert forall i :: 0 <= i < |s| ==> Reversed(Reversed(s))[i] == s[i];
  }

  /**
   * What goes to the relation: the leaf is the first segment and the CA the
   * last; the chain runs from the CA back to the leaf; the CSR and relation id
   * pass through untouched.
   */
  function Publish(certs: seq<string>, csr: string, relationId: int): (r: RelationCertificate)
    requires certs != []
    ensures r.certificate == certs[0]
    ensures r.ca == certs[|certs| - 1]
    ensures |r.chain| == |certs|
    ensures r.chain[0] == r.ca && r.chain[|r.chain| - 1] == r.certificate
    ensures forall i :: 0 <= i < |certs| ==> r.chain[i] == certs[|certs| - 1 - i]
    ensures |certs| == 1 ==> r.certificate == r.ca
    ensures r.certificateSigningRequest == csr && r.relationId == relationId
  {
    RelationCertificate(certs[0], csr, certs[|certs| - 1], Reversed(certs), relationId)
  }

  /** The loop that copies every piece of the split bundle into `certs`. */
  method CollectCertificates(bundle: string) returns (certs: seq<string>)
    ensures certs == Split(bundle, Separator)
  {
    var pieces := Split(bundle, Separator);
    certs := [];
    for i := 0 to |pieces|
      invariant certs == pieces[..i]
    {
      certs := certs + [pieces[i]];
    }
  }

  /**
   * Reads the issued bundle from the container's files and builds what is
   * published on the relation. A missing file makes the read fail, and then
   * nothing is published.
   */
  method PublishIssuedCertificate(
    certsPath: string, subject: string, files: map<string, string>,
    csr: string, relationId: int)
    returns (published: Option<RelationCertificate>)
    ensures published.Some? <==> CertificateFile(certsPath, subject) in files
    ensures published.Some? ==>
      published.value == Publish(Split(files[CertificateFile(certsPath, subject)], Separator), csr, relationId)
  {
    var path := CertificateFile(certsPath, subject);
    if path !in files {
      return None;
    }
    var certs := CollectCertificates(files[path]);
    published := Some(Publish(certs, csr, relationId));
  }

  /** Re-reversing the chain and joining it with blank lines gives back the bundle read. */
  lemma ChainRecoversBundle(bundle: string, csr: string, relationId: int)
    ensures var r := Publish(Split(bundle, Separator), csr, relationId);
      Join(Reversed(r.chain), Separator) == bundle
  {
    ReversedTwice(Split(bundle, Separator));
    JoinSplit(bundle, Separator);
  }

  /** No published certificate contains a blank line. */
  lemma PublishedHaveNoBlankLine(bundle: string, csr: string, relationId: int)
    ensures var r := Publish(Split(bundle, Separator), csr, relationId);
      && !Contains(r.certificate, Separator)
      && !Contains(r.ca, Separator)
      && forall i :: 0 <= i < |r.chain| ==> !Contains(r.chain[i], Separator)
  {
    var certs := Split(bundle, Separator);
    SplitPartsAvoidSeparator(bundle, Separator);
    var r := Publish(certs, csr, relationId);
    forall i | 0 <= i < |r.chain| ensures !Contains(r.chain[i], Separator) {
      assert r.chain[i] == certs[|certs| - 1 - i];
    }
  }

  /**
   * A bundle written leaf first as PEM blocks separated by blank lines, none of
   * which holds a blank line or (except the last) ends in a newline, yields that
   * leaf, that CA and the blocks in reverse order.
   */
  lemma LeafFirstBundle(pems: seq<string>, csr: string, relationId: int)
    requires Separable(pems, Separator)
    ensures Split(Join(pems, Separator), Separator) == pems
    ensures Publish(Split(Join(pems, Separator), Separator), csr, relationId)
      == RelationCertificate(pems[0], csr, pems[|pems| - 1], Reversed(pems), relationId)
  {
    SplitJoin(pems, Separator);
  }

  /** A bundle that ends in a blank line after a cleanly ending block has an empty CA. */
  lemma TrailingBlankLineGivesEmptyCa(pems: seq<string>, csr: string, relationId: int)
    requires pems != [] && Separable(pems + [""], Separator)
    ensures var r := Publish(Split(Join(pems, Separator) + Separator, Separator), csr, relationId);
      r.ca == "" && r.chain[0] == "" && r.certificate == pems[0] && |r.chain| == |pems| + 1
  {
    JoinAppendEmpty(pems, Separator);
    SplitJoin(pems + [""], Separator);
  }

  /** With an extra newline, the trailing separator overlaps the text and the CA is "\n". */
  lemma OverlappingTrailingNewline(csr: string, relationId: int)
    ensures Split("\n\n\n", Separator) == ["", "\n"]
    ensures Publish(Split("\n\n\n", Separator), csr, relationId).ca == "\n"
  {
    assert "\n\n\n"[..2] == Separator;
    assert "\n\n\n"[2..] == "\n";
  }

  /** An empty bundle still yields one (empty) segment, so leaf and CA are defined. */
  lemma EmptyBundle(csr: string, relationId: int)
    ensures Split("", Separator) == [""]
    ensures var r := Publish(Split("", Separator), csr, relationId);
      r.certificate == "" && r.ca == "" && r.chain == [""]
  {
  }
}
