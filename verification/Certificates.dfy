/** Certificate bundles: what each plane finds in a PEM text. */
module Certificates {

  /** One decoded PEM block: its type, whether header lines come with it, and whether its bytes
      parse as a certificate. */
  datatype PemBlock = PemBlock(kind: string, headers: bool, parses: bool)

  predicate IsCertificate(b: PemBlock) {
    b.kind == "CERTIFICATE" && b.parses
  }

  /** The control plane's test: some block is a certificate. */
  predicate HoldsCertificate(blocks: seq<PemBlock>) {
    exists i | 0 <= i < |blocks| :: IsCertificate(blocks[i])
  }

  /** What a certificate pool of the Go library takes in: it passes over blocks with headers. */
  predicate LoadsCertificate(blocks: seq<PemBlock>) {
    exists i | 0 <= i < |blocks| :: IsCertificate(blocks[i]) && !blocks[i].headers
  }

  /** `validCAPem`, and `validCAPEM` of the authentication documents. */
  method ValidCaPem(blocks: seq<PemBlock>) returns (valid: bool)
    ensures valid <==> HoldsCertificate(blocks)
    ensures valid <==> exists b | b in blocks :: b.kind == "CERTIFICATE" && b.parses
  {
    HoldsByBlock(blocks);
    var rest := blocks;
    while rest != []
      invariant HoldsCertificate(blocks) <==> HoldsCertificate(rest)
      decreases |rest|
    {
      var block := rest[0];
      RestHolds(rest);
      rest := rest[1..];
      if block.kind != "CERTIFICATE" {
        continue;
      }
      if block.parses {
        return true;
      }
    }
    valid := false;
  }

  lemma HoldsByBlock(blocks: seq<PemBlock>)
    ensures HoldsCertificate(blocks) <==> exists b | b in blocks :: b.kind == "CERTIFICATE" && b.parses
  {
    if b :| b in blocks && b.kind == "CERTIFICATE" && b.parses {
      var i :| 0 <= i < |blocks| && blocks[i] == b;
    }
  }

  lemma RestHolds(blocks: seq<PemBlock>)
    requires blocks != []
    ensures HoldsCertificate(blocks) <==> IsCertificate(blocks[0]) || HoldsCertificate(blocks[1..])
  {
    if HoldsCertificate(blocks[1..]) {
      var i :| 0 <= i < |blocks[1..]| && IsCertificate(blocks[1..][i]);
      assert IsCertificate(blocks[i + 1]);
    }
  }
}
