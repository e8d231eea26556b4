// SHA-256 as an uninterpreted function, and the spelling content hashes take on the wire and on disk.
module Sha256 {
  import opened Text

  type Digest = s: string | |s| == 64 && forall c <- s :: IsHex(c)
    witness seq(64, i => '0')

  /** SHA-256 in hexadecimal: any function. */
  const Sum256: string -> Digest

  function ContentHash(body: string): string { "sha256-" + Sum256(body) }

  /** The spelling of a content hash. */
  predicate ValidStoredHash(v: string) {
    |v| == 71 && HasPrefix(v, "sha256-") && forall c <- v[7..] :: IsHex(c)
  }

  lemma ContentHashShape(body: string)
    ensures ValidStoredHash(ContentHash(body)) && ContentHash(body)[7..] == Sum256(body)
  {
    var hash := ContentHash(body);
    assert hash[..7] == "sha256-" && hash[7..] == Sum256(body);
  }
}
