/**
 * The hash chain of captures (`compute_chain_sha256` in
 * app/routers/captures.py): each capture's chain digest covers the
 * previous capture's id and chain digest, its own two content digests,
 * its timestamp and the source's canonical URL.
 */
module Chain {
  import opened Common
  import opened PyStr
  import Utf8

  /** The six fields joined with "|", absent links written as "". */
  function ChainInput(prevId: Option<string>, prevChain: Option<string>, rawSha: string,
                      normSha: string, capturedAtIso: string, canonicalUrl: string): string
  {
    Join("|", [OrEmpty(prevId), OrEmpty(prevChain), rawSha, normSha, capturedAtIso, canonicalUrl])
  }

  /**
   * The input written out field by field: the input of a first capture
   * starts with "||".
   */
  lemma ChainInputLayout(prevId: Option<string>, prevChain: Option<string>, rawSha: string,
                         normSha: string, capturedAtIso: string, canonicalUrl: string)
    ensures ChainInput(prevId, prevChain, rawSha, normSha, capturedAtIso, canonicalUrl)
            == OrEmpty(prevId) + "|" + OrEmpty(prevChain) + "|" + rawSha + "|" + normSha + "|" + capturedAtIso + "|" + canonicalUrl
    ensures prevId.None? && prevChain.None? ==>
            ChainInput(prevId, prevChain, rawSha, normSha, capturedAtIso, canonicalUrl)
            == "||" + rawSha + "|" + normSha + "|" + capturedAtIso + "|" + canonicalUrl
  {
    var fields := [OrEmpty(prevId), OrEmpty(prevChain), rawSha, normSha, capturedAtIso, canonicalUrl];
    assert Join("|", fields[..1]) == fields[0];
    assert fields[..2] == fields[..1] + [fields[1]];
    JoinSnoc("|", fields[..1], fields[1]);
    assert fields[..3] == fields[..2] + [fields[2]];
    JoinSnoc("|", fields[..2], fields[2]);
    assert fields[..4] == fields[..3] + [fields[3]];
    JoinSnoc("|", fields[..3], fields[3]);
    assert fields[..5] == fields[..4] + [fields[4]];
    JoinSnoc("|", fields[..4], fields[4]);
    assert fields == fields[..5] + [fields[5]];
    JoinSnoc("|", fields[..5], fields[5]);
    if prevId.None? && prevChain.None? {
      assert OrEmpty(prevId) + "|" + OrEmpty(prevChain) + "|" == "||";
    }
  }

  /** The digest is SHA-256 of the UTF-8 encoding of the input. */
  function ComputeChainSha256(sha: Hasher, prevId: Option<string>, prevChain: Option<string>, rawSha: string,
                              normSha: string, capturedAtIso: string, canonicalUrl: string): (r: HexDigest)
  {
    sha(Utf8.Encode(ChainInput(prevId, prevChain, rawSha, normSha, capturedAtIso, canonicalUrl)))
  }

  predicate NoPipe(s: string) {
    forall i :: 0 <= i < |s| ==> s[i] != '|'
  }

  /** The position of the first "|" in `s`, or |s| when there is none. */
  function PipeIndex(s: string): (n: nat)
    ensures n <= |s|
  {
    if s == [] || s[0] == '|' then 0 else 1 + PipeIndex(s[1..])
  }

  lemma {:induction false} PipeIndexAfterField(a: string, r: string)
    requires NoPipe(a)
    ensures PipeIndex(a + "|" + r) == |a|
  {
    if a != [] {
      assert (a + "|" + r)[1..] == a[1..] + "|" + r;
      PipeIndexAfterField(a[1..], r);
    }
  }

  /** A field without "|" followed by "|" is recovered from the front of the text. */
  lemma PeelField(a: string, r: string, b: string, s: string)
    requires NoPipe(a) && NoPipe(b)
    requires a + "|" + r == b + "|" + s
    ensures a == b && r == s
  {
    var x := a + "|" + r;
    PipeIndexAfterField(a, r);
    PipeIndexAfterField(b, s);
    assert a == x[..|a|] == b;
    assert r == x[|a| + 1..] == s;
  }

  /**
   * When the first five fields contain no "|" (ids, hex digests and ISO
   * timestamps never do), the input determines all six fields.
   */
  lemma ChainInputInjective(a: seq<string>, b: seq<string>)
    requires |a| == 6 && |b| == 6
    requires forall i :: 0 <= i < 5 ==> NoPipe(a[i]) && NoPipe(b[i])
    requires Join("|", a) == Join("|", b)
    ensures a == b
  {
    JoinInjective(a, b);
  }

  /** Joining with "|" loses nothing when no field but the last contains "|". */
  lemma {:induction false} JoinInjective(a: seq<string>, b: seq<string>)
    requires |a| == |b| >= 1
    requires forall i :: 0 <= i < |a| - 1 ==> NoPipe(a[i]) && NoPipe(b[i])
    requires Join("|", a) == Join("|", b)
    ensures a == b
  {
    if |a| > 1 {
      assert a == [a[0]] + a[1..] && b == [b[0]] + b[1..];
      JoinCons("|", a[0], a[1..]);
      JoinCons("|", b[0], b[1..]);
      PeelField(a[0], Join("|", a[1..]), b[0], Join("|", b[1..]));
      JoinInjective(a[1..], b[1..]);
    }
  }

  /**
   * Tamper evidence: unless SHA-256 collides on the two inputs, equal chain
   * digests mean equal links, content digests, timestamps and URLs.
   */
  lemma ChainDigestBinds(sha: Hasher,
                         prevId: Option<string>, prevChain: Option<string>, rawSha: string, normSha: string, iso: string, url: string,
                         prevId': Option<string>, prevChain': Option<string>, rawSha': string, normSha': string, iso': string, url': string)
    requires NoPipe(OrEmpty(prevId)) && NoPipe(OrEmpty(prevChain)) && NoPipe(rawSha) && NoPipe(normSha) && NoPipe(iso)
    requires NoPipe(OrEmpty(prevId')) && NoPipe(OrEmpty(prevChain')) && NoPipe(rawSha') && NoPipe(normSha') && NoPipe(iso')
    requires NoCollision(sha, Utf8.Encode(ChainInput(prevId, prevChain, rawSha, normSha, iso, url)),
                              Utf8.Encode(ChainInput(prevId', prevChain', rawSha', normSha', iso', url')))
    requires ComputeChainSha256(sha, prevId, prevChain, rawSha, normSha, iso, url) ==
             ComputeChainSha256(sha, prevId', prevChain', rawSha', normSha', iso', url')
    ensures OrEmpty(prevId) == OrEmpty(prevId') && OrEmpty(prevChain) == OrEmpty(prevChain')
    ensures rawSha == rawSha' && normSha == normSha' && iso == iso' && url == url'
  {
    var a := [OrEmpty(prevId), OrEmpty(prevChain), rawSha, normSha, iso, url];
    var b := [OrEmpty(prevId'), OrEmpty(prevChain'), rawSha', normSha', iso', url'];
    Utf8.EncodeInjective(Join("|", a), Join("|", b));
    ChainInputInjective(a, b);
  }
}
