/**
 * What the builder and the verifier script promise together: a proof pack
 * built from a database whose capture chains are intact passes the
 * pack's own verifier, and tampering with a listed file makes it fail.
 *
 * The verifier reads manifest.json and timeline.json back with
 * `json.loads`; the model takes that decoding to return the values the
 * builder serialised, so `Unpack` reads them from the pack's structured
 * content rather than from the bytes.
 */
module PackTheorem {
  import opened Common
  import opened Store
  import opened Json
  import opened Captures
  import opened ProofPack
  import opened PackVerifier
  import Chain

  /** The archive's members by name, a later member replacing an earlier one of the same name. */
  function EntriesMap(entries: seq<(string, Bytes)>): (m: map<string, Bytes>)
    ensures forall name :: name in m <==> exists k :: 0 <= k < |entries| && entries[k].0 == name
  {
    if entries == [] then map[]
    else
      var last := entries[|entries| - 1];
      var m := EntriesMap(entries[..|entries| - 1]);
      assert forall k :: 0 <= k < |entries| - 1 ==> entries[..|entries| - 1][k] == entries[k];
      m[last.0 := last.1]
  }

  function ToManifestEntries(files: seq<FileEntry>): seq<ManifestEntry> {
    seq(|files|, k requires 0 <= k < |files| => ManifestEntry(files[k].path, files[k].sha256))
  }

  /** A timeline item as the verifier reads it back; `prev_capture_id` is null for the first capture. */
  function ToVItem(it: PackItem): VItem {
    VItem(Some(it.id), it.prevCaptureId, Some(it.capturedAt), Some(it.canonicalUrl), Some(it.rawSha),
          Some(it.normSha), Some(it.chainSha))
  }

  function ToVItems(items: seq<PackItem>): seq<VItem> {
    seq(|items|, k requires 0 <= k < |items| => ToVItem(items[k]))
  }

  /** The pack as the verifier script finds it after unzipping. */
  function Unpack(p: Pack): Unpacked {
    Unpacked(EntriesMap(p.entries), ToManifestEntries(p.manifest.files), ToVItems(p.items))
  }

  predicate DistinctNames(entries: seq<(string, Bytes)>) {
    forall i, j :: 0 <= i < j < |entries| ==> entries[i].0 != entries[j].0
  }

  /** With distinct names, each member is found under its own name. */
  lemma {:induction false} EntriesMapLookup(entries: seq<(string, Bytes)>)
    requires DistinctNames(entries)
    ensures forall k :: 0 <= k < |entries| ==> entries[k].0 in EntriesMap(entries) && EntriesMap(entries)[entries[k].0] == entries[k].1
  {
    if entries != [] {
      var init := entries[..|entries| - 1];
      assert DistinctNames(init) by {
        forall i, j | 0 <= i < j < |init| ensures init[i].0 != init[j].0 {
          assert init[i] == entries[i] && init[j] == entries[j];
        }
      }
      EntriesMapLookup(init);
      forall k | 0 <= k < |entries| - 1
        ensures EntriesMap(entries)[entries[k].0] == entries[k].1
      {
        assert init[k] == entries[k];
      }
    }
  }

  /** The layout `Assemble` guarantees, as far as the verifier's file phase needs it. */
  predicate LaidOut(sha: Hasher, p: Pack) {
    && |p.entries| == 4 && |p.manifest.files| == 3
    && (forall k :: 0 <= k < 3 ==> p.manifest.files[k].path == p.entries[k].0 &&
                                   p.manifest.files[k].sha256 == sha(p.entries[k].1))
    && p.entries[0].0 == "timeline.json" && p.entries[1].0 == "methodology.md"
    && p.entries[2].0 == "verify.py" && p.entries[3].0 == "manifest.json"
  }

  /** The four members of a laid-out pack have different names. */
  lemma LaidOutDistinct(sha: Hasher, p: Pack)
    requires LaidOut(sha, p)
    ensures DistinctNames(p.entries)
  {
  }

  /** In a laid-out pack, each member is found under its name, manifest.json and timeline.json among them, and every listed file matches. */
  lemma LaidOutFilesMatch(sha: Hasher, p: Pack)
    requires LaidOut(sha, p)
    ensures var u := Unpack(p);
      && (forall k :: 0 <= k < 4 ==> p.entries[k].0 in u.files && u.files[p.entries[k].0] == p.entries[k].1)
      && "manifest.json" in u.files && "timeline.json" in u.files
      && FilesMatch(sha, u.files, u.manifestFiles)
  {
    var u := Unpack(p);
    LaidOutDistinct(sha, p);
    EntriesMapLookup(p.entries);
    forall e | e in u.manifestFiles ensures e.path in u.files && sha(u.files[e.path]) == e.sha256 {
      var k :| 0 <= k < 3 && u.manifestFiles[k] == e;
      assert e.path == p.entries[k].0;
    }
  }

  lemma BuiltPackLaidOut(sha: Hasher, render: Renderer, sources: seq<Source>, captures: seq<Capture>, sourceId: string,
                         limit: int, clock: Clock, methodology: Bytes, verifyScript: Bytes)
    requires BuildPack(sha, render, sources, captures, sourceId, limit, clock, methodology, verifyScript).Ok?
    ensures LaidOut(sha, BuildPack(sha, render, sources, captures, sourceId, limit, clock, methodology, verifyScript).value)
  {
  }

  /** A capture linked to its predecessor reads back as a complete item whose recomputed digest is its own. */
  lemma LinkedItemSound(sha: Hasher, c: Capture, prev: Option<Capture>, url: string, it: VItem, prevChain: Option<string>)
    requires c.id != ""
    requires LinkedTo(sha, c, prev, url)
    requires it == ToVItem(ToPackItem(c, url))
    requires prevChain == PrevChain(prev)
    ensures MissingFieldOf(it).None? && it.prevCaptureId == PrevId(prev)
    ensures Recompute(sha, it, prevChain) == it.chainSha.value
  {
  }

  /** One item of a prefix of an intact chain is complete, linked to its predecessor and correctly chained. */
  lemma PrefixItemSound(sha: Hasher, caps: seq<Capture>, url: string, items: seq<PackItem>, i: nat)
    requires i < |items| <= |caps|
    requires caps[i].id != "" && LinkedTo(sha, caps[i], Before(caps, i), url)
    requires forall k :: 0 <= k < |items| ==> items[k] == ToPackItem(caps[k], url)
    ensures ItemSound(sha, ToVItems(items), i)
  {
    var v := ToVItems(items);
    var prev := if i == 0 then None else v[i - 1].chainSha;
    if i > 0 {
      assert v[i - 1].id == Some(caps[i - 1].id) && v[i - 1].chainSha.Some? && v[i - 1].chainSha.value == caps[i - 1].chainSha;
    }
    LinkedItemSound(sha, caps[i], Before(caps, i), url, v[i], prev);
  }

  /**
   * Items taken in order from the start of an intact chain, with
   * non-empty ids, replay soundly: each names its predecessor and carries
   * the chain digest that follows it.
   */
  lemma PrefixChainSound(sha: Hasher, caps: seq<Capture>, url: string, items: seq<PackItem>)
    requires ChainIntact(sha, caps, url)
    requires forall c | c in caps :: c.id != ""
    requires |items| <= |caps|
    requires forall k :: 0 <= k < |items| ==> items[k] == ToPackItem(caps[k], url)
    ensures ChainSound(sha, ToVItems(items))
  {
    forall i | 0 <= i < |items| ensures ItemSound(sha, ToVItems(items), i) {
      assert caps[i] in caps;
      PrefixItemSound(sha, caps, url, items, i);
    }
  }

  /**
   * A laid-out pack whose items are taken in order from the start of an
   * intact chain passes the verifier: the chain replay runs when there is
   * at least one item.
   */
  lemma LaidOutPackVerifies(sha: Hasher, p: Pack, caps: seq<Capture>, url: string)
    requires LaidOut(sha, p)
    requires ChainIntact(sha, caps, url)
    requires forall c | c in caps :: c.id != ""
    requires |p.items| <= |caps|
    requires forall k :: 0 <= k < |p.items| ==> p.items[k] == ToPackItem(caps[k], url)
    ensures Verify(sha, Unpack(p)) == (if p.items == [] then FilesVerified else ChainVerified)
  {
    var u := Unpack(p);
    LaidOutFilesMatch(sha, p);
    CheckFilesIff(sha, u.files, u.manifestFiles, 0);
    assert u.manifestFiles[0..] == u.manifestFiles;
    PrefixChainSound(sha, caps, url, p.items);
    ReplayPassesIffSound(sha, u.timelineItems);
    if p.items != [] {
      assert u.timelineItems[0].chainSha.Some?;
    }
  }

  /**
   * The end-to-end guarantee: a pack built from a database whose tables
   * are consistent and whose capture chains are intact passes its own
   * verifier with exit code 0. With at least one capture the chain replay
   * runs and passes; with none only the files are checked.
   */
  lemma BuiltPackVerifies(sha: Hasher, render: Renderer, sources: seq<Source>, captures: seq<Capture>, sourceId: string,
                          limit: int, clock: Clock, methodology: Bytes, verifyScript: Bytes)
    requires TablesValid(sources, captures)
    requires AllChainsIntact(sha, sources, captures)
    requires BuildPack(sha, render, sources, captures, sourceId, limit, clock, methodology, verifyScript).Ok?
    ensures var p := BuildPack(sha, render, sources, captures, sourceId, limit, clock, methodology, verifyScript).value;
      Verify(sha, Unpack(p)) == (if p.items == [] then FilesVerified else ChainVerified)
  {
    var p := BuildPack(sha, render, sources, captures, sourceId, limit, clock, methodology, verifyScript).value;
    BuiltPackLaidOut(sha, render, sources, captures, sourceId, limit, clock, methodology, verifyScript);
    var source := FindSource(sources, sourceId).value;
    var caps := SourceCaptures(captures, sourceId);
    assert ChainIntact(sha, caps, source.canonicalUrl);
    AscendingIsInsertionOrder(captures, sourceId);
    assert forall c | c in caps :: c.id != "" by {
      forall c | c in caps ensures c.id != "" {
        var i :| 0 <= i < |captures| && captures[i] == c;
      }
    }
    LaidOutPackVerifies(sha, p, caps, source.canonicalUrl);
  }

  /**
   * The same guarantee without assuming the build succeeds: for a known
   * source, a limit below a million and a source id and timestamp of at
   * most 250 characters, the build succeeds and its pack verifies.
   */
  lemma KnownSourcePackVerifies(sha: Hasher, render: Renderer, sources: seq<Source>, captures: seq<Capture>,
                                sourceId: string, limit: int, clock: Clock, methodology: Bytes, verifyScript: Bytes)
    requires TablesValid(sources, captures)
    requires AllChainsIntact(sha, sources, captures)
    requires FindSource(sources, sourceId).Some?
    requires 0 <= limit < 1000000 && |sourceId| <= 250 && |clock.iso| <= 250
    ensures BuildPack(sha, render, sources, captures, sourceId, limit, clock, methodology, verifyScript).Ok?
    ensures var p := BuildPack(sha, render, sources, captures, sourceId, limit, clock, methodology, verifyScript).value;
      Verify(sha, Unpack(p)) == (if p.items == [] then FilesVerified else ChainVerified)
  {
    BuildPackSucceeds(sha, render, sources, captures, sourceId, limit, clock, methodology, verifyScript);
    BuiltPackVerifies(sha, render, sources, captures, sourceId, limit, clock, methodology, verifyScript);
  }

  /**
   * With a positive limit, the first item of a built pack is the source's
   * first capture, which names no predecessor: the ascending order and the
   * limit keep the start of the chain.
   */
  lemma FirstItemStartsChain(sha: Hasher, render: Renderer, sources: seq<Source>, captures: seq<Capture>, sourceId: string,
                             limit: int, clock: Clock, methodology: Bytes, verifyScript: Bytes)
    requires AllChainsIntact(sha, sources, captures)
    requires BuildPack(sha, render, sources, captures, sourceId, limit, clock, methodology, verifyScript).Ok?
    requires limit > 0 && SourceCaptures(captures, sourceId) != []
    ensures var p := BuildPack(sha, render, sources, captures, sourceId, limit, clock, methodology, verifyScript).value;
      && p.items != []
      && p.items[0].id == SourceCaptures(captures, sourceId)[0].id
      && p.items[0].prevCaptureId.None?
  {
    var source := FindSource(sources, sourceId).value;
    var caps := SourceCaptures(captures, sourceId);
    assert ChainIntact(sha, caps, source.canonicalUrl);
    assert LinkedTo(sha, caps[0], Before(caps, 0), source.canonicalUrl);
    AscendingIsInsertionOrder(captures, sourceId);
  }

  /** Replacing the bytes of a listed file of a laid-out pack makes the verifier fail. */
  lemma LaidOutTamperDetected(sha: Hasher, p: Pack, k: nat, forged: Bytes)
    requires LaidOut(sha, p)
    requires k < 3
    requires forged != p.entries[k].1 && NoCollision(sha, p.entries[k].1, forged)
    ensures var u := Unpack(p);
      Verify(sha, u.(files := u.files[p.entries[k].0 := forged])).Fail?
  {
    var u := Unpack(p);
    LaidOutFilesMatch(sha, p);
    assert u.manifestFiles[k] in u.manifestFiles;
    FileTamperDetected(sha, u, p.entries[k].0, forged);
  }

  /**
   * Replacing the bytes of any file the manifest lists (timeline.json,
   * methodology.md or verify.py) in a built pack makes the verifier fail,
   * unless SHA-256 collides on the old and new bytes.
   */
  lemma BuiltPackTamperDetected(sha: Hasher, render: Renderer, sources: seq<Source>, captures: seq<Capture>,
                                sourceId: string, limit: int, clock: Clock, methodology: Bytes, verifyScript: Bytes,
                                k: nat, forged: Bytes)
    requires BuildPack(sha, render, sources, captures, sourceId, limit, clock, methodology, verifyScript).Ok?
    requires k < 3
    requires var p := BuildPack(sha, render, sources, captures, sourceId, limit, clock, methodology, verifyScript).value;
      forged != p.entries[k].1 && NoCollision(sha, p.entries[k].1, forged)
    ensures var p := BuildPack(sha, render, sources, captures, sourceId, limit, clock, methodology, verifyScript).value;
      var u := Unpack(p);
      Verify(sha, u.(files := u.files[p.entries[k].0 := forged])).Fail?
  {
    var p := BuildPack(sha, render, sources, captures, sourceId, limit, clock, methodology, verifyScript).value;
    BuiltPackLaidOut(sha, render, sources, captures, sourceId, limit, clock, methodology, verifyScript);
    LaidOutTamperDetected(sha, p, k, forged);
  }
}
