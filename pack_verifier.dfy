/**
 * The `verify.py` script that every proof pack carries
 * (src/proofpack/builder.py, lines 120-231): check each file listed in
 * the manifest against its SHA-256 digest, then replay the capture hash
 * chain recorded in timeline.json. It stops at the first failure.
 */
module PackVerifier {
  import opened Common
  import opened Chain
  import Utf8

  /** One element of the manifest's `files` list. */
  datatype ManifestEntry = ManifestEntry(path: string, sha256: string)

  /** A timeline item as `item.get(...)` sees it: each field may be absent (None). */
  datatype VItem = VItem(
    id: Option<string>,
    prevCaptureId: Option<string>,
    capturedAt: Option<string>,
    canonicalUrl: Option<string>,
    rawSha: Option<string>,
    normSha: Option<string>,
    chainSha: Option<string>)

  /**
   * The unpacked pack as the script finds it in its working directory:
   * the bytes of each file by name, the decoded `files` list of
   * manifest.json and the decoded `items` list of timeline.json (empty
   * when the key is absent).
   */
  datatype Unpacked = Unpacked(files: map<string, Bytes>, manifestFiles: seq<ManifestEntry>, timelineItems: seq<VItem>)

  datatype Failure =
    | ManifestNotFound
    | FileNotFound(path: string)
    | HashMismatch(path: string)
    | MissingField(index: nat, field: string)
    | FirstHasPrev
    | LinkMismatch(index: nat)
    | ChainMismatch(index: nat)

  /** What the script prints last before it exits. */
  datatype Verdict =
    | Fail(failure: Failure)      // "FAIL: ...", exit 1
    | FilesVerified               // "PASS: all files verified", no chain to check, exit 0
    | ChainSkipped                // "SKIP: ...", exit 0
    | ChainVerified               // "PASS: timeline capture hash chain verified", exit 0

  function ExitCode(v: Verdict): int {
    if v.Fail? then 1 else 0
  }

  /** The first listed file that is missing or whose digest differs, scanning from `i`. */
  function CheckFilesFrom(sha: Hasher, files: map<string, Bytes>, entries: seq<ManifestEntry>, i: nat): Option<Failure>
    requires i <= |entries|
    decreases |entries| - i
  {
    if i == |entries| then None
    else if entries[i].path !in files then Some(FileNotFound(entries[i].path))
    else if sha(files[entries[i].path]) != entries[i].sha256 then Some(HashMismatch(entries[i].path))
    else CheckFilesFrom(sha, files, entries, i + 1)
  }

  /** The first missing required field of an item, in the order the script checks them. */
  function MissingFieldOf(it: VItem): Option<string> {
    if it.id.None? || it.id.value == "" then Some("id")
    else if it.capturedAt.None? then Some("captured_at")
    else if it.canonicalUrl.None? then Some("canonical_url")
    else if it.rawSha.None? then Some("raw_bytes_sha256")
    else if it.normSha.None? then Some("normalized_text_sha256")
    else if it.chainSha.None? then Some("chain_sha256")
    else None
  }

  /** The chain digest the script recomputes for a complete item. */
  function Recompute(sha: Hasher, it: VItem, prevChain: Option<string>): string
    requires MissingFieldOf(it).None?
  {
    ComputeChainSha256(sha, it.prevCaptureId, prevChain, it.rawSha.value, it.normSha.value,
                       it.capturedAt.value, it.canonicalUrl.value)
  }

  /** The chain replay from item `idx` on, `prevChain` being the previous item's stored chain digest. */
  function ReplayFrom(sha: Hasher, items: seq<VItem>, idx: nat, prevChain: Option<string>): Option<Failure>
    requires idx <= |items|
    decreases |items| - idx
  {
    if idx == |items| then None
    else
      var it := items[idx];
      if MissingFieldOf(it).Some? then Some(MissingField(idx, MissingFieldOf(it).value))
      else if idx == 0 && it.prevCaptureId.Some? then Some(FirstHasPrev)
      else if idx > 0 && it.prevCaptureId != items[idx - 1].id then Some(LinkMismatch(idx))
      else if Recompute(sha, it, prevChain) != it.chainSha.value then Some(ChainMismatch(idx))
      else ReplayFrom(sha, items, idx + 1, it.chainSha)
  }

  predicate HasChainField(items: seq<VItem>) {
    exists i :: 0 <= i < |items| && items[i].chainSha.Some?
  }

  /**
   * The script's verdict on an unpacked pack: exit 0 exactly when the
   * manifest is there, every listed file matches, and there is no chain to
   * check or the chain is sound.
   */
  function Verify(sha: Hasher, u: Unpacked): (v: Verdict)
    ensures ExitCode(v) == 0 <==>
            && "manifest.json" in u.files
            && FilesMatch(sha, u.files, u.manifestFiles)
            && ("timeline.json" !in u.files || u.timelineItems == [] || !HasChainField(u.timelineItems) ||
                ChainSound(sha, u.timelineItems))
  {
    CheckFilesIff(sha, u.files, u.manifestFiles, 0);
    assert u.manifestFiles[0..] == u.manifestFiles;
    ReplayPassesIffSound(sha, u.timelineItems);
    if "manifest.json" !in u.files then Fail(ManifestNotFound)
    else if CheckFilesFrom(sha, u.files, u.manifestFiles, 0).Some? then Fail(CheckFilesFrom(sha, u.files, u.manifestFiles, 0).value)
    else if "timeline.json" !in u.files || u.timelineItems == [] then FilesVerified
    else if !HasChainField(u.timelineItems) then ChainSkipped
    else if ReplayFrom(sha, u.timelineItems, 0, None).Some? then Fail(ReplayFrom(sha, u.timelineItems, 0, None).value)
    else ChainVerified
  }

  /** `main()` of the script, loop by loop. */
  method RunVerifier(sha: Hasher, u: Unpacked) returns (v: Verdict)
    ensures v == Verify(sha, u)
  {
    if "manifest.json" !in u.files {
      return Fail(ManifestNotFound);
    }
    var files := u.manifestFiles;
    var i := 0;
    while i < |files|
      invariant 0 <= i <= |files|
      invariant CheckFilesFrom(sha, u.files, files, 0) == CheckFilesFrom(sha, u.files, files, i)
    {
      var entry := files[i];
      if entry.path !in u.files {
        return Fail(FileNotFound(entry.path));
      }
      var computed := sha(u.files[entry.path]);
      if computed != entry.sha256 {
        return Fail(HashMismatch(entry.path));
      }
      i := i + 1;
    }

    if "timeline.json" !in u.files {
      return FilesVerified;
    }
    var items := u.timelineItems;
    if items == [] {
      return FilesVerified;
    }
    var hasChain := false;
    var k := 0;
    while k < |items|
      invariant 0 <= k <= |items|
      invariant hasChain <==> exists j :: 0 <= j < k && items[j].chainSha.Some?
    {
      hasChain := hasChain || items[k].chainSha.Some?;
      k := k + 1;
    }
    if !hasChain {
      return ChainSkipped;
    }

    var prevChain: Option<string> := None;
    var idx := 0;
    while idx < |items|
      invariant 0 <= idx <= |items|
      invariant ReplayFrom(sha, items, 0, None) == ReplayFrom(sha, items, idx, prevChain)
    {
      var item := items[idx];
      var missing := MissingFieldOf(item);
      if missing.Some? {
        return Fail(MissingField(idx, missing.value));
      }
      if idx == 0 {
        if item.prevCaptureId.Some? {
          return Fail(FirstHasPrev);
        }
      } else if item.prevCaptureId != items[idx - 1].id {
        return Fail(LinkMismatch(idx));
      }
      var computedChain := Recompute(sha, item, prevChain);
      if computedChain != item.chainSha.value {
        return Fail(ChainMismatch(idx));
      }
      prevChain := item.chainSha;
      idx := idx + 1;
    }
    return ChainVerified;
  }

  // ---------------------------------------------------------------------
  // What a passing verdict means

  /** Every listed file is present and has the listed digest. */
  predicate FilesMatch(sha: Hasher, files: map<string, Bytes>, entries: seq<ManifestEntry>) {
    forall e | e in entries :: e.path in files && sha(files[e.path]) == e.sha256
  }

  /** Item `i` is complete, links to item `i - 1` (none for item 0) and carries the chain digest that follows it. */
  predicate ItemSound(sha: Hasher, items: seq<VItem>, i: nat)
    requires i < |items|
  {
    && MissingFieldOf(items[i]).None?
    && (if i == 0 then items[i].prevCaptureId.None? else items[i].prevCaptureId == items[i - 1].id)
    && Recompute(sha, items[i], if i == 0 then None else items[i - 1].chainSha) == items[i].chainSha.value
  }

  predicate ChainSound(sha: Hasher, items: seq<VItem>) {
    forall i :: 0 <= i < |items| ==> ItemSound(sha, items, i)
  }

  lemma {:induction false} CheckFilesIff(sha: Hasher, files: map<string, Bytes>, entries: seq<ManifestEntry>, i: nat)
    requires i <= |entries|
    ensures CheckFilesFrom(sha, files, entries, i).None? <==> FilesMatch(sha, files, entries[i..])
    decreases |entries| - i
  {
    if i < |entries| {
      CheckFilesIff(sha, files, entries, i + 1);
      assert entries[i..] == [entries[i]] + entries[i + 1..];
    }
  }

  lemma {:induction false} ReplayIff(sha: Hasher, items: seq<VItem>, k: nat)
    requires k <= |items|
    ensures ReplayFrom(sha, items, k, if k == 0 then None else items[k - 1].chainSha).None? <==>
            forall i :: k <= i < |items| ==> ItemSound(sha, items, i)
    decreases |items| - k
  {
    if k < |items| {
      ReplayIff(sha, items, k + 1);
      assert (forall i :: k <= i < |items| ==> ItemSound(sha, items, i)) <==>
             ItemSound(sha, items, k) && (forall i :: k + 1 <= i < |items| ==> ItemSound(sha, items, i));
    }
  }

  /** The replay passes exactly when every item is complete, linked and correctly chained. */
  lemma ReplayPassesIffSound(sha: Hasher, items: seq<VItem>)
    ensures ReplayFrom(sha, items, 0, None).None? <==> ChainSound(sha, items)
  {
    ReplayIff(sha, items, 0);
  }

  /** When only some items carry a chain digest, the first one without it fails the replay. */
  lemma PartialChainFails(sha: Hasher, items: seq<VItem>, j: nat)
    requires j < |items| && items[j].chainSha.None?
    ensures ReplayFrom(sha, items, 0, None).Some?
  {
    ReplayPassesIffSound(sha, items);
    assert !ItemSound(sha, items, j);
  }

  /**
   * Tamper evidence for files: changing the bytes of a listed file makes
   * the script fail, unless SHA-256 collides on the old and new bytes.
   */
  lemma FileTamperDetected(sha: Hasher, u: Unpacked, path: string, forged: Bytes)
    requires "manifest.json" in u.files && path != "manifest.json"
    requires exists e | e in u.manifestFiles :: e.path == path
    requires FilesMatch(sha, u.files, u.manifestFiles)
    requires forged != u.files[path] && NoCollision(sha, u.files[path], forged)
    ensures Verify(sha, u.(files := u.files[path := forged])).Fail?
  {
    var t := u.(files := u.files[path := forged]);
    var e :| e in u.manifestFiles && e.path == path;
    assert sha(t.files[path]) != e.sha256;
    assert !FilesMatch(sha, t.files, t.manifestFiles);
  }

  /**
   * Tamper evidence for the chain: in a sound chain, replacing the raw
   * digest of one item (and nothing else) breaks the chain, unless SHA-256
   * collides on the two chain inputs. Fields never contain "|".
   */
  lemma RawDigestTamperDetected(sha: Hasher, items: seq<VItem>, k: nat, forged: string)
    requires k < |items| && ChainSound(sha, items)
    requires MissingFieldOf(items[k]).None? && forged != items[k].rawSha.value
    requires forall i :: 0 <= i < |items| ==> ItemFieldsPipeFree(items[i])
    requires NoPipe(forged)
    requires var it := items[k];
      var prev := if k == 0 then None else items[k - 1].chainSha;
      NoCollision(sha,
        Utf8Input(it.prevCaptureId, prev, it.rawSha.value, it.normSha.value, it.capturedAt.value, it.canonicalUrl.value),
        Utf8Input(it.prevCaptureId, prev, forged, it.normSha.value, it.capturedAt.value, it.canonicalUrl.value))
    ensures !ChainSound(sha, items[k := items[k].(rawSha := Some(forged))])
  {
    var it := items[k];
    assert ItemSound(sha, items, k);
    var t := items[k := it.(rawSha := Some(forged))];
    var prev := if k == 0 then None else items[k - 1].chainSha;
    if ChainSound(sha, t) {
      assert ItemSound(sha, t, k);
      if k > 0 { assert t[k - 1] == items[k - 1]; }
      ChainDigestBinds(sha, it.prevCaptureId, prev, it.rawSha.value, it.normSha.value, it.capturedAt.value, it.canonicalUrl.value,
                       it.prevCaptureId, prev, forged, it.normSha.value, it.capturedAt.value, it.canonicalUrl.value);
    }
  }

  /** The fields of an item other than the URL contain no "|" (ids, digests, ISO timestamps). */
  predicate ItemFieldsPipeFree(it: VItem) {
    && NoPipe(OrEmpty(it.prevCaptureId)) && NoPipe(OrEmpty(it.chainSha))
    && NoPipe(OrEmpty(it.rawSha)) && NoPipe(OrEmpty(it.normSha)) && NoPipe(OrEmpty(it.capturedAt))
  }

  /** The bytes the chain digest is taken of. */
  function Utf8Input(prevId: Option<string>, prevChain: Option<string>, raw: string, norm: string, iso: string, url: string): Bytes {
    Utf8.Encode(ChainInput(prevId, prevChain, raw, norm, iso, url))
  }
}
