/**
 * The archive the demo generator writes (generate_irp_demo.py, `main`)
 * and the `verify.py` script it embeds (`generate_verify_py`).
 *
 * Five content files are hashed in sorted-name order into a flat
 * manifest, a dict from file name to SHA-256 digest that never lists
 * manifest.json; the archive holds the content files in sorted-name order
 * and manifest.json last. The embedded script checks every manifest entry
 * against the extracted files, without stopping at the first failure, and
 * exits with 0 exactly when all of them match.
 */
module IrpPack {
  import opened Common
  import opened PyStr
  import Sorting
  import opened Json
  import ProofPack
  import opened PackTheorem

  /** A named file: its path inside the archive and its bytes. */
  type File = (string, Bytes)

  const ManifestName: string := "manifest.json"

  /** `file_contents`, in the order the dict lists them. */
  function ContentFiles(pdf: Bytes, methodology: Bytes, verifyScript: Bytes, emailCsv: Bytes, slackJson: Bytes)
    : (r: seq<File>)
    ensures |r| == 5 && DistinctNames(r)
    ensures forall k :: 0 <= k < |r| ==> r[k].0 != ManifestName
  {
    var r := [("Response_Pack.pdf", pdf), ("methodology.md", methodology), ("verify.py", verifyScript),
              ("evidence/email_summary.csv", emailCsv), ("evidence/slack_summary.json", slackJson)];
    // The six names have six different lengths.
    assert forall k :: 0 <= k < 5 ==> |r[k].0| == [17, 14, 9, 26, 27][k];
    r
  }

  predicate NameLe(a: File, b: File) {
    StrLe(a.0, b.0)
  }

  /** `sorted(file_contents.items())`: the files by name. */
  function SortedFiles(files: seq<File>): (r: seq<File>)
    ensures multiset(r) == multiset(files)
    ensures Sorting.SortedBy(r, NameLe)
  {
    StrLeIsTotalPreorder();
    Sorting.SortSorted(files, NameLe);
    Sorting.Sort(files, NameLe)
  }

  /** The manifest dict, in insertion order: each file's name and the digest of its bytes. */
  type ManifestDict = seq<(string, string)>

  /** Each file's name with the digest of its bytes, in the order given. */
  function Digests(sha: Hasher, s: seq<File>): (m: ManifestDict)
    ensures |m| == |s|
    ensures forall k :: 0 <= k < |s| ==> m[k] == (s[k].0, sha(s[k].1))
  {
    if s == [] then [] else Digests(sha, s[..|s| - 1]) + [(s[|s| - 1].0, sha(s[|s| - 1].1))]
  }

  /** The manifest the generator fills, one sorted file after another. */
  function ManifestOf(sha: Hasher, files: seq<File>): (m: ManifestDict)
    ensures |m| == |files|
  {
    Digests(sha, SortedFiles(files))
  }

  /** The manifest as the value handed to `json.dumps`. */
  function ManifestValue(m: ManifestDict): PyValue {
    PDict(seq(|m|, k requires 0 <= k < |m| => (m[k].0, PStr(m[k].1))))
  }

  /** The archive entries: the content files in sorted-name order, then manifest.json. */
  function ArchiveEntries(sha: Hasher, render: ProofPack.Renderer, files: seq<File>): (r: seq<File>)
    ensures |r| == |files| + 1
    ensures r[|files|] == (ManifestName, render(ManifestValue(ManifestOf(sha, files))))
    ensures multiset(r[..|files|]) == multiset(files)
    ensures Sorting.SortedBy(r[..|files|], NameLe)
  {
    var r := SortedFiles(files) + [(ManifestName, render(ManifestValue(ManifestOf(sha, files))))];
    assert r[..|files|] == SortedFiles(files);
    r
  }

  /**
   * The manifest loop and the ZIP writes of `main`, over the content
   * files. `render` stands for
   * `json.dumps(..., indent=2, sort_keys=True).encode('utf-8')`.
   */
  method WriteArchive(sha: Hasher, render: ProofPack.Renderer, files: seq<File>)
    returns (manifest: ManifestDict, entries: seq<File>)
    ensures manifest == ManifestOf(sha, files)
    ensures entries == ArchiveEntries(sha, render, files)
  {
    var sorted := SortedFiles(files);
    manifest := [];
    for i := 0 to |sorted|
      invariant manifest == Digests(sha, sorted[..i])
    {
      assert sorted[..i + 1][..i] == sorted[..i];
      manifest := manifest + [(sorted[i].0, sha(sorted[i].1))];
    }
    assert sorted[..|sorted|] == sorted;
    var manifestJson := render(ManifestValue(manifest));
    entries := [];
    for i := 0 to |sorted|
      invariant entries == sorted[..i]
    {
      entries := entries + [sorted[i]];
    }
    entries := entries + [(ManifestName, manifestJson)];
  }

  /** The demo archive, from the bytes of its five content files. */
  method BuildArchive(sha: Hasher, render: ProofPack.Renderer, pdf: Bytes, methodology: Bytes, verifyScript: Bytes,
                      emailCsv: Bytes, slackJson: Bytes)
    returns (manifest: ManifestDict, entries: seq<File>)
    ensures var files := ContentFiles(pdf, methodology, verifyScript, emailCsv, slackJson);
      manifest == ManifestOf(sha, files) && entries == ArchiveEntries(sha, render, files)
  {
    manifest, entries := WriteArchive(sha, render, ContentFiles(pdf, methodology, verifyScript, emailCsv, slackJson));
  }

  /** Two entries at different positions of a sequence make its multiset count that value twice. */
  lemma CountTwice(r: seq<File>, i: nat, j: nat)
    requires i < j < |r| && r[i] == r[j]
    ensures multiset(r)[r[i]] >= 2
  {
    assert r == r[..i] + [r[i]] + r[i + 1..j] + [r[j]] + r[j + 1..];
  }

  /** With distinct names, no file occurs twice. */
  lemma {:induction false} DistinctCount(s: seq<File>, x: File)
    requires DistinctNames(s)
    ensures multiset(s)[x] <= 1
  {
    if s != [] {
      var init, last := s[..|s| - 1], s[|s| - 1];
      assert s == init + [last];
      assert DistinctNames(init) by {
        forall i, j | 0 <= i < j < |init| ensures init[i].0 != init[j].0 {
          assert init[i] == s[i] && init[j] == s[j];
        }
      }
      DistinctCount(init, x);
      forall k | 0 <= k < |init| ensures init[k] != last {
        assert init[k] == s[k];
      }
    }
  }

  /** Reordering files keeps their names distinct. */
  lemma PermutationDistinct(s: seq<File>, r: seq<File>)
    requires multiset(r) == multiset(s) && DistinctNames(s)
    ensures DistinctNames(r)
  {
    forall i, j | 0 <= i < j < |r| ensures r[i].0 != r[j].0 {
      DistinctCount(s, r[i]);
      if r[i] == r[j] {
        CountTwice(r, i, j);
      }
      assert r[i] in multiset(s) && r[j] in multiset(s);
      var ki :| 0 <= ki < |s| && s[ki] == r[i];
      var kj :| 0 <= kj < |s| && s[kj] == r[j];
      assert ki != kj;
    }
  }

  /**
   * The manifest lists exactly the given files, each with the digest of
   * its bytes, in sorted-name order, and never lists manifest.json when
   * no content file has that name.
   */
  lemma ManifestSpec(sha: Hasher, files: seq<File>)
    ensures var m := ManifestOf(sha, files);
      && (forall name, digest :: (name, digest) in m <==>
            exists k :: 0 <= k < |files| && files[k].0 == name && digest == sha(files[k].1))
      && (forall i, j :: 0 <= i < j < |m| ==> StrLe(m[i].0, m[j].0))
      && ((forall k :: 0 <= k < |files| ==> files[k].0 != ManifestName) ==>
            forall k :: 0 <= k < |m| ==> m[k].0 != ManifestName)
  {
    var s := SortedFiles(files);
    var m := ManifestOf(sha, files);
    forall name, digest
      ensures (name, digest) in m <==> exists k :: 0 <= k < |files| && files[k].0 == name && digest == sha(files[k].1)
    {
      if (name, digest) in m {
        var i :| 0 <= i < |m| && m[i] == (name, digest);
        assert s[i] in multiset(files);
        var k :| 0 <= k < |files| && files[k] == s[i];
      }
      if k :| 0 <= k < |files| && files[k].0 == name && digest == sha(files[k].1) {
        assert files[k] in multiset(s);
        var i :| 0 <= i < |s| && s[i] == files[k];
        assert m[i] == (name, digest);
      }
    }
    forall k | 0 <= k < |m| ensures exists j :: 0 <= j < |files| && files[j] == s[k] {
      assert s[k] in multiset(files);
    }
  }

  /** With distinct file names, the manifest never lists a name twice. */
  lemma ManifestDistinct(sha: Hasher, files: seq<File>)
    requires DistinctNames(files)
    ensures var m := ManifestOf(sha, files);
      forall i, j :: 0 <= i < j < |m| ==> m[i].0 != m[j].0
  {
    var s := SortedFiles(files);
    PermutationDistinct(files, s);
    var m := ManifestOf(sha, files);
    forall i, j | 0 <= i < j < |m| ensures m[i].0 != m[j].0 {
      assert m[i].0 == s[i].0 && m[j].0 == s[j].0;
    }
  }

  /** Every archive entry has its own name: the content files' and manifest.json. */
  lemma ArchiveDistinct(sha: Hasher, render: ProofPack.Renderer, files: seq<File>)
    requires DistinctNames(files)
    requires forall k :: 0 <= k < |files| ==> files[k].0 != ManifestName
    ensures DistinctNames(ArchiveEntries(sha, render, files))
  {
    var r := ArchiveEntries(sha, render, files);
    var s := r[..|files|];
    PermutationDistinct(files, s);
    forall k | 0 <= k < |files| ensures r[k].0 != ManifestName {
      assert r[k] == s[k] && s[k] in multiset(files);
    }
    forall i, j | 0 <= i < j < |r| ensures r[i].0 != r[j].0 {
      if j < |files| {
        assert r[i] == s[i] && r[j] == s[j];
      }
    }
  }

  // ---------------------------------------------------------------------
  // The embedded verifier

  /** What the script prints for one manifest entry. */
  datatype Status =
    | Match      // "OK"
    | NotFound   // "FILE NOT FOUND"
    | Mismatch   // "HASH MISMATCH"

  /** The check of one entry against the extracted files, keyed by path. */
  function StatusOf(sha: Hasher, dir: map<string, Bytes>, entry: (string, string)): Status {
    if entry.0 !in dir then NotFound
    else if sha(dir[entry.0]) == entry.1 then Match
    else Mismatch
  }

  predicate EntryLe(a: (string, string), b: (string, string)) {
    StrLe(a.0, b.0)
  }

  /** `sorted(manifest.items())`. */
  function SortedItems(manifest: ManifestDict): (r: ManifestDict)
    ensures multiset(r) == multiset(manifest)
    ensures Sorting.SortedBy(r, EntryLe)
  {
    StrLeIsTotalPreorder();
    Sorting.SortSorted(manifest, EntryLe);
    Sorting.Sort(manifest, EntryLe)
  }

  /** The line printed for each entry, in the order printed. */
  function DemoReport(sha: Hasher, dir: map<string, Bytes>, manifest: ManifestDict): seq<(string, Status)> {
    var items := SortedItems(manifest);
    seq(|items|, k requires 0 <= k < |items| => (items[k].0, StatusOf(sha, dir, items[k])))
  }

  /**
   * The exit code: 1 without manifest.json, otherwise 0 exactly when every
   * line says OK; so 0 exactly when manifest.json is present and every file
   * the manifest lists exists with the listed digest.
   */
  function DemoExit(sha: Hasher, dir: map<string, Bytes>, manifest: ManifestDict): (code: int)
    ensures code == 0 || code == 1
    ensures code == 0 <==>
      && ManifestName in dir
      && forall k :: 0 <= k < |manifest| ==> manifest[k].0 in dir && sha(dir[manifest[k].0]) == manifest[k].1
  {
    var report := DemoReport(sha, dir, manifest);
    DemoReportCovers(sha, dir, manifest);
    assert (forall i :: 0 <= i < |report| ==> report[i].1 == Match) <==>
           (forall k :: 0 <= k < |manifest| ==> manifest[k].0 in dir && sha(dir[manifest[k].0]) == manifest[k].1) by {
      if forall i :: 0 <= i < |report| ==> report[i].1 == Match {
        forall k | 0 <= k < |manifest| ensures manifest[k].0 in dir && sha(dir[manifest[k].0]) == manifest[k].1 {
          var i :| 0 <= i < |report| && report[i] == (manifest[k].0, StatusOf(sha, dir, manifest[k]));
        }
      }
      if forall k :: 0 <= k < |manifest| ==> manifest[k].0 in dir && sha(dir[manifest[k].0]) == manifest[k].1 {
        forall i | 0 <= i < |report| ensures report[i].1 == Match {
          assert report[i] in report;
        }
      }
    }
    if ManifestName !in dir then 1
    else if forall k :: 0 <= k < |report| ==> report[k].1 == Match then 0 else 1
  }

  /**
   * `main()` of the embedded script. `dir` is the extraction directory
   * and `manifest` what `json.load` reads from its manifest.json.
   */
  method RunDemoVerifier(sha: Hasher, dir: map<string, Bytes>, manifest: ManifestDict)
    returns (code: int, report: seq<(string, Status)>)
    ensures code == DemoExit(sha, dir, manifest)
    ensures report == if ManifestName in dir then DemoReport(sha, dir, manifest) else []
  {
    if ManifestName !in dir {
      return 1, [];
    }
    var items := SortedItems(manifest);
    var allValid := true;
    report := [];
    for i := 0 to |items|
      invariant |report| == i
      invariant forall k :: 0 <= k < i ==> report[k] == (items[k].0, StatusOf(sha, dir, items[k]))
      invariant allValid <==> forall k :: 0 <= k < i ==> report[k].1 == Match
    {
      var path := items[i].0;
      var status: Status;
      if path !in dir {
        status := NotFound;
      } else if sha(dir[path]) == items[i].1 {
        status := Match;
      } else {
        status := Mismatch;
      }
      if status != Match {
        allValid := false;
      }
      report := report + [(path, status)];
    }
    assert report == DemoReport(sha, dir, manifest);
    code := if allValid then 0 else 1;
  }

  /**
   * The report has one line per manifest entry, every entry gets its own
   * line with its status, and the lines come in sorted path order.
   */
  lemma DemoReportCovers(sha: Hasher, dir: map<string, Bytes>, manifest: ManifestDict)
    ensures var report := DemoReport(sha, dir, manifest);
      && |report| == |manifest|
      && (forall k :: 0 <= k < |manifest| ==> (manifest[k].0, StatusOf(sha, dir, manifest[k])) in report)
      && (forall line :: line in report ==>
            exists k :: 0 <= k < |manifest| && line == (manifest[k].0, StatusOf(sha, dir, manifest[k])))
      && (forall i, j :: 0 <= i < j < |report| ==> StrLe(report[i].0, report[j].0))
  {
    var items := SortedItems(manifest);
    var report := DemoReport(sha, dir, manifest);
    forall k | 0 <= k < |manifest| ensures (manifest[k].0, StatusOf(sha, dir, manifest[k])) in report {
      assert manifest[k] in multiset(items);
      var i :| 0 <= i < |items| && items[i] == manifest[k];
      assert report[i] == (manifest[k].0, StatusOf(sha, dir, manifest[k]));
    }
    forall line | line in report
      ensures exists k :: 0 <= k < |manifest| && line == (manifest[k].0, StatusOf(sha, dir, manifest[k]))
    {
      var i :| 0 <= i < |report| && report[i] == line;
      assert items[i] in multiset(manifest);
      var k :| 0 <= k < |manifest| && manifest[k] == items[i];
    }
  }

  /** The directory an archive extracts into. */
  function Extract(entries: seq<File>): map<string, Bytes> {
    EntriesMap(entries)
  }

  /**
   * Extracting an archive and running its script gives exit code 0, with
   * every line OK, when the content files have distinct names other than
   * manifest.json (reading manifest.json back gives the manifest that was
   * written).
   */
  lemma ArchiveVerifies(sha: Hasher, render: ProofPack.Renderer, files: seq<File>)
    requires DistinctNames(files)
    requires forall k :: 0 <= k < |files| ==> files[k].0 != ManifestName
    ensures var dir := Extract(ArchiveEntries(sha, render, files));
      var manifest := ManifestOf(sha, files);
      && DemoExit(sha, dir, manifest) == 0
      && forall line :: line in DemoReport(sha, dir, manifest) ==> line.1 == Match
  {
    var entries := ArchiveEntries(sha, render, files);
    var dir := Extract(entries);
    var manifest := ManifestOf(sha, files);
    ArchiveHoldsListedFiles(sha, render, files);
    DemoReportCovers(sha, dir, manifest);
  }

  /** The extracted archive holds manifest.json and every listed file, with the listed digest. */
  lemma ArchiveHoldsListedFiles(sha: Hasher, render: ProofPack.Renderer, files: seq<File>)
    requires DistinctNames(files)
    requires forall k :: 0 <= k < |files| ==> files[k].0 != ManifestName
    ensures var dir := Extract(ArchiveEntries(sha, render, files));
      var manifest := ManifestOf(sha, files);
      && ManifestName in dir
      && forall k :: 0 <= k < |manifest| ==> manifest[k].0 in dir && sha(dir[manifest[k].0]) == manifest[k].1
  {
    var entries := ArchiveEntries(sha, render, files);
    var dir := Extract(entries);
    var manifest := ManifestOf(sha, files);
    ArchiveDistinct(sha, render, files);
    EntriesMapLookup(entries);
    assert entries[|files|].0 == ManifestName;
    var s := SortedFiles(files);
    assert entries[..|files|] == s;
    forall k | 0 <= k < |manifest| ensures manifest[k].0 in dir && sha(dir[manifest[k].0]) == manifest[k].1 {
      assert manifest[k] == (s[k].0, sha(s[k].1));
      assert entries[k] == s[k];
    }
  }

  /**
   * Replacing one content file of the extracted archive by different
   * bytes (whose digest does not collide with the original's) makes the
   * script report a mismatch for that file and exit with 1.
   */
  lemma ArchiveTamperDetected(sha: Hasher, render: ProofPack.Renderer, files: seq<File>, j: nat, forged: Bytes)
    requires j < |files| && forged != files[j].1 && NoCollision(sha, files[j].1, forged)
    ensures var dir := Extract(ArchiveEntries(sha, render, files))[files[j].0 := forged];
      var manifest := ManifestOf(sha, files);
      && (files[j].0, Mismatch) in DemoReport(sha, dir, manifest)
      && DemoExit(sha, dir, manifest) == 1
  {
    var dir := Extract(ArchiveEntries(sha, render, files))[files[j].0 := forged];
    var manifest := ManifestOf(sha, files);
    ManifestSpec(sha, files);
    assert (files[j].0, sha(files[j].1)) in manifest;
    var k :| 0 <= k < |manifest| && manifest[k] == (files[j].0, sha(files[j].1));
    assert StatusOf(sha, dir, manifest[k]) == Mismatch;
    DemoReportCovers(sha, dir, manifest);
  }

  /** The demo archive passes its own script. */
  lemma DemoPackVerifies(sha: Hasher, render: ProofPack.Renderer, pdf: Bytes, methodology: Bytes, verifyScript: Bytes,
                         emailCsv: Bytes, slackJson: Bytes)
    ensures var files := ContentFiles(pdf, methodology, verifyScript, emailCsv, slackJson);
      DemoExit(sha, Extract(ArchiveEntries(sha, render, files)), ManifestOf(sha, files)) == 0
  {
    ArchiveVerifies(sha, render, ContentFiles(pdf, methodology, verifyScript, emailCsv, slackJson));
  }

  /** Forging any one of the demo archive's five files is reported and fails the script. */
  lemma DemoTamperDetected(sha: Hasher, render: ProofPack.Renderer, pdf: Bytes, methodology: Bytes,
                           verifyScript: Bytes, emailCsv: Bytes, slackJson: Bytes, j: nat, forged: Bytes)
    requires j < 5
    requires var files := ContentFiles(pdf, methodology, verifyScript, emailCsv, slackJson);
      forged != files[j].1 && NoCollision(sha, files[j].1, forged)
    ensures var files := ContentFiles(pdf, methodology, verifyScript, emailCsv, slackJson);
      var dir := Extract(ArchiveEntries(sha, render, files))[files[j].0 := forged];
      DemoExit(sha, dir, ManifestOf(sha, files)) == 1
  {
    ArchiveTamperDetected(sha, render, ContentFiles(pdf, methodology, verifyScript, emailCsv, slackJson), j, forged);
  }

  /** A file the manifest lists but the directory lacks is reported missing, and the script exits with 1. */
  lemma DemoMissingFile(sha: Hasher, dir: map<string, Bytes>, manifest: ManifestDict, k: nat)
    requires k < |manifest| && manifest[k].0 !in dir
    ensures (manifest[k].0, NotFound) in DemoReport(sha, dir, manifest)
    ensures DemoExit(sha, dir, manifest) == 1
  {
    DemoReportCovers(sha, dir, manifest);
  }
}
