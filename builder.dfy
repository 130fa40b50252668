/**
 * The proof-pack builder (src/proofpack/builder.py): a source's captures
 * in ascending time order become timeline.json; methodology.md and the
 * verifier script are added; manifest.json lists the three files with
 * their SHA-256 digests and is written last, after a guard on its size
 * and contents.
 */
module ProofPack {
  import opened Common
  import opened Store
  import opened Json

  /** One element of timeline.json's `items`. */
  datatype PackItem = PackItem(
    id: string,
    prevCaptureId: Option<string>,
    capturedAt: string,
    canonicalUrl: string,
    rawSha: string,
    normSha: string,
    chainSha: string)

  function ToPackItem(c: Capture, canonicalUrl: string): PackItem {
    PackItem(c.id, c.prevCaptureId, c.capturedAt.iso, canonicalUrl, c.rawSha, c.normSha, c.chainSha)
  }

  function ToPackItems(caps: seq<Capture>, canonicalUrl: string): (r: seq<PackItem>)
    ensures |r| == |caps|
    ensures forall i :: 0 <= i < |caps| ==> r[i] == ToPackItem(caps[i], canonicalUrl)
  {
    if caps == [] then [] else [ToPackItem(caps[0], canonicalUrl)] + ToPackItems(caps[1..], canonicalUrl)
  }

  function OptStr(o: Option<string>): PyValue {
    if o.Some? then PStr(o.value) else PNull
  }

  /** The item as the dict the builder writes. */
  function ItemValue(it: PackItem): PyValue {
    PDict([("id", PStr(it.id)), ("prev_capture_id", OptStr(it.prevCaptureId)), ("captured_at", PStr(it.capturedAt)),
           ("canonical_url", PStr(it.canonicalUrl)), ("raw_bytes_sha256", PStr(it.rawSha)),
           ("normalized_text_sha256", PStr(it.normSha)), ("chain_sha256", PStr(it.chainSha))])
  }

  function ItemValues(items: seq<PackItem>): (r: seq<PyValue>)
    ensures |r| == |items|
    ensures forall i :: 0 <= i < |items| ==> r[i] == ItemValue(items[i])
  {
    if items == [] then [] else [ItemValue(items[0])] + ItemValues(items[1..])
  }

  function TimelineValue(sourceId: string, items: seq<PackItem>): PyValue {
    PDict([("source_id", PStr(sourceId)), ("items", PList(ItemValues(items)))])
  }

  /** One element of the manifest's `files` list. */
  datatype FileEntry = FileEntry(path: string, sha256: HexDigest)

  datatype Manifest = Manifest(
    sourceId: string,
    generatedAt: string,
    hashAlgo: string,
    captureCount: nat,
    files: seq<FileEntry>)

  function FileEntryValue(e: FileEntry): PyValue {
    PDict([("path", PStr(e.path)), ("sha256", PStr(e.sha256))])
  }

  function FileEntryValues(es: seq<FileEntry>): (r: seq<PyValue>)
    ensures |r| == |es|
    ensures forall i :: 0 <= i < |es| ==> r[i] == FileEntryValue(es[i])
  {
    if es == [] then [] else [FileEntryValue(es[0])] + FileEntryValues(es[1..])
  }

  /** `manifest_data` as a dict, keys in insertion order. */
  function ManifestData(m: Manifest): seq<(string, PyValue)> {
    [("source_id", PStr(m.sourceId)), ("generated_at", PStr(m.generatedAt)), ("hash_algo", PStr(m.hashAlgo)),
     ("capture_count", PInt(m.captureCount)), ("files", PList(FileEntryValues(m.files)))]
  }

  // ---------------------------------------------------------------------
  // The manifest guard

  /** Why `_assert_manifest_data_small` raised. */
  datatype GuardError =
    | NotSerializable                         // json.dumps raised TypeError
    | TooLarge                                // the JSON text has 10000 characters or more
    | BytesAt(key: string, inner: Option<string>)

  /** The first bytes value among the values of a list item's dict, from entry `l`. */
  function BytesInDict(key: string, entries: seq<(string, PyValue)>, l: nat): Option<GuardError>
    requires l <= |entries|
    decreases |entries| - l
  {
    if l == |entries| then None
    else if entries[l].1.PBytes? then Some(BytesAt(key, Some(entries[l].0)))
    else BytesInDict(key, entries, l + 1)
  }

  /** The first bytes value inside the dicts of a list, from element `j`. */
  function BytesInList(key: string, items: seq<PyValue>, j: nat): Option<GuardError>
    requires j <= |items|
    decreases |items| - j
  {
    if j == |items| then None
    else if items[j].PDict? && BytesInDict(key, items[j].entries, 0).Some? then BytesInDict(key, items[j].entries, 0)
    else BytesInList(key, items, j + 1)
  }

  /** The first top-level bytes value, or bytes inside a dict inside a list value, from entry `i`. */
  function BytesFrom(data: seq<(string, PyValue)>, i: nat): Option<GuardError>
    requires i <= |data|
    decreases |data| - i
  {
    if i == |data| then None
    else if data[i].1.PBytes? then Some(BytesAt(data[i].0, None))
    else if data[i].1.PList? && BytesInList(data[i].0, data[i].1.items, 0).Some? then BytesInList(data[i].0, data[i].1.items, 0)
    else BytesFrom(data, i + 1)
  }

  /**
   * What the guard raises, if anything. Its bytes checks never fire: a
   * bytes value anywhere already makes `json.dumps` raise, so the guard
   * fails with TypeError first.
   */
  function GuardResult(data: seq<(string, PyValue)>): (r: Option<GuardError>)
    ensures r.None? || r == Some(NotSerializable) || r == Some(TooLarge)
    ensures r == Some(NotSerializable) <==> exists k :: 0 <= k < |data| && ContainsBytes(data[k].1)
  {
    DumpsFailsIffBytes(PDict(data), None);
    BytesFromMeansBytes(data, 0);
    match Dumps(PDict(data), None)
    case None => Some(NotSerializable)
    case Some(text) =>
      if |text| >= 10000 then Some(TooLarge) else BytesFrom(data, 0)
  }

  /** `_assert_manifest_data_small`, loop by loop. */
  method AssertManifestDataSmall(data: seq<(string, PyValue)>) returns (r: Option<GuardError>)
    ensures r == GuardResult(data)
  {
    var text := Dumps(PDict(data), None);
    if text.None? {
      return Some(NotSerializable);
    }
    if |text.value| >= 10000 {
      return Some(TooLarge);
    }
    var i := 0;
    while i < |data|
      invariant 0 <= i <= |data|
      invariant BytesFrom(data, 0) == BytesFrom(data, i)
    {
      var (key, value) := data[i];
      if value.PBytes? {
        return Some(BytesAt(key, None));
      }
      if value.PList? {
        var j := 0;
        while j < |value.items|
          invariant 0 <= j <= |value.items|
          invariant BytesInList(key, value.items, 0) == BytesInList(key, value.items, j)
        {
          var item := value.items[j];
          if item.PDict? {
            var l := 0;
            while l < |item.entries|
              invariant 0 <= l <= |item.entries|
              invariant BytesInDict(key, item.entries, 0) == BytesInDict(key, item.entries, l)
            {
              if item.entries[l].1.PBytes? {
                return Some(BytesAt(key, Some(item.entries[l].0)));
              }
              l := l + 1;
            }
          }
          j := j + 1;
        }
      }
      i := i + 1;
    }
    return None;
  }

  lemma {:induction false} BytesInDictMeansBytes(key: string, entries: seq<(string, PyValue)>, l: nat)
    requires l <= |entries|
    requires BytesInDict(key, entries, l).Some?
    ensures exists k :: l <= k < |entries| && ContainsBytes(entries[k].1)
    decreases |entries| - l
  {
    if !entries[l].1.PBytes? {
      BytesInDictMeansBytes(key, entries, l + 1);
    }
  }

  lemma {:induction false} BytesInListMeansBytes(key: string, items: seq<PyValue>, j: nat)
    requires j <= |items|
    requires BytesInList(key, items, j).Some?
    ensures exists k :: j <= k < |items| && ContainsBytes(items[k])
    decreases |items| - j
  {
    if items[j].PDict? && BytesInDict(key, items[j].entries, 0).Some? {
      BytesInDictMeansBytes(key, items[j].entries, 0);
    } else {
      BytesInListMeansBytes(key, items, j + 1);
    }
  }

  lemma {:induction false} BytesFromMeansBytes(data: seq<(string, PyValue)>, i: nat)
    requires i <= |data|
    ensures BytesFrom(data, i).Some? ==> exists k :: i <= k < |data| && ContainsBytes(data[k].1)
    decreases |data| - i
  {
    if i < |data| && !data[i].1.PBytes? {
      if data[i].1.PList? && BytesInList(data[i].0, data[i].1.items, 0).Some? {
        BytesInListMeansBytes(data[i].0, data[i].1.items, 0);
      } else {
        BytesFromMeansBytes(data, i + 1);
      }
    }
  }

  // ---------------------------------------------------------------------
  // Building the pack

  /** The two clock readings: `now.isoformat()` and `now.strftime("%Y%m%dT%H%M%SZ")`. */
  datatype Clock = Clock(iso: string, compact: string)

  /** The archive: file name, entries in the order written, and what went into them. */
  datatype Pack = Pack(filename: string, entries: seq<(string, Bytes)>, manifest: Manifest, items: seq<PackItem>)

  datatype BuildError = SourceNotFound | NegativeLimit | GuardFailed(error: GuardError)

  lemma ManifestHasNoBytes(m: Manifest)
    ensures !ContainsBytes(PDict(ManifestData(m)))
  {
    var vs := FileEntryValues(m.files);
    assert forall j :: 0 <= j < |vs| ==> !ContainsBytes(vs[j]);
    assert !ContainsBytes(PList(vs));
  }

  /**
   * The bytes written for a JSON document:
   * `json.dumps(value, sort_keys=True, indent=2).encode("utf-8")`.
   */
  type Renderer = PyValue -> Bytes

  /** The compact JSON text of a manifest, which the guard measures; a manifest never holds bytes. */
  function ManifestText(m: Manifest): string {
    ManifestHasNoBytes(m);
    DumpsFailsIffBytes(PDict(ManifestData(m)), None);
    Dumps(PDict(ManifestData(m)), None).value
  }

  /** On a manifest the guard checks the size of the text and nothing else. */
  lemma ManifestGuardIsSize(m: Manifest)
    ensures GuardResult(ManifestData(m)) == if |ManifestText(m)| >= 10000 then Some(TooLarge) else None
  {
    ManifestHasNoBytes(m);
    DumpsFailsIffBytes(PDict(ManifestData(m)), None);
    BytesFromMeansBytes(ManifestData(m), 0);
  }

  /** The guard, as it applies to a manifest: it fails exactly when the text reaches 10000 characters. */
  function ManifestGuard(m: Manifest): (r: Option<GuardError>)
    ensures r == GuardResult(ManifestData(m))
    ensures r.None? || r == Some(TooLarge)
    ensures r == Some(TooLarge) <==> |ManifestText(m)| >= 10000
  {
    ManifestGuardIsSize(m);
    GuardResult(ManifestData(m))
  }

  lemma FileEntrySize(e: FileEntry)
    requires |e.path| <= 14
    ensures Size(FileEntryValue(e)) <= 1074
  {
    var v := FileEntryValue(e);
    var rest := v.entries[1..];
    assert rest == [("sha256", PStr(e.sha256))];
    assert |e.sha256| == 64;
    assert EntriesSize(v, rest) == 848 + EntriesSize(v, rest[1..]);
    assert EntriesSize(v, v.entries) == 56 + 12 * |e.path| + EntriesSize(v, rest);
    assert Size(v) == 2 + EntriesSize(v, v.entries);
  }

  lemma FilesSize(fs: seq<FileEntry>)
    requires |fs| == 3 && forall k :: 0 <= k < 3 ==> |fs[k].path| <= 14
    ensures Size(PList(FileEntryValues(fs))) <= 3230
  {
    var vs := FileEntryValues(fs);
    var v := PList(vs);
    FileEntrySize(fs[0]);
    FileEntrySize(fs[1]);
    FileEntrySize(fs[2]);
    assert vs[2..][1..] == [];
    assert ItemsSize(v, vs[2..]) == Size(vs[2]) + 2;
    assert vs[1..][1..] == vs[2..];
    assert ItemsSize(v, vs[1..]) == Size(vs[1]) + 2 + ItemsSize(v, vs[2..]);
    assert vs[1..] == vs[0..][1..];
    assert ItemsSize(v, vs) == Size(vs[0]) + 2 + ItemsSize(v, vs[1..]);
    assert Size(v) == 2 + ItemsSize(v, vs);
  }

  /** The manifest's text is at most 3916 characters, plus twelve per character of the source id and timestamp, plus the count's digits. */
  lemma ManifestTextBound(m: Manifest)
    requires m.hashAlgo == "sha256"
    requires |m.files| == 3 && forall k :: 0 <= k < 3 ==> |m.files[k].path| <= 14
    ensures |ManifestText(m)| <= 3916 + 12 * (|m.sourceId| + |m.generatedAt|) + |IntRepr(m.captureCount)|
  {
    var data := ManifestData(m);
    var v := PDict(data);
    FilesSize(m.files);
    var e4 := data[4..];
    assert EntriesSize(v, e4) == 2 + 60 + 2 + Size(data[4].1) + 2 + EntriesSize(v, e4[1..]);
    var e3 := data[3..];
    assert e3[1..] == e4;
    assert EntriesSize(v, e3) == 2 + 156 + 2 + |IntRepr(m.captureCount)| + 2 + EntriesSize(v, e4);
    var e2 := data[2..];
    assert e2[1..] == e3;
    assert EntriesSize(v, e2) == 188 + EntriesSize(v, e3);
    var e1 := data[1..];
    assert e1[1..] == e2;
    assert EntriesSize(v, e1) == 152 + 12 * |m.generatedAt| + EntriesSize(v, e2);
    assert data[1..] == e1;
    assert EntriesSize(v, data) == 116 + 12 * |m.sourceId| + EntriesSize(v, e1);
    ManifestHasNoBytes(m);
    DumpsFailsIffBytes(v, None);
    EncodeSize(v, 0);
  }

  /** The three files the manifest lists, with their digests; never manifest.json itself. */
  function ManifestFiles(sha: Hasher, timelineBytes: Bytes, methodologyBytes: Bytes, verifyScript: Bytes)
    : (r: seq<FileEntry>)
    ensures |r| == 3
    ensures r[0] == FileEntry("timeline.json", sha(timelineBytes))
    ensures r[1] == FileEntry("methodology.md", sha(methodologyBytes))
    ensures r[2] == FileEntry("verify.py", sha(verifyScript))
    ensures forall k :: 0 <= k < 3 ==> r[k].path != "manifest.json"
  {
    [FileEntry("timeline.json", sha(timelineBytes)), FileEntry("methodology.md", sha(methodologyBytes)),
     FileEntry("verify.py", sha(verifyScript))]
  }

  /** The capture items of the pack: the first `limit` captures in ascending time order. */
  function PackItems(captures: seq<Capture>, sourceId: string, limit: nat, canonicalUrl: string): (r: seq<PackItem>)
    ensures var asc := Ascending(captures, sourceId);
      && |r| == (if limit < |asc| then limit else |asc|)
      && forall k :: 0 <= k < |r| ==> r[k] == ToPackItem(asc[k], canonicalUrl)
  {
    ToPackItems(Take(Ascending(captures, sourceId), limit), canonicalUrl)
  }

  /** timeline.json, methodology.md and verify.py, in the order they are written. */
  function WrittenFiles(timelineBytes: Bytes, methodologyBytes: Bytes, verifyScript: Bytes): seq<(string, Bytes)> {
    [("timeline.json", timelineBytes), ("methodology.md", methodologyBytes), ("verify.py", verifyScript)]
  }

  /** The manifest of a pack of `items`: the three written files with the digests of their bytes. */
  function PackManifest(sha: Hasher, render: Renderer, sourceId: string, items: seq<PackItem>, clock: Clock,
                        methodology: Bytes, verifyScript: Bytes): Manifest {
    Manifest(sourceId, clock.iso, "sha256", |items|,
             ManifestFiles(sha, render(TimelineValue(sourceId, items)), methodology, verifyScript))
  }

  /**
   * Everything after the items are chosen: timeline.json, methodology.md
   * and verify.py are written in that order, each is listed in the
   * manifest with the digest of the bytes written, the manifest passes the
   * guard or the build fails, and manifest.json is written last.
   */
  function Assemble(sha: Hasher, render: Renderer, sourceId: string, items: seq<PackItem>, clock: Clock,
                    methodology: Bytes, verifyScript: Bytes)
    : (r: Result<Pack, BuildError>)
    ensures r.Err? ==> r == Err(GuardFailed(TooLarge))
    ensures r.Err? <==> |ManifestText(PackManifest(sha, render, sourceId, items, clock, methodology, verifyScript))| >= 10000
    ensures r.Ok? ==>
      var p := r.value;
      && p.filename == "proofpack_" + sourceId + "_" + clock.compact + ".zip"
      && p.items == items
      && |p.entries| == 4 && |p.manifest.files| == 3
      && (forall k :: 0 <= k < 3 ==> p.manifest.files[k].path == p.entries[k].0 &&
                                     p.manifest.files[k].sha256 == sha(p.entries[k].1) &&
                                     p.manifest.files[k].path != "manifest.json")
      && p.entries[0] == ("timeline.json", render(TimelineValue(sourceId, items)))
      && p.entries[1] == ("methodology.md", methodology)
      && p.entries[2] == ("verify.py", verifyScript)
      && p.entries[3] == ("manifest.json", render(PDict(ManifestData(p.manifest))))
      && p.manifest.sourceId == sourceId && p.manifest.generatedAt == clock.iso
      && p.manifest.hashAlgo == "sha256" && p.manifest.captureCount == |items|
  {
    var timelineBytes := render(TimelineValue(sourceId, items));
    var methodologyBytes := methodology;
    var manifest := PackManifest(sha, render, sourceId, items, clock, methodology, verifyScript);
    match ManifestGuard(manifest)
    case Some(e) => Err(GuardFailed(e))
    case None =>
      Ok(Pack("proofpack_" + sourceId + "_" + clock.compact + ".zip",
              WrittenFiles(timelineBytes, methodologyBytes, verifyScript)
                + [("manifest.json", render(PDict(ManifestData(manifest))))],
              manifest, items))
  }

  /**
   * `build_proof_pack`: an unknown source and a negative limit are
   * refused; otherwise the pack holds the source's first `limit` captures
   * in ascending time order. `methodology` and `verifyScript` are the
   * bytes of the builder's two constant files, methodology.md and the
   * embedded verifier script.
   */
  function BuildPack(sha: Hasher, render: Renderer, sources: seq<Source>, captures: seq<Capture>, sourceId: string, limit: int,
                     clock: Clock, methodology: Bytes, verifyScript: Bytes): (r: Result<Pack, BuildError>)
    ensures r == Err(SourceNotFound) <==> FindSource(sources, sourceId).None?
    ensures r == Err(BuildError.NegativeLimit) <==> FindSource(sources, sourceId).Some? && limit < 0
    ensures r.Err? && r.error.GuardFailed? ==> r.error == GuardFailed(TooLarge)
    ensures FindSource(sources, sourceId).Some? && limit >= 0 ==>
              var items := PackItems(captures, sourceId, limit, FindSource(sources, sourceId).value.canonicalUrl);
              (r.Err? <==> |ManifestText(PackManifest(sha, render, sourceId, items, clock, methodology, verifyScript))| >= 10000)
    ensures r.Ok? ==>
      var asc := Ascending(captures, sourceId);
      var items := r.value.items;
      && |items| == (if limit < |asc| then limit else |asc|)
      && forall k :: 0 <= k < |items| ==> items[k] == ToPackItem(asc[k], FindSource(sources, sourceId).value.canonicalUrl)
  {
    match FindSource(sources, sourceId)
    case None => Err(SourceNotFound)
    case Some(source) =>
      if limit < 0 then Err(BuildError.NegativeLimit)
      else Assemble(sha, render, sourceId, PackItems(captures, sourceId, limit, source.canonicalUrl), clock, methodology, verifyScript)
  }

  /** A pack is assembled whenever the source id and the timestamp are not absurdly long. */
  lemma AssembleSucceeds(sha: Hasher, render: Renderer, sourceId: string, items: seq<PackItem>, clock: Clock,
                         methodology: Bytes, verifyScript: Bytes)
    requires 12 * (|sourceId| + |clock.iso|) + |IntRepr(|items|)| < 6084
    ensures Assemble(sha, render, sourceId, items, clock, methodology, verifyScript).Ok?
  {
    ManifestTextBound(PackManifest(sha, render, sourceId, items, clock, methodology, verifyScript));
  }

  /**
   * A known source, a limit below a million, and a source id and
   * timestamp of at most 250 characters each (a UUID has 36, an ISO
   * timestamp at most 32) always give a pack.
   */
  lemma BuildPackSucceeds(sha: Hasher, render: Renderer, sources: seq<Source>, captures: seq<Capture>, sourceId: string,
                          limit: int, clock: Clock, methodology: Bytes, verifyScript: Bytes)
    requires FindSource(sources, sourceId).Some?
    requires 0 <= limit < 1000000
    requires |sourceId| <= 250 && |clock.iso| <= 250
    ensures BuildPack(sha, render, sources, captures, sourceId, limit, clock, methodology, verifyScript).Ok?
  {
    var items := PackItems(captures, sourceId, limit, FindSource(sources, sourceId).value.canonicalUrl);
    assert Pow10(6) == 1000000;
    NatDigitsLength(|items|, 6);
    AssembleSucceeds(sha, render, sourceId, items, clock, methodology, verifyScript);
  }

  /**
   * The first three `writestr` calls, each followed by appending the
   * file's entry to `files_data`.
   */
  method WriteFiles(sha: Hasher, timelineBytes: Bytes, methodologyBytes: Bytes, verifyScript: Bytes)
    returns (entries: seq<(string, Bytes)>, filesData: seq<FileEntry>)
    ensures entries == WrittenFiles(timelineBytes, methodologyBytes, verifyScript)
    ensures filesData == ManifestFiles(sha, timelineBytes, methodologyBytes, verifyScript)
  {
    entries, filesData := [], [];
    entries := entries + [("timeline.json", timelineBytes)];
    filesData := filesData + [FileEntry("timeline.json", sha(timelineBytes))];
    entries := entries + [("methodology.md", methodologyBytes)];
    filesData := filesData + [FileEntry("methodology.md", sha(methodologyBytes))];
    entries := entries + [("verify.py", verifyScript)];
    filesData := filesData + [FileEntry("verify.py", sha(verifyScript))];
  }

  /** Everything after the items, statement by statement. */
  method AssemblePack(sha: Hasher, render: Renderer, sourceId: string, items: seq<PackItem>, clock: Clock,
                      methodology: Bytes, verifyScript: Bytes)
    returns (r: Result<Pack, BuildError>)
    ensures r == Assemble(sha, render, sourceId, items, clock, methodology, verifyScript)
  {
    var filename := "proofpack_" + sourceId + "_" + clock.compact + ".zip";
    var timelineBytes := render(TimelineValue(sourceId, items));
    var methodologyBytes := methodology;
    var entries, filesData := WriteFiles(sha, timelineBytes, methodologyBytes, verifyScript);
    var manifest := Manifest(sourceId, clock.iso, "sha256", |items|, filesData);
    var guard := AssertManifestDataSmall(ManifestData(manifest));
    if guard.Some? {
      return Err(GuardFailed(guard.value));
    }
    entries := entries + [("manifest.json", render(PDict(ManifestData(manifest))))];
    r := Ok(Pack(filename, entries, manifest, items));
  }

  /** `build_proof_pack`, statement by statement. */
  method BuildProofPack(db: Database, sha: Hasher, render: Renderer, sourceId: string, limit: int, clock: Clock,
                        methodology: Bytes, verifyScript: Bytes)
    returns (r: Result<Pack, BuildError>)
    ensures r == BuildPack(sha, render, db.sources, db.captures, sourceId, limit, clock, methodology, verifyScript)
  {
    var found := FindSource(db.sources, sourceId);
    if found.None? {
      return Err(SourceNotFound);
    }
    var canonicalUrl := found.value.canonicalUrl;
    if limit < 0 {
      return Err(BuildError.NegativeLimit);
    }
    var caps := Take(Ascending(db.captures, sourceId), limit);
    var items: seq<PackItem> := [];
    var i := 0;
    while i < |caps|
      invariant 0 <= i <= |caps|
      invariant items == ToPackItems(caps[..i], canonicalUrl)
    {
      items := items + [ToPackItem(caps[i], canonicalUrl)];
      i := i + 1;
    }
    assert caps[..|caps|] == caps;
    r := AssemblePack(sha, render, sourceId, items, clock, methodology, verifyScript);
  }
}
