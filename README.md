# SourceRecord: the capture hash chain and the proof packs, in Dafny

SourceRecord records web pages as evidence. Each registered source (a
URL kept in canonical form) is fetched on demand. Every fetch becomes a
capture row that carries three digests:

- the SHA-256 digest of the raw body;
- the SHA-256 digest of the normalised text;
- a chain digest that binds the capture to the source's previous capture.

A proof pack is a ZIP archive holding three files:

- `timeline.json`, the source's captures in ascending time order;
- `methodology.md`;
- `verify.py`, a script that re-checks the pack.

A `manifest.json` next to them lists the three files with their digests.
`verify.py` re-checks every listed digest and then replays the hash
chain. The repository also holds a self-contained demo generator. It
labels emails and Slack messages with review categories, summarises
them, counts them, and writes a response pack. That pack has a flat
manifest and its own verification script.

The model covers the following, one module each (plus shared helpers):

- URL canonicalisation (`Normalize`).
- The fetcher's text normalisation and digests (`Fetcher`).
- The chain digest (`Chain`).
- The store and its queries (`Store`).
- Source registration (`Sources`).
- Capture creation (`Captures`).
- The timeline endpoint (`Timelines`).
- The proof-pack builder with its manifest guard (`ProofPack`). The
  guard uses a model of `json.dumps` (`Json`).
- The embedded verifier (`PackVerifier`).
- The end-to-end pack theorems (`PackTheorem`).
- The demo generator (`IrpRules`, `IrpSummary`, `IrpCounts`,
  `IrpPack`).

Shared helpers: `Common`, `PyStr`, `Sorting` and `Utf8`.

SHA-256 is a parameter `sha: Hasher`: a function from bytes to 64
lower-case hex digits. Every property holds for any such function. The
tamper-evidence lemmas use collision resistance only for the one pair of
inputs they name, through `NoCollision`. Clock readings, new ids and the
page text extractor are parameters too. So is `render`, which stands for
`json.dumps(..., indent=2, sort_keys=True).encode('utf-8')` when a
document is written out.

Some facts about the code that are easy to assume otherwise, and that
the model keeps as the code has them:

- `canonicalize_url` strips one trailing slash per call
  (app/services/normalize.py:13-14), so it is not idempotent on paths
  ending in `//`. See `Normalize.CanonicalizeIdempotentIff`.
- The builder writes its files in the order of its `writestr` calls:
  timeline.json, methodology.md, verify.py, manifest.json
  (src/proofpack/builder.py:103-258). The order is not sorted.
- The builder passes plain names to `writestr`, so the ZIP entries carry
  the current time rather than a fixed timestamp.
- `create_capture` looks the source up by id and organisation only
  (app/routers/captures.py:45-46). It does not look at `is_active`.
- The builder's `verify.py` stops at the first failure. The demo's
  script checks every entry before deciding.

`get_time_window` takes the first word of a timestamp that contains a
space. A timestamp made of whitespace alone has no first word, and
Python raises `IndexError`. The model returns `None` there
(`IrpSummary.GetTimeWindow` states exactly when).

## Model

| member | source | states |
|---|---|---|
| Normalize.Canonicalize | app/services/normalize.py:3-16 | lower-cased scheme and host, query kept, fragment dropped, empty path becomes "/", exactly one trailing slash removed from any other path ending in "/", otherwise the path unchanged |
| Normalize.CanonicalizeIdempotentIff | app/services/normalize.py:12-14 | canonicalising twice equals canonicalising once if and only if the path does not end in "//" after a first character |
| Normalize.CanonicalizeNotIdempotent | app/services/normalize.py:13-14 | the path "/a//" canonicalises to "/a/" and then to "/a" |
| Normalize.VariantsAgree | app/services/normalize.py:5-16 | URLs differing only in scheme/host letter case, fragment, or one trailing slash get the same canonical form |
| Normalize.UnsplitPrefix | app/services/normalize.py:16 | the URL starts with "scheme:" when there is a scheme, and with "scheme://host/" when there is also a host and a path |
| Normalize.UnsplitSuffix | app/services/normalize.py:16 | the URL ends with "#fragment" when there is a fragment, else with "?query" when there is a query, else with the path |
| Normalize.CanonicalUrlShape | app/services/normalize.py:3-16 | a canonical URL with a scheme and a host starts with the lower-cased "scheme://host/"; it ends with "?query" when there is a query and with the canonical path otherwise, so no fragment survives |
| Fetcher.CollapseWhitespace | app/services/fetcher.py:13-14 | the result holds exactly the words of `str.split()` on the input, in order, one space apart, with no leading, trailing or doubled whitespace |
| Fetcher.CollapseFixesCollapsed | app/services/fetcher.py:13-14 | already-collapsed text is returned unchanged |
| Fetcher.CollapseIdempotent | app/services/fetcher.py:8-14 | normalising the text a second time changes nothing |
| Fetcher.FetchUrl | app/services/fetcher.py:16-33 | status, headers and body passed through; the three named headers looked up; raw digest is sha of the body; normalised digest and length are of the UTF-8 encoding of the extracted, collapsed text |
| Utf8.DecodeEncode | app/services/fetcher.py:20-30 | decoding the UTF-8 encoding of any string gives the string back |
| Utf8.EncodeInjective | app/routers/captures.py:39 | different strings have different UTF-8 encodings |
| Chain.ChainInputLayout | app/routers/captures.py:29-38 | `ChainInput` is the six fields separated by "\|", absent links written as empty, so a first capture's input starts with "\|\|" |
| Chain.JoinInjective | app/routers/captures.py:29-38 | "\|"-joined field lists of the same length are equal only if the lists are, when no field but the last contains "\|" |
| Chain.ChainInputInjective | app/routers/captures.py:29-38 | the six-field chain input determines all six fields |
| Chain.ChainDigestBinds | app/routers/captures.py:21-39 | `ComputeChainSha256` binds its inputs: equal chain digests (without a collision on the two inputs) mean equal link, previous chain digest, content digests, timestamp and URL |
| Store.FindSource | app/routers/captures.py:45-50 | a source is found if and only if the organisation has one with that id, and what is found has that id |
| Store.SourceCaptures | app/routers/timelines.py:19-24 | exactly the store's captures of that source and organisation |
| Store.Ascending | src/proofpack/builder.py:60-66 | a permutation of the source's captures ordered by capture time |
| Store.Descending | app/routers/timelines.py:19-25 | a permutation of the source's captures, newest first |
| Store.Latest | app/routers/captures.py:52-61 | the previous capture is absent exactly when the source has none, and otherwise is one of its captures with none later |
| Store.AscendingIsInsertionOrder | src/proofpack/builder.py:60-66 | when a source's captures were recorded in strictly increasing time, ascending order is insertion order and the latest is the last recorded |
| Sources.CreateSource | app/routers/sources.py:16-47 | 409 and no change when the canonical URL is taken; otherwise the new source and its "source.created" event are appended, the store stays consistent, and every source's capture chain that was intact stays intact |
| Sources.AddSourceValid | app/routers/sources.py:20-34 | a source with a fresh id and a canonical URL its organisation does not have keeps the store consistent |
| Sources.AddSourceKeepsChainsIntact | app/routers/sources.py:26-34 | a new source with a fresh id has no captures, so adding it keeps every source's capture chain intact |
| Sources.VariantsConflict | app/routers/sources.py:17-24 | after registering one variant of a URL, every variant with the same canonical form is refused |
| Captures.FetchedOrSubstitute | app/routers/captures.py:66-83 | the fetcher's result when the fetch answered; when it raised, empty headers, no metadata, empty text and the digests of empty bytes |
| Captures.NewCapture | app/routers/captures.py:63-110 | the row has the new id, the organisation, the source and the clock reading; a raised fetch gives status 0, its error text and the digests of empty bytes; an answered fetch its status, no error and the digests of its body and extracted text; either way the row links to the previous capture |
| Captures.CaptureArtifacts | app/routers/captures.py:114-133 | two local placeholder artifacts of size 0 for the capture: "raw" with the raw digest, then "text" with the text digest |
| Captures.CaptureEvent | app/routers/captures.py:135-144 | "capture.failed" exactly when the fetch raised, "capture.created" otherwise, for the capture's id with its source and status as payload |
| Captures.ExtendChain | app/routers/captures.py:85-110 | appending a capture linked to the last one, at a later time, keeps the chain intact |
| Captures.AppendCaptureValid | app/routers/captures.py:95-112 | a capture with a fresh id for an existing source keeps the store consistent |
| Captures.CaptureExtendsOwnChain | app/routers/captures.py:52-110 | the new capture links to the source's latest capture and extends its intact chain |
| Captures.CaptureKeepsChainsIntact | app/routers/captures.py:52-110 | with a clock later than the source's captures, every source's chain stays intact |
| Captures.CreateCapture | app/routers/captures.py:42-156 | 404 and no change for an unknown source; otherwise one capture, two artifacts and one event are appended, the response echoes the capture, and intact chains stay intact |
| Captures.Record | app/routers/captures.py:111-146 | appends exactly the capture, its two artifacts and its event |
| Timelines.Items | app/routers/timelines.py:27-37 | one item per capture, each made from the capture at the same position |
| Timelines.GetTimeline | app/routers/timelines.py:13-39 | 404 exactly for an unknown source; a negative `limit` refused exactly for a known source; otherwise the first `limit` of the source's captures, newest first |
| Timelines.TimelineIsReverseRecording | app/routers/timelines.py:19-37 | for captures recorded in strictly increasing time the timeline is the recorded captures reversed, cut to `limit` |
| Json.DumpsFailsIffBytes | src/proofpack/builder.py:17 | serialisation fails exactly when a bytes value occurs anywhere in the value |
| Json.EncodeSize | src/proofpack/builder.py:17 | the compact JSON text of a value is no longer than its size bound |
| ProofPack.AssertManifestDataSmall | src/proofpack/builder.py:15-26 | the guard's loops report too-large exactly when the sorted-key JSON has 10000 or more characters, otherwise the first bytes value at top level or inside a dict of a list, otherwise pass |
| ProofPack.GuardResult | src/proofpack/builder.py:15-26 | the guard raises TypeError exactly when bytes occur in some value, otherwise reports too-large or nothing: a bytes report is impossible, since serialisation fails on bytes first |
| ProofPack.ManifestGuard | src/proofpack/builder.py:241-253 | on a builder manifest only the size check can fail, and it fails exactly when the manifest text has 10000 or more characters |
| ProofPack.ManifestGuardIsSize | src/proofpack/builder.py:15-18 | on a manifest the guard is too-large exactly when its JSON text reaches 10000 characters, and nothing otherwise |
| ProofPack.ManifestTextBound | src/proofpack/builder.py:244-250 | the manifest text of three files with short names is at most 3916 characters plus twelve per character of source id and timestamp plus the digits of the count |
| ProofPack.ToPackItems | src/proofpack/builder.py:69-80 | one item per capture, in order, carrying the source's canonical URL |
| ProofPack.PackItems | src/proofpack/builder.py:59-80 | the first `limit` captures in ascending time order, one item each |
| ProofPack.ManifestFiles | src/proofpack/builder.py:100-239 | the manifest lists timeline.json, methodology.md and verify.py in that order with the digests of their bytes, never manifest.json |
| ProofPack.Assemble | src/proofpack/builder.py:82-258 | file name from source id and clock; entries timeline, methodology, verify, manifest in that order; each listed digest is of the written bytes; fails exactly when the manifest text reaches 10000 characters |
| ProofPack.BuildPack | src/proofpack/builder.py:32-263 | unknown source and negative limit refused; otherwise the items are the first `limit` captures in ascending time order, and the build fails exactly when their manifest text reaches 10000 characters |
| ProofPack.AssembleSucceeds | src/proofpack/builder.py:241-258 | assembly succeeds when source id, timestamp and count are short enough to keep the manifest under the limit |
| ProofPack.BuildPackSucceeds | src/proofpack/builder.py:32-263 | a build for a known source with a limit below 1000000 and a source id and timestamp of at most 250 characters succeeds |
| ProofPack.WriteFiles | src/proofpack/builder.py:100-239 | the three writes and `files_data` appends give the written files and the manifest's file list |
| ProofPack.AssemblePack | src/proofpack/builder.py:87-258 | the imperative assembly equals `Assemble` |
| ProofPack.BuildProofPack | src/proofpack/builder.py:32-263 | the imperative builder over the store equals `BuildPack` |
| PackVerifier.RunVerifier | src/proofpack/builder.py:120-231 | the script's loops give the verdict `Verify` |
| PackVerifier.CheckFilesIff | src/proofpack/builder.py:130-146 | the file phase passes if and only if every listed file exists with the listed digest |
| PackVerifier.ReplayIff | src/proofpack/builder.py:168-228 | the replay from an item on passes if and only if every later item is complete, linked and correctly chained |
| PackVerifier.ReplayPassesIffSound | src/proofpack/builder.py:168-230 | the replay passes exactly when the chain is sound |
| PackVerifier.Verify | src/proofpack/builder.py:120-231 | exit 0 exactly when the manifest exists, all files match, and there is no chain to check or the chain is sound |
| PackVerifier.PartialChainFails | src/proofpack/builder.py:162-198 | when some but not all items carry a chain digest, verification fails |
| PackVerifier.FileTamperDetected | src/proofpack/builder.py:131-146 | changing a listed file's bytes (no collision) makes the script fail |
| PackVerifier.RawDigestTamperDetected | src/proofpack/builder.py:213-226 | changing one item's raw digest in a sound chain (no collision) breaks the chain |
| PackTheorem.EntriesMap | src/proofpack/builder.py:91-258 | the extracted files are exactly the archive's member names |
| PackTheorem.LaidOutDistinct | src/proofpack/builder.py:103-258 | the four members of a pack have different names |
| PackTheorem.LaidOutFilesMatch | src/proofpack/builder.py:120-148 | after extraction every listed file is present with its listed digest, and manifest.json and timeline.json are present |
| PackTheorem.BuiltPackLaidOut | src/proofpack/builder.py:93-258 | every successfully built pack has that layout |
| PackTheorem.PrefixChainSound | src/proofpack/builder.py:59-80 | items taken in order from the start of an intact chain form a sound chain for the verifier |
| PackTheorem.LaidOutPackVerifies | src/proofpack/builder.py:120-231 | a laid-out pack with such items verifies, with the chain replayed when there are items |
| PackTheorem.BuiltPackVerifies | src/proofpack/builder.py:32-263 | a pack built from a consistent store with intact chains passes its own verifier |
| PackTheorem.KnownSourcePackVerifies | src/proofpack/builder.py:32-263 | for a known source, a limit below 1000000 and short ids, the build succeeds and the pack passes its own verifier |
| PackTheorem.FirstItemStartsChain | src/proofpack/builder.py:59-80 | with a positive limit the first item is the source's first capture and names no predecessor |
| PackTheorem.LaidOutTamperDetected | src/proofpack/builder.py:131-146 | forging a listed file of a laid-out pack (no collision) fails verification |
| PackTheorem.BuiltPackTamperDetected | src/proofpack/builder.py:131-146 | forging any listed file of a built pack (no collision) fails verification |
| IrpRules.Categorize | irp_demo/scripts/generate_irp_demo.py:80-96 | the six `if`s give the rules that fire, in rule order, or only the fallback |
| IrpRules.CategoriesOf | irp_demo/scripts/generate_irp_demo.py:78-117 | every communication gets at least one and at most six categories |
| IrpRules.CategorizeEmail | irp_demo/scripts/generate_irp_demo.py:78-96 | categorising an email is the rules applied to subject + " " + body, lower-cased, its attachment flag and custodian |
| IrpRules.CategorizeSlackMessage | irp_demo/scripts/generate_irp_demo.py:99-117 | categorising a message is the rules applied to its lower-cased text, attachment flag and custodian |
| IrpRules.CategoriesSpec | irp_demo/scripts/generate_irp_demo.py:78-117 | categories are never empty, in strict rule order without repeats; "Uncategorized" alone exactly when no rule fires; any other category present exactly when its rule fires |
| IrpRules.FiredKeepsOrder | irp_demo/scripts/generate_irp_demo.py:83-94 | filtering rules keeps their order |
| IrpRules.EmailAttachmentRule | irp_demo/scripts/generate_irp_demo.py:91-92 | an email has "Has attachment" exactly when its flag lower-cased is "true" |
| IrpRules.SlackAttachmentRule | irp_demo/scripts/generate_irp_demo.py:112-113 | a message has "Has attachment" exactly when its flag is set |
| IrpRules.LabelsDistinct | irp_demo/scripts/generate_irp_demo.py:83-96 | different categories have different labels |
| IrpSummary.GenerateEmailSummary | irp_demo/scripts/generate_irp_demo.py:120-135 | one row per email, in order, with the email's fields and its category labels joined by "; " |
| IrpSummary.EmailRowOmitsBody | irp_demo/scripts/generate_irp_demo.py:121-134 | apart from the categories, a row does not depend on the body |
| IrpSummary.EmailCsvRows | irp_demo/scripts/generate_irp_demo.py:620 | the CSV rows are a permutation of the summary sorted by message id |
| IrpSummary.GenerateSlackSummary | irp_demo/scripts/generate_irp_demo.py:138-172 | the nested loops give `SlackSummaryOf` |
| IrpSummary.TextPreview | irp_demo/scripts/generate_irp_demo.py:155-158 | a preview is the whole text up to 100 characters, else its first 100 plus "..."; at most 103 |
| IrpSummary.SlackSummaryShape | irp_demo/scripts/generate_irp_demo.py:146-170 | channels and messages kept in order, `message_count` equals the number of messages, every preview at most 103 characters and every message categorised |
| IrpSummary.BeforeT | irp_demo/scripts/generate_irp_demo.py:189 | the result is the prefix before the first "T" |
| IrpSummary.DatePart | irp_demo/scripts/generate_irp_demo.py:189 | fails exactly on a timestamp that holds a space and no word; otherwise the first whitespace-separated word when the timestamp holds a space, and the part before the first "T" when it does not |
| IrpSummary.PresentTimes | irp_demo/scripts/generate_irp_demo.py:177-182 | exactly the present, non-empty timestamps are kept |
| IrpSummary.DatesOf | irp_demo/scripts/generate_irp_demo.py:189 | fails exactly when some timestamp has no date part, else one date per timestamp |
| IrpSummary.MinStr | irp_demo/scripts/generate_irp_demo.py:190 | an element no greater than any other |
| IrpSummary.MaxStr | irp_demo/scripts/generate_irp_demo.py:190 | an element no smaller than any other |
| IrpSummary.GetTimeWindow | irp_demo/scripts/generate_irp_demo.py:175-190 | the default pair when there are no timestamps; failure exactly on a whitespace-only timestamp holding a space; otherwise two dates of the data, start no later than end, all dates between |
| IrpCounts.TallySpec | irp_demo/scripts/generate_irp_demo.py:297-304 | the counting dict holds each key once, exactly the keys counted, each with its number of occurrences, counts summing to the number of keys |
| IrpCounts.CountByCustodian | irp_demo/scripts/generate_irp_demo.py:296-305 | the table counts one custodian ("Unknown" when absent) per email and per message |
| IrpCounts.CountMessageCustodians | irp_demo/scripts/generate_irp_demo.py:301-304 | the Slack loops add one count per message, channel by channel |
| IrpCounts.CountLabels | irp_demo/scripts/generate_irp_demo.py:355-356 | counting one communication adds one count per category label |
| IrpCounts.CountByCategory | irp_demo/scripts/generate_irp_demo.py:351-361 | the table counts every label of every email and message |
| IrpCounts.CountMessageLabels | irp_demo/scripts/generate_irp_demo.py:357-361 | the Slack loops add every label of every message |
| IrpCounts.CountChannelLabels | irp_demo/scripts/generate_irp_demo.py:358-361 | the loop over one channel's messages adds every label of each of them, in order, to the counts so far |
| IrpCounts.SlackCountIsMessages | irp_demo/scripts/generate_irp_demo.py:328 | the Slack count is the number of messages over all channels |
| IrpCounts.CustodianTableTotal | irp_demo/scripts/generate_irp_demo.py:296-334 | the custodian counts add up to the system table's total |
| IrpCounts.CategoryTableTotal | irp_demo/scripts/generate_irp_demo.py:327-361 | the category counts add up to between the total and six times the total |
| IrpCounts.TableRows | irp_demo/scripts/generate_irp_demo.py:307-308 | the table's rows are listed sorted by key, all of them |
| IrpPack.ContentFiles | irp_demo/scripts/generate_irp_demo.py:635-641 | five files with distinct names, none named manifest.json |
| IrpPack.SortedFiles | irp_demo/scripts/generate_irp_demo.py:645 | the files reordered by name |
| IrpPack.ManifestOf | irp_demo/scripts/generate_irp_demo.py:643-646 | one manifest entry per file |
| IrpPack.ManifestSpec | irp_demo/scripts/generate_irp_demo.py:643-646 | the manifest holds a pair exactly when some file has that name and the pair's digest is sha of its bytes; names in sorted order; manifest.json never listed |
| IrpPack.ManifestDistinct | irp_demo/scripts/generate_irp_demo.py:643-646 | no name is listed twice |
| IrpPack.ArchiveEntries | irp_demo/scripts/generate_irp_demo.py:659-663 | the content files in sorted-name order, all of them, then manifest.json holding the rendered manifest |
| IrpPack.ArchiveDistinct | irp_demo/scripts/generate_irp_demo.py:659-663 | every archive entry has its own name |
| IrpPack.WriteArchive | irp_demo/scripts/generate_irp_demo.py:643-663 | the manifest loop and the ZIP writes give `ManifestOf` and `ArchiveEntries` |
| IrpPack.BuildArchive | irp_demo/scripts/generate_irp_demo.py:635-663 | the same, for the five content files |
| IrpPack.SortedItems | irp_demo/scripts/generate_irp_demo.py:505 | the manifest's items reordered by path |
| IrpPack.RunDemoVerifier | irp_demo/scripts/generate_irp_demo.py:488-527 | exit 1 with no lines without manifest.json; otherwise one status per entry in path order, exit 0 exactly when all match |
| IrpPack.DemoReportCovers | irp_demo/scripts/generate_irp_demo.py:504-520 | one line per manifest entry, every entry reported with its status, lines sorted by path |
| IrpPack.DemoExit | irp_demo/scripts/generate_irp_demo.py:488-527 | exit 0 or 1, and 0 if and only if manifest.json exists and every listed file exists with the listed digest |
| IrpPack.ArchiveHoldsListedFiles | irp_demo/scripts/generate_irp_demo.py:643-663 | the extracted archive holds manifest.json and every listed file with its listed digest |
| IrpPack.ArchiveVerifies | irp_demo/scripts/generate_irp_demo.py:643-663 | the extracted archive passes the script, every line OK |
| IrpPack.ArchiveTamperDetected | irp_demo/scripts/generate_irp_demo.py:510-519 | forging one content file (no collision) gives a mismatch line for it and exit 1 |
| IrpPack.DemoPackVerifies | irp_demo/scripts/generate_irp_demo.py:635-663 | the demo archive passes its own script |
| IrpPack.DemoTamperDetected | irp_demo/scripts/generate_irp_demo.py:510-519 | forging any of the demo's five files fails the script |
| IrpPack.DemoMissingFile | irp_demo/scripts/generate_irp_demo.py:507-509 | a listed file that is missing gets a not-found line and exit 1 |

## Left out

- HTTP, the database engine, sessions, transactions and concurrent requests are not modelled. Each request is one sequential step on the store.
- `urlsplit` is given: a URL enters as its five split parts.
- Normalize.Unsplit: for an http(s) URL without a host, Python's `urlunsplit` writes "scheme://", which `Unsplit` does not. Such a URL cannot reach `canonicalize_url`, because `SourceCreate.url` is an `HttpUrl`, which always has a host (app/schemas.py:5).
- BeautifulSoup's text extraction is a parameter (`TextExtractor`). `httpx`, redirects and timeouts are not modelled: a fetch either answers or raises.
- SHA-256 internals are not modelled. The hash is a parameter, and collision resistance is used only per pair of inputs.
- Clock readings, `isoformat()`/`strftime` text and new uuids are parameters. Whether `isoformat()` round-trips is not modelled.
- A negative `limit` reaches the database's `LIMIT` clause, which refuses it. The model returns an error value in its place, for both the timeline and the builder. `uuid.UUID(source_id)` parsing is not modelled: an id is a string.
- `ORDER BY captured_at` ties: the model sorts stably, which is one order the database may return.
- JSON rendering of written documents (timeline.json and both manifests) is the `render` parameter. Parsing them back with `json.loads`/`json.load` is taken to return what was rendered.
- The guard's own size computation uses a model of `json.dumps(sort_keys=True)` with the default separators and `ensure_ascii`. Floats and other types not present in the manifest are not modelled.
- The ZIP container format, compression and timestamps are not modelled. An archive is its list of named entries, and extraction maps each name to its last entry's bytes.
- The demo's `verify.py` sees only regular files. A manifest path naming a directory, where Python's `open` would raise, is not modelled.
- The printed messages of both verification scripts are not modelled. The builder's script gives a verdict, the demo's script a status per entry.
- The bytes of `methodology.md` and of both `verify.py` scripts are parameters: the literal texts are not reproduced.
- The demo's PDF layout, `normalize_pdf_bytes`, the CSV writer and `str(count)` rendering are not modelled. Only the three count tables of the PDF are modelled.
- The bytes of the demo's slack_summary.json (written with `ensure_ascii=False`) are a parameter of `IrpPack.ContentFiles` and `IrpPack.BuildArchive`. Nothing ties them to `IrpSummary.SlackSummaryOf`, and the demo never parses that file back. The archive properties hold for any bytes there.
- Reading email_export.csv and slack_export.json and file I/O are not modelled. The demo starts from the parsed records, with a missing field as `None`.
- A field that is present but null is not modelled: a short CSV row, which `DictReader` fills with `None`, or a JSON `null`. Python's `.get(key, default)` returns that `None` rather than the default. Python then raises (`None + ' '` when joining subject and body, `None.lower()` on Slack text, or `sorted()` comparing a `None` custodian key), and `main` returns 1. The model cannot tell a null field from an absent one, treats both as absent, and categorises and counts as usual.
- Slack `has_attachment` is a boolean. Python's truthiness of other JSON values there is not modelled.
- `lower()` is modelled on ASCII letters only.
- ProofPack.BuildPackSucceeds: the length bounds under which a build is proved to succeed are sufficient, not necessary. Builds beyond them succeed or fail exactly as `BuildPack` states, by the manifest's text length.
