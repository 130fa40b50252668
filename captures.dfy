/**
 * `POST /sources/{id}/captures` (app/routers/captures.py): fetch the
 * source's canonical URL, record the capture with its digests and its link
 * to the source's latest capture, two artifact placeholders and an event.
 */
module Captures {
  import opened Common
  import opened Store
  import opened Chain
  import opened Fetcher
  import Utf8

  /** What the fetch did: answered with a response, or raised (`repr` of the exception). */
  datatype FetchAttempt =
    | Responded(response: HttpResponse)
    | Raised(errorRepr: string)

  datatype CaptureOut = CaptureOut(
    id: string,
    sourceId: string,
    capturedAt: string,
    fetchStatus: int,
    rawSha: string,
    normSha: string,
    chainSha: string)

  /** The `fetched` dict: the fetcher's result, or the substitute recorded when it raised. */
  function FetchedOrSubstitute(sha: Hasher, extract: TextExtractor, attempt: FetchAttempt): (f: Fetched)
    ensures attempt.Responded? ==> f == FetchUrl(sha, extract, attempt.response)
    ensures attempt.Raised? ==>
              && f.headers == map[] && f.contentType.None? && f.etag.None? && f.lastModified.None?
              && f.rawSha == sha([]) && f.normalizedSha == sha(Utf8.Encode(""))
              && f.normalizedLen == 0 && f.normalizedText == ""
  {
    match attempt
    case Responded(response) => FetchUrl(sha, extract, response)
    case Raised(_) => Fetched(0, map[], None, None, None, [], sha([]), "", sha([]), 0)
  }

  function FetchStatus(attempt: FetchAttempt): int {
    if attempt.Responded? then attempt.response.status else 0
  }

  function FetchError(attempt: FetchAttempt): Option<string> {
    if attempt.Raised? then Some(attempt.errorRepr) else None
  }

  /** `str(prev_id) if prev_id else None`. */
  function PrevId(prev: Option<Capture>): Option<string> {
    if prev.Some? then Some(prev.value.id) else None
  }

  function PrevChain(prev: Option<Capture>): Option<string> {
    if prev.Some? then Some(prev.value.chainSha) else None
  }

  /**
   * The capture row: `prev` is the source's latest capture, `now` the
   * clock reading. A fetch that raised is stored with status 0, its error
   * text and the digests of an empty body and an empty text; a fetch that
   * answered, whatever its status, with the digests of its body and of its
   * extracted text. Either way the row links to `prev`.
   */
  function NewCapture(sha: Hasher, extract: TextExtractor, source: Source, prev: Option<Capture>,
                      id: string, now: Instant, attempt: FetchAttempt): (c: Capture)
    ensures c.id == id && c.orgId == V1OrgId && c.sourceId == source.id && c.capturedAt == now
    ensures attempt.Raised? ==>
              && c.fetchStatus == 0 && c.fetchError == Some(attempt.errorRepr)
              && c.rawSha == sha([]) && c.normSha == sha(Utf8.Encode("")) && c.normLen == 0
    ensures attempt.Responded? ==>
              && c.fetchStatus == attempt.response.status && c.fetchError.None?
              && c.rawSha == sha(attempt.response.content)
              && c.normSha == sha(Utf8.Encode(NormalizeHtmlToText(extract, attempt.response.content)))
              && c.normLen == |Utf8.Encode(NormalizeHtmlToText(extract, attempt.response.content))|
    ensures LinkedTo(sha, c, prev, source.canonicalUrl)
  {
    var f := FetchedOrSubstitute(sha, extract, attempt);
    Capture(id, V1OrgId, source.id, now, FetchStatus(attempt), FetchError(attempt),
            f.contentType, f.etag, f.lastModified, f.headers, f.rawSha, f.normalizedSha, f.normalizedLen,
            PrevId(prev),
            ComputeChainSha256(sha, PrevId(prev), PrevChain(prev), f.rawSha, f.normalizedSha, now.iso, source.canonicalUrl))
  }

  /** The two placeholder artifacts of a capture: its raw body and its normalised text, with their digests and size 0. */
  function CaptureArtifacts(c: Capture): (r: seq<Artifact>)
    ensures |r| == 2
    ensures forall a | a in r :: a.captureId == c.id && a.bucket == "local" && a.size == 0
    ensures r[0].kind == "raw" && r[0].sha256 == c.rawSha
    ensures r[1].kind == "text" && r[1].sha256 == c.normSha
  {
    [Artifact(c.id, "raw", "local", "data/artifacts/" + c.id + "/raw.bin", 0, c.rawSha),
     Artifact(c.id, "text", "local", "data/artifacts/" + c.id + "/text.txt", 0, c.normSha)]
  }

  /** The capture's event: "capture.failed" exactly when the fetch raised, otherwise "capture.created". */
  function CaptureEvent(c: Capture): (e: Event)
    ensures e.eventType == "capture.failed" <==> c.fetchError.Some?
    ensures e.eventType == "capture.created" <==> c.fetchError.None?
    ensures e.orgId == V1OrgId && e.actorUserId.None? && e.entityType == "capture" && e.entityId == c.id
    ensures e.payload == CapturePayload(c.sourceId, c.fetchStatus)
  {
    Event(V1OrgId, None, if c.fetchError.None? then "capture.created" else "capture.failed",
          "capture", c.id, CapturePayload(c.sourceId, c.fetchStatus))
  }

  function Out(c: Capture): CaptureOut {
    CaptureOut(c.id, c.sourceId, c.capturedAt.iso, c.fetchStatus, c.rawSha, c.normSha, c.chainSha)
  }

  /** `c` carries the link and chain digest that follow `prev` for a source with canonical URL `url`. */
  predicate LinkedTo(sha: Hasher, c: Capture, prev: Option<Capture>, url: string) {
    && c.prevCaptureId == PrevId(prev)
    && c.chainSha == ComputeChainSha256(sha, PrevId(prev), PrevChain(prev), c.rawSha, c.normSha, c.capturedAt.iso, url)
  }

  /** The capture before position `i`, if any. */
  function Before(caps: seq<Capture>, i: nat): Option<Capture>
    requires i <= |caps|
  {
    if i == 0 then None else Some(caps[i - 1])
  }

  /** A source's captures, in insertion order, form an intact hash chain. */
  predicate ChainIntact(sha: Hasher, caps: seq<Capture>, url: string) {
    && StrictlyIncreasing(caps)
    && (forall i :: 0 <= i < |caps| ==> LinkedTo(sha, caps[i], Before(caps, i), url))
  }

  /** Every source of the organisation has an intact chain. */
  predicate AllChainsIntact(sha: Hasher, sources: seq<Source>, captures: seq<Capture>) {
    forall s | s in sources && s.orgId == V1OrgId :: ChainIntact(sha, SourceCaptures(captures, s.id), s.canonicalUrl)
  }

  /** The clock reads later than every capture already recorded for the source. */
  predicate ClockAfter(now: Instant, caps: seq<Capture>) {
    forall c | c in caps :: c.capturedAt.micros < now.micros
  }

  lemma {:induction false} ExtendIncreasing(caps: seq<Capture>, c: Capture)
    requires StrictlyIncreasing(caps)
    requires ClockAfter(c.capturedAt, caps)
    ensures StrictlyIncreasing(caps + [c])
  {
    var ext := caps + [c];
    forall i, j | 0 <= i < j < |ext| ensures ext[i].capturedAt.micros < ext[j].capturedAt.micros {
      assert ext[i] == caps[i];
      if j == |caps| {
        assert caps[i] in caps;
      } else {
        assert ext[j] == caps[j];
      }
    }
  }

  /** Appending a capture linked to the last one, at a later time, keeps a chain intact. */
  lemma {:induction false} ExtendChain(sha: Hasher, caps: seq<Capture>, c: Capture, url: string)
    requires ChainIntact(sha, caps, url)
    requires ClockAfter(c.capturedAt, caps)
    requires LinkedTo(sha, c, Before(caps, |caps|), url)
    ensures ChainIntact(sha, caps + [c], url)
  {
    var ext := caps + [c];
    ExtendIncreasing(caps, c);
    forall i | 0 <= i < |caps| ensures LinkedTo(sha, ext[i], Before(ext, i), url) {
      assert ext[i] == caps[i] && Before(ext, i) == Before(caps, i);
    }
    assert ext[|caps|] == c && Before(ext, |caps|) == Before(caps, |caps|);
  }

  lemma SameIdSameSource(sources: seq<Source>, captures: seq<Capture>, s: Source, t: Source)
    requires TablesValid(sources, captures)
    requires s in sources && t in sources && s.id == t.id
    ensures s == t
  {
    var i :| 0 <= i < |sources| && sources[i] == s;
    var j :| 0 <= j < |sources| && sources[j] == t;
    assert i == j;
  }

  /** Appending a capture with a fresh id for an existing source keeps the tables valid. */
  lemma AppendCaptureValid(sources: seq<Source>, captures: seq<Capture>, c: Capture)
    requires TablesValid(sources, captures)
    requires c.id != "" && forall d | d in captures :: d.id != c.id
    requires exists s | s in sources :: s.id == c.sourceId
    ensures TablesValid(sources, captures + [c])
  {
    var ext := captures + [c];
    forall i, j | 0 <= i < j < |ext| ensures ext[i].id != ext[j].id {
      if j == |captures| {
        assert ext[i] in captures;
      } else {
        assert ext[i] == captures[i] && ext[j] == captures[j];
      }
    }
  }

  /** The new capture extends the chain of the source it was taken for. */
  lemma CaptureExtendsOwnChain(sha: Hasher, extract: TextExtractor, src: Source, captures: seq<Capture>,
                               id: string, now: Instant, attempt: FetchAttempt)
    requires ChainIntact(sha, SourceCaptures(captures, src.id), src.canonicalUrl)
    requires ClockAfter(now, SourceCaptures(captures, src.id))
    requires src.orgId == V1OrgId
    ensures ChainIntact(sha, SourceCaptures(captures + [NewCapture(sha, extract, src, Latest(captures, src.id), id, now, attempt)], src.id),
                        src.canonicalUrl)
  {
    var c := NewCapture(sha, extract, src, Latest(captures, src.id), id, now, attempt);
    var sc := SourceCaptures(captures, src.id);
    SourceCapturesAppend(captures, c, src.id);
    AscendingIsInsertionOrder(captures, src.id);
    assert Latest(captures, src.id) == Before(sc, |sc|);
    ExtendChain(sha, sc, c, src.canonicalUrl);
  }

  /**
   * Recording a capture for a source keeps every source's chain intact,
   * provided the clock has moved past the source's latest capture.
   */
  lemma CaptureKeepsChainsIntact(sha: Hasher, extract: TextExtractor, sources: seq<Source>, captures: seq<Capture>,
                                 sourceId: string, id: string, now: Instant, attempt: FetchAttempt)
    requires TablesValid(sources, captures)
    requires FindSource(sources, sourceId).Some?
    ensures AllChainsIntact(sha, sources, captures) && ClockAfter(now, SourceCaptures(captures, sourceId)) ==>
      var src := FindSource(sources, sourceId).value;
      AllChainsIntact(sha, sources, captures + [NewCapture(sha, extract, src, Latest(captures, sourceId), id, now, attempt)])
  {
    if !(AllChainsIntact(sha, sources, captures) && ClockAfter(now, SourceCaptures(captures, sourceId))) {
      return;
    }
    var src := FindSource(sources, sourceId).value;
    var c := NewCapture(sha, extract, src, Latest(captures, sourceId), id, now, attempt);
    forall s | s in sources && s.orgId == V1OrgId
      ensures ChainIntact(sha, SourceCaptures(captures + [c], s.id), s.canonicalUrl)
    {
      if s.id == sourceId {
        SameIdSameSource(sources, captures, s, src);
        CaptureExtendsOwnChain(sha, extract, src, captures, id, now, attempt);
      } else {
        SourceCapturesAppend(captures, c, s.id);
      }
    }
  }

  /**
   * `create_capture`. `newId` is the id the database assigns, `now` the
   * clock reading, `attempt` the outcome of fetching the canonical URL.
   */
  method CreateCapture(db: Database, sha: Hasher, extract: TextExtractor, sourceId: string, newId: string,
                       now: Instant, attempt: FetchAttempt) returns (r: Result<CaptureOut, ApiError>)
    requires db.Valid()
    requires newId != "" && forall c | c in db.captures :: c.id != newId
    modifies db
    ensures db.Valid()
    ensures db.sources == old(db.sources)
    ensures FindSource(old(db.sources), sourceId).None? ==>
              r == Err(NotFound) && db.captures == old(db.captures) &&
              db.artifacts == old(db.artifacts) && db.events == old(db.events)
    ensures FindSource(old(db.sources), sourceId).Some? ==>
              var c := NewCapture(sha, extract, FindSource(old(db.sources), sourceId).value,
                                  Latest(old(db.captures), sourceId), newId, now, attempt);
              && r == Ok(Out(c))
              && db.captures == old(db.captures) + [c]
              && db.artifacts == old(db.artifacts) + CaptureArtifacts(c)
              && db.events == old(db.events) + [CaptureEvent(c)]
    ensures old(AllChainsIntact(sha, db.sources, db.captures)) &&
            ClockAfter(now, old(SourceCaptures(db.captures, sourceId))) ==>
              AllChainsIntact(sha, db.sources, db.captures)
  {
    var found := FindSource(db.sources, sourceId);
    if found.None? {
      return Err(NotFound);
    }
    var source := found.value;

    var prevCap := Latest(db.captures, sourceId);
    var cap := NewCapture(sha, extract, source, prevCap, newId, now, attempt);
    CaptureKeepsChainsIntact(sha, extract, db.sources, db.captures, sourceId, newId, now, attempt);
    assert source in db.sources;
    AppendCaptureValid(db.sources, db.captures, cap);
    Record(db, cap);
    r := Ok(Out(cap));
  }

  /** Adds the capture row, its two artifacts and its event (`db.add`, `db.add_all`, `db.add`, `db.commit`). */
  method Record(db: Database, cap: Capture)
    modifies db
    ensures db.sources == old(db.sources)
    ensures db.captures == old(db.captures) + [cap]
    ensures db.artifacts == old(db.artifacts) + CaptureArtifacts(cap)
    ensures db.events == old(db.events) + [CaptureEvent(cap)]
  {
    db.captures := db.captures + [cap];
    db.artifacts := db.artifacts + CaptureArtifacts(cap);
    db.events := db.events + [CaptureEvent(cap)];
  }
}
