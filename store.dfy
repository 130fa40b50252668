/**
 * The relational store the routers and the proof-pack builder work on
 * (app/models.py): sources, captures, capture artifacts and the event
 * log, as append-only tables, together with the queries the routers run.
 */
module Store {
  import opened Common
  import Sorting

  /** The single organisation of version 1. */
  const V1OrgId: string := "00000000-0000-0000-0000-000000000001"

  datatype Source = Source(
    id: string,
    orgId: string,
    url: string,
    canonicalUrl: string,
    title: Option<string>,
    isActive: bool,
    createdBy: Option<string>)

  /** A `captured_at` value: its position in time (microseconds) and its `isoformat()` text. */
  datatype Instant = Instant(micros: int, iso: string)

  datatype Capture = Capture(
    id: string,
    orgId: string,
    sourceId: string,
    capturedAt: Instant,
    fetchStatus: int,
    fetchError: Option<string>,
    contentType: Option<string>,
    etag: Option<string>,
    lastModified: Option<string>,
    responseHeaders: map<string, string>,
    rawSha: HexDigest,
    normSha: HexDigest,
    normLen: nat,
    prevCaptureId: Option<string>,
    chainSha: HexDigest)

  datatype Artifact = Artifact(
    captureId: string,
    kind: string,
    bucket: string,
    objectKey: string,
    size: nat,
    sha256: HexDigest)

  /** The JSON payload of an event, by event family. */
  datatype Payload =
    | SourcePayload(url: string, canonicalUrl: string)
    | CapturePayload(sourceId: string, fetchStatus: int)

  datatype Event = Event(
    orgId: string,
    actorUserId: Option<string>,
    eventType: string,
    entityType: string,
    entityId: string,
    payload: Payload)

  /** The HTTP errors the routers raise. */
  datatype ApiError = NotFound | Conflict | NegativeLimit

  /** Ids are unique and non-empty; at most one source per (org, canonical URL); captures belong to sources. */
  ghost predicate TablesValid(sources: seq<Source>, captures: seq<Capture>) {
    && (forall i :: 0 <= i < |sources| ==> sources[i].id != "")
    && (forall i, j :: 0 <= i < j < |sources| ==> sources[i].id != sources[j].id)
    && (forall i, j :: 0 <= i < j < |sources| ==>
          !(sources[i].orgId == sources[j].orgId && sources[i].canonicalUrl == sources[j].canonicalUrl))
    && (forall i :: 0 <= i < |captures| ==> captures[i].id != "")
    && (forall i, j :: 0 <= i < j < |captures| ==> captures[i].id != captures[j].id)
    && (forall c | c in captures :: exists s | s in sources :: s.id == c.sourceId)
  }

  class Database {
    var sources: seq<Source>
    var captures: seq<Capture>
    var artifacts: seq<Artifact>
    var events: seq<Event>

    ghost predicate Valid()
      reads this`sources, this`captures
    {
      TablesValid(sources, captures)
    }

    constructor ()
      ensures Valid()
      ensures sources == [] && captures == [] && artifacts == [] && events == []
    {
      sources, captures, artifacts, events := [], [], [], [];
    }
  }

  /** `select(Source).where(Source.id == id, Source.org_id == V1_ORG_ID)`. */
  function FindSource(sources: seq<Source>, id: string): (r: Option<Source>)
    ensures r.Some? ==> r.value in sources && r.value.id == id && r.value.orgId == V1OrgId
    ensures r.None? <==> forall s | s in sources :: !(s.id == id && s.orgId == V1OrgId)
  {
    if sources == [] then None
    else if sources[0].id == id && sources[0].orgId == V1OrgId then Some(sources[0])
    else FindSource(sources[1..], id)
  }

  /** Whether the organisation already has a source with this canonical URL. */
  predicate CanonicalTaken(sources: seq<Source>, orgId: string, canonical: string) {
    exists i :: 0 <= i < |sources| && sources[i].orgId == orgId && sources[i].canonicalUrl == canonical
  }

  predicate OfSource(c: Capture, sourceId: string) {
    c.sourceId == sourceId && c.orgId == V1OrgId
  }

  /** The captures of one source of the V1 organisation, in insertion order. */
  function SourceCaptures(captures: seq<Capture>, sourceId: string): (r: seq<Capture>)
    ensures |r| <= |captures|
    ensures forall c :: c in r <==> c in captures && OfSource(c, sourceId)
  {
    if captures == [] then []
    else
      var last := captures[|captures| - 1];
      SourceCaptures(captures[..|captures| - 1], sourceId) + (if OfSource(last, sourceId) then [last] else [])
  }

  /** A source none of whose captures are recorded has an empty history. */
  lemma {:induction false} NoSourceCaptures(captures: seq<Capture>, sourceId: string)
    requires forall c | c in captures :: !OfSource(c, sourceId)
    ensures SourceCaptures(captures, sourceId) == []
  {
    if captures != [] {
      NoSourceCaptures(captures[..|captures| - 1], sourceId);
    }
  }

  lemma SourceCapturesAppend(captures: seq<Capture>, c: Capture, sourceId: string)
    ensures SourceCaptures(captures + [c], sourceId) ==
            SourceCaptures(captures, sourceId) + (if OfSource(c, sourceId) then [c] else [])
  {
    assert (captures + [c])[..|captures|] == captures;
  }

  /** The order of `ORDER BY captured_at`. */
  predicate CapturedNoLater(a: Capture, b: Capture) {
    a.capturedAt.micros <= b.capturedAt.micros
  }

  lemma CapturedNoLaterIsPreorder()
    ensures Sorting.TotalPreorder(CapturedNoLater)
  {
  }

  /** `ORDER BY captured_at ASC` over the source's captures. */
  function Ascending(captures: seq<Capture>, sourceId: string): (r: seq<Capture>)
    ensures multiset(r) == multiset(SourceCaptures(captures, sourceId))
    ensures Sorting.SortedBy(r, CapturedNoLater)
  {
    Sorting.SortSorted(SourceCaptures(captures, sourceId), CapturedNoLater);
    Sorting.Sort(SourceCaptures(captures, sourceId), CapturedNoLater)
  }

  /** `ORDER BY captured_at DESC`: the ascending order reversed. */
  function Descending(captures: seq<Capture>, sourceId: string): (r: seq<Capture>)
    ensures |r| == |SourceCaptures(captures, sourceId)|
    ensures forall i, j :: 0 <= i < j < |r| ==> r[j].capturedAt.micros <= r[i].capturedAt.micros
    ensures multiset(r) == multiset(SourceCaptures(captures, sourceId))
  {
    var asc := Ascending(captures, sourceId);
    assert multiset(Reverse(asc)) == multiset(asc) by {
      ReverseMultiset(asc);
    }
    Reverse(asc)
  }

  lemma {:induction false} ReverseMultiset<T>(s: seq<T>)
    ensures multiset(Reverse(s)) == multiset(s)
  {
    if s != [] {
      assert Reverse(s) == Reverse(s[1..]) + [s[0]];
      ReverseMultiset(s[1..]);
      assert s == [s[0]] + s[1..];
    }
  }

  /**
   * `ORDER BY captured_at DESC LIMIT 1`: absent exactly when the source has
   * no captures, otherwise one of them and none of them is later.
   */
  function Latest(captures: seq<Capture>, sourceId: string): (r: Option<Capture>)
    ensures r.None? <==> SourceCaptures(captures, sourceId) == []
    ensures r.Some? ==>
              r.value in SourceCaptures(captures, sourceId) &&
              forall c | c in SourceCaptures(captures, sourceId) :: c.capturedAt.micros <= r.value.capturedAt.micros
  {
    var d := Descending(captures, sourceId);
    var sc := SourceCaptures(captures, sourceId);
    if d == [] then None
    else
      FirstOfDescendingIsLatest(d, sc);
      Some(d[0])
  }

  /** The head of a descending rearrangement of `sc` is a member of `sc` that no member is later than. */
  lemma FirstOfDescendingIsLatest(d: seq<Capture>, sc: seq<Capture>)
    requires d != [] && multiset(d) == multiset(sc)
    requires forall i, j :: 0 <= i < j < |d| ==> d[j].capturedAt.micros <= d[i].capturedAt.micros
    ensures d[0] in sc
    ensures forall c | c in sc :: c.capturedAt.micros <= d[0].capturedAt.micros
  {
    assert d[0] in multiset(d);
    forall c | c in sc ensures c.capturedAt.micros <= d[0].capturedAt.micros {
      assert c in multiset(sc);
      var k :| 0 <= k < |d| && d[k] == c;
    }
  }

  /** Captures listed in strictly increasing `captured_at` order. */
  predicate StrictlyIncreasing(caps: seq<Capture>) {
    forall i, j :: 0 <= i < j < |caps| ==> caps[i].capturedAt.micros < caps[j].capturedAt.micros
  }

  /** When the source's captures were inserted in time order, ascending order is insertion order. */
  lemma AscendingIsInsertionOrder(captures: seq<Capture>, sourceId: string)
    requires StrictlyIncreasing(SourceCaptures(captures, sourceId))
    ensures Ascending(captures, sourceId) == SourceCaptures(captures, sourceId)
    ensures Latest(captures, sourceId).Some? ==>
              Latest(captures, sourceId).value == SourceCaptures(captures, sourceId)[|SourceCaptures(captures, sourceId)| - 1]
  {
    Sorting.SortOfSorted(SourceCaptures(captures, sourceId), CapturedNoLater);
  }
}
