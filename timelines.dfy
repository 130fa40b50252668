/**
 * `GET /sources/{id}/timeline` (app/routers/timelines.py): the source's
 * captures, newest first, at most `limit` of them.
 */
module Timelines {
  import opened Common
  import opened Store

  datatype TimelineItem = TimelineItem(
    id: string,
    capturedAt: string,
    fetchStatus: int,
    rawSha: string,
    normSha: string,
    chainSha: string)

  datatype TimelineOut = TimelineOut(sourceId: string, items: seq<TimelineItem>)

  function Item(c: Capture): TimelineItem {
    TimelineItem(c.id, c.capturedAt.iso, c.fetchStatus, c.rawSha, c.normSha, c.chainSha)
  }

  function Items(caps: seq<Capture>): (r: seq<TimelineItem>)
    ensures |r| == |caps|
    ensures forall i :: 0 <= i < |caps| ==> r[i] == Item(caps[i])
  {
    if caps == [] then [] else [Item(caps[0])] + Items(caps[1..])
  }

  /**
   * `get_timeline`: 404 for an unknown source; a negative `limit` is
   * refused by the database's LIMIT clause; otherwise the first `limit`
   * captures in descending `captured_at` order.
   */
  function GetTimeline(sources: seq<Source>, captures: seq<Capture>, sourceId: string, limit: int)
    : (r: Result<TimelineOut, ApiError>)
    ensures r == Err(NotFound) <==> FindSource(sources, sourceId).None?
    ensures r == Err(NegativeLimit) <==> FindSource(sources, sourceId).Some? && limit < 0
    ensures r.Ok? ==>
              var d := Descending(captures, sourceId);
              && r.value.sourceId == sourceId
              && |r.value.items| == (if limit < |d| then limit else |d|)
              && forall k :: 0 <= k < |r.value.items| ==> r.value.items[k] == Item(d[k])
  {
    if FindSource(sources, sourceId).None? then Err(NotFound)
    else if limit < 0 then Err(NegativeLimit)
    else Ok(TimelineOut(sourceId, Items(Take(Descending(captures, sourceId), limit))))
  }

  /**
   * When the source's captures were recorded in time order, the timeline
   * is the most recent `limit` of them in reverse order of recording.
   */
  lemma TimelineIsReverseRecording(sources: seq<Source>, captures: seq<Capture>, sourceId: string, limit: int)
    requires GetTimeline(sources, captures, sourceId, limit).Ok?
    requires StrictlyIncreasing(SourceCaptures(captures, sourceId))
    ensures GetTimeline(sources, captures, sourceId, limit).value.items ==
            Items(Take(Reverse(SourceCaptures(captures, sourceId)), limit))
  {
    AscendingIsInsertionOrder(captures, sourceId);
  }
}
