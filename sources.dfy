/**
 * `POST /sources` (app/routers/sources.py): register a URL under its
 * canonical form, refusing a second source with the same canonical URL.
 */
module Sources {
  import opened Common
  import opened Store
  import opened Normalize
  import opened PyStr
  import Captures

  datatype SourceOut = SourceOut(id: string, url: string, canonicalUrl: string)

  /** The row `create_source` inserts. */
  function NewSource(id: string, url: string, canonical: string): Source {
    Source(id, V1OrgId, url, canonical, None, true, None)
  }

  /** The event `create_source` logs. */
  function SourceCreatedEvent(s: Source): Event {
    Event(V1OrgId, None, "source.created", "source", s.id, SourcePayload(s.url, s.canonicalUrl))
  }

  /**
   * `create_source`: `url` is the validated URL text and `parts` its
   * `urlsplit`; `newId` is the id the database assigns to the new row.
   */
  method CreateSource(db: Database, url: string, parts: UrlParts, newId: string) returns (r: Result<SourceOut, ApiError>)
    requires db.Valid()
    requires newId != "" && forall s | s in db.sources :: s.id != newId
    modifies db
    ensures db.Valid()
    ensures db.captures == old(db.captures) && db.artifacts == old(db.artifacts)
    ensures CanonicalTaken(old(db.sources), V1OrgId, CanonicalizeUrl(parts)) ==>
              r == Err(Conflict) && db.sources == old(db.sources) && db.events == old(db.events)
    ensures !CanonicalTaken(old(db.sources), V1OrgId, CanonicalizeUrl(parts)) ==>
              var s := NewSource(newId, url, CanonicalizeUrl(parts));
              && r == Ok(SourceOut(newId, url, CanonicalizeUrl(parts)))
              && db.sources == old(db.sources) + [s]
              && db.events == old(db.events) + [SourceCreatedEvent(s)]
    ensures forall sha: Hasher :: Captures.AllChainsIntact(sha, old(db.sources), db.captures) ==>
              Captures.AllChainsIntact(sha, db.sources, db.captures)
  {
    var canonical := CanonicalizeUrl(parts);
    if CanonicalTaken(db.sources, V1OrgId, canonical) {
      return Err(Conflict);
    }
    var s := NewSource(newId, url, canonical);
    AddSourceValid(db.sources, db.captures, s);
    forall sha: Hasher | Captures.AllChainsIntact(sha, db.sources, db.captures)
      ensures Captures.AllChainsIntact(sha, db.sources + [s], db.captures)
    {
      AddSourceKeepsChainsIntact(sha, db.sources, db.captures, s);
    }
    db.sources := db.sources + [s];
    db.events := db.events + [SourceCreatedEvent(s)];
    r := Ok(SourceOut(s.id, s.url, s.canonicalUrl));
  }

  /** A source with a fresh id and a canonical URL its organisation does not have yet keeps the tables consistent. */
  lemma AddSourceValid(sources: seq<Source>, captures: seq<Capture>, s: Source)
    requires TablesValid(sources, captures)
    requires s.id != "" && forall t | t in sources :: t.id != s.id
    requires !CanonicalTaken(sources, s.orgId, s.canonicalUrl)
    ensures TablesValid(sources + [s], captures)
  {
    var all := sources + [s];
    forall c | c in captures ensures exists t | t in all :: t.id == c.sourceId {
      var t :| t in sources && t.id == c.sourceId;
      assert t in all;
    }
    forall i | 0 <= i < |sources| ensures sources[i] in sources {
    }
  }

  /**
   * A new source has no captures yet, so registering one keeps every
   * source's chain intact: the store invariant that the proof pack relies
   * on holds across both write endpoints.
   */
  lemma {:induction false} AddSourceKeepsChainsIntact(sha: Hasher, sources: seq<Source>, captures: seq<Capture>, s: Source)
    requires TablesValid(sources, captures)
    requires forall t | t in sources :: t.id != s.id
    requires Captures.AllChainsIntact(sha, sources, captures)
    ensures SourceCaptures(captures, s.id) == []
    ensures Captures.AllChainsIntact(sha, sources + [s], captures)
  {
    forall c | c in captures ensures !OfSource(c, s.id) {
      var t :| t in sources && t.id == c.sourceId;
    }
    NoSourceCaptures(captures, s.id);
    forall t | t in sources + [s] && t.orgId == V1OrgId
      ensures Captures.ChainIntact(sha, SourceCaptures(captures, t.id), t.canonicalUrl)
    {
      if t !in sources {
        assert t == s;
      }
    }
  }

  /**
   * Registering a URL succeeds exactly when no source of the organisation
   * has its canonical form, so after any number of registrations no two
   * sources of one organisation share a canonical URL; and two URLs that
   * differ only in letter case of scheme and host, the fragment or one
   * trailing slash compete for the same slot.
   */
  lemma VariantsConflict(sources: seq<Source>, id: string, url: string, u: UrlParts, v: UrlParts)
    requires Lower(u.scheme) == Lower(v.scheme) && Lower(u.netloc) == Lower(v.netloc)
    requires u.query == v.query
    requires u.path == v.path || (u.path == v.path + "/" && !EndsWithSlash(v.path))
    ensures CanonicalTaken(sources + [NewSource(id, url, CanonicalizeUrl(v))], V1OrgId, CanonicalizeUrl(u))
  {
    VariantsAgree(u, v);
    var all := sources + [NewSource(id, url, CanonicalizeUrl(v))];
    assert all[|sources|].canonicalUrl == CanonicalizeUrl(u);
  }
}
