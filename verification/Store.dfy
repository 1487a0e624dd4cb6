// The exact-match cache collection (cache/store.py): put, lookup and expiry.

module Store {
  import opened Common
  import opened Stages
  import opened Capture

  datatype CacheDoc = CacheDoc(
    key: string,
    streamed: bool,
    provider: string,
    endpoint: string,
    statusCode: int,
    contentType: Option<string>,
    body: Bytes,
    createdAt: real,
    expiresAt: real)

  /** The document `put` inserts for a cacheable capture at `now`. */
  function DocumentOf(c: RawCapture, now: real, ttl: real): CacheDoc
    requires CacheableIdentity(c).Some?
  {
    var id := CacheableIdentity(c).value;
    CacheDoc(id.key, id.streamed, c.provider, c.endpoint, c.httpStatus.value, c.contentType, c.responseBody, now, now
        + ttl)
  }

  /** The document holds what the capture holds, under its key and format. */
  predicate CopyOf(d: CacheDoc, c: RawCapture) {
    && Some(d.key) == c.cacheKey && d.streamed == c.streamed
    && d.provider == c.provider && d.endpoint == c.endpoint
    && Some(d.statusCode) == c.httpStatus && d.contentType == c.contentType && d.body == c.responseBody
  }

  predicate Matches(d: CacheDoc, id: CacheIdentity, now: real) {
    d.key == id.key && d.streamed == id.streamed && d.expiresAt > now
  }

  /** What `find_one` sorted newest-first may return for a query issued at `now`; ties are free. */
  predicate Finds(docs: set<CacheDoc>, id: CacheIdentity, now: real, result: Option<CacheDoc>) {
    match result
    case None => forall d :: d in docs ==> !Matches(d, id, now)
    case Some(d) => d in docs && Matches(d, id, now) && forall e :: e in docs && Matches(e, id, now) ==>
        e.createdAt <= d.createdAt
  }

  /** A lookup always has an answer. */
  lemma {:induction false} SomethingIsFound(docs: set<CacheDoc>, id: CacheIdentity, now: real)
      returns (result: Option<CacheDoc>)
    ensures Finds(docs, id, now, result)
    decreases docs
  {
    if docs == {} {
      result := None;
    } else {
      var d :| d in docs;
      var rest := SomethingIsFound(docs - {d}, id, now);
      result := if Matches(d, id, now) && (rest.None? || rest.value.createdAt <= d.createdAt) then Some(d) else rest;
    }
  }

  /**
   * When the reaper runs never matters: deleting documents expired by a lookup's own time changes none
   * of its answers.
   */
  lemma ReapingIsInvisible(docs: set<CacheDoc>, doomed: set<CacheDoc>, id: CacheIdentity,
                                              now: real, result: Option<CacheDoc>)
    requires forall d :: d in doomed ==> d.expiresAt <= now
    ensures Finds(docs - doomed, id, now, result) <==> Finds(docs, id, now, result)
  {
    forall d | d in docs && Matches(d, id, now) ensures d in docs - doomed {
    }
  }

  /** Every live match that goes leaves a newer one. */
  ghost predicate Superseded(docs: set<CacheDoc>, doomed: set<CacheDoc>, id: CacheIdentity, now: real) {
    forall d :: d in doomed && Matches(d, id, now) ==>
      exists e :: e in docs && Matches(e, id, now) && e.createdAt > d.createdAt
  }

  lemma SupersededIsInvisible(docs: set<CacheDoc>, doomed: set<CacheDoc>, id: CacheIdentity,
                                                 now: real, result: Option<CacheDoc>)
    requires Superseded(docs, doomed, id, now)
    ensures Finds(docs - doomed, id, now, result) <==> Finds(docs, id, now, result)
  {
    var newest := SomethingIsFound(docs, id, now);
    assert newest.Some? ==> newest.value !in doomed;
  }

  /**
   * Exactly when a deletion matters to a lookup, for every answer it may give: iff it takes a
   * live match without leaving a newer one.
   */
  lemma ReapingMattersExactly(docs: set<CacheDoc>, doomed: set<CacheDoc>, id: CacheIdentity, now: real)
    requires doomed <= docs
    ensures (forall r :: Finds(docs - doomed, id, now, r) <==> Finds(docs, id, now, r))
       <==> Superseded(docs, doomed, id, now)
  {
    if Superseded(docs, doomed, id, now) {
      forall r ensures Finds(docs - doomed, id, now, r) <==> Finds(docs, id, now, r) {
        SupersededIsInvisible(docs, doomed, id, now, r);
      }
    } else {
      var d :| d in doomed && Matches(d, id, now)
        && forall e :: e in docs && Matches(e, id, now) ==> e.createdAt <= d.createdAt;
      assert Finds(docs, id, now, Some(d)) && !Finds(docs - doomed, id, now, Some(d));
    }
  }

  class CacheStore {
    const ttl: real
    var docs: set<CacheDoc>

    constructor (ttl: real)
      ensures this.ttl == ttl && docs == {}
    {
      this.ttl := ttl;
      docs := {};
    }

    method Put(c: RawCapture, now: real)
      requires CacheableIdentity(c).Some?
      modifies this
      ensures docs == old(docs) + {DocumentOf(c, now, ttl)}
      ensures exists d :: docs == old(docs) + {d} && CopyOf(d, c) && d.createdAt == now && d.expiresAt == now + ttl
    {
      var id := CacheableIdentity(c).value;
      docs := docs + {CacheDoc(id.key, id.streamed, c.provider, c.endpoint, c.httpStatus.value, c.contentType,
                               c.responseBody, now, now + ttl)};
      assert CopyOf(DocumentOf(c, now, ttl), c);
    }

    method Lookup(id: CacheIdentity, now: real) returns (result: Option<CacheDoc>)
      ensures Finds(docs, id, now, result)
      ensures result.Some? ==>
        && result.value in docs && result.value.key == id.key && result.value.streamed == id.streamed
        && result.value.expiresAt > now
      ensures forall d :: d in docs && d.key == id.key && d.streamed == id.streamed && d.expiresAt > now ==>
        result.Some? && d.createdAt <= result.value.createdAt
    {
      result := None;
      var todo := docs;
      while todo != {}
        invariant todo <= docs
        invariant Finds(docs - todo, id, now, result)
        decreases todo
      {
        var d :| d in todo;
        todo := todo - {d};
        if Matches(d, id, now) && (result.None? || result.value.createdAt < d.createdAt) {
          result := Some(d);
        }
      }
      assert docs - todo == docs;
    }
  }
}
