/** The batched poll against one poll per source (feeds/services/_reddit_batch.py, feeds/services/polling.py). */
module BatchRefinement {
  import opened Common
  import opened Sources
  import opened FeedLog
  import opened Polling
  import opened UrlChunks
  import opened RedditBatch

  predicate Marked(chunk: seq<Pair>) {
    forall i :: 0 <= i < |chunk| ==> chunk[i].source.mark.Some?
  }

  /** What a sub's own poll reads: its own listing, walked back to its own mark. */
  function OwnStream(listing: seq<Payload>, pair: Pair): seq<Payload>
    requires pair.source.mark.Some?
  {
    Walk(OfSub(listing, pair.subreddit), pair.source.mark.value)
  }

  /** What the combined request reads: the merged listing of the chunk, walked back to its earliest mark. */
  function CombinedStream(listing: seq<Payload>, chunk: seq<Pair>): seq<Payload> {
    match Since(chunk)
    case None => OfChunk(listing, chunk)
    case Some(since) => Walk(OfChunk(listing, chunk), since)
  }

  /** One poll per source, in the same order. */
  function SingleAll(p: Polled, account: string, chunk: seq<Pair>, listing: seq<Payload>, at: nat -> Time): Polled
    requires Marked(chunk)
  {
    if chunk == [] then p else
    var pair := chunk[|chunk| - 1];
    PollOne(SingleAll(p, account, chunk[..|chunk| - 1], listing, at),
            account, pair.source, Display(pair), OwnStream(listing, pair), at(pair.source.id))
  }

  lemma {:induction false} SinceIsEarliest(chunk: seq<Pair>)
    ensures forall i :: 0 <= i < |chunk| && chunk[i].source.mark.Some? ==>
      Since(chunk).Some? && Since(chunk).value <= chunk[i].source.mark.value
    ensures Since(chunk).Some? ==> exists i :: 0 <= i < |chunk| && chunk[i].source.mark == Since(chunk)
  {
    if chunk != [] {
      var n := |chunk| - 1;
      SinceIsEarliest(chunk[..n]);
      assert Since(chunk) == Since(chunk[..n]) || Since(chunk) == chunk[n].source.mark;
      if Since(chunk).Some? && Since(chunk) == Since(chunk[..n]) {
        var i :| 0 <= i < n && chunk[..n][i].source.mark == Since(chunk[..n]);
        assert chunk[i].source.mark == Since(chunk);
      }
    }
  }

  lemma {:induction false} OfChunkMeans(ps: seq<Payload>, chunk: seq<Pair>)
    ensures forall p :: p in OfChunk(ps, chunk) <==> p in ps && Lower(p.subreddit) in Folded(chunk)
    ensures NewestFirst(ps) ==> NewestFirst(OfChunk(ps, chunk))
  {
    if ps != [] {
      OfChunkMeans(ps[1..], chunk);
      if NewestFirst(ps) {
        assert NewestFirst(ps[1..]);
        forall p | p in OfChunk(ps[1..], chunk) ensures p.occurredAt <= ps[0].occurredAt {
          var j :| 0 <= j < |ps[1..]| && ps[1..][j] == p;
          assert ps[j + 1] == p;
        }
      }
    }
  }

  /** Fetching wide and cutting per sub gives the same posts, in the same order, as fetching narrow. */
  lemma {:induction false} WideThenCut(ps: seq<Payload>, chunk: seq<Pair>, sub: string, since: Time, mark: Time)
    requires Lower(sub) in Folded(chunk) && since <= mark
    ensures From(OfSub(From(OfChunk(ps, chunk), since), sub), mark) == From(OfSub(ps, sub), mark)
  {
    if ps != [] {
      WideThenCut(ps[1..], chunk, sub, since, mark);
      if Lower(ps[0].subreddit) in Folded(chunk) {
        assert OfChunk(ps, chunk) == [ps[0]] + OfChunk(ps[1..], chunk);
        assert OfChunk(ps, chunk)[1..] == OfChunk(ps[1..], chunk);
        var wide := From(OfChunk(ps[1..], chunk), since);
        if ps[0].occurredAt >= since {
          assert ([ps[0]] + wide)[1..] == wide;
          if Lower(ps[0].subreddit) == Lower(sub) {
            assert ([ps[0]] + OfSub(wide, sub))[1..] == OfSub(wide, sub);
            assert ([ps[0]] + OfSub(ps[1..], sub))[1..] == OfSub(ps[1..], sub);
          }
        } else if Lower(ps[0].subreddit) == Lower(sub) {
          assert ([ps[0]] + OfSub(ps[1..], sub))[1..] == OfSub(ps[1..], sub);
        }
      }
    }
  }

  lemma {:induction false} ShareIsOwnStream(listing: seq<Payload>, chunk: seq<Pair>, i: nat)
    requires NewestFirst(listing) && Marked(chunk) && i < |chunk|
    ensures CutOff(OfSub(CombinedStream(listing, chunk), chunk[i].subreddit), chunk[i].source.mark)
            == OwnStream(listing, chunk[i])
  {
    SinceIsEarliest(chunk);
    OfChunkMeans(listing, chunk);
    OfSubMeans(listing, chunk[i].subreddit);
    WalkIsFrom(OfChunk(listing, chunk), Since(chunk).value);
    WalkIsFrom(OfSub(listing, chunk[i].subreddit), chunk[i].source.mark.value);
    assert Lower(chunk[i].subreddit) in Folded(chunk);
    WideThenCut(listing, chunk, chunk[i].subreddit, Since(chunk).value, chunk[i].source.mark.value);
  }

  /** The batch's maximum and the single poll's running newest lead to the same compare-and-set. */
  lemma {:induction false} NewestFromMark(items: seq<Payload>, mark: Time)
    requires items != []
    ensures Newest(items, mark) == if Newest(items[1..], items[0].occurredAt) > mark
                                   then Newest(items[1..], items[0].occurredAt) else mark
  {
    NewestMeans(items, mark);
    NewestMeans(items[1..], items[0].occurredAt);
    var top := Newest(items[1..], items[0].occurredAt);
    assert items == [items[0]] + items[1..] && items[0] in items;
    if top != items[0].occurredAt {
      var p :| p in items[1..] && p.occurredAt == top;
      assert p in items;
    }
    assert exists p :: p in items && p.occurredAt == top;
    if Newest(items, mark) != mark {
      var p :| p in items && p.occurredAt == Newest(items, mark);
      assert p == items[0] || p in items[1..];
    }
  }

  lemma {:induction false} ShareIsPollOne(p: Polled, account: string, pair: Pair, stream: seq<Payload>,
                                          own: seq<Payload>, at: Time)
    requires pair.source.mark.Some? && CutOff(OfSub(stream, pair.subreddit), pair.source.mark) == own
    ensures BatchOne(p, account, pair, stream, at) == PollOne(p, account, pair.source, Display(pair), own, at)
  {
    if own != [] {
      NewestFromMark(own, pair.source.mark.value);
    }
  }

  /** One clean combined request leaves exactly what one clean poll per source would: the same marks, the
      same log down to label and tags, the same counts - whatever else happened to the rows meanwhile. */
  lemma {:induction false} BatchRefinesSinglePolls(p: Polled, account: string, chunk: seq<Pair>,
                                                   listing: seq<Payload>, at: nat -> Time)
    requires NewestFirst(listing) && Marked(chunk)
    ensures BatchAll(p, account, chunk, CombinedStream(listing, chunk), at) == SingleAll(p, account, chunk, listing, at)
  {
    PrefixRefines(p, account, chunk, |chunk|, listing, at);
    assert chunk[..|chunk|] == chunk;
  }

  lemma {:induction false} PrefixRefines(p: Polled, account: string, chunk: seq<Pair>, n: nat, listing: seq<Payload>,
                                         at: nat -> Time)
    requires NewestFirst(listing) && Marked(chunk) && n <= |chunk|
    ensures BatchAll(p, account, chunk[..n], CombinedStream(listing, chunk), at)
            == SingleAll(p, account, chunk[..n], listing, at)
  {
    if n > 0 {
      PrefixRefines(p, account, chunk, n - 1, listing, at);
      assert chunk[..n][..n - 1] == chunk[..n - 1];
      ShareIsOwnStream(listing, chunk, n - 1);
      ShareIsPollOne(SingleAll(p, account, chunk[..n - 1], listing, at), account, chunk[n - 1],
                     CombinedStream(listing, chunk), OwnStream(listing, chunk[n - 1]), at(chunk[n - 1].source.id));
    }
  }

  lemma {:induction false} SinglePollsCompose(p: Polled, account: string, a: seq<Pair>, b: seq<Pair>,
                                              listing: seq<Payload>, at: nat -> Time)
    requires Marked(a) && Marked(b)
    ensures Marked(a + b)
    ensures SingleAll(p, account, a + b, listing, at)
            == SingleAll(SingleAll(p, account, a, listing, at), account, b, listing, at)
  {
    if b == [] {
      assert a + b == a;
    } else {
      SinglePollsCompose(p, account, a, b[..|b| - 1], listing, at);
      assert (a + b)[..|a + b| - 1] == a + b[..|b| - 1];
    }
  }

  /** However the sources are packed, a group whose requests are all clean leaves exactly what polling every
      source on its own would, in the same order. */
  lemma {:induction false} GroupRefinesSinglePolls(p: Polled, account: string, chunks: seq<seq<Pair>>,
                                                   fetch: nat -> Fetch, listing: seq<Payload>, at: nat -> Time)
    requires NewestFirst(listing) && Marked(Flatten(chunks))
    requires forall k :: 0 <= k < |chunks| ==> fetch(k) == Fetch(CombinedStream(listing, chunks[k]), false)
    ensures GroupAll(p, account, chunks, fetch, at) == SingleAll(p, account, Flatten(chunks), listing, at)
    ensures Credit(chunks, fetch) == |Flatten(chunks)|
  {
    if chunks != [] {
      var k := |chunks| - 1;
      var a, b := Flatten(chunks[..k]), chunks[k];
      assert Flatten(chunks) == a + b;
      forall i | 0 <= i < |a| ensures a[i].source.mark.Some? { assert a[i] == (a + b)[i]; }
      forall i | 0 <= i < |b| ensures b[i].source.mark.Some? { assert b[i] == (a + b)[|a| + i]; }
      GroupRefinesSinglePolls(p, account, chunks[..k], fetch, listing, at);
      BatchRefinesSinglePolls(GroupAll(p, account, chunks[..k], fetch, at), account, b, listing, at);
      SinglePollsCompose(p, account, a, b, listing, at);
    }
  }

  /** A group in which every request raises changes no mark and no log row. */
  lemma {:induction false} FailedGroupChangesNothing(p: Polled, account: string, chunks: seq<seq<Pair>>,
                                                     fetch: nat -> Fetch, at: nat -> Time)
    requires forall k :: 0 <= k < |chunks| ==> fetch(k).raised
    ensures GroupAll(p, account, chunks, fetch, at) == p && Credit(chunks, fetch) == 0
  {
    if chunks != [] {
      FailedGroupChangesNothing(p, account, chunks[..|chunks| - 1], fetch, at);
    }
  }

  // A combined walk may be cut short by the request's depth. What that costs a source:

  /** A post of the sub among `ps`, and newer than `x`. */
  predicate Newer(ps: seq<Payload>, pair: Pair, x: Payload, y: Payload) {
    y in ps && SameButCase(y.subreddit, pair.subreddit) && y.occurredAt > x.occurredAt
  }

  /** No post of the sub among `ps`, at or after its mark, has the key of `x`. */
  predicate Unread(ps: seq<Payload>, pair: Pair, x: Payload)
    requires pair.source.mark.Some?
  {
    forall y :: y in ps && IsOf(y, pair) ==> KeyOf(y) != KeyOf(x)
  }

  /** The source's own poll would have read `x`; now it has no row, and the mark has passed it. */
  predicate Stranded(after: Db, id: nat, x: Payload) {
    KeyOf(x) !in after.log && id in after.table && after.table[id].mark.Some?
    && x.occurredAt < after.table[id].mark.value
  }

  lemma {:induction false} OwnStreamMeans(listing: seq<Payload>, chunk: seq<Pair>, i: nat)
    requires NewestFirst(listing) && Marked(chunk) && i < |chunk|
    ensures forall x :: x in OwnStream(listing, chunk[i]) ==>
              x in CombinedStream(listing, chunk) && IsOf(x, chunk[i])
  {
    ShareIsOwnStream(listing, chunk, i);
    ShareMeans(CombinedStream(listing, chunk), chunk[i]);
  }

  /** A walk cut after `cut` posts strands a post of a source exactly when it is not in the log, lies beyond the
      cut, and a newer post of the same sub lies before it. A sub none of whose posts came through loses nothing. */
  lemma {:induction false} CutStrandsIff(p: Polled, account: string, chunk: seq<Pair>, i: nat, listing: seq<Payload>,
                                         cut: nat, at: Time, x: Payload)
    requires NewestFirst(listing) && Marked(chunk) && i < |chunk| && cut <= |CombinedStream(listing, chunk)|
    requires var source := chunk[i].source;
             source.id in p.db.table && p.db.table[source.id] == source && source.account == account
    requires x in OwnStream(listing, chunk[i])
    ensures var pair, read := chunk[i], CombinedStream(listing, chunk)[..cut];
            var after := BatchOne(p, account, pair, read, at).db;
            && (Unread(read, pair, x) ==> x in CombinedStream(listing, chunk)[cut..])
            && (Stranded(after, pair.source.id, x) <==>
                  KeyOf(x) !in p.db.log && Unread(read, pair, x) && exists y :: Newer(read, pair, x, y))
  {
    var pair, full := chunk[i], CombinedStream(listing, chunk);
    var read, mark := full[..cut], pair.source.mark.value;
    var share := CutOff(OfSub(read, pair.subreddit), pair.source.mark);
    OwnStreamMeans(listing, chunk, i);
    assert full == read + full[cut..];
    ShareIsPollOne(p, account, pair, read, share, at);
    CleanPollCatchesUp(p, account, pair.source, Display(pair), share, at);
    StaysUnrecorded(p.db.log, Stamp(Display(pair), pair.source.meta, at), read, pair, share, x);
    MarkPasses(read, pair, share, x);
    assert Unread(read, pair, x) ==> x !in read;
  }

  lemma {:induction false} StaysUnrecorded(log: Log, s: Stamp, read: seq<Payload>, pair: Pair, share: seq<Payload>,
                                           x: Payload)
    requires pair.source.mark.Some? && share == CutOff(OfSub(read, pair.subreddit), pair.source.mark)
    ensures KeyOf(x) !in InsertAll(log, s, share) <==> KeyOf(x) !in log && Unread(read, pair, x)
  {
    ShareMeans(read, pair);
    InsertAllMeans(log, s, share);
    if KeyOf(x) in InsertAll(log, s, share) && KeyOf(x) !in log {
      var y :| y in share && KeyOf(y) == KeyOf(x);
      assert !Unread(read, pair, x);
    }
    if !Unread(read, pair, x) {
      var y :| y in read && IsOf(y, pair) && KeyOf(y) == KeyOf(x);
      assert y in share;
    }
  }

  lemma {:induction false} MarkPasses(read: seq<Payload>, pair: Pair, share: seq<Payload>, x: Payload)
    requires pair.source.mark.Some? && share == CutOff(OfSub(read, pair.subreddit), pair.source.mark)
    requires x.occurredAt >= pair.source.mark.value
    ensures x.occurredAt < Newest(share, pair.source.mark.value) <==> exists y :: Newer(read, pair, x, y)
  {
    var mark := pair.source.mark.value;
    ShareMeans(read, pair);
    NewestMeans(share, mark);
    if x.occurredAt < Newest(share, mark) {
      var y :| y in share && y.occurredAt == Newest(share, mark);
      assert Newer(read, pair, x, y);
    }
    if y :| Newer(read, pair, x, y) {
      assert y in share;
    }
  }

  // The rest assumes less of the two fetches: any order, any repetition, and either reading of a post dated
  // exactly at a mark.

  /** A clean poll of one sub: nothing but its own posts from the mark on, and every one past it. */
  ghost predicate CleanOwn(upstream: set<Payload>, pair: Pair, stream: seq<Payload>)
    requires pair.source.mark.Some?
  {
    && (forall p :: p in stream ==> p in upstream && Lower(p.subreddit) == Lower(pair.subreddit)
                                    && p.occurredAt >= pair.source.mark.value)
    && (forall p :: p in upstream && Lower(p.subreddit) == Lower(pair.subreddit) ==>
          p.occurredAt > pair.source.mark.value ==> p in stream)
  }

  /** A post of the chunk past its earliest mark. */
  ghost predicate Expected(chunk: seq<Pair>, p: Payload) {
    Lower(p.subreddit) in Folded(chunk) && (Since(chunk).None? || p.occurredAt > Since(chunk).value)
  }

  /** A clean combined fetch: upstream posts only, and every post of the chunk past its earliest mark. */
  ghost predicate CleanCombined(upstream: set<Payload>, chunk: seq<Pair>, stream: seq<Payload>) {
    && (forall p :: p in stream ==> p in upstream)
    && (forall p :: p in upstream && Expected(chunk, p) ==> p in stream)
  }

  lemma {:induction false} ShareIsClean(upstream: set<Payload>, chunk: seq<Pair>, stream: seq<Payload>, i: nat)
    requires Marked(chunk) && i < |chunk| && CleanCombined(upstream, chunk, stream)
    ensures CleanOwn(upstream, chunk[i], CutOff(OfSub(stream, chunk[i].subreddit), chunk[i].source.mark))
  {
    var pair := chunk[i];
    OfSubMeans(stream, pair.subreddit);
    FromMeans(OfSub(stream, pair.subreddit), pair.source.mark.value);
    SinceIsEarliest(chunk);
    assert Lower(pair.subreddit) in Folded(chunk);
  }

  /** Two clean reads of one sub see the same newest instant. */
  lemma {:induction false} CleanReadsAgree(upstream: set<Payload>, pair: Pair, a: seq<Payload>, b: seq<Payload>)
    requires pair.source.mark.Some? && CleanOwn(upstream, pair, a) && CleanOwn(upstream, pair, b)
    ensures Newest(a, pair.source.mark.value) == Newest(b, pair.source.mark.value)
  {
    NewestMeans(a, pair.source.mark.value);
    NewestMeans(b, pair.source.mark.value);
  }

  /** Keys of upstream posts dated exactly at the mark of their sub's source. */
  ghost function TieKeys(upstream: set<Payload>, chunk: seq<Pair>): set<Key> {
    set p, i | p in upstream && 0 <= i < |chunk| && Lower(chunk[i].subreddit) == Lower(p.subreddit)
               && chunk[i].source.mark == Some(p.occurredAt) :: KeyOf(p)
  }

  /** The log after recording, as far as its keys go. */
  lemma {:induction false} RecordedKeys(log: Log, s: Stamp, ps: seq<Payload>)
    ensures InsertAll(log, s, ps).Keys == log.Keys + set p | p in ps :: KeyOf(p)
  {
    InsertAllMeans(log, s, ps);
  }

  /** Single polls over given streams, one per source. */
  function SingleOver(p: Polled, account: string, chunk: seq<Pair>, streams: seq<seq<Payload>>, at: nat -> Time): Polled
    requires Marked(chunk) && |streams| == |chunk|
  {
    if chunk == [] then p else
    var n := |chunk| - 1;
    PollOne(SingleOver(p, account, chunk[..n], streams[..n], at),
            account, chunk[n].source, Display(chunk[n]), streams[n], at(chunk[n].source.id))
  }

  lemma {:induction false} SingleOverExtends(p: Polled, account: string, chunk: seq<Pair>, i: nat,
                                             streams: seq<seq<Payload>>, at: nat -> Time)
    requires Marked(chunk) && |streams| == |chunk| && i < |chunk|
    ensures SingleOver(p, account, chunk[..i + 1], streams[..i + 1], at)
            == PollOne(SingleOver(p, account, chunk[..i], streams[..i], at),
                       account, chunk[i].source, Display(chunk[i]), streams[i], at(chunk[i].source.id))
  {
    assert chunk[..i + 1][..i] == chunk[..i] && streams[..i + 1][..i] == streams[..i];
  }

  /** For any clean combined fetch and any clean per-source fetches of the same upstream posts, every source
      ends at the same mark, and the logs hold the same keys except, at most, posts dated exactly at their
      sub's mark. Where the single polls skip such posts, the batch's log holds theirs and maybe those. */
  lemma {:induction false} AgreeUpToTies(p: Polled, account: string, upstream: set<Payload>, chunk: seq<Pair>,
                                         stream: seq<Payload>, streams: seq<seq<Payload>>, at: nat -> Time)
    requires Marked(chunk) && |streams| == |chunk| && CleanCombined(upstream, chunk, stream)
    requires forall i :: 0 <= i < |chunk| ==> CleanOwn(upstream, chunk[i], streams[i])
    ensures var batch, single := BatchAll(p, account, chunk, stream, at), SingleOver(p, account, chunk, streams, at);
            && batch.db.table == single.db.table
            && batch.db.log.Keys - TieKeys(upstream, chunk) == single.db.log.Keys - TieKeys(upstream, chunk)
            && (SkipsTies(chunk, streams) ==> single.db.log.Keys <= batch.db.log.Keys)
  {
    forall i | 0 <= i < |chunk|
      ensures Near(chunk[i].source.mark.value, Share(chunk[i], stream), streams[i],
                   TieKeys(upstream, chunk), SkipsTies(chunk, streams))
    {
      ShareIsClean(upstream, chunk, stream, i);
      CleanReadsAgree(upstream, chunk[i], Share(chunk[i], stream), streams[i]);
      TiesApart(upstream, chunk, i, Share(chunk[i], stream), streams[i]);
    }
    PrefixAgrees(p, account, chunk, |chunk|, stream, streams, at, TieKeys(upstream, chunk), SkipsTies(chunk, streams));
    assert chunk[..|chunk|] == chunk && streams[..|chunk|] == streams;
  }

  /** What the two ways of polling have in common after the same sources. */
  ghost predicate Agree(batch: Polled, single: Polled, ties: set<Key>, skipsTies: bool) {
    && batch.db.table == single.db.table
    && batch.db.log.Keys - ties == single.db.log.Keys - ties
    && (skipsTies ==> single.db.log.Keys <= batch.db.log.Keys)
  }

  /** Two reads of one source that differ at most in its ties. */
  ghost predicate Near(mark: Time, share: seq<Payload>, own: seq<Payload>, ties: set<Key>, skipsTies: bool) {
    && Newest(share, mark) == Newest(own, mark)
    && (set p | p in share :: KeyOf(p)) - ties == (set p | p in own :: KeyOf(p)) - ties
    && (skipsTies ==> (set p | p in own :: KeyOf(p)) <= (set p | p in share :: KeyOf(p)))
  }

  lemma {:induction false} OneMoreAgrees(b: Polled, s: Polled, account: string, pair: Pair, share: seq<Payload>,
                                         own: seq<Payload>, at: Time, ties: set<Key>, skipsTies: bool)
    requires pair.source.mark.Some? && Agree(b, s, ties, skipsTies)
    requires Near(pair.source.mark.value, share, own, ties, skipsTies)
    ensures Agree(PollOne(b, account, pair.source, Display(pair), share, at),
                  PollOne(s, account, pair.source, Display(pair), own, at), ties, skipsTies)
  {
    var stamp := Stamp(Display(pair), pair.source.meta, at);
    RecordedKeys(b.db.log, stamp, share);
    RecordedKeys(s.db.log, stamp, own);
    var inBatch, inSingle := b.db.log.Keys, s.db.log.Keys;
    var shared, owned := set p | p in share :: KeyOf(p), set p | p in own :: KeyOf(p);
    assert (inBatch + shared) - ties == (inBatch - ties) + (shared - ties);
    assert (inSingle + owned) - ties == (inSingle - ties) + (owned - ties);
  }

  ghost predicate SkipsTies(chunk: seq<Pair>, streams: seq<seq<Payload>>)
    requires Marked(chunk) && |streams| == |chunk|
  {
    forall i, q :: 0 <= i < |chunk| && q in streams[i] ==> q.occurredAt > chunk[i].source.mark.value
  }

  /** What the combined stream leaves for one source. */
  function Share(pair: Pair, stream: seq<Payload>): seq<Payload> {
    CutOff(OfSub(stream, pair.subreddit), pair.source.mark)
  }

  ghost predicate AllNear(chunk: seq<Pair>, stream: seq<Payload>, streams: seq<seq<Payload>>, ties: set<Key>,
                          skipsTies: bool)
    requires Marked(chunk) && |streams| == |chunk|
  {
    forall i :: 0 <= i < |chunk| ==>
      Near(chunk[i].source.mark.value, Share(chunk[i], stream), streams[i], ties, skipsTies)
  }

  lemma {:induction false} PrefixAgrees(p: Polled, account: string, chunk: seq<Pair>, n: nat, stream: seq<Payload>,
                                        streams: seq<seq<Payload>>, at: nat -> Time, ties: set<Key>, skipsTies: bool)
    requires Marked(chunk) && |streams| == |chunk| && n <= |chunk| && AllNear(chunk, stream, streams, ties, skipsTies)
    ensures Agree(BatchAll(p, account, chunk[..n], stream, at), SingleOver(p, account, chunk[..n], streams[..n], at),
                  ties, skipsTies)
  {
    if n > 0 {
      var m, pair := n - 1, chunk[n - 1];
      PrefixAgrees(p, account, chunk, m, stream, streams, at, ties, skipsTies);
      BatchAllExtends(p, account, chunk, m, stream, at);
      SingleOverExtends(p, account, chunk, m, streams, at);
      var b := BatchAll(p, account, chunk[..m], stream, at);
      ShareIsPollOne(b, account, pair, stream, Share(pair, stream), at(pair.source.id));
      OneMoreAgrees(b, SingleOver(p, account, chunk[..m], streams[..m], at), account, pair, Share(pair, stream),
                    streams[m], at(pair.source.id), ties, skipsTies);
    }
  }

  /** Two clean reads of one sub differ at most in its ties. */
  lemma {:induction false} TiesApart(upstream: set<Payload>, chunk: seq<Pair>, i: nat, a: seq<Payload>, b: seq<Payload>)
    requires Marked(chunk) && i < |chunk| && CleanOwn(upstream, chunk[i], a) && CleanOwn(upstream, chunk[i], b)
    ensures (set p | p in a :: KeyOf(p)) - TieKeys(upstream, chunk)
            == (set p | p in b :: KeyOf(p)) - TieKeys(upstream, chunk)
    ensures (forall q :: q in b ==> q.occurredAt > chunk[i].source.mark.value) ==>
              (set p | p in b :: KeyOf(p)) <= (set p | p in a :: KeyOf(p))
  {
    forall p | p in a && p !in b ensures KeyOf(p) in TieKeys(upstream, chunk) {
      assert chunk[i].source.mark == Some(p.occurredAt);
    }
    forall p | p in b && p !in a ensures KeyOf(p) in TieKeys(upstream, chunk) {
      assert chunk[i].source.mark == Some(p.occurredAt);
    }
  }
}
