/** The batched poll of a feed's subreddits (feeds/services/_reddit_batch.py). */
module RedditBatch {
  import opened Common
  import opened Sources
  import opened FeedLog
  import opened Polling
  import opened UrlChunks

  const MAX_COMBINED_URL_BYTES := 7500
  const COMBINED_URL_OVERHEAD := 75

  /** A row as it comes off the iterator: its spec validates to a slug, to another kind, or not at all. */
  datatype Parsed = Subreddit(slug: string) | OtherKind | Invalid

  datatype Row = Row(source: Source, parsed: Parsed)

  function Folded(pairs: seq<Pair>): set<string> {
    set i | 0 <= i < |pairs| :: Lower(pairs[i].subreddit)
  }

  /** The valid subreddit rows, each case-folded slug once, first row winning. */
  function ParsedPairs(rows: seq<Row>): (pairs: seq<Pair>)
    ensures |pairs| <= |rows|
  {
    if rows == [] then [] else
    var pairs, last := ParsedPairs(rows[..|rows| - 1]), rows[|rows| - 1];
    if last.parsed.Subreddit? && Lower(last.parsed.slug) !in Folded(pairs)
    then pairs + [Pair(last.source, last.parsed.slug)] else pairs
  }

  lemma {:induction false} FoldedAppends(pairs: seq<Pair>, pair: Pair)
    ensures Folded(pairs + [pair]) == Folded(pairs) + {Lower(pair.subreddit)}
  {
    var more := pairs + [pair];
    assert more[|pairs|] == pair;
    forall x | x in Folded(pairs) ensures x in Folded(more) {
      var i :| 0 <= i < |pairs| && Lower(pairs[i].subreddit) == x;
      assert more[i] == pairs[i];
    }
  }

  /** Every valid row's sub is covered, by the first row that carries it, and no sub comes twice. */
  lemma {:induction false} ParsedPairsMeans(rows: seq<Row>)
    ensures forall i, j :: 0 <= i < j < |ParsedPairs(rows)| ==>
      Lower(ParsedPairs(rows)[i].subreddit) != Lower(ParsedPairs(rows)[j].subreddit)
    ensures Folded(ParsedPairs(rows)) == set r | r in rows && r.parsed.Subreddit? :: Lower(r.parsed.slug)
    ensures forall pair :: pair in ParsedPairs(rows) ==> exists k :: 0 <= k < |rows| && IsFirst(rows, k, pair)
  {
    if rows != [] {
      var init, last := rows[..|rows| - 1], rows[|rows| - 1];
      ParsedPairsMeans(init);
      assert rows == init + [last];
      var pairs := ParsedPairs(init);
      if last.parsed.Subreddit? {
        FoldedAppends(pairs, Pair(last.source, last.parsed.slug));
        if Lower(last.parsed.slug) !in Folded(pairs) {
          assert IsFirst(rows, |rows| - 1, Pair(last.source, last.parsed.slug));
          forall i | 0 <= i < |pairs| ensures Lower(pairs[i].subreddit) != Lower(last.parsed.slug) {
            assert Lower(pairs[i].subreddit) in Folded(pairs);
          }
        }
      }
      forall pair | pair in pairs ensures exists k :: 0 <= k < |rows| && IsFirst(rows, k, pair) {
        var k :| 0 <= k < |init| && IsFirst(init, k, pair);
        assert IsFirst(rows, k, pair);
      }
    }
  }

  /** The pairs come in the order of the rows that yield them. */
  lemma {:induction false} ParsedPairsKeepOrder(rows: seq<Row>, i: nat, j: nat) returns (k: nat, l: nat)
    requires i < j < |ParsedPairs(rows)|
    ensures k < l < |rows| && IsFirst(rows, k, ParsedPairs(rows)[i]) && IsFirst(rows, l, ParsedPairs(rows)[j])
  {
    var init, last := rows[..|rows| - 1], rows[|rows| - 1];
    var pairs := ParsedPairs(init);
    if j < |pairs| {
      k, l := ParsedPairsKeepOrder(init, i, j);
    } else {
      ParsedPairsMeans(init);
      assert pairs[i] in pairs;
      k :| 0 <= k < |init| && IsFirst(init, k, pairs[i]);
      l := |rows| - 1;
      NewPairIsFirst(init, last);
    }
  }

  lemma {:induction false} NewPairIsFirst(init: seq<Row>, last: Row)
    requires last.parsed.Subreddit? && Lower(last.parsed.slug) !in Folded(ParsedPairs(init))
    ensures IsFirst(init + [last], |init|, Pair(last.source, last.parsed.slug))
  {
    ParsedPairsMeans(init);
    var rows := init + [last];
    forall j | 0 <= j < |init| && rows[j].parsed.Subreddit?
      ensures Lower(rows[j].parsed.slug) != Lower(last.parsed.slug)
    {
      assert init[j] in init && Lower(init[j].parsed.slug) in Folded(ParsedPairs(init));
    }
  }

  /** Row `k` yields `pair` and no earlier row carries its sub. */
  predicate IsFirst(rows: seq<Row>, k: nat, pair: Pair)
    requires k < |rows|
  {
    && rows[k].parsed == Subreddit(pair.subreddit) && rows[k].source == pair.source
    && forall j :: 0 <= j < k && rows[j].parsed.Subreddit? ==> Lower(rows[j].parsed.slug) != Lower(pair.subreddit)
  }

  method ParseReddit(rows: seq<Row>) returns (pairs: seq<Pair>)
    ensures pairs == ParsedPairs(rows)
  {
    pairs := [];
    var seen: set<string> := {};
    for i := 0 to |rows|
      invariant pairs == ParsedPairs(rows[..i]) && seen == Folded(pairs)
    {
      assert rows[..i + 1][..i] == rows[..i];
      if rows[i].parsed.Subreddit? && Lower(rows[i].parsed.slug) !in seen {
        FoldedAppends(pairs, Pair(rows[i].source, rows[i].parsed.slug));
        seen := seen + {Lower(rows[i].parsed.slug)};
        pairs := pairs + [Pair(rows[i].source, rows[i].parsed.slug)];
      }
    }
    assert rows[..|rows|] == rows;
  }

  /** The posts of one sub, by case-folded tag. */
  function OfSub(ps: seq<Payload>, sub: string): seq<Payload> {
    if ps == [] then []
    else if Lower(ps[0].subreddit) == Lower(sub) then [ps[0]] + OfSub(ps[1..], sub)
    else OfSub(ps[1..], sub)
  }

  /** The posts of a whole chunk: what the combined listing serves. */
  function OfChunk(ps: seq<Payload>, chunk: seq<Pair>): seq<Payload> {
    if ps == [] then []
    else if Lower(ps[0].subreddit) in Folded(chunk) then [ps[0]] + OfChunk(ps[1..], chunk)
    else OfChunk(ps[1..], chunk)
  }

  /** The earliest mark present in a chunk. */
  function Since(chunk: seq<Pair>): Option<Time> {
    if chunk == [] then None else
    var s, m := Since(chunk[..|chunk| - 1]), chunk[|chunk| - 1].source.mark;
    if m.None? then s else if s.Some? && s.value < m.value then s else m
  }

  function CutOff(items: seq<Payload>, mark: Option<Time>): seq<Payload> {
    if mark.Some? then From(items, mark.value) else items
  }

  function Display(pair: Pair): string { "r/" + pair.subreddit }

  /** One source's share of a chunk: cut, record, advance to its own newest. */
  function BatchOne(p: Polled, account: string, pair: Pair, stream: seq<Payload>, at: Time): Polled {
    var source := pair.source;
    var items := CutOff(OfSub(stream, pair.subreddit), source.mark);
    var s := Stamp(Display(pair), source.meta, at);
    var table :=
      if items == [] then p.db.table else
      var newest := Newest(items[1..], items[0].occurredAt);
      if source.mark.None? || newest > source.mark.value then Advance(p.db.table, account, source, newest)
      else p.db.table;
    Polled(Db(InsertAll(p.db.log, s, items), table), p.observed + |items|, p.recorded + NewRows(p.db.log, s, items))
  }

  /** Each source is observed and recorded once, in its own share, with or without a mark. */
  lemma {:induction false} BatchOneCounts(p: Polled, account: string, pair: Pair, stream: seq<Payload>, at: Time)
    ensures var share := CutOff(OfSub(stream, pair.subreddit), pair.source.mark);
            var s := Stamp("r/" + pair.subreddit, pair.source.meta, at);
            var after := BatchOne(p, account, pair, stream, at);
            && after.observed == p.observed + |share|
            && after.recorded == p.recorded + NewRows(p.db.log, s, share)
            && after.db.log == InsertAll(p.db.log, s, share)
  {
  }

  function BatchAll(p: Polled, account: string, chunk: seq<Pair>, stream: seq<Payload>, at: nat -> Time): Polled {
    if chunk == [] then p else
    var pair := chunk[|chunk| - 1];
    BatchOne(BatchAll(p, account, chunk[..|chunk| - 1], stream, at), account, pair, stream, at(pair.source.id))
  }

  lemma {:induction false} BatchAllExtends(p: Polled, account: string, chunk: seq<Pair>, i: nat, stream: seq<Payload>,
                                           at: nat -> Time)
    requires i < |chunk|
    ensures BatchAll(p, account, chunk[..i + 1], stream, at)
            == BatchOne(BatchAll(p, account, chunk[..i], stream, at), account, chunk[i], stream, at(chunk[i].source.id))
  {
    assert chunk[..i + 1][..i] == chunk[..i];
  }

  lemma {:induction false} OfSubMeans(ps: seq<Payload>, sub: string)
    ensures forall p :: p in OfSub(ps, sub) <==> p in ps && Lower(p.subreddit) == Lower(sub)
    ensures NewestFirst(ps) ==> NewestFirst(OfSub(ps, sub))
  {
    if ps != [] {
      OfSubMeans(ps[1..], sub);
      if NewestFirst(ps) {
        assert NewestFirst(ps[1..]);
        forall p | p in OfSub(ps[1..], sub) ensures p.occurredAt <= ps[0].occurredAt {
          var j :| 0 <= j < |ps[1..]| && ps[1..][j] == p;
          assert ps[j + 1] == p;
        }
      }
    }
  }

  /** A source's share: its sub's posts, in any casing, from its mark on - all of them when it has none. */
  lemma {:induction false} ShareMeans(stream: seq<Payload>, pair: Pair)
    ensures forall y :: y in CutOff(OfSub(stream, pair.subreddit), pair.source.mark) <==> y in stream && IsOf(y, pair)
  {
    var own := OfSub(stream, pair.subreddit);
    OfSubMeans(stream, pair.subreddit);
    if pair.source.mark.Some? {
      FromMeans(own, pair.source.mark.value);
    }
    forall y ensures y in own <==> y in stream && SameButCase(y.subreddit, pair.subreddit) {
      FoldingIsExact(y.subreddit, pair.subreddit);
    }
  }

  /** Post `y` is source `pair`'s: tagged with its slug in any casing, and not from before its mark. */
  predicate IsOf(y: Payload, pair: Pair) {
    SameButCase(y.subreddit, pair.subreddit) && (pair.source.mark.Some? ==> y.occurredAt >= pair.source.mark.value)
  }

  /** The row that post `y`, being source `pair`'s, gets. */
  predicate IsRowOf(item: Item, y: Payload, pair: Pair, at: nat -> Time) {
    item == Item("r/" + pair.subreddit, pair.source.meta, y.occurredAt, at(pair.source.id))
  }

  predicate ComesFrom(k: Key, item: Item, stream: seq<Payload>, pair: Pair, at: nat -> Time) {
    exists y :: y in stream && IsOf(y, pair) && KeyOf(y) == k && IsRowOf(item, y, pair, at)
  }

  lemma {:induction false} BatchOneRecords(p: Polled, account: string, pair: Pair, stream: seq<Payload>,
                                           at: nat -> Time)
    ensures var after := BatchOne(p, account, pair, stream, at(pair.source.id)).db.log;
            && (forall y :: y in stream && IsOf(y, pair) ==> KeyOf(y) in after)
            && (forall k :: k in p.db.log ==> k in after && after[k] == p.db.log[k])
            && (forall k :: k in after && k !in p.db.log ==> ComesFrom(k, after[k], stream, pair, at))
  {
    var share := CutOff(OfSub(stream, pair.subreddit), pair.source.mark);
    var s := Stamp(Display(pair), pair.source.meta, at(pair.source.id));
    ShareMeans(stream, pair);
    InsertAllMeans(p.db.log, s, share);
    var after := BatchOne(p, account, pair, stream, at(pair.source.id)).db.log;
    forall k | k in after && k !in p.db.log ensures ComesFrom(k, after[k], stream, pair, at) {
      var y :| y in share && KeyOf(y) == k && after[k] == Item(s.display, s.meta, y.occurredAt, s.at);
      assert IsOf(y, pair) && IsRowOf(after[k], y, pair, at);
    }
  }

  /** After the first `n` sources: all their posts have a row, and every new row is one of their posts'. */
  ghost predicate Records(p: Polled, after: Log, chunk: seq<Pair>, n: nat, stream: seq<Payload>, at: nat -> Time)
    requires n <= |chunk|
  {
    && (forall i, y :: 0 <= i < n && y in stream && IsOf(y, chunk[i]) ==> KeyOf(y) in after)
    && (forall k :: k in p.db.log ==> k in after && after[k] == p.db.log[k])
    && (forall k :: k in after && k !in p.db.log ==>
          exists i :: 0 <= i < n && ComesFrom(k, after[k], stream, chunk[i], at))
  }

  lemma {:induction false} PrefixRecords(p: Polled, account: string, chunk: seq<Pair>, n: nat, stream: seq<Payload>,
                                         at: nat -> Time)
    requires n <= |chunk|
    ensures Records(p, BatchAll(p, account, chunk[..n], stream, at).db.log, chunk, n, stream, at)
  {
    if n > 0 {
      var m := n - 1;
      PrefixRecords(p, account, chunk, m, stream, at);
      BatchAllExtends(p, account, chunk, m, stream, at);
      OneMoreRecords(p, BatchAll(p, account, chunk[..m], stream, at), account, chunk, m, n, stream, at);
    }
  }

  lemma {:induction false} OneMoreRecords(p: Polled, q: Polled, account: string, chunk: seq<Pair>, m: nat, n: nat,
                                          stream: seq<Payload>, at: nat -> Time)
    requires m < |chunk| && n == m + 1 && Records(p, q.db.log, chunk, m, stream, at)
    ensures Records(p, BatchOne(q, account, chunk[m], stream, at(chunk[m].source.id)).db.log, chunk, n, stream, at)
  {
    BatchOneRecords(q, account, chunk[m], stream, at);
    var after := BatchOne(q, account, chunk[m], stream, at(chunk[m].source.id)).db.log;
    forall k | k in after && k !in p.db.log
      ensures exists i :: 0 <= i < n && ComesFrom(k, after[k], stream, chunk[i], at)
    {
      if k in q.db.log {
        var i :| 0 <= i < m && ComesFrom(k, q.db.log[k], stream, chunk[i], at);
        assert ComesFrom(k, after[k], stream, chunk[i], at);
      } else {
        assert ComesFrom(k, after[k], stream, chunk[m], at);
      }
    }
  }

  /** A clean request: every post whose tag is a row's slug, in any casing, and not from before that row's mark has
      a row afterwards; every new row is such a post's, with that source's label and tags. */
  lemma {:induction false} CleanChunkRecords(p: Polled, account: string, chunk: seq<Pair>, stream: seq<Payload>,
                                             at: nat -> Time)
    ensures Records(p, BatchAll(p, account, chunk, stream, at).db.log, chunk, |chunk|, stream, at)
  {
    PrefixRecords(p, account, chunk, |chunk|, stream, at);
    assert chunk[..|chunk|] == chunk;
  }

  /** Every post tagged with a row's slug, in any casing, and not from before that row's mark, has its key in. */
  predicate LosesNoPost(log: Log, chunk: seq<Pair>, posts: seq<Payload>) {
    forall i, y :: 0 <= i < |chunk| && y in posts && SameButCase(y.subreddit, chunk[i].subreddit) ==>
      (chunk[i].source.mark.Some? ==> y.occurredAt >= chunk[i].source.mark.value) ==> Key(y.source, y.externalId) in log
  }

  lemma {:induction false} BatchLosesNoPost(p: Polled, account: string, chunk: seq<Pair>, stream: seq<Payload>,
                                            at: nat -> Time)
    ensures LosesNoPost(BatchAll(p, account, chunk, stream, at).db.log, chunk, stream)
  {
    CleanChunkRecords(p, account, chunk, stream, at);
    var after := BatchAll(p, account, chunk, stream, at).db.log;
    forall i, y | 0 <= i < |chunk| && y in stream && SameButCase(y.subreddit, chunk[i].subreddit)
      ensures (chunk[i].source.mark.Some? ==> y.occurredAt >= chunk[i].source.mark.value) ==>
                Key(y.source, y.externalId) in after
    {
      if chunk[i].source.mark.Some? ==> y.occurredAt >= chunk[i].source.mark.value {
        assert IsOf(y, chunk[i]) && KeyOf(y) in after;
      }
    }
  }

  /** The mark a source of a clean request ends at: its own newest post's, or where it stood. */
  ghost predicate EndsAt(mark: Option<Time>, pair: Pair, stream: seq<Payload>) {
    && (forall y :: y in stream && IsOf(y, pair) ==> mark.Some? && y.occurredAt <= mark.value)
    && (mark == pair.source.mark || exists y :: y in stream && IsOf(y, pair) && mark == Some(y.occurredAt))
  }

  lemma {:induction false} BatchOneEnds(p: Polled, account: string, pair: Pair, stream: seq<Payload>, at: Time)
    ensures var t, t' := p.db.table, BatchOne(p, account, pair, stream, at).db.table;
            && t'.Keys == t.Keys
            && (forall id :: id in t && id != pair.source.id ==> t'[id] == t[id])
            && (pair.source.id in t && t[pair.source.id] == pair.source && pair.source.account == account ==>
                  EndsAt(t'[pair.source.id].mark, pair, stream)
                  && t'[pair.source.id] == pair.source.(mark := t'[pair.source.id].mark))
  {
    var share := CutOff(OfSub(stream, pair.subreddit), pair.source.mark);
    if share == [] {
      ShareMeans(stream, pair);
      assert forall y :: y in stream && IsOf(y, pair) ==> y in share;
    } else {
      ShareTop(stream, pair, share);
    }
  }

  lemma {:induction false} NewestOfAll(ps: seq<Payload>)
    requires ps != []
    ensures forall p :: p in ps ==> p.occurredAt <= Newest(ps[1..], ps[0].occurredAt)
    ensures exists p :: p in ps && p.occurredAt == Newest(ps[1..], ps[0].occurredAt)
  {
    var rest := ps[1..];
    NewestMeans(rest, ps[0].occurredAt);
    assert ps == [ps[0]] + rest && ps[0] in ps;
    if Newest(rest, ps[0].occurredAt) != ps[0].occurredAt {
      var p :| p in rest && p.occurredAt == Newest(rest, ps[0].occurredAt);
      assert p in ps;
    }
  }

  lemma {:induction false} ShareTop(stream: seq<Payload>, pair: Pair, share: seq<Payload>)
    requires share == CutOff(OfSub(stream, pair.subreddit), pair.source.mark) && share != []
    ensures var newest := Newest(share[1..], share[0].occurredAt);
            && EndsAt(Some(newest), pair, stream)
            && (pair.source.mark.Some? ==> newest >= pair.source.mark.value)
  {
    ShareMeans(stream, pair);
    NewestOfAll(share);
    var top :| top in share && top.occurredAt == Newest(share[1..], share[0].occurredAt);
    assert top in stream && IsOf(top, pair);
  }

  /** The rows of a chunk are as they were read, each once. */
  predicate AsRead(t: Table, account: string, chunk: seq<Pair>) {
    && (forall i, j :: 0 <= i < j < |chunk| ==> chunk[i].source.id != chunk[j].source.id)
    && (forall i :: 0 <= i < |chunk| ==> IsAsRead(t, account, chunk[i].source))
  }

  predicate IsAsRead(t: Table, account: string, source: Source) {
    source.account == account && source.id in t && t[source.id] == source
  }

  /** The row moved to the source's own newest post, if that is later, and is otherwise as it was. */
  ghost predicate RowEnds(t: Table, pair: Pair, stream: seq<Payload>) {
    var id := pair.source.id;
    id in t && EndsAt(t[id].mark, pair, stream) && t[id] == pair.source.(mark := t[id].mark)
  }

  /** After the first `n` sources: their rows are settled, and no other row moved. */
  ghost predicate Settled(t: Table, t': Table, chunk: seq<Pair>, n: nat, stream: seq<Payload>)
    requires n <= |chunk|
  {
    && t'.Keys == t.Keys
    && (forall i :: 0 <= i < n ==> RowEnds(t', chunk[i], stream))
    && (forall id :: id in t && (forall i :: 0 <= i < n ==> chunk[i].source.id != id) ==> t'[id] == t[id])
  }

  lemma {:induction false} OneMoreSettles(p: Polled, q: Polled, account: string, chunk: seq<Pair>, m: nat, n: nat,
                                          stream: seq<Payload>, at: Time)
    requires m < |chunk| && n == m + 1 && AsRead(p.db.table, account, chunk)
    requires Settled(p.db.table, q.db.table, chunk, m, stream)
    ensures Settled(p.db.table, BatchOne(q, account, chunk[m], stream, at).db.table, chunk, n, stream)
  {
    assert IsAsRead(p.db.table, account, chunk[m].source);
    BatchOneEnds(q, account, chunk[m], stream, at);
    var t' := BatchOne(q, account, chunk[m], stream, at).db.table;
    forall i | 0 <= i < n ensures RowEnds(t', chunk[i], stream) {
      if i < m { assert RowEnds(q.db.table, chunk[i], stream); }
    }
    forall id | id in p.db.table && (forall i :: 0 <= i < n ==> chunk[i].source.id != id)
      ensures t'[id] == p.db.table[id]
    {
      assert chunk[m].source.id != id;
    }
  }

  lemma {:induction false} PrefixSettles(p: Polled, account: string, chunk: seq<Pair>, n: nat, stream: seq<Payload>,
                                         at: nat -> Time)
    requires n <= |chunk| && AsRead(p.db.table, account, chunk)
    ensures Settled(p.db.table, BatchAll(p, account, chunk[..n], stream, at).db.table, chunk, n, stream)
  {
    if n > 0 {
      var m := n - 1;
      PrefixSettles(p, account, chunk, m, stream, at);
      BatchAllExtends(p, account, chunk, m, stream, at);
      OneMoreSettles(p, BatchAll(p, account, chunk[..m], stream, at), account, chunk, m, n, stream,
                     at(chunk[m].source.id));
    }
  }

  /** The marks a clean request leaves, where the rows are as they were read: each source's at its own newest
      post, with or without a mark before, and no other row moved. */
  lemma {:induction false} CleanChunkAdvances(p: Polled, account: string, chunk: seq<Pair>, stream: seq<Payload>,
                                              at: nat -> Time)
    requires AsRead(p.db.table, account, chunk)
    ensures Settled(p.db.table, BatchAll(p, account, chunk, stream, at).db.table, chunk, |chunk|, stream)
  {
    PrefixSettles(p, account, chunk, |chunk|, stream, at);
    assert chunk[..|chunk|] == chunk;
  }

  /** One combined request: scatter every post to its sub, then settle each source of the chunk in turn. */
  method PollChunk(items: FeedItemService, sources: SourceService, chunk: seq<Pair>, fetch: Fetch, at: nat -> Time)
    returns (observed: nat, recorded: nat, succeeded: nat)
    modifies items, sources
    ensures var before := Polled(Db(old(items.log), old(sources.table)), 0, 0);
            Polled(Db(items.log, sources.table), observed, recorded)
            == if fetch.raised then before else BatchAll(before, sources.account, chunk, fetch.items, at)
    ensures succeeded == if fetch.raised then 0 else |chunk|
    // A clean request loses no post: whatever the casing of its tag, it has a row afterwards.
    ensures !fetch.raised ==> LosesNoPost(items.log, chunk, fetch.items)
  {
    BatchLosesNoPost(Polled(Db(items.log, sources.table), 0, 0), sources.account, chunk, fetch.items, at);
    var buckets := Scatter(fetch.items);
    if fetch.raised {
      return 0, 0, 0;
    }
    observed, recorded := SettleChunk(items, sources, chunk, buckets, fetch.items, at);
    succeeded := |chunk|;
  }

  /** The loop over a chunk's sources, each with its bucket of the combined stream. */
  method SettleChunk(items: FeedItemService, sources: SourceService, chunk: seq<Pair>,
                     buckets: map<string, seq<Payload>>, ghost stream: seq<Payload>, at: nat -> Time)
    returns (observed: nat, recorded: nat)
    requires Scattered(buckets, stream)
    modifies items, sources
    ensures Polled(Db(items.log, sources.table), observed, recorded)
            == BatchAll(Polled(Db(old(items.log), old(sources.table)), 0, 0), sources.account, chunk, stream, at)
  {
    observed, recorded := 0, 0;
    ghost var before := Polled(Db(items.log, sources.table), 0, 0);
    ghost var done := before;
    for i := 0 to |chunk|
      invariant done == BatchAll(before, sources.account, chunk[..i], stream, at)
      invariant done == Polled(Db(items.log, sources.table), observed, recorded)
    {
      BucketIsOfSub(buckets, stream, chunk[i].subreddit);
      BatchAllExtends(before, sources.account, chunk, i, stream, at);
      var sub := Lower(chunk[i].subreddit);
      var bucket := if sub in buckets then buckets[sub] else [];
      var o, n := PollShare(items, sources, chunk[i], bucket, stream, at(chunk[i].source.id), done);
      done := BatchOne(done, sources.account, chunk[i], stream, at(chunk[i].source.id));
      observed := observed + o;
      recorded := recorded + n;
    }
    assert chunk[..|chunk|] == chunk;
  }

  method Scatter(ps: seq<Payload>) returns (buckets: map<string, seq<Payload>>)
    ensures Scattered(buckets, ps)
  {
    buckets := map[];
    for i := 0 to |ps|
      invariant Scattered(buckets, ps[..i])
    {
      var sub := Lower(ps[i].subreddit);
      ScatterOne(buckets, ps, i);
      buckets := buckets[sub := (if sub in buckets then buckets[sub] else []) + [ps[i]]];
    }
    assert ps[..|ps|] == ps;
  }

  /** The body of the chunk loop, for one source and its bucket. */
  method PollShare(items: FeedItemService, sources: SourceService, pair: Pair, bucket: seq<Payload>,
                   ghost stream: seq<Payload>, at: Time, ghost before: Polled)
    returns (observed: nat, recorded: nat)
    requires bucket == OfSub(stream, pair.subreddit) && before.db == Db(items.log, sources.table)
    modifies items, sources
    ensures Polled(Db(items.log, sources.table), before.observed + observed, before.recorded + recorded)
            == BatchOne(before, sources.account, pair, stream, at)
  {
    var source := pair.source;
    var mine := bucket;
    if source.mark.Some? {
      mine := From(mine, source.mark.value);
    }
    recorded := items.RecordItems(Stamp(Display(pair), source.meta, at), mine, false);
    observed := |mine|;
    if mine != [] {
      var newest := MaxOccurred(mine);
      if source.mark.None? || newest > source.mark.value {
        var _ := sources.AdvanceWatermark(source, newest);
      }
    }
  }

  method MaxOccurred(ps: seq<Payload>) returns (t: Time)
    requires ps != []
    ensures t == Newest(ps[1..], ps[0].occurredAt)
  {
    t := ps[0].occurredAt;
    for i := 0 to |ps| - 1
      invariant t == Newest(ps[1..][..i], ps[0].occurredAt)
    {
      assert ps[1..][..i + 1][..i] == ps[1..][..i];
      if ps[i + 1].occurredAt > t {
        t := ps[i + 1].occurredAt;
      }
    }
    assert ps[1..][..|ps| - 1] == ps[1..];
  }

  /** The buckets hold each sub's posts, in stream order. */
  ghost predicate Scattered(buckets: map<string, seq<Payload>>, ps: seq<Payload>) {
    && (forall sub :: sub in buckets ==> buckets[sub] == Tagged(ps, sub))
    && (forall p :: p in ps ==> Lower(p.subreddit) in buckets)
  }

  function Tagged(ps: seq<Payload>, folded: string): seq<Payload> {
    if ps == [] then [] else
    var init, last := Tagged(ps[..|ps| - 1], folded), ps[|ps| - 1];
    if Lower(last.subreddit) == folded then init + [last] else init
  }

  lemma {:induction false} TaggedIsEmpty(ps: seq<Payload>, folded: string)
    requires forall p :: p in ps ==> Lower(p.subreddit) != folded
    ensures Tagged(ps, folded) == []
  {
    if ps != [] {
      TaggedIsEmpty(ps[..|ps| - 1], folded);
    }
  }

  lemma {:induction false} ScatterOne(buckets: map<string, seq<Payload>>, ps: seq<Payload>, i: nat)
    requires i < |ps| && Scattered(buckets, ps[..i])
    ensures var sub := Lower(ps[i].subreddit);
            Scattered(buckets[sub := (if sub in buckets then buckets[sub] else []) + [ps[i]]], ps[..i + 1])
  {
    assert ps[..i + 1][..i] == ps[..i] && ps[..i + 1] == ps[..i] + [ps[i]];
    var sub := Lower(ps[i].subreddit);
    if sub !in buckets {
      TaggedIsEmpty(ps[..i], sub);
    }
  }

  lemma {:induction false} OfSubAppends(ps: seq<Payload>, p: Payload, sub: string)
    ensures OfSub(ps + [p], sub) == OfSub(ps, sub) + OfSub([p], sub)
  {
    if ps == [] {
      assert ps + [p] == [p];
    } else {
      OfSubAppends(ps[1..], p, sub);
      assert (ps + [p])[1..] == ps[1..] + [p];
    }
  }

  lemma {:induction false} TaggedIsOfSub(ps: seq<Payload>, sub: string)
    ensures Tagged(ps, Lower(sub)) == OfSub(ps, sub)
  {
    if ps != [] {
      var init, last := ps[..|ps| - 1], ps[|ps| - 1];
      TaggedIsOfSub(init, sub);
      OfSubAppends(init, last, sub);
      assert ps == init + [last];
      assert OfSub([last], sub) == if Lower(last.subreddit) == Lower(sub) then [last] else [];
    }
  }

  lemma {:induction false} BucketIsOfSub(buckets: map<string, seq<Payload>>, ps: seq<Payload>, sub: string)
    requires Scattered(buckets, ps)
    ensures OfSub(ps, sub) == if Lower(sub) in buckets then buckets[Lower(sub)] else []
  {
    TaggedIsOfSub(ps, sub);
    if Lower(sub) !in buckets {
      TaggedIsEmpty(ps, Lower(sub));
    }
  }

  /** The chunks of a group in turn; a chunk whose fetch raised is skipped. */
  function GroupAll(p: Polled, account: string, chunks: seq<seq<Pair>>, fetch: nat -> Fetch, at: nat -> Time): Polled {
    if chunks == [] then p else
    var k := |chunks| - 1;
    ChunkTurn(GroupAll(p, account, chunks[..k], fetch, at), account, chunks[k], fetch(k), at)
  }

  /** A raising request leaves the chunk as it was; the next cycle reads it again. */
  function ChunkTurn(p: Polled, account: string, chunk: seq<Pair>, fetch: Fetch, at: nat -> Time): Polled {
    if fetch.raised then p else BatchAll(p, account, chunk, fetch.items, at)
  }

  /** Sources credited as polled without error. */
  function Credit(chunks: seq<seq<Pair>>, fetch: nat -> Fetch): nat {
    if chunks == [] then 0 else
    Credit(chunks[..|chunks| - 1], fetch) + if fetch(|chunks| - 1).raised then 0 else |chunks[|chunks| - 1]|
  }

  lemma {:induction false} CountsAdd(p: Polled, account: string, chunk: seq<Pair>, stream: seq<Payload>,
                                     at: nat -> Time)
    ensures var q := BatchAll(Polled(p.db, 0, 0), account, chunk, stream, at);
            BatchAll(p, account, chunk, stream, at) == Polled(q.db, p.observed + q.observed, p.recorded + q.recorded)
  {
    if chunk != [] {
      CountsAdd(p, account, chunk[..|chunk| - 1], stream, at);
    }
  }

  lemma {:induction false} GroupExtends(p: Polled, account: string, chunks: seq<seq<Pair>>, k: nat,
                                        fetch: nat -> Fetch, at: nat -> Time)
    requires k < |chunks|
    ensures GroupAll(p, account, chunks[..k + 1], fetch, at)
            == ChunkTurn(GroupAll(p, account, chunks[..k], fetch, at), account, chunks[k], fetch(k), at)
    ensures Credit(chunks[..k + 1], fetch) == Credit(chunks[..k], fetch) + if fetch(k).raised then 0 else |chunks[k]|
  {
    assert chunks[..k + 1][..k] == chunks[..k];
  }

  /** One turn of the chunk loop, on top of what the earlier ones left and counted. */
  method TakeChunk(items: FeedItemService, sources: SourceService, chunk: seq<Pair>, fetch: Fetch, at: nat -> Time,
                   ghost before: Polled)
    returns (observed: nat, recorded: nat, succeeded: nat)
    requires before.db == Db(items.log, sources.table)
    modifies items, sources
    ensures Polled(Db(items.log, sources.table), before.observed + observed, before.recorded + recorded)
            == ChunkTurn(before, sources.account, chunk, fetch, at)
    ensures succeeded == if fetch.raised then 0 else |chunk|
  {
    CountsAdd(before, sources.account, chunk, fetch.items, at);
    observed, recorded, succeeded := PollChunk(items, sources, chunk, fetch, at);
  }

  /** It happens at the real budget: 706 slugs of twenty characters and one of twelve fill two requests exactly,
      and are packed into three. */
  lemma {:induction false} FullRequestsCostAnother(a: seq<Pair>, b: seq<Pair>, c: Pair)
    requires |a| == |b| == 353 && |c.subreddit| == 12
    requires forall i :: 0 <= i < 353 ==> |a[i].subreddit| == |b[i].subreddit| == 20
    ensures var budget, chunks, parts := MAX_COMBINED_URL_BYTES - COMBINED_URL_OVERHEAD, [a, b, [c]], [a, b + [c]];
            && Greedy(chunks, budget) && WithinCount(chunks, budget)
            && Fits(parts, budget) && Flatten(parts) == Flatten(chunks)
  {
    JoinOfEqual(a, 20);
    JoinOfEqual(b, 20);
    JoinGrows(b, c);
    ClosingEarlyCostsAChunk(a, b, c, MAX_COMBINED_URL_BYTES - COMBINED_URL_OVERHEAD);
  }

  /** The lease was still held at each of the first `n` renewals. */
  predicate Held(beat: nat -> bool, n: nat) {
    forall k :: 0 <= k < n ==> beat(k)
  }

  lemma StillHeld(beat: nat -> bool, n: nat, next: nat)
    requires Held(beat, n) && beat(n) && next == n + 1
    ensures Held(beat, next)
  {
  }

  /** A loop of `total` turns, renewing before each, stops before turn `n` and only because the lease is lost. */
  predicate YieldsAt(beat: nat -> bool, n: nat, total: nat) {
    Held(beat, n) && (n < total ==> !beat(n))
  }

  lemma YieldsAtMeans(beat: nat -> bool, n: nat, total: nat)
    ensures YieldsAt(beat, n, total) <==>
              (forall k: nat :: k < n ==> beat(k)) && (n >= total || !beat(n))
  {
  }

  /** Parse, pack, and poll chunk by chunk. */
  method PollRedditGroup(items: FeedItemService, sources: SourceService, rows: seq<Row>,
                         fetch: nat -> Fetch, beat: nat -> bool, at: nat -> Time)
    returns (chunks: seq<seq<Pair>>, done: nat, observed: nat, recorded: nat, succeeded: nat)
    modifies items, sources
    ensures Flatten(chunks) == ParsedPairs(rows) && Greedy(chunks, MAX_COMBINED_URL_BYTES - COMBINED_URL_OVERHEAD)
    ensures done <= |chunks| && YieldsAt(beat, done, |chunks|)
    ensures Polled(Db(items.log, sources.table), observed, recorded)
            == GroupAll(Polled(Db(old(items.log), old(sources.table)), 0, 0), sources.account, chunks[..done],
                        fetch, at)
    ensures succeeded == Credit(chunks[..done], fetch)
  {
    var pairs := ParseReddit(rows);
    chunks := IterUrlBudgetChunks(pairs, MAX_COMBINED_URL_BYTES - COMBINED_URL_OVERHEAD);
    done, observed, recorded, succeeded := PollChunks(items, sources, chunks, fetch, beat, at);
  }

  /** The chunk loop: renew the lease before each request and yield once it is lost. */
  method PollChunks(items: FeedItemService, sources: SourceService, chunks: seq<seq<Pair>>,
                    fetch: nat -> Fetch, beat: nat -> bool, at: nat -> Time)
    returns (done: nat, observed: nat, recorded: nat, succeeded: nat)
    modifies items, sources
    ensures done <= |chunks| && YieldsAt(beat, done, |chunks|)
    ensures Polled(Db(items.log, sources.table), observed, recorded)
            == GroupAll(Polled(Db(old(items.log), old(sources.table)), 0, 0), sources.account, chunks[..done],
                        fetch, at)
    ensures succeeded == Credit(chunks[..done], fetch)
  {
    ghost var before := Polled(Db(items.log, sources.table), 0, 0);
    ghost var sofar := before;
    done, observed, recorded, succeeded := 0, 0, 0, 0;
    while done < |chunks|
      invariant done <= |chunks| && Held(beat, done)
      invariant sofar == Polled(Db(items.log, sources.table), observed, recorded)
      invariant sofar == GroupAll(before, sources.account, chunks[..done], fetch, at)
      invariant succeeded == Credit(chunks[..done], fetch)
    {
      if !beat(done) {
        return;
      }
      GroupExtends(before, sources.account, chunks, done, fetch, at);
      var o, n, c := TakeChunk(items, sources, chunks[done], fetch(done), at, sofar);
      sofar := ChunkTurn(sofar, sources.account, chunks[done], fetch(done), at);
      observed := observed + o;
      recorded := recorded + n;
      succeeded := succeeded + c;
      StillHeld(beat, done, done + 1);
      done := done + 1;
    }
  }
}
