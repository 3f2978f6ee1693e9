/** A feed's item log: recording and pruning (feeds/services/feeds/_items.py). */
module FeedLog {
  import opened Common
  import U = Ulid

  datatype Payload = Payload(source: string, externalId: string, occurredAt: Time, subreddit: string)

  /** The unique key of an item within a feed. */
  datatype Key = Key(sourceKind: string, externalId: string)

  /** What a row holds; `recordedAt` is the instant its ULID was drawn. */
  datatype Item = Item(display: string, meta: map<string, string>, occurredAt: Time, recordedAt: Time)

  type Log = map<Key, Item>

  /** Who records: the display label and tags of the source, and when. */
  datatype Stamp = Stamp(display: string, meta: map<string, string>, at: Time)

  function KeyOf(p: Payload): Key { Key(p.source, p.externalId) }

  /** Two payloads share a row when kind and external id agree, whatever else differs. */
  lemma KeysMeet(p: Payload, q: Payload)
    ensures KeyOf(p) == KeyOf(q) <==> p.source == q.source && p.externalId == q.externalId
  {
  }

  /** Insert unless the key is taken. */
  function Insert(log: Log, s: Stamp, p: Payload): Log {
    if KeyOf(p) in log then log else log[KeyOf(p) := Item(s.display, s.meta, p.occurredAt, s.at)]
  }

  function InsertAll(log: Log, s: Stamp, ps: seq<Payload>): Log {
    if ps == [] then log else Insert(InsertAll(log, s, ps[..|ps| - 1]), s, ps[|ps| - 1])
  }

  /** The payloads of one chunk whose key the SELECT did not find. */
  function Absent(log: Log, ps: seq<Payload>): (r: seq<Payload>)
    ensures |r| <= |ps|
  {
    if ps == [] then [] else
    var r := Absent(log, ps[..|ps| - 1]);
    if KeyOf(ps[|ps| - 1]) in log then r else r + [ps[|ps| - 1]]
  }

  const CHUNK := 200

  /** How many of `n` payloads go out in whole chunks. */
  function WholeChunks(n: nat): (m: nat)
    ensures m <= n < m + CHUNK
  {
    if n < CHUNK then 0 else CHUNK + WholeChunks(n - CHUNK)
  }

  lemma {:induction false} WholeChunksIsMultiple(n: nat)
    ensures WholeChunks(n) == n - n % 200
  {
    if n >= CHUNK { WholeChunksIsMultiple(n - CHUNK); }
  }

  predicate AtFlush(n: nat) { WholeChunks(n) == n }

  lemma {:induction false} FlushPoint(n: nat, m: nat)
    requires AtFlush(m) && m <= n < m + CHUNK
    ensures WholeChunks(n) == m
  {
    if m >= CHUNK { FlushPoint(n - CHUNK, m - CHUNK); }
  }

  /** Where the last chunk of `n` payloads starts. */
  function LastChunk(n: nat): (m: nat)
    requires n > 0
    ensures m < n <= m + CHUNK
  {
    WholeChunks(n - 1)
  }

  lemma LastChunkAt(n: nat, m: nat)
    requires AtFlush(m) && m < n <= m + CHUNK
    ensures LastChunk(n) == m
  {
    FlushPoint(n - 1, m);
  }

  /** The count `record_items` returns: per chunk, the payloads not found by that chunk's SELECT. */
  function NewRows(log: Log, s: Stamp, ps: seq<Payload>): nat {
    if ps == [] then 0 else
    var m := LastChunk(|ps|);
    NewRows(log, s, ps[..m]) + |Absent(InsertAll(log, s, ps[..m]), ps[m..])|
  }

  lemma {:induction false} InsertAllAppends(log: Log, s: Stamp, ps: seq<Payload>, qs: seq<Payload>)
    ensures InsertAll(log, s, ps + qs) == InsertAll(InsertAll(log, s, ps), s, qs)
  {
    if qs == [] {
      assert ps + qs == ps;
    } else {
      InsertAllAppends(log, s, ps, qs[..|qs| - 1]);
      assert (ps + qs)[..|ps + qs| - 1] == ps + qs[..|qs| - 1];
    }
  }

  /** Old rows survive untouched, every payload's key is there afterwards, and nothing else is. */
  lemma {:induction false} InsertAllMeans(log: Log, s: Stamp, ps: seq<Payload>)
    ensures forall k :: k in log ==> k in InsertAll(log, s, ps) && InsertAll(log, s, ps)[k] == log[k]
    ensures forall p :: p in ps ==> KeyOf(p) in InsertAll(log, s, ps)
    ensures forall k :: k in InsertAll(log, s, ps) && k !in log ==>
      exists p :: p in ps && KeyOf(p) == k && InsertAll(log, s, ps)[k] == Item(s.display, s.meta, p.occurredAt, s.at)
  {
    if ps != [] {
      var init, last := ps[..|ps| - 1], ps[|ps| - 1];
      InsertAllMeans(log, s, init);
      assert ps == init + [last];
      forall k | k in InsertAll(log, s, ps) && k !in log
        ensures exists p :: p in ps && KeyOf(p) == k
                            && InsertAll(log, s, ps)[k] == Item(s.display, s.meta, p.occurredAt, s.at)
      {
        if k in InsertAll(log, s, init) {
          var p :| p in init && KeyOf(p) == k
                   && InsertAll(log, s, init)[k] == Item(s.display, s.meta, p.occurredAt, s.at);
          assert p in ps;
        } else {
          assert last in ps;
        }
      }
    }
  }

  /** Leaving out the keys already in the log changes nothing. */
  lemma {:induction false} AbsentSuffices(log: Log, s: Stamp, ps: seq<Payload>)
    ensures InsertAll(log, s, Absent(log, ps)) == InsertAll(log, s, ps)
  {
    if ps != [] {
      var init, last := ps[..|ps| - 1], ps[|ps| - 1];
      AbsentSuffices(log, s, init);
      InsertAllMeans(log, s, init);
      if KeyOf(last) !in log {
        assert (Absent(log, init) + [last])[..|Absent(log, init)|] == Absent(log, init);
      }
    }
  }

  predicate DistinctKeys(ps: seq<Payload>) {
    forall i, j :: 0 <= i < j < |ps| ==> KeyOf(ps[i]) != KeyOf(ps[j])
  }

  lemma {:induction false} AbsentMeans(log: Log, ps: seq<Payload>)
    ensures forall p :: p in Absent(log, ps) <==> p in ps && KeyOf(p) !in log
  {
    if ps != [] {
      AbsentMeans(log, ps[..|ps| - 1]);
      assert ps == ps[..|ps| - 1] + [ps[|ps| - 1]];
    }
  }

  lemma {:induction false} DistinctExtends(ps: seq<Payload>, last: Payload)
    ensures DistinctKeys(ps + [last]) <==> DistinctKeys(ps) && forall p :: p in ps ==> KeyOf(p) != KeyOf(last)
  {
    var more := ps + [last];
    assert more[|ps|] == last && forall i :: 0 <= i < |ps| ==> more[i] == ps[i];
    if exists p :: p in ps && KeyOf(p) == KeyOf(last) {
      var p :| p in ps && KeyOf(p) == KeyOf(last);
      var i :| 0 <= i < |ps| && ps[i] == p;
      assert KeyOf(more[i]) == KeyOf(more[|ps|]);
    }
  }

  /** The last payload of a chunk gains a row iff its key is neither in the log nor earlier in the chunk. */
  lemma {:induction false} LastGainsRow(log: Log, s: Stamp, init: seq<Payload>, last: Payload)
    ensures KeyOf(last) in InsertAll(log, s, init) <==>
            KeyOf(last) in log || exists p :: p in Absent(log, init) && KeyOf(p) == KeyOf(last)
  {
    InsertAllMeans(log, s, init);
    AbsentMeans(log, init);
    if KeyOf(last) in InsertAll(log, s, init) && KeyOf(last) !in log {
      var p :| p in init && KeyOf(p) == KeyOf(last);
      assert p in Absent(log, init);
    }
  }

  lemma {:induction false} ChunkGrowth(log: Log, s: Stamp, ps: seq<Payload>)
    ensures |InsertAll(log, s, ps)| <= |log| + |Absent(log, ps)|
    ensures |InsertAll(log, s, ps)| == |log| + |Absent(log, ps)| <==> DistinctKeys(Absent(log, ps))
  {
    if ps != [] {
      var init, last := ps[..|ps| - 1], ps[|ps| - 1];
      ChunkGrowth(log, s, init);
      LastGainsRow(log, s, init, last);
      DistinctExtends(Absent(log, init), last);
    }
  }

  lemma {:induction false} InsertAllSplits(log: Log, s: Stamp, ps: seq<Payload>, m: nat)
    requires m <= |ps|
    ensures InsertAll(log, s, ps) == InsertAll(InsertAll(log, s, ps[..m]), s, ps[m..])
  {
    InsertAllAppends(log, s, ps[..m], ps[m..]);
    assert ps[..m] + ps[m..] == ps;
  }

  /** No key that is new to the log comes twice within one chunk. */
  predicate NoRepeat(log: Log, s: Stamp, ps: seq<Payload>) {
    ps != [] ==>
      var m := LastChunk(|ps|);
      NoRepeat(log, s, ps[..m]) && DistinctKeys(Absent(InsertAll(log, s, ps[..m]), ps[m..]))
  }

  /** The returned count never falls short of the rows gained, and is right exactly when no key new to the log
      repeats within a chunk; a repeat across chunks, or of a key already there, does no harm. */
  lemma {:induction false} CountIsExactIff(log: Log, s: Stamp, ps: seq<Payload>)
    ensures |InsertAll(log, s, ps)| <= |log| + NewRows(log, s, ps)
    ensures |InsertAll(log, s, ps)| == |log| + NewRows(log, s, ps) <==> NoRepeat(log, s, ps)
    decreases |ps|
  {
    if ps != [] {
      var m := LastChunk(|ps|);
      CountIsExactIff(log, s, ps[..m]);
      ChunkGrowth(InsertAll(log, s, ps[..m]), s, ps[m..]);
      InsertAllSplits(log, s, ps, m);
    }
  }

  /** A key that repeats inside one chunk is counted each time, though only one row is gained. */
  lemma RepeatsAreOverCounted(s: Stamp, p: Payload)
    ensures NewRows(map[], s, [p, p]) == 2 && |InsertAll(map[], s, [p, p])| == 1
  {
    var none: Log := map[];
    assert [p, p][..0] == [] && [p, p][0..] == [p, p] && [p, p][..1] == [p] && [p][..0] == [];
    assert Absent(none, [p]) == [p] && Absent(none, [p, p]) == [p, p];
    assert InsertAll(none, s, [p]) == Insert(none, s, p);
    assert LastChunk(2) == 0 && NewRows(none, s, []) == 0;
  }

  /** A millisecond cutoff, as the ULID range scan applies it. */
  predicate Older(at: Time, cutoff: Time) {
    at / 1000 < cutoff / 1000
  }

  /** A row goes exactly when an id drawn at its instant reads below the cutoff's. */
  lemma {:induction false} OlderIsIdBelow(id: string, at: nat, cutoff: nat)
    requires U.IsValidUlid(id) && U.TimeField(id) == at / 1000 && U.Millis(cutoff) < U.Pow32(U.TIME_CHARS)
    ensures Older(at, cutoff) <==> U.Less(id, U.MinUlidAt(cutoff))
  {
    U.CutoffIsExact(id, cutoff);
  }

  function Prune(log: Log, cutoff: Time): Log {
    map k | k in log && !Older(log[k].recordedAt, cutoff) :: log[k]
  }

  class FeedItemService {
    var log: Log

    constructor ()
      ensures log == map[]
    {
      log := map[];
    }

    /** Streams `ps` in chunks. When the stream raises at its end, the chunk being filled is lost with it. */
    method RecordItems(s: Stamp, ps: seq<Payload>, raises: bool) returns (created: nat)
      modifies this
      ensures var kept := if raises then ps[..WholeChunks(|ps|)] else ps;
              log == InsertAll(old(log), s, kept) && created == NewRows(old(log), s, kept)
    {
      ghost var was := log;
      var chunk;
      created, chunk := RecordWholeChunks(s, ps);
      ghost var head := ps[..WholeChunks(|ps|)];
      assert head + chunk == ps;
      if raises || chunk == [] {
        assert chunk == [] ==> head == ps;
        return;
      }
      ChunkExtends(was, s, head, chunk);
      var n := RecordChunk(s, chunk);
      created := created + n;
    }

    /** The streaming loop: records each chunk as it fills, and hands back the one still open. */
    method RecordWholeChunks(s: Stamp, ps: seq<Payload>) returns (created: nat, chunk: seq<Payload>)
      modifies this
      ensures var head := ps[..WholeChunks(|ps|)];
              && chunk == ps[WholeChunks(|ps|)..] && AtFlush(|head|)
              && log == InsertAll(old(log), s, head) && created == NewRows(old(log), s, head)
    {
      created, chunk := 0, [];
      ghost var was, head := log, [];
      for i := 0 to |ps|
        invariant head + chunk == ps[..i] && |chunk| < CHUNK && AtFlush(|head|)
        invariant log == InsertAll(was, s, head) && created == NewRows(was, s, head)
      {
        chunk := chunk + [ps[i]];
        assert head + chunk == ps[..i + 1];
        if |chunk| >= CHUNK {
          ChunkExtends(was, s, head, chunk);
          NextFlush(|head|, |head + chunk|);
          var n := RecordChunk(s, chunk);
          created := created + n;
          head := head + chunk;
          chunk := [];
        }
      }
      FlushPoint(|ps|, |head|);
      assert head + chunk == ps;
    }

    method RecordChunk(s: Stamp, chunk: seq<Payload>) returns (n: nat)
      modifies this
      ensures log == InsertAll(old(log), s, chunk) && n == |Absent(old(log), chunk)|
    {
      AbsentSuffices(log, s, chunk);
      var rows := Absent(log, chunk);
      if rows == [] {
        return 0;
      }
      log := InsertAll(log, s, rows);
      return |rows|;
    }

    method PruneItems(retention: Time, now: Time) returns (n: nat)
      modifies this
      ensures log == Prune(old(log), now - retention) && n == |old(log)| - |log|
    {
      var cutoff := now - retention;
      var was := log;
      log := map k | k in was && !Older(was[k].recordedAt, cutoff) :: was[k];
      Smaller(log.Keys, was.Keys);
      n := |was| - |log|;
    }
  }

  lemma Smaller<T>(a: set<T>, b: set<T>)
    requires a <= b
    ensures |a| <= |b|
  {
    assert b == a + (b - a);
  }

  lemma NextFlush(m: nat, n: nat)
    requires AtFlush(m) && n == m + CHUNK
    ensures AtFlush(n)
  {
  }

  lemma {:induction false} ChunkExtends(log: Log, s: Stamp, head: seq<Payload>, chunk: seq<Payload>)
    requires AtFlush(|head|) && 0 < |chunk| <= CHUNK
    ensures InsertAll(log, s, head + chunk) == InsertAll(InsertAll(log, s, head), s, chunk)
    ensures NewRows(log, s, head + chunk) == NewRows(log, s, head) + |Absent(InsertAll(log, s, head), chunk)|
  {
    var ps := head + chunk;
    InsertAllAppends(log, s, head, chunk);
    LastChunkAt(|ps|, |head|);
    assert ps[..|head|] == head && ps[|head|..] == chunk;
    assert NewRows(log, s, ps)
        == NewRows(log, s, ps[..|head|]) + |Absent(InsertAll(log, s, ps[..|head|]), ps[|head|..])|;
  }
}
