/** Packing subreddits into combined URLs (feeds/services/_reddit_batch.py). */
module UrlChunks {
  import opened Sources

  /** A source row with its validated slug. */
  datatype Pair = Pair(source: Source, subreddit: string)

  /** The path segment of a combined request. */
  function Join(pairs: seq<Pair>): string {
    if pairs == [] then ""
    else if |pairs| == 1 then pairs[0].subreddit
    else Join(pairs[..|pairs| - 1]) + "+" + pairs[|pairs| - 1].subreddit
  }

  function Flatten(chunks: seq<seq<Pair>>): seq<Pair> {
    if chunks == [] then [] else Flatten(chunks[..|chunks| - 1]) + chunks[|chunks| - 1]
  }

  predicate NonEmpty(chunks: seq<seq<Pair>>) {
    forall k :: 0 <= k < |chunks| ==> chunks[k] != []
  }

  predicate Fits(chunks: seq<seq<Pair>>, budget: int) {
    forall k :: 0 <= k < |chunks| ==> |Join(chunks[k])| <= budget
  }

  /** A chunk's length, plus what every chunk but the first is charged beyond it. */
  function Charge(chunks: seq<seq<Pair>>, extra: nat, k: nat): int
    requires k < |chunks|
  {
    |Join(chunks[k])| + if k == 0 then 0 else extra
  }

  /** A chunk was closed for want of room by that charge. */
  predicate ClosedByCharge(chunks: seq<seq<Pair>>, budget: int, extra: nat, k: nat)
    requires k + 1 < |chunks| && chunks[k + 1] != []
  {
    Charge(chunks, extra, k) + 1 + |chunks[k + 1][0].subreddit| > budget
  }

  /** What the running count holds for chunk `k`: the true length, plus the separator that was added before
      the reset for every chunk but the first. */
  function Used(chunks: seq<seq<Pair>>, k: nat): int
    requires k < |chunks|
  {
    Charge(chunks, 1, k)
  }

  /** A chunk was closed because the next slug would have pushed the running count past the budget. */
  predicate ClosedByCount(chunks: seq<seq<Pair>>, budget: int, k: nat)
    requires k + 1 < |chunks| && chunks[k + 1] != []
  {
    ClosedByCharge(chunks, budget, 1, k)
  }

  predicate Greedy(chunks: seq<seq<Pair>>, budget: int) {
    NonEmpty(chunks) && forall k :: 0 <= k < |chunks| - 1 ==> ClosedByCount(chunks, budget, k)
  }

  /** A chunk's count never ran past the budget, except on a slug too long to share. */
  predicate WithinCount(chunks: seq<seq<Pair>>, budget: int) {
    forall k :: 0 <= k < |chunks| ==> |chunks[k]| > 1 ==> Used(chunks, k) <= budget
  }

  lemma {:induction false} JoinGrows(cur: seq<Pair>, pair: Pair)
    ensures |Join(cur + [pair])| == |Join(cur)| + |pair.subreddit| + if cur == [] then 0 else 1
  {
    assert (cur + [pair])[..|cur|] == cur;
  }

  /** The streaming packer. */
  method IterUrlBudgetChunks(pairs: seq<Pair>, budget: int) returns (chunks: seq<seq<Pair>>)
    ensures Flatten(chunks) == pairs
    ensures Greedy(chunks, budget) && WithinCount(chunks, budget) && chunks == Pack(pairs, budget, 1)
    ensures (forall i :: 0 <= i < |pairs| ==> |pairs[i].subreddit| <= budget) ==> Fits(chunks, budget)
  {
    chunks := [];
    var cur: seq<Pair> := [];
    var used := 0;
    for i := 0 to |pairs|
      invariant Packing(chunks, cur, used, budget, pairs, i)
    {
      var add := |pairs[i].subreddit| + if cur != [] then 1 else 0;
      PackStep(chunks, cur, used, budget, pairs, i);
      if cur != [] && used + add > budget {
        chunks := chunks + [cur];
        cur, used := [], 0;
      }
      cur := cur + [pairs[i]];
      used := used + add;
    }
    PackEnds(chunks, cur, used, budget);
    if cur != [] {
      chunks := chunks + [cur];
    }
    assert pairs[..|pairs|] == pairs;
    FitsWhenSlugsFit(chunks, budget);
    PackerChargesOneMore(chunks, budget);
  }

  /** One turn of the packer: whether or not the open chunk is closed first, the state stays good. */
  lemma {:induction false} PackStep(chunks: seq<seq<Pair>>, cur: seq<Pair>, used: int, budget: int, pairs: seq<Pair>,
                                    i: nat)
    requires i < |pairs| && Packing(chunks, cur, used, budget, pairs, i)
    ensures var add := |pairs[i].subreddit| + if cur != [] then 1 else 0;
            if cur != [] && used + add > budget
            then Packing(chunks + [cur], [] + [pairs[i]], 0 + add, budget, pairs, i + 1)
            else Packing(chunks, cur + [pairs[i]], used + add, budget, pairs, i + 1)
  {
    var add := |pairs[i].subreddit| + if cur != [] then 1 else 0;
    assert pairs[..i + 1] == pairs[..i] + [pairs[i]];
    if cur != [] && used + add > budget {
      CloseChunk(chunks, cur, used, budget, pairs[i]);
      FlattenAppends(chunks, cur);
      assert [] + [pairs[i]] == [pairs[i]];
    } else {
      ExtendChunk(chunks, cur, used, budget, pairs[i]);
    }
  }

  lemma {:induction false} PackEnds(chunks: seq<seq<Pair>>, cur: seq<Pair>, used: int, budget: int)
    requires Open(chunks, cur, used, budget)
    ensures var done := if cur == [] then chunks else chunks + [cur];
            Greedy(done, budget) && WithinCount(done, budget) && Flatten(done) == Flatten(chunks) + cur
  {
    FlattenAppends(chunks, cur);
  }

  predicate Packing(chunks: seq<seq<Pair>>, cur: seq<Pair>, used: int, budget: int, pairs: seq<Pair>, i: nat)
    requires i <= |pairs|
  {
    && Flatten(chunks) + cur == pairs[..i]
    && (cur == [] ==> chunks == [] && used == 0)
    && Open(chunks, cur, used, budget)
  }

  /** The packer's state: `cur` is the chunk being filled and `used` its running count. */
  predicate Open(chunks: seq<seq<Pair>>, cur: seq<Pair>, used: int, budget: int) {
    if cur == [] then Greedy(chunks, budget) && WithinCount(chunks, budget)
    else Greedy(chunks + [cur], budget) && WithinCount(chunks + [cur], budget) && used == Used(chunks + [cur], |chunks|)
  }

  lemma {:induction false} CloseChunk(chunks: seq<seq<Pair>>, cur: seq<Pair>, used: int, budget: int, pair: Pair)
    requires cur != [] && Open(chunks, cur, used, budget) && used + |pair.subreddit| + 1 > budget
    ensures Open(chunks + [cur], [pair], |pair.subreddit| + 1, budget)
  {
    var before, after := chunks + [cur], chunks + [cur] + [[pair]];
    forall k | 0 <= k < |after| - 1 ensures ClosedByCount(after, budget, k) {
      assert after[k] == before[k];
      if k < |before| - 1 { assert ClosedByCount(before, budget, k) && after[k + 1] == before[k + 1]; }
    }
    forall k | 0 <= k < |after| && |after[k]| > 1 ensures Used(after, k) <= budget {
      assert after[k] == before[k];
    }
  }

  lemma {:induction false} ExtendChunk(chunks: seq<seq<Pair>>, cur: seq<Pair>, used: int, budget: int, pair: Pair)
    requires Open(chunks, cur, used, budget) && (cur == [] ==> chunks == [] && used == 0)
    requires cur != [] ==> used + |pair.subreddit| + 1 <= budget
    ensures Open(chunks, cur + [pair], used + |pair.subreddit| + if cur == [] then 0 else 1, budget)
  {
    JoinGrows(cur, pair);
    if cur != [] {
      var before, after := chunks + [cur], chunks + [cur + [pair]];
      forall k | 0 <= k < |after| ensures after[k] != [] && (k < |chunks| ==> after[k] == before[k]) {
        if k < |chunks| { assert before[k] != []; }
      }
      forall k | 0 <= k < |after| - 1 ensures ClosedByCount(after, budget, k) {
        assert ClosedByCount(before, budget, k);
        assert after[k + 1][0] == before[k + 1][0];
      }
      forall k | 0 <= k < |after| && |after[k]| > 1 ensures Used(after, k) <= budget {
      }
    }
  }

  lemma {:induction false} FlattenAppends(chunks: seq<seq<Pair>>, cur: seq<Pair>)
    ensures Flatten(chunks + [cur]) == Flatten(chunks) + cur
  {
    assert (chunks + [cur])[..|chunks|] == chunks;
  }

  lemma {:induction false} InFlatten(chunks: seq<seq<Pair>>, k: nat)
    requires k < |chunks|
    ensures forall x :: x in chunks[k] ==> x in Flatten(chunks)
  {
    var n := |chunks| - 1;
    if k < n {
      InFlatten(chunks[..n], k);
    }
  }

  lemma {:induction false} FitsWhenSlugsFit(chunks: seq<seq<Pair>>, budget: int)
    requires NonEmpty(chunks) && WithinCount(chunks, budget)
    ensures (forall i :: 0 <= i < |Flatten(chunks)| ==> |Flatten(chunks)[i].subreddit| <= budget) ==>
              Fits(chunks, budget)
  {
    if forall i :: 0 <= i < |Flatten(chunks)| ==> |Flatten(chunks)[i].subreddit| <= budget {
      forall k | 0 <= k < |chunks| ensures |Join(chunks[k])| <= budget {
        if |chunks[k]| == 1 {
          InFlatten(chunks, k);
          assert chunks[k][0] in Flatten(chunks);
        }
      }
    }
  }

  /** Joining more pairs makes a longer segment. */
  lemma {:induction false} LastSlug(pairs: seq<Pair>)
    requires pairs != []
    ensures |Join(pairs)| >= |pairs[|pairs| - 1].subreddit|
    ensures |pairs| > 1 ==> |Join(pairs)| == |Join(pairs[..|pairs| - 1])| + 1 + |pairs[|pairs| - 1].subreddit|
  {
  }

  lemma {:induction false} SliceWithoutLast(pairs: seq<Pair>, lo: nat, hi: nat, n: nat)
    requires lo < hi == n + 1 == |pairs|
    ensures var slice := pairs[lo..hi];
            slice[..|slice| - 1] == pairs[..n][lo..n] && slice[|slice| - 1] == pairs[n]
  {
  }

  lemma {:induction false} JoinOfSlice(pairs: seq<Pair>, lo: nat, hi: nat)
    requires lo <= hi <= |pairs|
    ensures |Join(pairs[lo..hi])| <= |Join(pairs)|
    decreases |pairs|
  {
    var n := |pairs| - 1;
    if lo < hi && n > 0 {
      LastSlug(pairs);
      if hi <= n {
        assert pairs[..n][lo..hi] == pairs[lo..hi];
        JoinOfSlice(pairs[..n], lo, hi);
      } else {
        LastSlug(pairs[lo..hi]);
        SliceWithoutLast(pairs, lo, hi, n);
        JoinOfSlice(pairs[..n], lo, n);
      }
    } else if lo < hi {
      assert pairs[lo..hi] == pairs;
    }
  }

  /** Where a stretch of a sequence lies inside one of its slices. */
  lemma {:induction false} WithinSlice(all: seq<Pair>, from: nat, last: seq<Pair>, start: nat, stop: nat)
    requires from + |last| <= |all| && last == all[from..from + |last|]
    requires from <= start <= stop <= from + |last|
    ensures last[start - from..stop - from] == all[start..stop]
  {
    forall k | 0 <= k < stop - start ensures last[start - from..stop - from][k] == all[start..stop][k] {
      assert last[start - from + k] == all[start + k];
    }
  }

  /** Chunk `k - 1` and the slug that closed it, as a stretch of the input. */
  lemma {:induction false} ClosedStretch(chunks: seq<seq<Pair>>, all: seq<Pair>, k: nat)
    requires 0 < k < |chunks| && chunks[k] != [] && Flatten(chunks[..k + 1]) <= all
    ensures var start, stop := |Flatten(chunks[..k - 1])|, |Flatten(chunks[..k])| + 1;
            start < stop <= |all| && all[start..stop] == chunks[k - 1] + [chunks[k][0]]
  {
    var init := chunks[..k];
    assert chunks[..k + 1][..k] == init && init[..k - 1] == chunks[..k - 1];
    assert Flatten(init) == Flatten(chunks[..k - 1]) + chunks[k - 1];
    assert Flatten(chunks[..k + 1]) == Flatten(init) + chunks[k];
  }

  /** Chunk `k` and the next slug together overrun `limit`, by their true length. */
  predicate Overruns(chunks: seq<seq<Pair>>, limit: int, k: nat)
    requires k + 1 < |chunks| && chunks[k + 1] != []
  {
    |Join(chunks[k])| + 1 + |chunks[k + 1][0].subreddit| > limit
  }

  /** Every chunk was closed for want of room under `limit`. */
  predicate Tight(chunks: seq<seq<Pair>>, limit: int) {
    NonEmpty(chunks) && forall k :: 0 <= k < |chunks| - 1 ==> Overruns(chunks, limit, k)
  }

  /** Chunk `k` was closed on a slug that would have filled the budget exactly. */
  predicate ClosedEarly(chunks: seq<seq<Pair>>, budget: int, k: nat)
    requires k + 1 < |chunks| && chunks[k + 1] != []
  {
    k > 0 && |Join(chunks[k])| + 1 + |chunks[k + 1][0].subreddit| == budget
  }

  /** The packer leaves no room under one less than its budget. */
  lemma {:induction false} GreedyIsTightBelow(chunks: seq<seq<Pair>>, budget: int, limit: int)
    requires Greedy(chunks, budget) && limit == budget - 1
    ensures Tight(chunks, limit)
  {
    forall k | 0 <= k < |chunks| - 1 ensures Overruns(chunks, limit, k) {
      assert ClosedByCount(chunks, budget, k);
    }
  }

  /** It leaves none under the budget itself iff it closed no chunk early. */
  lemma {:induction false} GreedyIsTightIff(chunks: seq<seq<Pair>>, budget: int)
    requires Greedy(chunks, budget)
    ensures Tight(chunks, budget) <==> forall k :: 0 <= k < |chunks| - 1 ==> !ClosedEarly(chunks, budget, k)
  {
    forall k | 0 <= k < |chunks| - 1
      ensures Overruns(chunks, budget, k) <==> !ClosedEarly(chunks, budget, k)
    {
      assert ClosedByCount(chunks, budget, k);
    }
  }

  /** A closed chunk does not share a text under the limit with the slug that closed it. */
  lemma {:induction false} ClosedDoesNotFit(chunks: seq<seq<Pair>>, limit: int, k: nat, last: seq<Pair>, lo: nat,
                                            hi: nat)
    requires k + 1 < |chunks| && chunks[k + 1] != [] && Overruns(chunks, limit, k) && chunks[k] != []
    requires lo <= hi <= |last| && last[lo..hi] == chunks[k] + [chunks[k + 1][0]]
    ensures |Join(last)| > limit
  {
    JoinGrows(chunks[k], chunks[k + 1][0]);
    JoinOfSlice(last, lo, hi);
  }

  lemma {:induction false} TightInit(chunks: seq<seq<Pair>>, limit: int)
    requires chunks != [] && Tight(chunks, limit)
    ensures Tight(chunks[..|chunks| - 1], limit)
  {
    var init := chunks[..|chunks| - 1];
    forall k | 0 <= k < |init| - 1 ensures Overruns(init, limit, k) {
      assert Overruns(chunks, limit, k);
    }
  }

  /** A part that holds a stretch made of a chunk and the slug that closed it does not fit. */
  lemma {:induction false} StretchDoesNotFit(chunks: seq<seq<Pair>>, limit: int, k: nat, last: seq<Pair>, from: nat,
                                             all: seq<Pair>, start: nat, stop: nat)
    requires k + 1 < |chunks| && chunks[k + 1] != [] && Overruns(chunks, limit, k) && chunks[k] != []
    requires from + |last| <= |all| && last == all[from..from + |last|]
    requires from <= start <= stop <= from + |last| && all[start..stop] == chunks[k] + [chunks[k + 1][0]]
    ensures |Join(last)| > limit
  {
    WithinSlice(all, from, last, start, stop);
    ClosedDoesNotFit(chunks, limit, k, last, start - from, stop - from);
  }

  /** A fitting part that reaches past a closing slug starts after the chunk it closed. */
  lemma {:induction false} LastPartStartsLater(chunks: seq<seq<Pair>>, k: nat, last: seq<Pair>, from: nat,
                                               all: seq<Pair>, limit: int)
    requires 0 < k < |chunks| && chunks[k] != [] && Overruns(chunks, limit, k - 1) && chunks[k - 1] != []
    requires Flatten(chunks[..k + 1]) <= all
    requires from + |last| <= |all| && last == all[from..from + |last|] && |Join(last)| <= limit
    requires from + |last| > |Flatten(chunks[..k])|
    ensures from > |Flatten(chunks[..k - 1])|
  {
    ClosedStretch(chunks, all, k);
    if from <= |Flatten(chunks[..k - 1])| {
      StretchDoesNotFit(chunks, limit, k - 1, last, from, all, |Flatten(chunks[..k - 1])|, |Flatten(chunks[..k])| + 1);
      assert false;
    }
  }

  /** Tight chunks stay ahead: a partition under the same limit that reaches past the start of the last chunk
      has as many parts. */
  lemma {:induction false} StaysAhead(chunks: seq<seq<Pair>>, parts: seq<seq<Pair>>, all: seq<Pair>, limit: int)
    requires chunks != [] && Tight(chunks, limit) && Fits(parts, limit)
    requires Flatten(chunks) <= all && Flatten(parts) <= all
    requires |Flatten(parts)| > |Flatten(chunks[..|chunks| - 1])|
    ensures |parts| >= |chunks|
    decreases |chunks|
  {
    var n, m := |chunks| - 1, |parts| - 1;
    if n > 0 {
      assert chunks[..n + 1] == chunks && chunks[..n][..n - 1] == chunks[..n - 1];
      assert Overruns(chunks, limit, n - 1);
      LastPartStartsLater(chunks, n, parts[m], |Flatten(parts[..m])|, all, limit);
      TightInit(chunks, limit);
      StaysAhead(chunks[..n], parts[..m], all, limit);
    }
  }

  lemma {:induction false} TightIsFewest(chunks: seq<seq<Pair>>, parts: seq<seq<Pair>>, limit: int)
    requires Tight(chunks, limit) && Fits(parts, limit) && Flatten(parts) == Flatten(chunks)
    ensures |chunks| <= |parts|
  {
    if chunks != [] {
      StaysAhead(chunks, parts, Flatten(chunks), limit);
    }
  }

  /** No contiguous partition under `budget - 1` has fewer chunks. */
  lemma {:induction false} FewestUnderBudgetMinusOne(chunks: seq<seq<Pair>>, parts: seq<seq<Pair>>, budget: int)
    requires Greedy(chunks, budget) && Fits(parts, budget - 1) && Flatten(parts) == Flatten(chunks)
    ensures |chunks| <= |parts|
  {
    GreedyIsTightBelow(chunks, budget, budget - 1);
    TightIsFewest(chunks, parts, budget - 1);
  }

  /** Under the budget itself none has fewer either, as long as no chunk after the first was closed on a slug
      that would have filled the budget exactly. */
  lemma {:induction false} FewestUnlessClosedEarly(chunks: seq<seq<Pair>>, parts: seq<seq<Pair>>, budget: int)
    requires Greedy(chunks, budget) && Fits(parts, budget) && Flatten(parts) == Flatten(chunks)
    requires forall k :: 0 <= k < |chunks| - 1 ==> !ClosedEarly(chunks, budget, k)
    ensures |chunks| <= |parts|
  {
    GreedyIsTightIff(chunks, budget);
    TightIsFewest(chunks, parts, budget);
  }

  /** A chunk closed early costs a request, at any budget: here two requests fit and the packer makes three. */
  lemma {:induction false} ClosingEarlyCostsAChunk(a: seq<Pair>, b: seq<Pair>, c: Pair, budget: int)
    requires a != [] && b != [] && |Join(a)| <= budget
    requires |Join(a)| + 1 + |b[0].subreddit| > budget && |Join(b + [c])| == budget
    ensures Greedy([a, b, [c]], budget) && WithinCount([a, b, [c]], budget) && ClosedEarly([a, b, [c]], budget, 1)
    ensures Fits([a, b + [c]], budget) && Flatten([a, b + [c]]) == Flatten([a, b, [c]])
  {
    EarlyClose(a, b, c, budget);
    TwoWaysToSplit(a, b, c);
  }

  lemma {:induction false} EarlyClose(a: seq<Pair>, b: seq<Pair>, c: Pair, budget: int)
    requires a != [] && b != [] && |Join(a)| <= budget
    requires |Join(a)| + 1 + |b[0].subreddit| > budget && |Join(b + [c])| == budget
    ensures Greedy([a, b, [c]], budget) && WithinCount([a, b, [c]], budget) && ClosedEarly([a, b, [c]], budget, 1)
  {
    EarlyUse(a, b, c);
    JoinGrows(b, c);
    EarlyGreedy([a, b, [c]], budget);
    EarlyWithin([a, b, [c]], budget);
  }

  lemma {:induction false} EarlyGreedy(chunks: seq<seq<Pair>>, budget: int)
    requires |chunks| == 3 && chunks[0] != [] && chunks[1] != [] && chunks[2] != []
    requires ClosedByCount(chunks, budget, 0) && ClosedByCount(chunks, budget, 1)
    ensures Greedy(chunks, budget)
  {
    forall k | 0 <= k < |chunks| - 1 ensures ClosedByCount(chunks, budget, k) {
      assert k == 0 || k == 1;
    }
  }

  lemma {:induction false} EarlyWithin(chunks: seq<seq<Pair>>, budget: int)
    requires |chunks| == 3 && |chunks[2]| == 1 && Used(chunks, 0) <= budget && Used(chunks, 1) <= budget
    ensures WithinCount(chunks, budget)
  {
    forall k | 0 <= k < |chunks| && |chunks[k]| > 1 ensures Used(chunks, k) <= budget {
      assert k == 0 || k == 1;
    }
  }

  lemma {:induction false} EarlyUse(a: seq<Pair>, b: seq<Pair>, c: Pair)
    ensures var chunks := [a, b, [c]];
            Used(chunks, 0) == |Join(a)| && Used(chunks, 1) == |Join(b)| + 1 && |chunks[2]| == 1
  {
  }

  lemma {:induction false} TwoWaysToSplit(a: seq<Pair>, b: seq<Pair>, c: Pair)
    ensures Flatten([a, b + [c]]) == Flatten([a, b, [c]])
  {
    FlattenAppends([a, b], [c]);
    FlattenAppends([a], b);
    FlattenAppends([a], b + [c]);
    assert [a, b, [c]] == [a, b] + [[c]] && [a, b] == [a] + [b] && [a, b + [c]] == [a] + [b + [c]];
  }

  /** There the early close costs a request exactly when nothing follows the slug that closed the chunk. */
  lemma {:induction false} ClosingEarlyCostsIff(a: seq<Pair>, b: seq<Pair>, c: Pair, d: seq<Pair>, budget: int)
    requires a != [] && b != [] && |Join(a)| <= budget
    requires |Join(a)| + 1 + |b[0].subreddit| > budget && |Join(b + [c])| == budget
    ensures (exists parts :: CanDo(parts, [a, b, [c] + d], budget) && |parts| < 3) <==> d == []
  {
    TwoWaysToSplit(a, b, c);
    if d == [] {
      ClosingEarlyCostsAChunk(a, b, c, budget);
      assert [c] + d == [c] && CanDo([a, b + [c]], [a, b, [c] + d], budget);
    } else {
      var tight := [a, b + [c], d];
      ThreeWaysToSplit(a, b, c, d);
      assert Overruns(tight, budget, 0) && Overruns(tight, budget, 1);
      forall parts | CanDo(parts, [a, b, [c] + d], budget) ensures |parts| >= 3 {
        TightIsFewest(tight, parts, budget);
      }
    }
  }

  /** `parts` serves the same input within the budget. */
  predicate CanDo(parts: seq<seq<Pair>>, chunks: seq<seq<Pair>>, budget: int) {
    Fits(parts, budget) && Flatten(parts) == Flatten(chunks)
  }

  lemma {:induction false} ThreeWaysToSplit(a: seq<Pair>, b: seq<Pair>, c: Pair, d: seq<Pair>)
    ensures Flatten([a, b + [c], d]) == Flatten([a, b, [c] + d])
  {
    FlattenAppends([a, b + [c]], d);
    FlattenAppends([a, b], [c] + d);
    FlattenAppends([a, b], [c]);
    TwoWaysToSplit(a, b, c);
    assert [a, b + [c], d] == [a, b + [c]] + [d] && [a, b, [c] + d] == [a, b] + [[c] + d];
    assert [a, b, [c]] == [a, b] + [[c]] && Flatten([a, b]) + ([c] + d) == (Flatten([a, b]) + [c]) + d;
  }

  lemma {:induction false} JoinOfEqual(pairs: seq<Pair>, length: nat)
    requires pairs != [] && forall i :: 0 <= i < |pairs| ==> |pairs[i].subreddit| == length
    ensures |Join(pairs)| == |pairs| * (length + 1) - 1
  {
    var n := |pairs| - 1;
    if n > 0 {
      LastSlug(pairs);
      JoinOfEqual(pairs[..n], length);
    }
  }

  lemma {:induction false} FlattenPrefix(chunks: seq<seq<Pair>>, k: nat)
    requires k <= |chunks|
    ensures Flatten(chunks[..k]) <= Flatten(chunks)
    ensures k < |chunks| ==> Flatten(chunks[..k + 1]) == Flatten(chunks[..k]) + chunks[k]
    decreases |chunks| - k
  {
    if k == |chunks| {
      assert chunks[..k] == chunks;
    } else {
      assert chunks[..k + 1][..k] == chunks[..k];
      FlattenPrefix(chunks, k + 1);
    }
  }

  /** Chunk `k` is the stretch of the input from `p`, and the slug after it opens the next chunk. */
  predicate StandsAt(chunks: seq<seq<Pair>>, all: seq<Pair>, k: nat, p: nat)
    requires k < |chunks|
  {
    var q := p + |chunks[k]|;
    && q <= |all| && chunks[k] == all[p..q]
    && (q < |all| ==> k + 1 < |chunks| && chunks[k + 1] != [] && chunks[k + 1][0] == all[q])
  }

  lemma {:induction false} ChunkStandsAt(chunks: seq<seq<Pair>>, k: nat)
    requires k < |chunks| && NonEmpty(chunks)
    ensures StandsAt(chunks, Flatten(chunks), k, |Flatten(chunks[..k])|)
  {
    FlattenPrefix(chunks, k);
    FlattenPrefix(chunks, k + 1);
    if k + 1 < |chunks| {
      FlattenPrefix(chunks, k + 2);
      assert Flatten(chunks[..k + 2]) == Flatten(chunks[..k]) + chunks[k] + chunks[k + 1];
    } else {
      WholeIsItsPrefix(chunks, k + 1);
    }
  }

  lemma {:induction false} WholeIsItsPrefix(chunks: seq<seq<Pair>>, k: nat)
    requires k == |chunks|
    ensures chunks[..k] == chunks
  {
  }

  /** A chunk longer than a greedy one from the same place overruns the count. */
  lemma {:induction false} NoLongerChunk(xs: seq<seq<Pair>>, ys: seq<seq<Pair>>, all: seq<Pair>, budget: int, k: nat,
                                         p: nat)
    requires k < |xs| && k < |ys| && StandsAt(xs, all, k, p) && StandsAt(ys, all, k, p) && xs[k] != []
    requires k + 1 < |xs| && xs[k + 1] != [] ==> ClosedByCount(xs, budget, k)
    requires |ys[k]| > 1 ==> Used(ys, k) <= budget
    ensures |ys[k]| <= |xs[k]|
  {
    var n := |xs[k]|;
    if n < |ys[k]| {
      assert ys[k][0..n + 1] == xs[k] + [xs[k + 1][0]];
      JoinGrows(xs[k], xs[k + 1][0]);
      JoinOfSlice(ys[k], 0, n + 1);
      assert false;
    }
  }

  lemma {:induction false} SameChunk(xs: seq<seq<Pair>>, ys: seq<seq<Pair>>, budget: int, k: nat)
    requires Greedy(xs, budget) && WithinCount(xs, budget) && Greedy(ys, budget) && WithinCount(ys, budget)
    requires k < |xs| && k < |ys| && Flatten(xs) == Flatten(ys) && xs[..k] == ys[..k]
    ensures xs[k] == ys[k]
  {
    var all, p := Flatten(xs), |Flatten(xs[..k])|;
    ChunkStandsAt(xs, k);
    ChunkStandsAt(ys, k);
    assert k + 1 < |xs| ==> ClosedByCount(xs, budget, k);
    assert k + 1 < |ys| ==> ClosedByCount(ys, budget, k);
    NoLongerChunk(xs, ys, all, budget, k, p);
    NoLongerChunk(ys, xs, all, budget, k, p);
  }

  lemma {:induction false} SamePrefix(xs: seq<seq<Pair>>, ys: seq<seq<Pair>>, budget: int, k: nat)
    requires Greedy(xs, budget) && WithinCount(xs, budget) && Greedy(ys, budget) && WithinCount(ys, budget)
    requires k <= |xs| && k <= |ys| && Flatten(xs) == Flatten(ys)
    ensures xs[..k] == ys[..k]
  {
    if k > 0 {
      SamePrefix(xs, ys, budget, k - 1);
      SameChunk(xs, ys, budget, k - 1);
      assert xs[..k] == xs[..k - 1] + [xs[k - 1]] && ys[..k] == ys[..k - 1] + [ys[k - 1]];
    }
  }

  lemma {:induction false} PrefixIsShorter(chunks: seq<seq<Pair>>, k: nat)
    requires k < |chunks| && NonEmpty(chunks)
    ensures |Flatten(chunks[..k])| < |Flatten(chunks)|
  {
    FlattenPrefix(chunks, k);
    FlattenPrefix(chunks, k + 1);
    var head := Flatten(chunks[..k + 1]);
    assert |head| == |Flatten(chunks[..k])| + |chunks[k]| && chunks[k] != [];
  }

  lemma {:induction false} NotShorter(xs: seq<seq<Pair>>, ys: seq<seq<Pair>>, k: nat)
    requires k <= |ys| && xs == ys[..k] && NonEmpty(ys) && Flatten(xs) == Flatten(ys)
    ensures k == |ys|
  {
    if k < |ys| { PrefixIsShorter(ys, k); }
  }

  /** What the packer promises determines its chunks. */
  lemma {:induction false} PackingIsUnique(xs: seq<seq<Pair>>, ys: seq<seq<Pair>>, budget: int)
    requires Greedy(xs, budget) && WithinCount(xs, budget) && Greedy(ys, budget) && WithinCount(ys, budget)
    requires Flatten(xs) == Flatten(ys)
    ensures xs == ys
  {
    var k := if |xs| <= |ys| then |xs| else |ys|;
    SamePrefix(xs, ys, budget, k);
    if |xs| <= |ys| {
      WholeIsItsPrefix(xs, k);
      NotShorter(xs, ys, k);
      WholeIsItsPrefix(ys, k);
    } else {
      WholeIsItsPrefix(ys, k);
      NotShorter(ys, xs, k);
      assert false;
    }
  }

  /** Streaming packing as a function: every chunk but the first is charged `extra` beyond its length. One pass
      over the slug lengths computes how many chunks there are. */
  function Pack(pairs: seq<Pair>, budget: int, extra: nat): seq<seq<Pair>> {
    if pairs == [] then [] else
    var n := |pairs| - 1;
    var chunks := Pack(pairs[..n], budget, extra);
    if chunks != [] && HasRoom(chunks, budget, extra, pairs[n])
    then chunks[..|chunks| - 1] + [chunks[|chunks| - 1] + [pairs[n]]]
    else chunks + [[pairs[n]]]
  }

  predicate HasRoom(chunks: seq<seq<Pair>>, budget: int, extra: nat, pair: Pair)
    requires chunks != []
  {
    Charge(chunks, extra, |chunks| - 1) + 1 + |pair.subreddit| <= budget
  }

  predicate Packed(chunks: seq<seq<Pair>>, budget: int, extra: nat) {
    && NonEmpty(chunks)
    && (forall k :: 0 <= k < |chunks| - 1 ==> ClosedByCharge(chunks, budget, extra, k))
    && (forall k :: 0 <= k < |chunks| ==> |chunks[k]| > 1 ==> Charge(chunks, extra, k) <= budget)
  }

  lemma {:induction false} PackOpens(chunks: seq<seq<Pair>>, budget: int, extra: nat, pair: Pair)
    requires Packed(chunks, budget, extra) && (chunks == [] || !HasRoom(chunks, budget, extra, pair))
    ensures Packed(chunks + [[pair]], budget, extra)
  {
    var more := chunks + [[pair]];
    forall k | 0 <= k < |more| ensures more[k] != [] && (|more[k]| > 1 ==> Charge(more, extra, k) <= budget) {
      if k < |chunks| { assert more[k] == chunks[k] && Charge(more, extra, k) == Charge(chunks, extra, k); }
    }
    forall k | 0 <= k < |more| - 1 ensures ClosedByCharge(more, budget, extra, k) {
      if k < |chunks| - 1 { assert ClosedByCharge(chunks, budget, extra, k); }
    }
  }

  lemma {:induction false} PackExtends(init: seq<seq<Pair>>, last: seq<Pair>, budget: int, extra: nat, pair: Pair)
    requires Packed(init + [last], budget, extra) && HasRoom(init + [last], budget, extra, pair)
    ensures Packed(init + [last + [pair]], budget, extra)
  {
    var before, after := init + [last], init + [last + [pair]];
    assert before[|init|] == last && after[|init|] == last + [pair] && last != [];
    JoinGrows(last, pair);
    forall k | 0 <= k < |after| ensures after[k] != [] && (k < |init| ==> after[k] == before[k]) {
      assert before[k] != [];
    }
    forall k | 0 <= k < |after| && |after[k]| > 1 ensures Charge(after, extra, k) <= budget {
      assert k < |init| ==> Charge(before, extra, k) <= budget;
    }
    forall k | 0 <= k < |after| - 1 ensures ClosedByCharge(after, budget, extra, k) {
      assert ClosedByCharge(before, budget, extra, k);
      assert after[k] == before[k] && after[k + 1][0] == before[k + 1][0];
    }
  }

  lemma {:induction false} PackGrowsLast(chunks: seq<seq<Pair>>, budget: int, extra: nat, pair: Pair)
    requires chunks != [] && Packed(chunks, budget, extra) && HasRoom(chunks, budget, extra, pair)
    ensures var more := chunks[..|chunks| - 1] + [chunks[|chunks| - 1] + [pair]];
            Packed(more, budget, extra) && Flatten(more) == Flatten(chunks) + [pair]
  {
    var init, last := chunks[..|chunks| - 1], chunks[|chunks| - 1];
    assert chunks == init + [last];
    PackExtends(init, last, budget, extra, pair);
    FlattenAppends(init, last);
    FlattenAppends(init, last + [pair]);
  }

  lemma {:induction false} PackMeans(pairs: seq<Pair>, budget: int, extra: nat)
    ensures Flatten(Pack(pairs, budget, extra)) == pairs && Packed(Pack(pairs, budget, extra), budget, extra)
  {
    if pairs != [] {
      var n := |pairs| - 1;
      var chunks := Pack(pairs[..n], budget, extra);
      PackMeans(pairs[..n], budget, extra);
      assert pairs == pairs[..n] + [pairs[n]];
      if chunks != [] && HasRoom(chunks, budget, extra, pairs[n]) {
        PackGrowsLast(chunks, budget, extra, pairs[n]);
      } else {
        PackOpens(chunks, budget, extra, pairs[n]);
        FlattenAppends(chunks, [pairs[n]]);
      }
    }
  }

  /** What the packer promises is the packing that charges every later chunk one byte too many. */
  lemma {:induction false} PackerChargesOneMore(chunks: seq<seq<Pair>>, budget: int)
    requires Greedy(chunks, budget) && WithinCount(chunks, budget)
    ensures chunks == Pack(Flatten(chunks), budget, 1)
  {
    var pairs := Flatten(chunks);
    var packed := Pack(pairs, budget, 1);
    PackMeans(pairs, budget, 1);
    forall k | 0 <= k < |packed| - 1 ensures ClosedByCount(packed, budget, k) {
      assert ClosedByCharge(packed, budget, 1, k);
    }
    assert WithinCount(packed, budget);
    PackingIsUnique(chunks, packed, budget);
  }

  /** Charging the true length is the best one can do: it leaves no room, and fits when every slug does. */
  lemma {:induction false} TrueChargeIsTight(pairs: seq<Pair>, budget: int)
    requires forall i :: 0 <= i < |pairs| ==> |pairs[i].subreddit| <= budget
    ensures Flatten(Pack(pairs, budget, 0)) == pairs
    ensures Tight(Pack(pairs, budget, 0), budget) && Fits(Pack(pairs, budget, 0), budget)
  {
    var best := Pack(pairs, budget, 0);
    PackMeans(pairs, budget, 0);
    forall k | 0 <= k < |best| - 1 ensures Overruns(best, budget, k) {
      assert ClosedByCharge(best, budget, 0, k);
    }
    forall k | 0 <= k < |best| ensures |Join(best[k])| <= budget {
      InFlatten(best, k);
      assert best[k][0] in pairs;
      assert |best[k]| > 1 ==> Charge(best, 0, k) <= budget;
    }
  }

  /** No contiguous partition of the same input under the budget has fewer chunks. */
  ghost predicate IsFewest(chunks: seq<seq<Pair>>, budget: int) {
    forall parts :: CanDo(parts, chunks, budget) ==> |chunks| <= |parts|
  }

  /** Exactly when the packing is the best under its own budget: when charging every later chunk one byte too
      many opens no more chunks than charging the true lengths - two passes over the input, before any request. */
  lemma {:induction false} FewestIff(pairs: seq<Pair>, budget: int)
    requires forall i :: 0 <= i < |pairs| ==> |pairs[i].subreddit| <= budget
    ensures IsFewest(Pack(pairs, budget, 1), budget) <==> |Pack(pairs, budget, 1)| == |Pack(pairs, budget, 0)|
  {
    var chunks, best := Pack(pairs, budget, 1), Pack(pairs, budget, 0);
    PackMeans(pairs, budget, 1);
    TrueChargeIsTight(pairs, budget);
    PackedFits(chunks, budget);
    TightIsFewest(best, chunks, budget);
    assert CanDo(best, chunks, budget);
    forall parts | CanDo(parts, chunks, budget) ensures |best| <= |parts| {
      TightIsFewest(best, parts, budget);
    }
  }

  lemma {:induction false} PackedFits(chunks: seq<seq<Pair>>, budget: int)
    requires Packed(chunks, budget, 1)
    requires forall i :: 0 <= i < |Flatten(chunks)| ==> |Flatten(chunks)[i].subreddit| <= budget
    ensures Fits(chunks, budget)
  {
    assert WithinCount(chunks, budget) by {
      forall k | 0 <= k < |chunks| && |chunks[k]| > 1 ensures Used(chunks, k) <= budget {
        assert Charge(chunks, 1, k) <= budget;
      }
    }
    FitsWhenSlugsFit(chunks, budget);
  }
}
