/** One poll cycle of a feed: subreddits in batches, the rest one by one, then the prune
    (feeds/services/polling.py). */
module FeedCycle {
  import opened Common
  import opened Sources
  import opened FeedLog
  import opened Polling
  import opened UrlChunks
  import opened RedditBatch

  /** A row of the second loop: whether its spec parses, and what its connector yields. */
  datatype Turn = Turn(source: Source, parses: bool, display: string, fetch: Fetch)

  predicate Clean(t: Turn) { t.parses && !t.fetch.raised }

  /** The second loop: a bad spec is skipped, a raising stream leaves a prefix in the log and no mark moved. */
  function OthersAll(p: Polled, account: string, turns: seq<Turn>, at: nat -> Time): Polled
    requires forall i :: 0 <= i < |turns| ==> turns[i].source.mark.Some?
  {
    if turns == [] then p else
    var t := turns[|turns| - 1];
    var q := OthersAll(p, account, turns[..|turns| - 1], at);
    if !t.parses then q
    else if t.fetch.raised then
      var kept := t.fetch.items[..WholeChunks(|t.fetch.items|)];
      q.(db := q.db.(log := InsertAll(q.db.log, Stamp(t.display, t.source.meta, at(t.source.id)), kept)))
    else PollOne(q, account, t.source, t.display, t.fetch.items, at(t.source.id))
  }

  function CleanCount(turns: seq<Turn>): nat {
    if turns == [] then 0 else CleanCount(turns[..|turns| - 1]) + if Clean(turns[|turns| - 1]) then 1 else 0
  }

  /** One turn of the second loop. */
  method TakeTurn(items: FeedItemService, sources: SourceService, t: Turn, at: nat -> Time, ghost before: Polled)
    returns (ok: bool, observed: nat, recorded: nat)
    requires t.source.mark.Some? && before.db == Db(items.log, sources.table)
    modifies items, sources
    ensures ok == Clean(t)
    ensures Polled(Db(items.log, sources.table), before.observed + observed, before.recorded + recorded)
            == OthersAll(before, sources.account, [t], at)
  {
    AloneTurn(before, sources.account, t, at);
    if !t.parses {
      return false, 0, 0;
    }
    ok, observed, recorded := PollSource(items, sources, t.source, t.display, t.fetch, at(t.source.id));
  }

  lemma {:induction false} AloneTurn(p: Polled, account: string, t: Turn, at: nat -> Time)
    requires t.source.mark.Some?
    ensures !t.parses ==> OthersAll(p, account, [t], at) == p
    ensures t.parses && t.fetch.raised ==>
      OthersAll(p, account, [t], at) ==
      p.(db := p.db.(log := InsertAll(p.db.log, Stamp(t.display, t.source.meta, at(t.source.id)),
                                      t.fetch.items[..WholeChunks(|t.fetch.items|)])))
    ensures Clean(t) ==>
      OthersAll(p, account, [t], at) == PollOne(p, account, t.source, t.display, t.fetch.items, at(t.source.id))
  {
    assert [t][..0] == [] && [t][|[t]| - 1] == t;
    assert OthersAll(p, account, [t][..0], at) == p;
  }

  lemma {:induction false} OneMoreTurn(p: Polled, account: string, turns: seq<Turn>, i: nat, at: nat -> Time)
    requires i < |turns| && forall j :: 0 <= j < |turns| ==> turns[j].source.mark.Some?
    ensures OthersAll(p, account, turns[..i + 1], at)
            == OthersAll(OthersAll(p, account, turns[..i], at), account, [turns[i]], at)
    ensures CleanCount(turns[..i + 1]) == CleanCount(turns[..i]) + if Clean(turns[i]) then 1 else 0
  {
    assert turns[..i + 1][..i] == turns[..i] && [turns[i]][..0] == [];
  }

  /** The second loop, renewing the lease before each source. */
  method PollOthers(items: FeedItemService, sources: SourceService, turns: seq<Turn>, beat: nat -> bool,
                    at: nat -> Time, ghost before: Polled)
    returns (done: nat, observed: nat, recorded: nat, succeeded: nat)
    requires (forall i :: 0 <= i < |turns| ==> turns[i].source.mark.Some?) && before.db == Db(items.log, sources.table)
    modifies items, sources
    ensures done <= |turns| && YieldsAt(beat, done, |turns|)
    ensures Polled(Db(items.log, sources.table), before.observed + observed, before.recorded + recorded)
            == OthersAll(before, sources.account, turns[..done], at)
    ensures succeeded == CleanCount(turns[..done])
  {
    ghost var sofar := before;
    done, observed, recorded, succeeded := 0, 0, 0, 0;
    while done < |turns|
      invariant done <= |turns| && Held(beat, done)
      invariant sofar == Polled(Db(items.log, sources.table), before.observed + observed, before.recorded + recorded)
      invariant sofar == OthersAll(before, sources.account, turns[..done], at)
      invariant succeeded == CleanCount(turns[..done])
    {
      if !beat(done) {
        return;
      }
      OneMoreTurn(before, sources.account, turns, done, at);
      var ok, o, n := TakeTurn(items, sources, turns[done], at, sofar);
      sofar := OthersAll(sofar, sources.account, [turns[done]], at);
      observed := observed + o;
      recorded := recorded + n;
      succeeded := succeeded + if ok then 1 else 0;
      StillHeld(beat, done, done + 1);
      done := done + 1;
    }
  }

  /** A cycle is a full outage exactly when no request with sources in it was clean, and every other source either
      has a bad spec or raised. A clean source with nothing new is a success. */
  lemma {:induction false} NothingSucceededIff(chunks: seq<seq<Pair>>, fetch: nat -> Fetch, turns: seq<Turn>)
    ensures Credit(chunks, fetch) == 0 <==> forall k :: 0 <= k < |chunks| ==> fetch(k).raised || chunks[k] == []
    ensures CleanCount(turns) == 0 <==> forall i :: 0 <= i < |turns| ==> !turns[i].parses || turns[i].fetch.raised
  {
    NoCreditIff(chunks, fetch);
    NoCleanTurnIff(turns);
  }

  lemma {:induction false} NoCreditIff(chunks: seq<seq<Pair>>, fetch: nat -> Fetch)
    ensures Credit(chunks, fetch) == 0 <==> forall k :: 0 <= k < |chunks| ==> fetch(k).raised || chunks[k] == []
  {
    if chunks != [] {
      NoCreditIff(chunks[..|chunks| - 1], fetch);
    }
  }

  lemma {:induction false} NoCleanTurnIff(turns: seq<Turn>)
    ensures CleanCount(turns) == 0 <==> forall i :: 0 <= i < |turns| ==> !turns[i].parses || turns[i].fetch.raised
  {
    if turns != [] {
      NoCleanTurnIff(turns[..|turns| - 1]);
    }
  }

  /** Both loops. Without a connector the group raises before its first chunk, and the cycle goes on. */
  method PollAll(items: FeedItemService, sources: SourceService, rows: seq<Row>, turns: seq<Turn>, connected: bool,
                 fetch: nat -> Fetch, groupBeat: nat -> bool, beat: nat -> bool, at: nat -> Time)
    returns (chunks: seq<seq<Pair>>, groupDone: nat, done: nat, observed: nat, recorded: nat, succeeded: nat)
    requires forall i :: 0 <= i < |turns| ==> turns[i].source.mark.Some?
    modifies items, sources
    ensures groupDone <= |chunks| && done <= |turns| && YieldsAt(beat, done, |turns|)
    ensures YieldsAt(groupBeat, groupDone, |chunks|) && Flatten(chunks) == if connected then ParsedPairs(rows) else []
    ensures Polled(Db(items.log, sources.table), observed, recorded)
            == OthersAll(GroupAll(Polled(Db(old(items.log), old(sources.table)), 0, 0), sources.account,
                                  chunks[..groupDone], fetch, at), sources.account, turns[..done], at)
    ensures succeeded == Credit(chunks[..groupDone], fetch) + CleanCount(turns[..done])
  {
    var credited;
    if connected {
      chunks, groupDone, observed, recorded, credited :=
        PollRedditGroup(items, sources, rows, fetch, groupBeat, at);
    } else {
      chunks, groupDone, observed, recorded, credited := [], 0, 0, 0, 0;
    }
    ghost var group := Polled(Db(items.log, sources.table), observed, recorded);
    var o, n, s;
    done, o, n, s := PollOthers(items, sources, turns, beat, at, group);
    observed := observed + o;
    recorded := recorded + n;
    succeeded := credited + s;
  }

  /** The whole cycle. The prune's cutoff is the cycle's start, it comes after every fetch, and a full outage
      skips it. */
  method Run(items: FeedItemService, sources: SourceService, total: nat, rows: seq<Row>, turns: seq<Turn>,
             connected: bool, fetch: nat -> Fetch, groupBeat: nat -> bool, beat: nat -> bool, at: nat -> Time,
             startedAt: Time, retention: Time)
    returns (chunks: seq<seq<Pair>>, groupDone: nat, done: nat, observed: nat, recorded: nat, pruned: nat)
    requires forall i :: 0 <= i < |turns| ==> turns[i].source.mark.Some?
    modifies items, sources
    ensures groupDone <= |chunks| && done <= |turns| && YieldsAt(beat, done, |turns|)
    ensures YieldsAt(groupBeat, groupDone, |chunks|) && Flatten(chunks) == if connected then ParsedPairs(rows) else []
    ensures var before := Polled(Db(old(items.log), old(sources.table)), 0, 0);
            var group := GroupAll(before, sources.account, chunks[..groupDone], fetch, at);
            var polled := OthersAll(group, sources.account, turns[..done], at);
            var outage := total > 0 && Credit(chunks[..groupDone], fetch) + CleanCount(turns[..done]) == 0;
            && (observed, recorded) == (polled.observed, polled.recorded)
            && sources.table == polled.db.table
            && items.log == (if outage then polled.db.log else Prune(polled.db.log, startedAt - retention))
            && pruned == |polled.db.log| - |items.log|
  {
    var succeeded;
    chunks, groupDone, done, observed, recorded, succeeded :=
      PollAll(items, sources, rows, turns, connected, fetch, groupBeat, beat, at);
    if total > 0 && succeeded == 0 {
      pruned := 0;
    } else {
      pruned := items.PruneItems(retention, startedAt);
    }
  }

  /** Polling only ever adds to the log. */
  ghost predicate Grows(a: Log, b: Log) {
    forall k :: k in a ==> k in b && b[k] == a[k]
  }

  lemma {:induction false} BatchGrows(p: Polled, account: string, chunk: seq<Pair>, stream: seq<Payload>,
                                      at: nat -> Time)
    ensures Grows(p.db.log, BatchAll(p, account, chunk, stream, at).db.log)
  {
    if chunk != [] {
      var n := |chunk| - 1;
      BatchGrows(p, account, chunk[..n], stream, at);
      var pair := chunk[n];
      InsertAllMeans(BatchAll(p, account, chunk[..n], stream, at).db.log,
                     Stamp(Display(pair), pair.source.meta, at(pair.source.id)),
                     CutOff(OfSub(stream, pair.subreddit), pair.source.mark));
    }
  }

  lemma {:induction false} GroupGrows(p: Polled, account: string, chunks: seq<seq<Pair>>, fetch: nat -> Fetch,
                                      at: nat -> Time)
    ensures Grows(p.db.log, GroupAll(p, account, chunks, fetch, at).db.log)
  {
    if chunks != [] {
      var k := |chunks| - 1;
      GroupGrows(p, account, chunks[..k], fetch, at);
      BatchGrows(GroupAll(p, account, chunks[..k], fetch, at), account, chunks[k], fetch(k).items, at);
    }
  }

  lemma {:induction false} OthersGrow(p: Polled, account: string, turns: seq<Turn>, at: nat -> Time)
    requires forall i :: 0 <= i < |turns| ==> turns[i].source.mark.Some?
    ensures Grows(p.db.log, OthersAll(p, account, turns, at).db.log)
  {
    if turns != [] {
      var t := turns[|turns| - 1];
      var q := OthersAll(p, account, turns[..|turns| - 1], at);
      var s := Stamp(t.display, t.source.meta, at(t.source.id));
      OthersGrow(p, account, turns[..|turns| - 1], at);
      InsertAllMeans(q.db.log, s, t.fetch.items[..WholeChunks(|t.fetch.items|)]);
      InsertAllMeans(q.db.log, s, t.fetch.items);
    }
  }

  lemma {:induction false} GroupRecords(p: Polled, account: string, chunks: seq<seq<Pair>>, fetch: nat -> Fetch,
                                        at: nat -> Time, k: nat)
    requires k < |chunks| && !fetch(k).raised
    ensures LosesNoPost(GroupAll(p, account, chunks, fetch, at).db.log, chunks[k], fetch(k).items)
  {
    var n := |chunks| - 1;
    var q := GroupAll(p, account, chunks[..n], fetch, at);
    if k == n {
      BatchLosesNoPost(q, account, chunks[n], fetch(n).items, at);
    } else {
      GroupRecords(p, account, chunks[..n], fetch, at, k);
      BatchGrows(q, account, chunks[n], fetch(n).items, at);
    }
  }

  lemma {:induction false} OthersRecord(p: Polled, account: string, turns: seq<Turn>, at: nat -> Time, i: nat)
    requires (forall j :: 0 <= j < |turns| ==> turns[j].source.mark.Some?) && i < |turns|
    requires turns[i].parses && !turns[i].fetch.raised
    ensures forall y :: y in turns[i].fetch.items ==>
              Key(y.source, y.externalId) in OthersAll(p, account, turns, at).db.log
  {
    var n := |turns| - 1;
    var q := OthersAll(p, account, turns[..n], at);
    var t := turns[n];
    if i == n {
      InsertAllMeans(q.db.log, Stamp(t.display, t.source.meta, at(t.source.id)), t.fetch.items);
      forall y | y in t.fetch.items ensures Key(y.source, y.externalId) in OthersAll(p, account, turns, at).db.log {
        assert KeyOf(y) == Key(y.source, y.externalId);
      }
    } else {
      OthersRecord(p, account, turns[..n], at, i);
      OneTurnGrows(p, account, turns, at);
    }
  }

  lemma {:induction false} OneTurnGrows(p: Polled, account: string, turns: seq<Turn>, at: nat -> Time)
    requires turns != [] && forall j :: 0 <= j < |turns| ==> turns[j].source.mark.Some?
    ensures Grows(OthersAll(p, account, turns[..|turns| - 1], at).db.log, OthersAll(p, account, turns, at).db.log)
  {
    var t := turns[|turns| - 1];
    var q := OthersAll(p, account, turns[..|turns| - 1], at);
    var s := Stamp(t.display, t.source.meta, at(t.source.id));
    InsertAllMeans(q.db.log, s, t.fetch.items[..WholeChunks(|t.fetch.items|)]);
    InsertAllMeans(q.db.log, s, t.fetch.items);
  }

  /** Before the prune, a cycle has a row for every post of every clean request that is one of its rows', and for
      every item of every other clean source. */
  lemma {:induction false} CycleRecordsAll(before: Polled, account: string, chunks: seq<seq<Pair>>, turns: seq<Turn>,
                                           fetch: nat -> Fetch, at: nat -> Time)
    requires forall i :: 0 <= i < |turns| ==> turns[i].source.mark.Some?
    ensures var polled := OthersAll(GroupAll(before, account, chunks, fetch, at), account, turns, at).db.log;
            && (forall k :: 0 <= k < |chunks| && !fetch(k).raised ==> LosesNoPost(polled, chunks[k], fetch(k).items))
            && (forall i, y :: 0 <= i < |turns| && Clean(turns[i]) && y in turns[i].fetch.items ==>
                  Key(y.source, y.externalId) in polled)
  {
    var group := GroupAll(before, account, chunks, fetch, at);
    var polled := OthersAll(group, account, turns, at).db.log;
    OthersGrow(group, account, turns, at);
    forall k | 0 <= k < |chunks| && !fetch(k).raised ensures LosesNoPost(polled, chunks[k], fetch(k).items) {
      GroupRecords(before, account, chunks, fetch, at, k);
    }
    forall i, y | 0 <= i < |turns| && Clean(turns[i]) && y in turns[i].fetch.items
      ensures Key(y.source, y.externalId) in polled
    {
      OthersRecord(group, account, turns, at, i);
    }
  }

  /** Fetch before prune: an item that had its row when the cycle started is never recorded anew by it. After
      the cycle its row is the same one, or gone because it is older than the retention at the cycle's start. */
  lemma {:induction false} CycleNeverRerecords(before: Polled, account: string, chunks: seq<seq<Pair>>,
                                               turns: seq<Turn>, fetch: nat -> Fetch, at: nat -> Time,
                                               startedAt: Time, retention: Time, k: Key)
    requires (forall i :: 0 <= i < |turns| ==> turns[i].source.mark.Some?) && k in before.db.log
    ensures var polled := OthersAll(GroupAll(before, account, chunks, fetch, at), account, turns, at).db.log;
            var after := Prune(polled, startedAt - retention);
            && k in polled && polled[k] == before.db.log[k]
            && (k in after ==> after[k] == before.db.log[k])
            && (k in after <==> !Older(before.db.log[k].recordedAt, startedAt - retention))
  {
    GroupGrows(before, account, chunks, fetch, at);
    OthersGrow(GroupAll(before, account, chunks, fetch, at), account, turns, at);
  }
}
