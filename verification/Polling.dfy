/** One source's poll, and the streams it reads (feeds/services/polling.py). */
module Polling {
  import opened Common
  import opened Sources
  import opened FeedLog

  /** A feed's two tables. */
  datatype Db = Db(log: Log, table: Table)

  /** Newest first, as Reddit serves a listing. */
  predicate NewestFirst(ps: seq<Payload>) {
    forall i, j :: 0 <= i < j < |ps| ==> ps[i].occurredAt >= ps[j].occurredAt
  }

  /** The connector's walk: stop at the first post strictly older than `since`. */
  function Walk(listing: seq<Payload>, since: Time): seq<Payload> {
    if listing == [] || listing[0].occurredAt < since then []
    else [listing[0]] + Walk(listing[1..], since)
  }

  /** The payloads at or after a mark. */
  function From(ps: seq<Payload>, mark: Time): seq<Payload> {
    if ps == [] then []
    else if ps[0].occurredAt >= mark then [ps[0]] + From(ps[1..], mark)
    else From(ps[1..], mark)
  }

  /** On a newest-first listing the early stop loses nothing. */
  lemma {:induction false} WalkIsFrom(listing: seq<Payload>, since: Time)
    requires NewestFirst(listing)
    ensures Walk(listing, since) == From(listing, since)
  {
    if listing != [] {
      WalkIsFrom(listing[1..], since);
      if listing[0].occurredAt < since {
        AllOlder(listing, since);
      }
    }
  }

  lemma {:induction false} AllOlder(ps: seq<Payload>, since: Time)
    requires forall i :: 0 <= i < |ps| ==> ps[i].occurredAt < since
    ensures From(ps, since) == []
  {
    if ps != [] { AllOlder(ps[1..], since); }
  }

  lemma {:induction false} FromMeans(ps: seq<Payload>, mark: Time)
    ensures forall p :: p in From(ps, mark) <==> p in ps && p.occurredAt >= mark
  {
    if ps != [] { FromMeans(ps[1..], mark); }
  }

  /** The newest instant among `start` and the payloads' own. */
  function Newest(ps: seq<Payload>, start: Time): (t: Time)
    ensures t >= start
  {
    if ps == [] then start else
    var t, last := Newest(ps[..|ps| - 1], start), ps[|ps| - 1].occurredAt;
    if last > t then last else t
  }

  lemma {:induction false} NewestMeans(ps: seq<Payload>, start: Time)
    ensures forall p :: p in ps ==> p.occurredAt <= Newest(ps, start)
    ensures Newest(ps, start) == start || exists p :: p in ps && p.occurredAt == Newest(ps, start)
  {
    if ps != [] {
      var init, last := ps[..|ps| - 1], ps[|ps| - 1];
      NewestMeans(init, start);
      assert ps == init + [last] && last in ps;
      if Newest(ps, start) == Newest(init, start) && Newest(init, start) != start {
        var p :| p in init && p.occurredAt == Newest(init, start);
        assert p in ps;
      }
    }
  }

  /** What one poll leaves behind, and what it reports. */
  datatype Polled = Polled(db: Db, observed: nat, recorded: nat)

  /** A clean poll of one source over the stream its connector yielded. */
  function PollOne(p: Polled, account: string, source: Source, display: string, stream: seq<Payload>, at: Time): Polled
    requires source.mark.Some?
  {
    var s := Stamp(display, source.meta, at);
    var log := InsertAll(p.db.log, s, stream);
    var newest := Newest(stream, source.mark.value);
    var table := if newest != source.mark.value then Advance(p.db.table, account, source, newest) else p.db.table;
    Polled(Db(log, table), p.observed + |stream|, p.recorded + NewRows(p.db.log, s, stream))
  }

  /** The iterator wrapper: counts what flows through it and tracks the newest instant. */
  class PolledSource {
    var newest: Time
    var observed: nat

    constructor (initialNewest: Time)
      ensures newest == initialNewest && observed == 0
    {
      newest, observed := initialNewest, 0;
    }

    method Pass(p: Payload)
      modifies this
      ensures observed == old(observed) + 1
      ensures newest == if p.occurredAt > old(newest) then p.occurredAt else old(newest)
    {
      observed := observed + 1;
      if p.occurredAt > newest {
        newest := p.occurredAt;
      }
    }
  }

  /** What a connector yielded: the items that flowed, and whether it then raised. */
  datatype Fetch = Fetch(items: seq<Payload>, raised: bool)

  /** `_poll_source`: record what flows, then advance, unless the stream raised. */
  method PollSource(items: FeedItemService, sources: SourceService, source: Source, display: string, fetch: Fetch,
                    at: Time)
    returns (ok: bool, observed: nat, recorded: nat)
    requires source.mark.Some?
    modifies items, sources
    ensures ok == !fetch.raised
    ensures ok ==> Polled(Db(items.log, sources.table), observed, recorded)
                   == PollOne(Polled(Db(old(items.log), old(sources.table)), 0, 0), sources.account, source, display,
                              fetch.items, at)
    ensures ok ==> observed == |fetch.items|
    ensures ok ==> recorded == NewRows(old(items.log), Stamp(display, source.meta, at), fetch.items)
    ensures ok ==> items.log == InsertAll(old(items.log), Stamp(display, source.meta, at), fetch.items)
    ensures ok ==> sources.table == Advance(old(sources.table), sources.account, source,
                                            Newest(fetch.items, source.mark.value))
    // A failed poll moves no mark, and whatever it recorded is a prefix of what flowed.
    ensures !ok ==> sources.table == old(sources.table) && observed == recorded == 0
    ensures !ok ==> items.log == InsertAll(old(items.log), Stamp(display, source.meta, at),
                                           fetch.items[..WholeChunks(|fetch.items|)])
  {
    var polled := new PolledSource(source.mark.value);
    for i := 0 to |fetch.items|
      invariant fresh(polled) && polled.observed == i
      invariant polled.newest == Newest(fetch.items[..i], source.mark.value)
      invariant items.log == old(items.log) && sources.table == old(sources.table)
    {
      assert fetch.items[..i + 1][..i] == fetch.items[..i];
      polled.Pass(fetch.items[i]);
    }
    assert fetch.items[..|fetch.items|] == fetch.items;
    recorded := items.RecordItems(Stamp(display, source.meta, at), fetch.items, fetch.raised);
    if fetch.raised {
      return false, 0, 0;
    }
    if polled.newest != source.mark.value {
      var _ := sources.AdvanceWatermark(source, polled.newest);
    }
    return true, polled.observed, recorded;
  }

  /** With no rival writer a clean poll leaves the row at the newest instant it saw, which is never earlier
      than where it stood, and every item it saw is in the log. */
  lemma {:induction false} CleanPollCatchesUp(p: Polled, account: string, source: Source, display: string,
                                              stream: seq<Payload>, at: Time)
    requires source.id in p.db.table && p.db.table[source.id] == source
    requires source.account == account && source.mark.Some?
    ensures var after := PollOne(p, account, source, display, stream, at);
            && after.db.table[source.id] == source.(mark := Some(Newest(stream, source.mark.value)))
            && (forall x :: x in stream ==>
                  KeyOf(x) in after.db.log && x.occurredAt <= Newest(stream, source.mark.value))
            && (forall id :: id in p.db.table && id != source.id ==> after.db.table[id] == p.db.table[id])
            && after.observed == p.observed + |stream|
            && |after.db.log| - |p.db.log| <= after.recorded - p.recorded
  {
    NewestMeans(stream, source.mark.value);
    InsertAllMeans(p.db.log, Stamp(display, source.meta, at), stream);
    CountIsExactIff(p.db.log, Stamp(display, source.meta, at), stream);
  }

  /** A poll whose row was moved or removed since it read it changes no row at all. */
  lemma {:induction false} StalePollMovesNothing(p: Polled, account: string, source: Source, display: string,
                                                 stream: seq<Payload>, at: Time)
    requires source.mark.Some? && (source.id in p.db.table ==> p.db.table[source.id].mark != source.mark)
    ensures PollOne(p, account, source, display, stream, at).db.table == p.db.table
  {
  }
}
