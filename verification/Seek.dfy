/** The operator's watermark move (feeds/services/_sources_seek.py). */
module Seek {
  import opened Common
  import opened Policy
  import opened Sources

  /** A raw target: a keyword, a duration back from now, an absolute instant, or none of these. */
  datatype RawTarget = Now | Today | Yesterday | ThisWeek | Oldest | Back(span: nat) | Instant(at: Time) | Garbage

  /** The earliest instant a datetime can hold: the first of January of year 1. */
  const EARLIEST: Time := -62_135_596_800_000_000

  function Midnight(now: Time): Time { now - now % DAY }

  /** Monday is day 0; the epoch was a Thursday. */
  function Weekday(now: Time): int { (now / DAY + 3) % 7 }

  function ResolveWindowValue(raw: RawTarget, now: Time, floor: Time): Option<Time> {
    match raw
    case Now => Some(now)
    case Today => Some(Midnight(now))
    case Yesterday => Some(Midnight(now) - DAY)
    case ThisWeek => Some(Midnight(now) - Weekday(now) * DAY)
    case Oldest => Some(floor)
    case Back(span) => if now - span < EARLIEST then None else Some(now - span)
    case Instant(at) => Some(at)
    case Garbage => None
  }

  /** `now` anchors the value and the floor; the future check reads the clock again, at `later`. */
  function ResolveTarget(raw: RawTarget, retentionDays: int, now: Time, later: Time): Checked {
    match ResolveWindowValue(raw, now, SeekFloor(retentionDays, now))
    case None => Rejected(Malformed)
    case Some(v) =>
      match EnforceSourceWatermark(v, later)
      case Rejected(why) => Rejected(why)
      case Accepted(to) => EnforceSeekFloor(to, retentionDays, now)
  }

  /** A target is accepted exactly when it resolves into the feed's retention window. */
  lemma AcceptedIffInWindow(raw: RawTarget, retentionDays: int, now: Time, later: Time, to: Time)
    ensures ResolveTarget(raw, retentionDays, now, later) == Accepted(to) <==>
            ResolveWindowValue(raw, now, SeekFloor(retentionDays, now)) == Some(to)
            && SeekFloor(retentionDays, now) <= to <= later
  {
  }

  /** `oldest` is always accepted and is the deepest accepted target; spelling the retention out as a
      duration lands on the same instant, and any longer duration is refused. */
  lemma OldestIsTheDeepest(raw: RawTarget, retentionDays: nat, span: nat, now: Time, later: Time)
    requires now <= later && EARLIEST <= now - span
    ensures ResolveTarget(Oldest, retentionDays, now, later) == Accepted(SeekFloor(retentionDays, now))
    ensures ResolveTarget(raw, retentionDays, now, later).Accepted? ==>
              SeekFloor(retentionDays, now) <= ResolveTarget(raw, retentionDays, now, later).value
    ensures ResolveTarget(Back(span), retentionDays, now, later).Accepted? <==> span <= retentionDays * DAY
    ensures span == retentionDays * DAY ==>
              ResolveTarget(Back(span), retentionDays, now, later) == ResolveTarget(Oldest, retentionDays, now, later)
  {
  }

  lemma MidnightMeans(now: Time)
    ensures Midnight(now) <= now < Midnight(now) + DAY && Midnight(now) % DAY == 0
  {
    var d := now / DAY;
    assert now == d * DAY + now % DAY && Midnight(now) == d * DAY;
  }

  function Monday(now: Time): Time { Midnight(now) - Weekday(now) * DAY }

  /** The Monday of the week, at midnight. The fifth of January 1970 was one. */
  lemma MondayMeans(now: Time)
    ensures Monday(now) <= now < Monday(now) + 7 * DAY
    ensures (Monday(now) - 4 * DAY) % (7 * DAY) == 0
  {
    var d := now / DAY;
    var w := (d + 3) / 7;
    assert now == d * DAY + now % DAY && Midnight(now) == d * DAY;
    assert d + 3 == w * 7 + Weekday(now);
    assert Monday(now) == (d - Weekday(now)) * DAY == (w * 7 - 3) * DAY;
    assert Monday(now) - 4 * DAY == (w - 1) * (7 * DAY);
    MultipleOfWeek(w - 1);
  }

  lemma MultipleOfWeek(n: int)
    ensures (n * (7 * DAY)) % (7 * DAY) == 0
  {
  }

  /** `today` is inside every allowed retention, `yesterday` inside a one-day retention only at midnight itself;
      `this-week` inside every retention of a week. */
  lemma KeywordsReachBack(retentionDays: int, now: Time, later: Time)
    requires RETENTION_MIN_DAYS <= retentionDays && now <= later
    ensures ResolveTarget(Now, retentionDays, now, later) == Accepted(now)
    ensures ResolveTarget(Today, retentionDays, now, later) == Accepted(Midnight(now))
    ensures ResolveWindowValue(Yesterday, now, SeekFloor(retentionDays, now)) == Some(Midnight(now) - DAY)
    ensures ResolveTarget(Yesterday, retentionDays, now, later).Accepted? <==> retentionDays > 1 || now == Midnight(now)
    ensures ResolveWindowValue(ThisWeek, now, SeekFloor(retentionDays, now)) == Some(Monday(now))
    ensures retentionDays >= 7 ==> ResolveTarget(ThisWeek, retentionDays, now, later) == Accepted(Monday(now))
  {
    MidnightMeans(now);
    MondayMeans(now);
    RetentionReaches(retentionDays, now);
  }

  lemma RetentionReaches(retentionDays: int, now: Time)
    ensures retentionDays >= 1 ==> SeekFloor(retentionDays, now) <= now - DAY
    ensures retentionDays >= 2 ==> SeekFloor(retentionDays, now) <= now - 2 * DAY
    ensures retentionDays >= 7 ==> SeekFloor(retentionDays, now) <= now - 7 * DAY
    ensures SeekFloor(1, now) == now - DAY
  {
  }

  /** An absolute instant is taken as it is, within the window; a duration counts back from now. */
  lemma InstantsAreTaken(at: Time, span: nat, retentionDays: int, now: Time, later: Time)
    ensures ResolveTarget(Instant(at), retentionDays, now, later) ==
            if at > later then Rejected(InFuture)
            else if at < now - retentionDays * 86_400_000_000 then Rejected(BeforeFloor) else Accepted(at)
    ensures ResolveTarget(Back(span), retentionDays, now, later).Accepted? ==>
              ResolveTarget(Back(span), retentionDays, now, later) == Accepted(now - span)
    ensures now - span < -62_135_596_800_000_000 ==>
              ResolveTarget(Back(span), retentionDays, now, later) == Rejected(Malformed)
    ensures ResolveTarget(Garbage, retentionDays, now, later) == Rejected(Malformed)
  {
  }

  datatype SeekResult = SeekResult(
    advanced: nat, rewound: nat, untouched: nat, sourceCount: nat, to: Time, dryRun: bool)

  /** The rows a seek moves forward: behind the target, or without a mark. */
  function Forward(t: Table, scope: set<nat>, to: Time): set<nat> {
    set id | id in scope && id in t && (t[id].mark.None? || t[id].mark.value < to)
  }

  function Backward(t: Table, scope: set<nat>, to: Time): set<nat> {
    set id | id in scope && id in t && t[id].mark.Some? && t[id].mark.value > to
  }

  function AtTarget(t: Table, scope: set<nat>, to: Time): set<nat> {
    set id | id in scope && id in t && t[id].mark == Some(to)
  }

  function Moved(t: Table, ids: set<nat>, to: Time): Table {
    map id | id in t :: if id in ids then t[id].(mark := Some(to)) else t[id]
  }

  /** The true tally of a seek over `scope`. */
  function Tally(t: Table, scope: set<nat>, to: Time, dryRun: bool): SeekResult {
    SeekResult(|Forward(t, scope, to)|, |Backward(t, scope, to)|, |AtTarget(t, scope, to)|, |scope|, to, dryRun)
  }

  /** The three groups partition the rows in scope. */
  lemma GroupsPartition(t: Table, scope: set<nat>, to: Time)
    requires scope <= t.Keys
    ensures var r := Tally(t, scope, to, false); r.advanced + r.rewound + r.untouched == r.sourceCount
  {
    var f, b, a := Forward(t, scope, to), Backward(t, scope, to), AtTarget(t, scope, to);
    assert scope == f + b + a && f !! b && (f + b) !! a;
    assert |f + b| == |f| + |b|;
  }

  lemma AfterForward(t: Table, scope: set<nat>, to: Time)
    requires scope <= t.Keys
    ensures var mid := Moved(t, Forward(t, scope, to), to);
            && Backward(mid, scope, to) == Backward(t, scope, to)
            && Moved(mid, Backward(mid, scope, to), to) == Moved(t, scope, to)
            && AtTarget(Moved(t, scope, to), scope, to) == scope
  {
    var mid := Moved(t, Forward(t, scope, to), to);
    assert Moved(mid, Backward(mid, scope, to), to).Keys == t.Keys;
    forall id | id in t ensures Moved(mid, Backward(mid, scope, to), to)[id] == Moved(t, scope, to)[id] {
      if id in scope { assert id in Forward(t, scope, to) + Backward(t, scope, to) + AtTarget(t, scope, to); }
    }
  }

  lemma TallyMeans(t: Table, scope: set<nat>, to: Time, dryRun: bool)
    requires scope <= t.Keys
    ensures var r := Tally(t, scope, to, dryRun);
            && r.advanced == |set id | id in scope && (t[id].mark.None? || t[id].mark.value < to)|
            && r.rewound == |set id | id in scope && t[id].mark.Some? && t[id].mark.value > to|
            && r.untouched == |set id | id in scope && t[id].mark == Some(to)|
            && r.sourceCount == |scope| && r.to == to && r.dryRun == dryRun
  {
    assert Forward(t, scope, to) == set id | id in scope && (t[id].mark.None? || t[id].mark.value < to);
    assert Backward(t, scope, to) == set id | id in scope && t[id].mark.Some? && t[id].mark.value > to;
    assert AtTarget(t, scope, to) == set id | id in scope && t[id].mark == Some(to);
  }

  predicate Rises(mark: Option<Time>, mark': Option<Time>) {
    mark'.Some? && (mark.Some? ==> mark.value < mark'.value)
  }

  predicate Falls(mark: Option<Time>, mark': Option<Time>) {
    mark.Some? && mark'.Some? && mark'.value < mark.value
  }

  /** Every row in scope is at the target and otherwise as it was; every other row is as it was. */
  predicate AllAt(t: Table, t': Table, scope: set<nat>, to: Time)
    requires scope <= t.Keys
  {
    && t'.Keys == t.Keys
    && (forall id :: id in t && id !in scope ==> t'[id] == t[id])
    && (forall id :: id in scope ==> t'[id] == t[id].(mark := Some(to)))
  }

  lemma MovedMeans(t: Table, scope: set<nat>, to: Time)
    requires scope <= t.Keys
    ensures var t' := Moved(t, scope, to);
            && AllAt(t, t', scope, to)
            && (set id | id in scope && Rises(t[id].mark, t'[id].mark))
               == (set id | id in scope && (t[id].mark.None? || t[id].mark.value < to))
            && (set id | id in scope && Falls(t[id].mark, t'[id].mark))
               == (set id | id in scope && t[id].mark.Some? && t[id].mark.value > to)
  {
  }

  /** Two UPDATEs, then the count of rows left alone; a dry run only counts. */
  method SeekRows(svc: SourceService, scope: set<nat>, to: Time, dryRun: bool) returns (r: SeekResult)
    requires scope <= svc.table.Keys
    modifies svc
    ensures r == Tally(old(svc.table), scope, to, dryRun)
    ensures svc.table == if dryRun then old(svc.table) else Moved(old(svc.table), scope, to)
    // The counts are of the rows behind the target, ahead of it, and at it, before the seek.
    ensures r.advanced
            == |set id | id in scope && (old(svc.table)[id].mark.None? || old(svc.table)[id].mark.value < to)|
    ensures r.rewound == |set id | id in scope && old(svc.table)[id].mark.Some? && old(svc.table)[id].mark.value > to|
    ensures r.untouched == |set id | id in scope && old(svc.table)[id].mark == Some(to)|
    ensures r.sourceCount == |scope| && r.to == to && r.dryRun == dryRun
    // On a real run they are of the rows whose mark rose, fell and stood still; no other row moved.
    ensures !dryRun ==> AllAt(old(svc.table), svc.table, scope, to)
    ensures !dryRun ==> r.advanced == |set id | id in scope && Rises(old(svc.table)[id].mark, svc.table[id].mark)|
    ensures !dryRun ==> r.rewound == |set id | id in scope && Falls(old(svc.table)[id].mark, svc.table[id].mark)|
    ensures dryRun ==> svc.table == old(svc.table)
  {
    TallyMeans(svc.table, scope, to, dryRun);
    MovedMeans(svc.table, scope, to);
    AfterForward(svc.table, scope, to);
    GroupsPartition(svc.table, scope, to);
    var advanced, rewound, untouched;
    if dryRun {
      advanced, rewound := |Forward(svc.table, scope, to)|, |Backward(svc.table, scope, to)|;
      untouched := |AtTarget(svc.table, scope, to)|;
    } else {
      var forward := Forward(svc.table, scope, to);
      svc.table := Moved(svc.table, forward, to);
      advanced := |forward|;
      var backward := Backward(svc.table, scope, to);
      svc.table := Moved(svc.table, backward, to);
      rewound := |backward|;
      untouched := |AtTarget(svc.table, scope, to)| - advanced - rewound;
    }
    r := SeekResult(advanced, rewound, untouched, advanced + rewound + untouched, to, dryRun);
  }

  /** A seek puts every row in scope at the target and touches nothing else of any row; its counts sum to the
      scope, a dry run's are the same, and a repeat finds every row unchanged. */
  lemma SeekMeansAtTarget(t: Table, scope: set<nat>, to: Time)
    requires scope <= t.Keys
    ensures var t' := Moved(t, scope, to);
            && t'.Keys == t.Keys
            && (forall id :: id in scope ==> t'[id] == t[id].(mark := Some(to)))
            && (forall id :: id in t && id !in scope ==> t'[id] == t[id])
            && Tally(t', scope, to, false) == SeekResult(0, 0, |scope|, |scope|, to, false)
            && Moved(t', scope, to) == t'
    ensures Tally(t, scope, to, true).(dryRun := false) == Tally(t, scope, to, false)
  {
    var t' := Moved(t, scope, to);
    assert Forward(t', scope, to) == {} && Backward(t', scope, to) == {} && AtTarget(t', scope, to) == scope;
  }

  function Scoped(t: Table, account: string, feed: string): set<nat> {
    set id | id in t && t[id].In(account, feed)
  }

  lemma {:induction false} ScopedMeans(t: Table, account: string, feed: string)
    ensures Scoped(t, account, feed) == set id | id in t && t[id].account == account && t[id].feed == feed
  {
    forall id | id in t ensures t[id].In(account, feed) <==> t[id].account == account && t[id].feed == feed {
    }
  }

  datatype SeekOutcome = Sought(result: SeekResult) | NotFound | WrongFeed | Bad(why: Rejection)

  /** What the owning feed turns out to be when it is read. */
  datatype Owner = Curated | Uncurated | Vanished

  /** Every source of a feed. */
  method SeekFeed(svc: SourceService, feed: string, curated: bool, raw: RawTarget, retentionDays: int,
                  now: Time, later: Time, dryRun: bool)
    returns (outcome: SeekOutcome)
    modifies svc
    ensures var target := ResolveTarget(raw, retentionDays, now, later);
            var scope := Scoped(old(svc.table), svc.account, feed);
            if !curated then outcome == WrongFeed && svc.table == old(svc.table)
            else if target.Rejected? then outcome == Bad(target.why) && svc.table == old(svc.table)
            else outcome == Sought(Tally(old(svc.table), scope, target.value, dryRun))
                 && svc.table == if dryRun then old(svc.table) else Moved(old(svc.table), scope, target.value)
    // A real seek puts this feed's rows of this account at the target, and no other row.
    ensures outcome.Sought? && !dryRun ==>
      && svc.table.Keys == old(svc.table).Keys
      && forall id :: id in svc.table ==>
        svc.table[id] == if old(svc.table)[id].account == svc.account && old(svc.table)[id].feed == feed
                         then old(svc.table)[id].(mark := Some(outcome.result.to)) else old(svc.table)[id]
    ensures outcome.Sought? ==>
      outcome.result.sourceCount
      == |set id | id in old(svc.table) && old(svc.table)[id].account == svc.account && old(svc.table)[id].feed == feed|
    ensures !outcome.Sought? || dryRun ==> svc.table == old(svc.table)
  {
    ScopedMeans(svc.table, svc.account, feed);
    if !curated {
      return WrongFeed;
    }
    var target := ResolveTarget(raw, retentionDays, now, later);
    if target.Rejected? {
      return Bad(target.why);
    }
    var r := SeekRows(svc, Scoped(svc.table, svc.account, feed), target.value, dryRun);
    return Sought(r);
  }

  /** One source by its own id, of whichever feed it belongs to. */
  method SeekById(svc: SourceService, id: nat, owner: Owner, raw: RawTarget, retentionDays: int,
                  now: Time, later: Time, dryRun: bool)
    returns (outcome: SeekOutcome)
    modifies svc
    ensures var target := ResolveTarget(raw, retentionDays, now, later);
            if id !in old(svc.table) || old(svc.table)[id].account != svc.account || owner == Vanished
            then outcome == NotFound && svc.table == old(svc.table)
            else if owner == Uncurated then outcome == WrongFeed && svc.table == old(svc.table)
            else if target.Rejected? then outcome == Bad(target.why) && svc.table == old(svc.table)
            else outcome == Sought(Tally(old(svc.table), {id}, target.value, dryRun))
                 && svc.table == if dryRun then old(svc.table) else Moved(old(svc.table), {id}, target.value)
  {
    if id !in svc.table || svc.table[id].account != svc.account {
      return NotFound;
    }
    match owner {
      case Vanished => return NotFound;
      case Uncurated => return WrongFeed;
      case Curated =>
    }
    var target := ResolveTarget(raw, retentionDays, now, later);
    if target.Rejected? {
      return Bad(target.why);
    }
    var r := SeekRows(svc, {id}, target.value, dryRun);
    return Sought(r);
  }
}
