/** Any number of drains, reapers and crashes over the outbound-email queue, one UPDATE per step. */
module MailerRuns {
  import opened Common
  import opened Mailer

  /** `tickets` are the snapshots handed out by successful claims, in order; `won` those that settled
      their row. A worker that crashes simply never uses its ticket, a stale one uses it late. */
  datatype World = World(rows: Rows, tickets: seq<Email>, won: set<nat>)

  datatype Event =
    | Enqueue(key: string, content: Content, scheduledAt: Option<Time>, now: Time, freshId: nat)
    | Claim(id: nat, ts: Time)
    | ReapTop(ts: Time)
    | ReapRest(ts: Time)
    | Complete(ticket: nat, ts: Time)
    | Fail(ticket: nat, error: string, ts: Time)

  ghost predicate HasKey(rows: Rows, key: string) {
    exists id :: id in rows && rows[id].key == key
  }

  ghost function Step(w: World, ev: Event, cfg: Settings): World {
    match ev
    case Enqueue(key, content, scheduledAt, now, id) =>
      if id in w.rows || HasKey(w.rows, key) then w
      else w.(rows := w.rows[id := NewEmail(id, key, content, scheduledAt, now)])
    case Claim(id, ts) =>
      var rows := ClaimRow(w.rows, id, ts, cfg);
      if id in w.rows && Claimable(w.rows[id], cfg)
      then w.(rows := rows, tickets := w.tickets + [rows[id]]) else w
    case ReapTop(ts) => w.(rows := ReapExhausted(w.rows, ts, cfg))
    case ReapRest(ts) => w.(rows := ReapRetryable(w.rows, ts, cfg))
    case Complete(k, ts) =>
      if k < |w.tickets| && Holds(w.rows, w.tickets[k])
      then w.(rows := CompleteRow(w.rows, w.tickets[k], ts), won := w.won + {k}) else w
    case Fail(k, error, ts) =>
      if k < |w.tickets| && Holds(w.rows, w.tickets[k])
      then w.(rows := FailRow(w.rows, w.tickets[k], error, ts, cfg), won := w.won + {k}) else w
  }

  ghost function Exec(w: World, evs: seq<Event>, cfg: Settings): World
    decreases |evs|
  {
    if evs == [] then w else Exec(Step(w, evs[0], cfg), evs[1..], cfg)
  }

  const EMPTY := World(map[], [], {})

  /** What an event does to one row, field by field. */
  predicate StepsTo(w: World, ev: Event, id: nat, e: Email, e': Email, cfg: Settings) {
    match ev
    case Enqueue(_, _, _, _, _) => e' == e
    case Claim(i, ts) =>
      e' == if i == id && e.state == Pending && e.attempts < cfg.maxAttempts
            then e.(state := Sending, startedAt := Some(ts), attempts := e.attempts + 1) else e
    case ReapTop(ts) =>
      e' == if Orphaned(e, ts, cfg) && e.attempts >= cfg.maxAttempts
            then e.(state := Failed, error := REAPED, updatedAt := ts) else e
    case ReapRest(ts) =>
      e' == if Orphaned(e, ts, cfg) && e.attempts < cfg.maxAttempts
            then e.(state := Pending, updatedAt := ts) else e
    case Complete(k, ts) =>
      e' == if Carries(w, k, id, e) then e.(state := Sent, sentAt := Some(ts), error := "", updatedAt := ts) else e
    case Fail(k, error, ts) =>
      e' == if !Carries(w, k, id, e) then e
            else if w.tickets[k].attempts < cfg.maxAttempts
            then e.(state := Pending, error := error, scheduledAt := ts + cfg.retryAfter, updatedAt := ts)
            else e.(state := Failed, error := error, scheduledAt := w.tickets[k].scheduledAt, updatedAt := ts)
  }

  /** Row `e`, filed under `id`, is being sent under ticket `k`. */
  predicate Carries(w: World, k: nat, id: nat, e: Email) {
    k < |w.tickets| && w.tickets[k].id == id && e.state == Sending && e.attempts == w.tickets[k].attempts
  }

  lemma StepMeans(w: World, ev: Event, id: nat, cfg: Settings)
    ensures id in w.rows ==>
              id in Step(w, ev, cfg).rows && StepsTo(w, ev, id, w.rows[id], Step(w, ev, cfg).rows[id], cfg)
    ensures id !in w.rows && id in Step(w, ev, cfg).rows ==>
              ev.Enqueue? && id == ev.freshId && (forall i :: i in w.rows ==> w.rows[i].key != ev.key)
              && Step(w, ev, cfg).rows[id] == Email(
                   id, ev.key, Content(Address(ev.content.to), ev.content.body), Pending, 0, "",
                   (match ev.scheduledAt case Some(at) => at case None => ev.now), None, None, ev.now)
  {
  }

  /** When the row was last settled as sent, along a run. */
  ghost function Completion(w: World, evs: seq<Event>, id: nat, cfg: Settings): Option<Time>
    decreases |evs|
  {
    if evs == [] then None else
    var later := Completion(Step(w, evs[0], cfg), evs[1..], id, cfg);
    if later.None? && evs[0].Complete? && id in w.rows && Carries(w, evs[0].ticket, id, w.rows[id])
    then Some(evs[0].ts) else later
  }

  lemma {:induction false} CompletionMeans(w: World, evs: seq<Event>, id: nat, cfg: Settings)
    requires id in w.rows ==> (w.rows[id].state == Sent ==> w.rows[id].sentAt.Some?)
                              && (w.rows[id].state != Sent ==> w.rows[id].sentAt.None?)
    ensures id in w.rows ==> id in Exec(w, evs, cfg).rows
    ensures id in Exec(w, evs, cfg).rows ==>
              var e, done := Exec(w, evs, cfg).rows[id], Completion(w, evs, id, cfg);
              && (e.state == Sent <==> done.Some? || (id in w.rows && w.rows[id].state == Sent))
              && (e.state != Sent ==> e.sentAt.None?)
              && (done.Some? ==> e.sentAt == done)
              && (done.None? && id in w.rows ==> e.sentAt == w.rows[id].sentAt)
    decreases |evs|
  {
    if evs != [] {
      StepMeans(w, evs[0], id, cfg);
      CompletionMeans(Step(w, evs[0], cfg), evs[1..], id, cfg);
    }
  }

  /** A row is SENT exactly when a completion of one of its claims settled it, and then bears that completion's
      clock; no other row bears one. */
  lemma {:induction false} SentIffCompleted(evs: seq<Event>, id: nat, cfg: Settings)
    requires id in Exec(EMPTY, evs, cfg).rows
    ensures var e, done := Exec(EMPTY, evs, cfg).rows[id], Completion(EMPTY, evs, id, cfg);
            (e.state == Sent <==> done.Some?) && e.sentAt == done
  {
    CompletionMeans(EMPTY, evs, id, cfg);
  }

  /** How often row `id` was claimed. */
  function Claims(tickets: seq<Email>, id: nat): nat {
    if tickets == [] then 0
    else Claims(tickets[..|tickets| - 1], id) + if tickets[|tickets| - 1].id == id then 1 else 0
  }

  /** Fence and accounting of one row. */
  predicate RowOk(id: nat, e: Email, tickets: seq<Email>, cfg: Settings) {
    && e.id == id
    && e.attempts == Claims(tickets, id) <= cfg.maxAttempts
    && (e.state == Pending ==> e.attempts < cfg.maxAttempts)
    && (e.state == Sending ==> e.attempts > 0 && e.startedAt.Some?)
    && (e.state == Failed ==> e.attempts == cfg.maxAttempts)
  }

  predicate TicketOk(w: World, k: nat)
    requires k < |w.tickets|
  {
    var t := w.tickets[k];
    && t.id in w.rows
    && 1 <= t.attempts <= w.rows[t.id].attempts
    && t.state == Sending
    && (Holds(w.rows, t) ==> w.rows[t.id] == t && k !in w.won)
  }

  ghost predicate Inv(w: World, cfg: Settings) {
    && (forall id :: id in w.rows ==> RowOk(id, w.rows[id], w.tickets, cfg))
    && (forall a, b :: a in w.rows && b in w.rows && w.rows[a].key == w.rows[b].key ==> a == b)
    && (forall k :: 0 <= k < |w.tickets| ==> TicketOk(w, k))
    && (forall j, k :: 0 <= j < k < |w.tickets| && w.tickets[j].id == w.tickets[k].id ==>
          w.tickets[j].attempts < w.tickets[k].attempts)
    && (forall k :: k in w.won ==> k < |w.tickets|)
    && (forall id :: id !in w.rows ==> Claims(w.tickets, id) == 0)
  }

  lemma {:induction false} ClaimKeepsInv(w: World, id: nat, ts: Time, cfg: Settings)
    requires Inv(w, cfg)
    ensures Inv(Step(w, Claim(id, ts), cfg), cfg)
  {
    var w' := Step(w, Claim(id, ts), cfg);
    if w' != w {
      assert w'.tickets[..|w.tickets|] == w.tickets;
      forall k | 0 <= k < |w'.tickets| ensures TicketOk(w', k) {
        if k < |w.tickets| { assert TicketOk(w, k); }
      }
      forall i | i in w'.rows ensures RowOk(i, w'.rows[i], w'.tickets, cfg) {
        assert RowOk(i, w.rows[i], w.tickets, cfg);
      }
      forall j, k | 0 <= j < k < |w'.tickets| && w'.tickets[j].id == w'.tickets[k].id
        ensures w'.tickets[j].attempts < w'.tickets[k].attempts
      {
        assert TicketOk(w, j);
      }
    }
  }

  /** What a reap, a completion or a failure may do to one row. */
  predicate Moves(e: Email, e': Email, cfg: Settings) {
    || e' == e
    || (&& e.state == Sending
        && (e'.id, e'.key, e'.attempts) == (e.id, e.key, e.attempts)
        && match e'.state
           case Pending => e.attempts < cfg.maxAttempts
           case Failed => e.attempts >= cfg.maxAttempts
           case Sent => true
           case Sending => false)
  }

  predicate Releases(w: World, w': World, cfg: Settings) {
    && w'.rows.Keys == w.rows.Keys && w'.tickets == w.tickets
    && (forall id :: id in w.rows ==> Moves(w.rows[id], w'.rows[id], cfg))
    && (forall k :: k in w'.won && k !in w.won ==> k < |w.tickets| && !Holds(w'.rows, w.tickets[k]))
    && w.won <= w'.won
  }

  lemma ReapsRelease(w: World, ts: Time, cfg: Settings)
    ensures Releases(w, Step(w, ReapTop(ts), cfg), cfg)
    ensures Releases(w, Step(w, ReapRest(ts), cfg), cfg)
  {
  }

  lemma {:induction false} SettlementsRelease(w: World, k: nat, error: string, ts: Time, cfg: Settings)
    requires k < |w.tickets| && w.tickets[k].id in w.rows
    ensures Releases(w, Step(w, Complete(k, ts), cfg), cfg)
    ensures Releases(w, Step(w, Fail(k, error, ts), cfg), cfg)
  {
  }

  lemma ReleasingSteps(w: World, ev: Event, cfg: Settings)
    requires Inv(w, cfg) && !ev.Enqueue? && !ev.Claim?
    ensures Releases(w, Step(w, ev, cfg), cfg)
  {
    match ev {
      case ReapTop(ts) => ReapsRelease(w, ts, cfg);
      case ReapRest(ts) => ReapsRelease(w, ts, cfg);
      case Complete(k, ts) =>
        if k < |w.tickets| {
          assert TicketOk(w, k);
          SettlementsRelease(w, k, "", ts, cfg);
        }
      case Fail(k, error, ts) =>
        if k < |w.tickets| {
          assert TicketOk(w, k);
          SettlementsRelease(w, k, error, ts, cfg);
        }
    }
  }

  lemma ReleasesKeepInv(w: World, w': World, cfg: Settings)
    requires Inv(w, cfg) && Releases(w, w', cfg)
    ensures Inv(w', cfg)
  {
    forall id | id in w'.rows ensures RowOk(id, w'.rows[id], w'.tickets, cfg) {
      assert RowOk(id, w.rows[id], w.tickets, cfg) && Moves(w.rows[id], w'.rows[id], cfg);
    }
    forall a, b | a in w'.rows && b in w'.rows && w'.rows[a].key == w'.rows[b].key ensures a == b {
      assert Moves(w.rows[a], w'.rows[a], cfg) && Moves(w.rows[b], w'.rows[b], cfg);
    }
    forall k | 0 <= k < |w'.tickets| ensures TicketOk(w', k) {
      assert TicketOk(w, k);
      var t := w.tickets[k];
      assert Moves(w.rows[t.id], w'.rows[t.id], cfg);
    }
  }

  lemma EnqueueKeepsInv(w: World, ev: Event, cfg: Settings)
    requires cfg.maxAttempts >= 1 && Inv(w, cfg) && ev.Enqueue?
    ensures Inv(Step(w, ev, cfg), cfg)
  {
    var w' := Step(w, ev, cfg);
    if w' != w {
      forall k | 0 <= k < |w'.tickets| ensures TicketOk(w', k) {
        assert TicketOk(w, k);
      }
    }
  }

  /** Every event keeps the queue invariant, whoever issues it and whatever its clock says. */
  lemma StepKeepsInv(w: World, ev: Event, cfg: Settings)
    requires cfg.maxAttempts >= 1 && Inv(w, cfg)
    ensures Inv(Step(w, ev, cfg), cfg)
  {
    if ev.Enqueue? {
      EnqueueKeepsInv(w, ev, cfg);
    } else if ev.Claim? {
      ClaimKeepsInv(w, ev.id, ev.ts, cfg);
    } else {
      ReleasingSteps(w, ev, cfg);
      ReleasesKeepInv(w, Step(w, ev, cfg), cfg);
    }
  }

  /** Safety over every run: attempts count the claims and never pass the cap, each state implies its
      share of the cap, and every (row, attempts) pair has at most one ticket, in claim order. */
  lemma {:induction false} RunsKeepInv(evs: seq<Event>, cfg: Settings)
    requires cfg.maxAttempts >= 1
    ensures Inv(Exec(EMPTY, evs, cfg), cfg)
  {
    RunsKeepInvFrom(EMPTY, evs, cfg);
  }

  lemma {:induction false} RunsKeepInvFrom(w: World, evs: seq<Event>, cfg: Settings)
    requires cfg.maxAttempts >= 1 && Inv(w, cfg)
    ensures Inv(Exec(w, evs, cfg), cfg)
    decreases |evs|
  {
    if evs != [] {
      StepKeepsInv(w, evs[0], cfg);
      RunsKeepInvFrom(Step(w, evs[0], cfg), evs[1..], cfg);
    }
  }

  /** SENT and FAILED rows never change again, in any continuation. */
  lemma {:induction false} TerminalForever(w: World, evs: seq<Event>, id: nat, cfg: Settings)
    requires id in w.rows && w.rows[id].Terminal()
    ensures id in Exec(w, evs, cfg).rows && Exec(w, evs, cfg).rows[id] == w.rows[id]
    decreases |evs|
  {
    if evs != [] {
      var w' := Step(w, evs[0], cfg);
      assert id in w'.rows && w'.rows[id] == w.rows[id];
      TerminalForever(w', evs[1..], id, cfg);
    }
  }

  /** While a claim holds its row, no other ticket of that row can settle it, and the holder has not yet. */
  lemma {:induction false} SoleHolder(w: World, holder: nat, other: nat, error: string, ts: Time, cfg: Settings)
    requires Inv(w, cfg) && holder < |w.tickets| && other < |w.tickets| && holder != other
    requires Holds(w.rows, w.tickets[holder]) && w.tickets[other].id == w.tickets[holder].id
    ensures holder !in w.won
    ensures Step(w, Complete(other, ts), cfg) == w && Step(w, Fail(other, error, ts), cfg) == w
    ensures holder in Step(w, Complete(holder, ts), cfg).won && holder in Step(w, Fail(holder, error, ts), cfg).won
  {
    assert TicketOk(w, holder) && TicketOk(w, other);
  }

  /** A ticket settles at most once: whatever happens after it won, using it again changes nothing. */
  lemma {:induction false} SpentTicketIsInert(w: World, evs: seq<Event>, k: nat, error: string, ts: Time, cfg: Settings)
    requires cfg.maxAttempts >= 1 && Inv(w, cfg) && k in w.won
    ensures var w' := Exec(w, evs, cfg);
            k in w'.won && Step(w', Complete(k, ts), cfg) == w' && Step(w', Fail(k, error, ts), cfg) == w'
    decreases |evs|
  {
    if evs == [] {
      assert TicketOk(w, k);
    } else {
      StepKeepsInv(w, evs[0], cfg);
      SpentTicketIsInert(Step(w, evs[0], cfg), evs[1..], k, error, ts, cfg);
    }
  }

  function Measure(e: Email, cfg: Settings): (m: int) {
    match e.state
    case Pending => 2 * (cfg.maxAttempts - e.attempts)
    case Sending => 2 * (cfg.maxAttempts - e.attempts) + 1
    case Sent => 0
    case Failed => 0
  }

  /** A step either leaves a row alone or strictly lowers its measure, which is never negative. */
  lemma StepLowersMeasure(w: World, ev: Event, id: nat, cfg: Settings)
    requires cfg.maxAttempts >= 1 && Inv(w, cfg) && id in w.rows
    ensures id in Step(w, ev, cfg).rows
    ensures var e, e' := w.rows[id], Step(w, ev, cfg).rows[id];
            && 0 <= Measure(e', cfg) <= Measure(e, cfg) <= 2 * cfg.maxAttempts
            && (e' == e <==> Measure(e', cfg) == Measure(e, cfg))
            && (e' == e <==> e'.state == e.state)
  {
    assert RowOk(id, w.rows[id], w.tickets, cfg);
    if !ev.Enqueue? && !ev.Claim? {
      ReleasingSteps(w, ev, cfg);
      assert Moves(w.rows[id], Step(w, ev, cfg).rows[id], cfg);
    }
  }

  /** How many events of a run change row `id`. */
  ghost function Changes(w: World, evs: seq<Event>, id: nat, cfg: Settings): nat
    decreases |evs|
  {
    if evs == [] then 0 else
    var w' := Step(w, evs[0], cfg);
    (if id in w.rows && id in w'.rows && w'.rows[id] != w.rows[id] then 1 else 0) + Changes(w', evs[1..], id, cfg)
  }

  /** A row changes at most `2 * cap` times in any run, and is claimed at most `cap` times. */
  lemma {:induction false} ChangesAreBounded(w: World, evs: seq<Event>, id: nat, cfg: Settings)
    requires cfg.maxAttempts >= 1 && Inv(w, cfg) && id in w.rows
    ensures id in Exec(w, evs, cfg).rows
    ensures Changes(w, evs, id, cfg) + Measure(Exec(w, evs, cfg).rows[id], cfg)
            <= Measure(w.rows[id], cfg) <= 2 * cfg.maxAttempts
    ensures Claims(Exec(w, evs, cfg).tickets, id) == Exec(w, evs, cfg).rows[id].attempts <= cfg.maxAttempts
    decreases |evs|
  {
    if evs == [] {
      StepLowersMeasure(w, ReapTop(0), id, cfg);
      assert RowOk(id, w.rows[id], w.tickets, cfg);
    } else {
      StepLowersMeasure(w, evs[0], id, cfg);
      StepKeepsInv(w, evs[0], cfg);
      ChangesAreBounded(Step(w, evs[0], cfg), evs[1..], id, cfg);
    }
  }

  /** `ev` looks after row `id` at a clock past the time the row is waiting for: a drain claims a PENDING
      row whose schedule elapsed, or the reaper meets a SENDING row older than the stale window. */
  predicate Serves(w: World, ev: Event, id: nat, cfg: Settings) {
    id in w.rows &&
    var e := w.rows[id];
    match ev
    case Claim(i, ts) => i == id && e.state == Pending && e.scheduledAt <= ts
    case ReapTop(ts) => Stale(e, ts, cfg) && e.attempts >= cfg.maxAttempts
    case ReapRest(ts) => Stale(e, ts, cfg) && e.attempts < cfg.maxAttempts
    case _ => false
  }

  /** No row is ever stuck: once the clock passes, a non-terminal row is due or stale and the event that
      serves it moves it. */
  lemma NeverStuck(w: World, id: nat, now: Time, cfg: Settings)
    requires cfg.maxAttempts >= 1 && Inv(w, cfg) && id in w.rows && !w.rows[id].Terminal()
    requires w.rows[id].scheduledAt <= now
    requires w.rows[id].startedAt.Some? ==> w.rows[id].startedAt.value + cfg.staleAfter < now
    ensures w.rows[id].state == Pending ==> Due(w.rows[id], now, cfg)
    ensures exists ev :: Serves(w, ev, id, cfg)
    ensures forall ev :: Serves(w, ev, id, cfg) ==> Step(w, ev, cfg).rows[id].state != w.rows[id].state
  {
    var e := w.rows[id];
    assert RowOk(id, e, w.tickets, cfg);
    var ev := if e.state == Pending then Claim(id, now)
              else if e.attempts >= cfg.maxAttempts then ReapTop(now) else ReapRest(now);
    assert Serves(w, ev, id, cfg);
  }

  ghost predicate IsRun(ws: nat -> World, evs: nat -> Event, cfg: Settings) {
    ws(0) == EMPTY && forall i: nat :: ws(i + 1) == Step(ws(i), evs(i), cfg)
  }

  ghost predicate Done(w: World, id: nat) {
    id in w.rows && w.rows[id].Terminal()
  }

  /** Drains and reapers keep coming back: a row that stays non-terminal is eventually served. */
  ghost predicate IsFair(ws: nat -> World, evs: nat -> Event, cfg: Settings) {
    forall i: nat, id: nat :: id in ws(i).rows ==>
      exists j: nat :: i <= j && (Done(ws(j), id) || Serves(ws(j), evs(j), id, cfg))
  }

  lemma {:induction false} RunStates(ws: nat -> World, evs: nat -> Event, i: nat, cfg: Settings)
    requires cfg.maxAttempts >= 1 && IsRun(ws, evs, cfg)
    ensures Inv(ws(i), cfg)
  {
    if i > 0 {
      RunStates(ws, evs, i - 1, cfg);
      StepKeepsInv(ws(i - 1), evs(i - 1), cfg);
      assert ws(i - 1 + 1) == Step(ws(i - 1), evs(i - 1), cfg);
    }
  }

  lemma {:induction false} MeasureFalls(ws: nat -> World, evs: nat -> Event, i: nat, j: nat, id: nat, cfg: Settings)
    requires cfg.maxAttempts >= 1 && IsRun(ws, evs, cfg) && i <= j && id in ws(i).rows
    ensures id in ws(j).rows && Measure(ws(j).rows[id], cfg) <= Measure(ws(i).rows[id], cfg)
    decreases j - i
  {
    if i < j {
      MeasureFalls(ws, evs, i, j - 1, id, cfg);
      RunStates(ws, evs, j - 1, cfg);
      StepLowersMeasure(ws(j - 1), evs(j - 1), id, cfg);
      assert ws(j - 1 + 1) == Step(ws(j - 1), evs(j - 1), cfg);
    }
  }

  /** Every row of every fair run ends in SENT or FAILED. */
  lemma {:induction false} FairRunsFinish(ws: nat -> World, evs: nat -> Event, i: nat, id: nat, cfg: Settings)
    requires cfg.maxAttempts >= 1 && IsRun(ws, evs, cfg) && IsFair(ws, evs, cfg) && id in ws(i).rows
    ensures exists j: nat :: i <= j && Done(ws(j), id)
    decreases Measure(ws(i).rows[id], cfg)
  {
    var j: nat :| i <= j && (Done(ws(j), id) || Serves(ws(j), evs(j), id, cfg));
    if !Done(ws(j), id) {
      MeasureFalls(ws, evs, i, j, id, cfg);
      RunStates(ws, evs, j, cfg);
      ServedFalls(ws(j), evs(j), id, cfg);
      assert ws(j + 1) == Step(ws(j), evs(j), cfg);
      FairRunsFinish(ws, evs, j + 1, id, cfg);
    }
  }

  lemma ServedFalls(w: World, ev: Event, id: nat, cfg: Settings)
    requires cfg.maxAttempts >= 1 && Inv(w, cfg) && id in w.rows && Serves(w, ev, id, cfg)
    ensures id in Step(w, ev, cfg).rows && Measure(Step(w, ev, cfg).rows[id], cfg) < Measure(w.rows[id], cfg)
  {
    assert RowOk(id, w.rows[id], w.tickets, cfg);
    assert Step(w, ev, cfg).rows[id].state != w.rows[id].state;
    StepLowersMeasure(w, ev, id, cfg);
  }

  /** A claim is stamped with the start of its pass, so the reaper may take it back at once: it does so
      exactly when the pass is already older than the stale window by the reaper's clock. */
  lemma FreshClaimMayLookStale(w: World, id: nat, passStart: Time, reaperClock: Time, cfg: Settings)
    requires Inv(w, cfg) && id in w.rows && Claimable(w.rows[id], cfg)
    ensures var claimed := Step(w, Claim(id, passStart), cfg);
            var reaped := Step(Step(claimed, ReapTop(reaperClock), cfg), ReapRest(reaperClock), cfg);
            && Holds(claimed.rows, claimed.tickets[|w.tickets|])
            && (!Holds(reaped.rows, claimed.tickets[|w.tickets|]) <==> passStart + cfg.staleAfter < reaperClock)
  {
    assert RowOk(id, w.rows[id], w.tickets, cfg);
  }

  /** `ev` is a failure that sends row `id` back to wait. */
  predicate Retries(w: World, ev: Event, id: nat, cfg: Settings) {
    ev.Fail? && ev.ticket < |w.tickets| && w.tickets[ev.ticket].id == id && Holds(w.rows, w.tickets[ev.ticket])
    && w.tickets[ev.ticket].attempts < cfg.maxAttempts
  }

  /** When the last such failure of a run was recorded. */
  ghost function LastRetry(w: World, evs: seq<Event>, id: nat, cfg: Settings): Option<Time>
    decreases |evs|
  {
    if evs == [] then None else
    var later := LastRetry(Step(w, evs[0], cfg), evs[1..], id, cfg);
    if later.None? && Retries(w, evs[0], id, cfg) then Some(evs[0].ts) else later
  }

  /** Only such a failure moves a row's schedule. */
  lemma StepKeepsSchedule(w: World, ev: Event, id: nat, cfg: Settings)
    requires Inv(w, cfg) && id in w.rows
    ensures id in Step(w, ev, cfg).rows
    ensures Step(w, ev, cfg).rows[id].scheduledAt ==
            if Retries(w, ev, id, cfg) then ev.ts + cfg.retryAfter else w.rows[id].scheduledAt
  {
    if ev.Fail? && ev.ticket < |w.tickets| {
      assert TicketOk(w, ev.ticket);
    }
  }

  lemma {:induction false} ScheduleIsLastRetry(w: World, evs: seq<Event>, id: nat, cfg: Settings)
    requires cfg.maxAttempts >= 1 && Inv(w, cfg) && id in w.rows
    ensures id in Exec(w, evs, cfg).rows
    ensures Exec(w, evs, cfg).rows[id].scheduledAt ==
            match LastRetry(w, evs, id, cfg) case Some(ts) => ts + cfg.retryAfter case None => w.rows[id].scheduledAt
    decreases |evs|
  {
    if evs != [] {
      StepKeepsSchedule(w, evs[0], id, cfg);
      StepKeepsInv(w, evs[0], cfg);
      ScheduleIsLastRetry(Step(w, evs[0], cfg), evs[1..], id, cfg);
    }
  }

  /** The claim takes the row although it is not due by the pass's own clock. */
  ghost predicate TakenEarly(w: World, id: nat, ts: Time, cfg: Settings) {
    id in w.rows && !Due(w.rows[id], ts, cfg) && |Step(w, Claim(id, ts), cfg).tickets| > |w.tickets|
  }

  lemma TakenEarlyIff(w: World, id: nat, ts: Time, cfg: Settings)
    ensures TakenEarly(w, id, ts, cfg) <==> id in w.rows && Claimable(w.rows[id], cfg) && ts < w.rows[id].scheduledAt
  {
  }

  /** The claiming UPDATE does not re-check the schedule. A row that a pass listed as due is taken early, whatever
      ran between its listing and its claim, exactly when it is pending again after a failure whose back-off
      ends past the pass's clock. */
  lemma {:induction false} BackoffIsSkippedIff(w: World, evs: seq<Event>, id: nat, ts: Time, cfg: Settings)
    requires cfg.maxAttempts >= 1 && Inv(w, cfg) && id in w.rows && Due(w.rows[id], ts, cfg)
    ensures var w', failed := Exec(w, evs, cfg), LastRetry(w, evs, id, cfg);
            TakenEarly(w', id, ts, cfg) <==>
            id in w'.rows && w'.rows[id].state == Pending && failed.Some? && ts < failed.value + cfg.retryAfter
  {
    ScheduleIsLastRetry(w, evs, id, cfg);
    RunsKeepInvFrom(w, evs, cfg);
    var w' := Exec(w, evs, cfg);
    assert RowOk(id, w'.rows[id], w'.tickets, cfg);
    TakenEarlyIff(w', id, ts, cfg);
  }

  /** Such a run: a drain whose listing predates a failure claims the row again before its back-off elapsed. */
  lemma BackoffMayBeSkipped(id: nat, now: Time, cfg: Settings)
    requires cfg.maxAttempts >= 2 && cfg.retryAfter > 0
    ensures var evs := [Enqueue("k", Content("", ""), None, now, id), Claim(id, now), Fail(0, "e", now)];
            var w := Exec(EMPTY, evs, cfg);
            && id in w.rows && !Due(w.rows[id], now, cfg)
            && Step(w, Claim(id, now), cfg).rows[id].state == Sending
  {
    var e0, e1, e2 := Enqueue("k", Content("", ""), None, now, id), Claim(id, now), Fail(0, "e", now);
    var w1 := Step(EMPTY, e0, cfg);
    var w2 := Step(w1, e1, cfg);
    var w3 := Step(w2, e2, cfg);
    assert [e0, e1, e2][1..] == [e1, e2] && [e1, e2][1..] == [e2] && [e2][1..] == [];
    assert Exec(w2, [e2], cfg) == Exec(w3, [], cfg) == w3;
    assert Exec(w1, [e1, e2], cfg) == w3;
  }
}
