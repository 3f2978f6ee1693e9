/** The outbound-email queue: every statement is one conditional UPDATE (mailer/services/mailer.py). */
module Mailer {
  import opened Common

  datatype EmailState = Pending | Sending | Sent | Failed

  /** The address, and the template, subject and properties as one opaque text. */
  datatype Content = Content(to: string, body: string)

  /** Addresses are stored trimmed and in lower case. */
  function Address(to: string): string { Lower(Strip(to)) }

  lemma {:induction false} AddressIsSettled(to: string)
    ensures Address(Address(to)) == Address(to)
  {
    var s := Strip(to);
    StripLeavesNoPadding(to);
    assert s != "" ==> !IsSpace(LowerChar(s[0])) && !IsSpace(LowerChar(s[|s| - 1]));
    assert StripLeft(Lower(s)) == Lower(s) && StripRight(Lower(s)) == Lower(s);
  }

  /** The stored address has no capital and no space around it, and is otherwise what was given. */
  lemma {:induction false} AddressMeans(to: string)
    ensures var a := Address(to);
            && SameButCase(a, Strip(to))
            && (forall i :: 0 <= i < |a| ==> !('A' <= a[i] <= 'Z'))
            && (a != "" ==> !IsSpace(a[0]) && !IsSpace(a[|a| - 1]))
  {
    FoldedHasNoCapital(Strip(to));
    StripLeavesNoPadding(to);
    var a, s := Address(to), Strip(to);
    assert forall i :: 0 <= i < |s| ==> SameLetter(s[i], a[i]);
  }

  datatype Email = Email(
    id: nat, key: string, content: Content, state: EmailState, attempts: nat, error: string,
    scheduledAt: Time, startedAt: Option<Time>, sentAt: Option<Time>, updatedAt: Time)
  {
    predicate Terminal() { state == Sent || state == Failed }
  }

  /** Deployment settings: the attempts cap, the stale window and the retry back-off. */
  datatype Settings = Settings(maxAttempts: int, staleAfter: Time, retryAfter: Time)

  type Rows = map<nat, Email>

  const REAPED := "reaped after stale timeout (attempts exhausted)"

  /** The row a fresh enqueue inserts. */
  function NewEmail(id: nat, key: string, content: Content, scheduledAt: Option<Time>, now: Time): Email {
    Email(id, key, content.(to := Address(content.to)), Pending, 0, "",
          if scheduledAt.Some? then scheduledAt.value else now, None, None, now)
  }

  /** What `iter_due` selects. */
  predicate Due(e: Email, ts: Time, cfg: Settings) {
    e.state == Pending && e.scheduledAt <= ts && e.attempts < cfg.maxAttempts
  }

  /** The filter of the claiming UPDATE: unlike `Due`, it does not look at `scheduledAt` again. */
  predicate Claimable(e: Email, cfg: Settings) {
    e.state == Pending && e.attempts < cfg.maxAttempts
  }

  function Claimed(e: Email, ts: Time): Email {
    e.(state := Sending, startedAt := Some(ts), attempts := e.attempts + 1)
  }

  function ClaimRow(rows: Rows, id: nat, ts: Time, cfg: Settings): Rows {
    if id in rows && Claimable(rows[id], cfg) then rows[id := Claimed(rows[id], ts)] else rows
  }

  predicate Stale(e: Email, ts: Time, cfg: Settings) {
    e.state == Sending && e.startedAt.Some? && e.startedAt.value < ts - cfg.staleAfter
  }

  function StaleIds(rows: Rows, ts: Time, cfg: Settings): set<nat> {
    set id | id in rows && Stale(rows[id], ts, cfg)
  }

  function AtCap(rows: Rows, ids: set<nat>, cfg: Settings): set<nat> {
    set id | id in ids && id in rows && rows[id].attempts >= cfg.maxAttempts
  }

  /** First statement of the reaper: stale rows at the cap become terminal. */
  function ReapExhausted(rows: Rows, ts: Time, cfg: Settings): Rows {
    map id | id in rows ::
      if Stale(rows[id], ts, cfg) && rows[id].attempts >= cfg.maxAttempts
      then rows[id].(state := Failed, error := REAPED, updatedAt := ts) else rows[id]
  }

  /** Second statement of the reaper: stale rows under the cap are requeued. */
  function ReapRetryable(rows: Rows, ts: Time, cfg: Settings): Rows {
    map id | id in rows ::
      if Stale(rows[id], ts, cfg) && rows[id].attempts < cfg.maxAttempts
      then rows[id].(state := Pending, updatedAt := ts) else rows[id]
  }

  /** The row still carries the claim that `ticket` is the snapshot of. */
  predicate Holds(rows: Rows, ticket: Email) {
    ticket.id in rows && rows[ticket.id].state == Sending && rows[ticket.id].attempts == ticket.attempts
  }

  function Completed(e: Email, ts: Time): Email {
    e.(state := Sent, sentAt := Some(ts), error := "", updatedAt := ts)
  }

  function FailedOnce(e: Email, ticket: Email, error: string, ts: Time, cfg: Settings): Email {
    if ticket.attempts >= cfg.maxAttempts
    then e.(state := Failed, error := error, scheduledAt := ticket.scheduledAt, updatedAt := ts)
    else e.(state := Pending, error := error, scheduledAt := ts + cfg.retryAfter, updatedAt := ts)
  }

  function CompleteRow(rows: Rows, ticket: Email, ts: Time): Rows {
    if Holds(rows, ticket) then rows[ticket.id := Completed(rows[ticket.id], ts)] else rows
  }

  function FailRow(rows: Rows, ticket: Email, error: string, ts: Time, cfg: Settings): Rows {
    if Holds(rows, ticket)
    then rows[ticket.id := FailedOnce(rows[ticket.id], ticket, error, ts, cfg)] else rows
  }

  /** `due` lists every due row once, oldest `scheduledAt` first. */
  ghost predicate IsListing(due: seq<nat>, rows: Rows, ts: Time, cfg: Settings) {
    && (forall id :: id in due <==> id in rows && Due(rows[id], ts, cfg))
    && (forall i, j :: 0 <= i < j < |due| ==>
          due[i] != due[j] && rows[due[i]].scheduledAt <= rows[due[j]].scheduledAt)
  }

  /** How many rows a pass limited to `limit` may claim out of `n`. */
  function Quota(limit: Option<int>, n: nat): nat {
    if limit.None? then n else if limit.value < 0 then 0 else if limit.value < n then limit.value else n
  }

  /** What the drain does with an email it was handed. */
  datatype Outcome = Delivered(at: Time) | Errored(error: string, at: Time) | Unrecorded

  function Finish(e: Email, outcome: Outcome, cfg: Settings): Email {
    match outcome
    case Delivered(at) => Completed(e, at)
    case Errored(error, at) => FailedOnce(e, e, error, at, cfg)
    case Unrecorded => e
  }

  /** The two reaper statements split the stale rows between them and leave none. */
  lemma ReapSplits(rows: Rows, ts: Time, cfg: Settings)
    ensures var stale, mid := StaleIds(rows, ts, cfg), ReapExhausted(rows, ts, cfg);
            && StaleIds(mid, ts, cfg) == stale - AtCap(rows, stale, cfg)
            && AtCap(mid, StaleIds(mid, ts, cfg), cfg) == {}
            && StaleIds(ReapRetryable(mid, ts, cfg), ts, cfg) == {}
            && |stale| == |AtCap(rows, stale, cfg)| + |stale - AtCap(rows, stale, cfg)|
  {
    var stale := StaleIds(rows, ts, cfg);
    var top := AtCap(rows, stale, cfg);
    assert stale == top + (stale - top);
  }

  /** From `e`, due at `now`, to `e'` once claimed and done with. */
  predicate DrainedTo(e: Email, e': Email, now: Time, outcome: Outcome, cfg: Settings) {
    match outcome
    case Unrecorded => e' == e.(state := Sending, startedAt := Some(now), attempts := e.attempts + 1)
    case Delivered(at) =>
      e' == e.(state := Sent, startedAt := Some(now), attempts := e.attempts + 1, sentAt := Some(at), error := "",
               updatedAt := at)
    case Errored(error, at) =>
      if e.attempts + 1 >= cfg.maxAttempts
      then e' == e.(state := Failed, startedAt := Some(now), attempts := e.attempts + 1, error := error,
                    updatedAt := at)
      else e' == e.(state := Pending, startedAt := Some(now), attempts := e.attempts + 1, error := error,
                    scheduledAt := at + cfg.retryAfter, updatedAt := at)
  }

  lemma FinishMeans(e: Email, now: Time, outcome: Outcome, cfg: Settings)
    ensures DrainedTo(e, Finish(Claimed(e, now), outcome, cfg), now, outcome, cfg)
  {
  }

  /** A row claimed longer ago than the stale window, by the reaper's clock. */
  predicate Orphaned(e: Email, now: Time, cfg: Settings) {
    e.state == Sending && e.startedAt.Some? && now - e.startedAt.value > cfg.staleAfter
  }

  /** The reaper's two statements, row by row: an orphaned row under the cap waits again, one at the cap has failed
      for good, and every other row is as it was. */
  lemma ReapMeans(rows: Rows, now: Time, cfg: Settings)
    ensures var rows' := ReapRetryable(ReapExhausted(rows, now, cfg), now, cfg);
            && rows'.Keys == rows.Keys
            && (forall id :: id in rows ==> ReapedTo(rows[id], rows'[id], now, cfg))
    ensures forall id :: id in StaleIds(rows, now, cfg) <==> id in rows && Orphaned(rows[id], now, cfg)
  {
  }

  predicate ReapedTo(e: Email, e': Email, now: Time, cfg: Settings) {
    e' == if !Orphaned(e, now, cfg) then e
          else if e.attempts < cfg.maxAttempts then e.(state := Pending, updatedAt := now)
          else e.(state := Failed, error := "reaped after stale timeout (attempts exhausted)", updatedAt := now)
  }

  class MailerQueue {
    const cfg: Settings
    var rows: Rows

    constructor (cfg: Settings)
      ensures this.cfg == cfg && rows == map[]
    {
      this.cfg := cfg;
      rows := map[];
    }

    /** Idempotent on the key: a repeat returns the row already there. */
    method Enqueue(key: string, content: Content, scheduledAt: Option<Time>, now: Time, freshId: nat)
      returns (id: nat, created: bool)
      requires freshId !in rows
      modifies this
      ensures created <==> forall i :: i in old(rows) ==> old(rows)[i].key != key
      ensures created ==> id == freshId
                          && rows == old(rows)[freshId := NewEmail(freshId, key, content, scheduledAt, now)]
      ensures !created ==> rows == old(rows) && id in rows && rows[id].key == key
      // A new row waits, unsent and unclaimed, from the given instant or from now.
      ensures created ==> rows[id] == Email(
        id, key, Content(Address(content.to), content.body), Pending, 0, "",
        (match scheduledAt case Some(at) => at case None => now), None, None, now)
    {
      if i :| i in rows && rows[i].key == key {
        return i, false;
      }
      rows := rows[freshId := NewEmail(freshId, key, content, scheduledAt, now)];
      return freshId, true;
    }

    /** The due rows, oldest first; reads only. */
    method IterDue(now: Time) returns (due: seq<nat>)
      ensures IsListing(due, rows, now, cfg)
      ensures forall id :: id in due <==>
        id in rows && rows[id].state == Pending && rows[id].scheduledAt <= now && rows[id].attempts < cfg.maxAttempts
      ensures forall i, j :: 0 <= i < j < |due| ==>
        due[i] != due[j] && rows[due[i]].scheduledAt <= rows[due[j]].scheduledAt
    {
      due := [];
      var left := set id | id in rows && Due(rows[id], now, cfg);
      while left != {}
        invariant forall id :: id in rows && Due(rows[id], now, cfg) <==> id in left || id in due
        invariant forall id :: id in due ==> id !in left
        invariant forall i, j :: 0 <= i < j < |due| ==>
          due[i] != due[j] && rows[due[i]].scheduledAt <= rows[due[j]].scheduledAt
        invariant forall i, id :: 0 <= i < |due| && id in left ==> rows[due[i]].scheduledAt <= rows[id].scheduledAt
        decreases left
      {
        var first :| first in left;
        var rest := left - {first};
        while rest != {}
          invariant first in left && rest <= left
          invariant forall id :: id in left ==> id in rest || rows[first].scheduledAt <= rows[id].scheduledAt
          decreases rest
        {
          var id :| id in rest;
          rest := rest - {id};
          if rows[id].scheduledAt < rows[first].scheduledAt {
            first := id;
          }
        }
        due := due + [first];
        left := left - {first};
      }
    }

    /** One drain pass with no rival writer: the first due rows, as many as the limit allows, each claimed once
        and then as its outcome says; every other row as it was. */
    method Drain(now: Time, limit: Option<int>, outcomes: map<nat, Outcome>) returns (due: seq<nat>, claimed: seq<nat>)
      requires forall id :: id in rows ==> rows[id].id == id && id in outcomes
      modifies this
      ensures IsListing(due, old(rows), now, cfg)
      ensures forall id :: id in due <==>
        id in old(rows) && old(rows)[id].state == Pending && old(rows)[id].scheduledAt <= now
        && old(rows)[id].attempts < cfg.maxAttempts
      ensures forall i, j :: 0 <= i < j < |due| ==>
        due[i] != due[j] && old(rows)[due[i]].scheduledAt <= old(rows)[due[j]].scheduledAt
      ensures claimed == due[..Quota(limit, |due|)]
      ensures |claimed| < |due| ==> limit.Some? && |claimed| >= limit.value
      ensures limit.Some? && claimed != [] ==> |claimed| <= limit.value
      ensures rows.Keys == old(rows).Keys
      ensures forall id :: id in claimed ==> DrainedTo(old(rows)[id], rows[id], now, outcomes[id], cfg)
      ensures forall id :: id in rows && id !in claimed ==> rows[id] == old(rows)[id]
    {
      due := IterDue(now);
      ghost var was := rows;
      claimed := ClaimListed(due, now, limit, outcomes);
      forall id | id in claimed ensures DrainedTo(was[id], rows[id], now, outcomes[id], cfg) {
        FinishMeans(was[id], now, outcomes[id], cfg);
      }
    }

    /** The loop over the listed rows: `claim_due` hands over each row it flipped, and the consumer settles it
        before the next candidate is looked at. */
    method ClaimListed(due: seq<nat>, now: Time, limit: Option<int>, outcomes: map<nat, Outcome>)
      returns (claimed: seq<nat>)
      requires IsListing(due, rows, now, cfg) && forall id :: id in rows ==> rows[id].id == id && id in outcomes
      modifies this
      ensures claimed == due[..Quota(limit, |due|)] && rows.Keys == old(rows).Keys
      ensures forall id :: id in claimed ==> rows[id] == Finish(Claimed(old(rows)[id], now), outcomes[id], cfg)
      ensures forall id :: id in rows && id !in claimed ==> rows[id] == old(rows)[id]
    {
      claimed := [];
      var i := 0;
      while i < |due| && !(limit.Some? && |claimed| >= limit.value)
        invariant i <= |due| && claimed == due[..i] && i <= Quota(limit, |due|)
        invariant rows.Keys == old(rows).Keys
        invariant forall id :: id in claimed ==> rows[id] == Finish(Claimed(old(rows)[id], now), outcomes[id], cfg)
        invariant forall id :: id in rows && id !in claimed ==> rows[id] == old(rows)[id]
      {
        var id := due[i];
        assert id !in claimed;
        if Claimable(rows[id], cfg) {
          rows := rows[id := Claimed(rows[id], now)];
          var email := rows[id];
          claimed := claimed + [id];
          Settle(email, outcomes[id]);
        }
        i := i + 1;
      }
    }

    /** What the consumer does with the email just claimed. */
    method Settle(email: Email, outcome: Outcome)
      requires email.id in rows && rows[email.id] == email && email.state == Sending
      modifies this
      ensures rows == old(rows)[email.id := Finish(email, outcome, cfg)]
    {
      match outcome
      case Delivered(at) => var _ := CompleteSent(email, at);
      case Errored(error, at) => var _ := Fail(email, error, at);
      case Unrecorded =>
    }

    /** Both reaper statements in a row; the result counts the rows they flipped. */
    method ReapStale(now: Time) returns (n: nat)
      modifies this
      ensures rows == ReapRetryable(ReapExhausted(old(rows), now, cfg), now, cfg)
      ensures n == |StaleIds(old(rows), now, cfg)|
      ensures StaleIds(rows, now, cfg) == {}
      ensures rows.Keys == old(rows).Keys && forall id :: id in rows ==> ReapedTo(old(rows)[id], rows[id], now, cfg)
      ensures n == |set id | id in old(rows) && Orphaned(old(rows)[id], now, cfg)|
    {
      ReapMeans(rows, now, cfg);
      assert (set id | id in rows && Orphaned(rows[id], now, cfg)) == StaleIds(rows, now, cfg);
      ReapSplits(rows, now, cfg);
      var exhausted := AtCap(rows, StaleIds(rows, now, cfg), cfg);
      rows := ReapExhausted(rows, now, cfg);
      var stale := StaleIds(rows, now, cfg);
      var retryable := stale - AtCap(rows, stale, cfg);
      rows := ReapRetryable(rows, now, cfg);
      n := |exhausted| + |retryable|;
    }

    method CompleteSent(email: Email, now: Time) returns (won: bool)
      modifies this
      ensures won == Holds(old(rows), email)
      ensures rows == CompleteRow(old(rows), email, now)
      ensures won <==> email.id in old(rows) && old(rows)[email.id].state == Sending
                       && old(rows)[email.id].attempts == email.attempts
      ensures rows == if !won then old(rows) else old(rows)[email.id := old(rows)[email.id].(
        state := Sent, sentAt := Some(now), error := "", updatedAt := now)]
    {
      won := email.id in rows && rows[email.id].state == Sending && rows[email.id].attempts == email.attempts;
      if won {
        rows := rows[email.id := rows[email.id].(state := Sent, sentAt := Some(now), error := "", updatedAt := now)];
      }
    }

    method Fail(email: Email, error: string, now: Time) returns (won: bool)
      modifies this
      ensures won == Holds(old(rows), email)
      ensures rows == FailRow(old(rows), email, error, now, cfg)
      ensures won <==> email.id in old(rows) && old(rows)[email.id].state == Sending
                       && old(rows)[email.id].attempts == email.attempts
      ensures !won ==> rows == old(rows)
      ensures won && email.attempts < cfg.maxAttempts ==> rows == old(rows)[email.id := old(rows)[email.id].(
        state := Pending, error := error, scheduledAt := now + cfg.retryAfter, updatedAt := now)]
      ensures won && email.attempts >= cfg.maxAttempts ==> rows == old(rows)[email.id := old(rows)[email.id].(
        state := Failed, error := error, scheduledAt := email.scheduledAt, updatedAt := now)]
    {
      var newState, scheduledAt := Pending, now + cfg.retryAfter;
      if email.attempts >= cfg.maxAttempts {
        newState, scheduledAt := Failed, email.scheduledAt;
      }
      won := email.id in rows && rows[email.id].state == Sending && rows[email.id].attempts == email.attempts;
      if won {
        rows := rows[email.id :=
          rows[email.id].(state := newState, error := error, scheduledAt := scheduledAt, updatedAt := now)];
      }
    }
  }
}
