/** The thread that keeps a lease alive (common/lease_renewer.py). Clocks are real seconds. */
module LeaseRenewing {

  /** A third of the window, floored at one second. */
  function RenewInterval(timeout: real): (interval: real)
    ensures timeout >= 3.0 ==> 3.0 * interval == timeout
    ensures timeout <= 3.0 ==> interval == 1.0
    ensures interval >= 1.0
  {
    if timeout / 3.0 > 1.0 then timeout / 3.0 else 1.0
  }

  /** What `renew` did: it found the lease ours and stamped it, found it gone, or raised. */
  datatype Outcome = Ours | Lost | Raised

  /** One return of the stop event's timed wait with the event still unset: the clock read that follows,
      and what a renewal begun then does. */
  datatype Tick = Tick(now: real, outcome: Outcome)

  datatype Ending = Stopped | HeldTooLong | LeaseLost

  /** Time of the last success before tick `n`; the thread's start counts as one. */
  function LastOk(startedAt: real, ticks: seq<Tick>, n: nat): real
    requires n <= |ticks|
  {
    if n == 0 then startedAt
    else if ticks[n - 1].outcome == Ours then ticks[n - 1].now
    else LastOk(startedAt, ticks, n - 1)
  }

  /** Tick `i` leaves the lease ours: a success, or an error less than a window after the last success. */
  predicate KeepsLease(startedAt: real, ticks: seq<Tick>, lease: real, i: nat)
    requires i < |ticks|
  {
    || ticks[i].outcome == Ours
    || (ticks[i].outcome == Raised && ticks[i].now - LastOk(startedAt, ticks, i) < lease)
  }

  /** At tick `i`, the start or some earlier success is younger than a window. */
  predicate AnyYoung(startedAt: real, ticks: seq<Tick>, lease: real, i: nat)
    requires i < |ticks|
  {
    || ticks[i].now - startedAt < lease
    || exists j :: 0 <= j < i && ticks[j].outcome == Ours && ticks[i].now - ticks[j].now < lease
  }

  /** At tick `i`, the latest earlier success, or the start where there is none, is a window old. */
  predicate NewestIsOld(startedAt: real, ticks: seq<Tick>, lease: real, i: nat)
    requires i < |ticks|
  {
    || ((forall j :: 0 <= j < i ==> ticks[j].outcome != Ours) && ticks[i].now - startedAt >= lease)
    || exists j :: 0 <= j < i && ticks[j].outcome == Ours && ticks[i].now - ticks[j].now >= lease
                   && forall k :: j < k < i ==> ticks[k].outcome != Ours
  }

  /** The last success is the latest one, or the start. */
  lemma {:induction false} LastOkMeans(startedAt: real, ticks: seq<Tick>, n: nat)
    requires n <= |ticks|
    ensures || ((forall j :: 0 <= j < n ==> ticks[j].outcome != Ours) && LastOk(startedAt, ticks, n) == startedAt)
            || exists j :: 0 <= j < n && ticks[j].outcome == Ours && LastOk(startedAt, ticks, n) == ticks[j].now
                           && forall k :: j < k < n ==> ticks[k].outcome != Ours
  {
    if n > 0 && ticks[n - 1].outcome != Ours {
      LastOkMeans(startedAt, ticks, n - 1);
    }
  }

  class LeaseRenewer {
    const leaseSeconds: real
    const maxHold: real
    const startedAt: real

    constructor (leaseSeconds: real, maxHold: real, startedAt: real)
      ensures this.leaseSeconds == leaseSeconds && this.maxHold == maxHold && this.startedAt == startedAt
    {
      this.leaseSeconds, this.maxHold, this.startedAt := leaseSeconds, maxHold, startedAt;
    }

    /** The loop of the thread, against the ticks the environment would offer until the stop event is set.
        `renewed` is how many of them it answered with a renewal. */
    method Run(ticks: seq<Tick>) returns (renewed: nat, ending: Ending)
      ensures renewed <= |ticks|
      // No renewal begins at or after the maximum hold.
      ensures forall i :: 0 <= i < renewed ==> ticks[i].now - startedAt < maxHold
      // It never goes on past a tick that did not keep the lease.
      ensures forall i :: 0 <= i < renewed - 1 ==> KeepsLease(startedAt, ticks, leaseSeconds, i)
      // Why it ended.
      ensures renewed > 0 ==> (ending == LeaseLost <==> !KeepsLease(startedAt, ticks, leaseSeconds, renewed - 1))
      ensures ending == LeaseLost ==> renewed > 0
      ensures ending == Stopped ==> renewed == |ticks|
      ensures ending == HeldTooLong ==> renewed < |ticks| && ticks[renewed].now - startedAt >= maxHold
      // An answer that the lease is gone ends it at once; an answer that it is ours never does.
      ensures forall i :: 0 <= i < renewed - 1 ==> ticks[i].outcome != Lost
      ensures renewed > 0 && ticks[renewed - 1].outcome == Lost ==> ending == LeaseLost
      ensures renewed > 0 && ticks[renewed - 1].outcome == Ours ==> ending != LeaseLost
      // An error ends it exactly when neither the start nor any success is younger than a window.
      ensures forall i | 0 <= i < renewed && ticks[i].outcome == Raised && (i == renewed - 1 ==> ending != LeaseLost)
        :: AnyYoung(startedAt, ticks, leaseSeconds, i)
      ensures renewed > 0 && ticks[renewed - 1].outcome == Raised && ending == LeaseLost ==>
        NewestIsOld(startedAt, ticks, leaseSeconds, renewed - 1)
    {
      var lastOk := startedAt;
      renewed := 0;
      while renewed < |ticks|
        invariant renewed <= |ticks| && lastOk == LastOk(startedAt, ticks, renewed)
        invariant forall i :: 0 <= i < renewed ==> ticks[i].now - startedAt < maxHold
        invariant forall i :: 0 <= i < renewed ==> KeepsLease(startedAt, ticks, leaseSeconds, i)
        invariant forall i :: 0 <= i < renewed ==> ticks[i].outcome != Lost
        invariant forall i :: 0 <= i < renewed && ticks[i].outcome == Raised ==>
          AnyYoung(startedAt, ticks, leaseSeconds, i)
      {
        LastOkMeans(startedAt, ticks, renewed);
        var now := ticks[renewed].now;
        if now - startedAt >= maxHold {
          return renewed, HeldTooLong;
        }
        var stillOurs;
        match ticks[renewed].outcome {
          case Raised =>
            stillOurs := now - lastOk < leaseSeconds;
          case Ours =>
            stillOurs, lastOk := true, now;
          case Lost =>
            stillOurs, lastOk := false, now;
        }
        renewed := renewed + 1;
        if !stillOurs {
          return renewed, LeaseLost;
        }
      }
      return renewed, Stopped;
    }
  }

  /** Time of stamp `i`, where -1 is the acquisition itself. */
  function StampTime(startedAt: real, ticks: seq<Tick>, i: int): real
    requires -1 <= i < |ticks|
  {
    if i == -1 then startedAt else ticks[i].now
  }

  /** Successive ticks come in order and at most `spacing` apart, the first at most that after the start. */
  predicate Paced(startedAt: real, ticks: seq<Tick>, spacing: real) {
    forall i :: 0 <= i < |ticks| ==>
      StampTime(startedAt, ticks, i - 1) <= ticks[i].now <= StampTime(startedAt, ticks, i - 1) + spacing
  }

  predicate RenewsWithin(ticks: seq<Tick>, i: nat, k: nat) {
    exists j :: i <= j <= i + k && j < |ticks| && ticks[j].outcome == Ours
  }

  /** No more than `k` ticks in a row fail to renew. */
  predicate FailsAtMost(ticks: seq<Tick>, k: nat) {
    forall i :: 0 <= i < |ticks| - k ==> RenewsWithin(ticks, i, k)
  }

  predicate AnswersWithin(ticks: seq<Tick>, i: nat, k: nat) {
    exists j :: i <= j <= i + k && j < |ticks| && ticks[j].outcome != Raised
  }

  /** No more than `k` renewals in a row raise. */
  predicate RaisesAtMost(ticks: seq<Tick>, k: nat) {
    forall i :: 0 <= i < |ticks| - k ==> AnswersWithin(ticks, i, k)
  }

  /** The stamped key reads as live at `t`: some stamp at or before `t` is younger than the lease. */
  predicate LiveAt(startedAt: real, ticks: seq<Tick>, lease: real, t: real) {
    || startedAt <= t < startedAt + lease
    || exists i :: 0 <= i < |ticks| && ticks[i].outcome == Ours && ticks[i].now <= t < ticks[i].now + lease
  }

  /** The stamps made before tick `i` keep the key live up to `t`. */
  predicate LiveBefore(startedAt: real, ticks: seq<Tick>, lease: real, i: nat, t: real)
    requires i <= |ticks|
  {
    LiveAt(startedAt, ticks[..i], lease, t)
  }

  /** A renewal that does not raise answers what its read of the key shows. */
  predicate Honest(startedAt: real, ticks: seq<Tick>, lease: real) {
    forall i :: 0 <= i < |ticks| && ticks[i].outcome != Raised ==>
      (ticks[i].outcome == Ours <==> LiveBefore(startedAt, ticks, lease, i, ticks[i].now))
  }

  function Spacings(n: nat, spacing: real): (t: real)
    requires spacing >= 0.0
    ensures t >= 0.0 && (n > 0 ==> t >= spacing)
  {
    if n == 0 then 0.0 else Spacings(n - 1, spacing) + spacing
  }

  lemma {:induction false} SpacingsGrow(m: nat, n: nat, spacing: real)
    requires spacing >= 0.0 && m <= n
    ensures Spacings(m, spacing) <= Spacings(n, spacing)
  {
    if m < n { SpacingsGrow(m, n - 1, spacing); }
  }

  lemma {:induction false} SpacingsMultiply(n: nat, spacing: real)
    requires spacing >= 0.0
    ensures Spacings(n, spacing) == n as real * spacing
  {
    if n > 0 { SpacingsMultiply(n - 1, spacing); }
  }

  lemma {:induction false} PacedSpan(startedAt: real, ticks: seq<Tick>, spacing: real, i: int, j: int)
    requires spacing >= 0.0 && Paced(startedAt, ticks, spacing) && -1 <= i <= j < |ticks|
    ensures StampTime(startedAt, ticks, i) <= StampTime(startedAt, ticks, j)
    ensures StampTime(startedAt, ticks, j) <= StampTime(startedAt, ticks, i) + Spacings(j - i, spacing)
    decreases j - i
  {
    if i < j {
      PacedSpan(startedAt, ticks, spacing, i, j - 1);
      assert StampTime(startedAt, ticks, j) == ticks[j].now;
    }
  }

  /** Index of the last stamp at or before tick `n`, or -1 for the acquisition itself. */
  function LastStamp(ticks: seq<Tick>, n: int): (i: int)
    requires -1 <= n < |ticks|
    ensures -1 <= i <= n
    ensures i >= 0 ==> ticks[i].outcome == Ours
    ensures forall j :: i < j <= n ==> ticks[j].outcome != Ours
    decreases n + 1
  {
    if n == -1 || ticks[n].outcome == Ours then n else LastStamp(ticks, n - 1)
  }

  lemma {:induction false} StampGap(ticks: seq<Tick>, i: nat, k: nat)
    requires i < |ticks| && FailsAtMost(ticks[..i], k)
    ensures i - LastStamp(ticks[..i], i - 1) <= k + 1
  {
    var next := LastStamp(ticks[..i], i - 1) + 1;
    assert next < i - k ==> RenewsWithin(ticks[..i], next, k);
  }

  /** From one tick to the next, that tick's own read included, the key is live by the stamps before it. */
  lemma {:induction false} LiveUpToTick(startedAt: real, ticks: seq<Tick>, lease: real, spacing: real, k: nat, i: nat,
                                        t: real)
    requires i < |ticks| && spacing >= 0.0 && Paced(startedAt, ticks, spacing) && FailsAtMost(ticks[..i], k)
    requires Spacings(k + 1, spacing) < lease
    requires StampTime(startedAt, ticks, i - 1) <= t <= ticks[i].now
    ensures LiveBefore(startedAt, ticks, lease, i, t)
  {
    var before := ticks[..i];
    var last := LastStamp(before, i - 1);
    StampGap(ticks, i, k);
    PacedSpan(startedAt, ticks, spacing, last, i - 1);
    PacedSpan(startedAt, ticks, spacing, last, i);
    SpacingsGrow(i - last, k + 1, spacing);
    if last >= 0 {
      assert before[last].now <= t < before[last].now + lease;
    }
  }

  lemma {:induction false} FailsAtMostBefore(ticks: seq<Tick>, k: nat, i: nat)
    requires i <= |ticks| && FailsAtMost(ticks, k)
    ensures FailsAtMost(ticks[..i], k)
  {
    forall m | 0 <= m < i - k ensures RenewsWithin(ticks[..i], m, k) {
      assert RenewsWithin(ticks, m, k);
      var j :| m <= j <= m + k && j < |ticks| && ticks[j].outcome == Ours;
      assert ticks[..i][j].outcome == Ours;
    }
  }

  /** While at most `k` ticks in a row fail and `k + 1` spacings stay under one lease, the key never lapses:
      at every instant up to the last tick, each renewal's own read included, an earlier stamp keeps it. */
  lemma {:induction false} KeyNeverLapses(startedAt: real, ticks: seq<Tick>, lease: real, spacing: real, k: nat,
                                          i: nat, t: real)
    requires i < |ticks| && spacing >= 0.0 && Paced(startedAt, ticks, spacing) && FailsAtMost(ticks, k)
    requires (k + 1) as real * spacing < lease
    requires StampTime(startedAt, ticks, i - 1) <= t <= ticks[i].now
    ensures LiveBefore(startedAt, ticks, lease, i, t)
  {
    SpacingsMultiply(k + 1, spacing);
    FailsAtMostBefore(ticks, k, i);
    LiveUpToTick(startedAt, ticks, lease, spacing, k, i, t);
  }

  /** Every renewal's read finds the key. */
  predicate ReadsFindKey(startedAt: real, ticks: seq<Tick>, lease: real) {
    forall i :: 0 <= i < |ticks| ==> LiveBefore(startedAt, ticks, lease, i, ticks[i].now)
  }

  /** However ticks spaced by at most `spacing` fall, `k` failures in a row never cost the key. */
  ghost predicate Tolerates(lease: real, spacing: real, k: nat) {
    forall startedAt: real, ticks: seq<Tick> | Paced(startedAt, ticks, spacing) && FailsAtMost(ticks, k) ::
      ReadsFindKey(startedAt, ticks, lease)
  }

  /** The same of the runs a cache can produce: renewals that raise, or answer what the key shows. */
  ghost predicate ToleratesErrors(lease: real, spacing: real, k: nat) {
    forall startedAt: real, ticks: seq<Tick>
      | Paced(startedAt, ticks, spacing) && RaisesAtMost(ticks, k) && Honest(startedAt, ticks, lease)
      :: ReadsFindKey(startedAt, ticks, lease)
  }

  /** `k` renewals a full spacing apart that raise, and one more with the given outcome. */
  function LateRun(k: nat, spacing: real, outcome: Outcome): seq<Tick>
    requires spacing >= 0.0
  {
    seq(k + 1, i requires 0 <= i < k + 1 => Tick(Spacings(i + 1, spacing), if i < k then Raised else outcome))
  }

  lemma LateRunIsPaced(k: nat, spacing: real, outcome: Outcome)
    requires spacing >= 0.0
    ensures Paced(0.0, LateRun(k, spacing, outcome), spacing)
  {
  }

  /** By its last tick only the acquisition's stamp is there, and it is `k + 1` spacings old. */
  lemma LateRunLapses(k: nat, spacing: real, outcome: Outcome, lease: real)
    requires spacing >= 0.0 && !(Spacings(k + 1, spacing) < lease)
    ensures var ticks := LateRun(k, spacing, outcome);
            ticks[k].now == Spacings(k + 1, spacing) && !LiveBefore(0.0, ticks, lease, k, ticks[k].now)
  {
    var ticks := LateRun(k, spacing, outcome);
    assert forall i :: 0 <= i < k ==> ticks[..k][i].outcome == Raised;
  }

  /** Tolerance is exact: `k` failures in a row never cost the key iff `k + 1` spacings stay under one lease. */
  lemma ToleratesIff(lease: real, spacing: real, k: nat)
    requires spacing >= 0.0
    ensures Tolerates(lease, spacing, k) <==> Spacings(k + 1, spacing) < lease
  {
    if Spacings(k + 1, spacing) < lease {
      forall startedAt: real, ticks: seq<Tick> | Paced(startedAt, ticks, spacing) && FailsAtMost(ticks, k)
        ensures ReadsFindKey(startedAt, ticks, lease)
      {
        forall i | 0 <= i < |ticks| ensures LiveBefore(startedAt, ticks, lease, i, ticks[i].now) {
          FailsAtMostBefore(ticks, k, i);
          LiveUpToTick(startedAt, ticks, lease, spacing, k, i, ticks[i].now);
        }
      }
    } else {
      var ticks := LateRun(k, spacing, Ours);
      LateRunIsPaced(k, spacing, Ours);
      LateRunLapses(k, spacing, Ours, lease);
      assert ticks[k].outcome == Ours && RenewsWithin(ticks, 0, k) && FailsAtMost(ticks, k);
      assert !ReadsFindKey(0.0, ticks, lease);
    }
  }

  /** Where no renewal found the key gone, those that did not raise renewed. */
  lemma {:induction false} AnswersRenew(ticks: seq<Tick>, k: nat, n: nat)
    requires n <= |ticks| && RaisesAtMost(ticks, k) && forall i :: 0 <= i < n ==> ticks[i].outcome != Lost
    ensures FailsAtMost(ticks[..n], k)
  {
    forall m | 0 <= m < n - k ensures RenewsWithin(ticks[..n], m, k) {
      assert AnswersWithin(ticks, m, k);
      var j :| m <= j <= m + k && j < |ticks| && ticks[j].outcome != Raised;
      assert ticks[..n][j].outcome == Ours;
    }
  }

  predicate Found(startedAt: real, ticks: seq<Tick>, lease: real, i: nat)
    requires i < |ticks|
  {
    ticks[i].outcome != Lost && LiveBefore(startedAt, ticks, lease, i, ticks[i].now)
  }

  lemma {:induction false} HonestTicksRenew(startedAt: real, ticks: seq<Tick>, lease: real, spacing: real, k: nat,
                                            n: nat)
    requires spacing >= 0.0 && Paced(startedAt, ticks, spacing)
    requires RaisesAtMost(ticks, k) && Honest(startedAt, ticks, lease)
    requires Spacings(k + 1, spacing) < lease && n <= |ticks|
    ensures FailsAtMost(ticks[..n], k) && forall i :: 0 <= i < n ==> Found(startedAt, ticks, lease, i)
  {
    if n > 0 {
      HonestTicksRenew(startedAt, ticks, lease, spacing, k, n - 1);
      LiveUpToTick(startedAt, ticks, lease, spacing, k, n - 1, ticks[n - 1].now);
      assert Found(startedAt, ticks, lease, n - 1);
    }
    forall i | 0 <= i < n ensures ticks[i].outcome != Lost {
      assert Found(startedAt, ticks, lease, i);
    }
    AnswersRenew(ticks, k, n);
  }

  /** The last renewal of a late run, if it does not raise, finds the key gone. */
  lemma LateRunIsHonest(lease: real, spacing: real, k: nat)
    requires spacing >= 0.0 && !(Spacings(k + 1, spacing) < lease)
    ensures var ticks := LateRun(k, spacing, Lost);
            RaisesAtMost(ticks, k) && Honest(0.0, ticks, lease) && !ReadsFindKey(0.0, ticks, lease)
  {
    var ticks := LateRun(k, spacing, Lost);
    LateRunLapses(k, spacing, Lost, lease);
    assert ticks[k].outcome == Lost && AnswersWithin(ticks, 0, k);
  }

  /** The same bound is exact for the runs a cache can produce. */
  lemma ToleratesErrorsIff(lease: real, spacing: real, k: nat)
    requires spacing >= 0.0
    ensures ToleratesErrors(lease, spacing, k) <==> Spacings(k + 1, spacing) < lease
  {
    if Spacings(k + 1, spacing) < lease {
      forall startedAt: real, ticks: seq<Tick>
        | Paced(startedAt, ticks, spacing) && RaisesAtMost(ticks, k) && Honest(startedAt, ticks, lease)
        ensures ReadsFindKey(startedAt, ticks, lease)
      {
        HonestTicksRenew(startedAt, ticks, lease, spacing, k, |ticks|);
        forall i | 0 <= i < |ticks| ensures LiveBefore(startedAt, ticks, lease, i, ticks[i].now) {
          assert Found(startedAt, ticks, lease, i);
        }
      }
    } else {
      LateRunIsPaced(k, spacing, Lost);
      LateRunIsHonest(lease, spacing, k);
    }
  }

  lemma {:induction false} NoStampAfterLastOk(startedAt: real, ticks: seq<Tick>, spacing: real, n: nat, j: int)
    requires spacing >= 0.0 && Paced(startedAt, ticks, spacing) && -1 <= j < n <= |ticks|
    requires j >= 0 ==> ticks[j].outcome == Ours
    ensures StampTime(startedAt, ticks, j) <= LastOk(startedAt, ticks, n)
  {
    if n == 0 {
    } else if ticks[n - 1].outcome == Ours {
      PacedSpan(startedAt, ticks, spacing, j, n - 1);
    } else if j < n - 1 {
      NoStampAfterLastOk(startedAt, ticks, spacing, n - 1, j);
    }
  }

  /** The loss rule never gives up a live key: an error a full window after the last success comes when no
      stamp is younger than the lease. */
  lemma {:induction false} LossIsNeverPremature(startedAt: real, ticks: seq<Tick>, lease: real, spacing: real, i: nat)
    requires spacing >= 0.0 && Paced(startedAt, ticks, spacing) && i < |ticks|
    requires ticks[i].outcome == Raised && !KeepsLease(startedAt, ticks, lease, i)
    ensures !LiveAt(startedAt, ticks[..i], lease, ticks[i].now)
  {
    NoStampAfterLastOk(startedAt, ticks, spacing, i, -1);
    forall j | 0 <= j < i && ticks[j].outcome == Ours
      ensures ticks[j].now + lease <= ticks[i].now
    {
      NoStampAfterLastOk(startedAt, ticks, spacing, i, j);
    }
  }

  lemma {:induction false} LastOkIsStamped(startedAt: real, ticks: seq<Tick>, n: nat)
    requires n <= |ticks| && forall i :: 0 <= i < n ==> ticks[i].outcome != Lost
    ensures LastOk(startedAt, ticks, n) == StampTime(startedAt, ticks, LastStamp(ticks[..n], n - 1))
  {
    if n > 0 {
      assert ticks[..n][..n - 1] == ticks[..n - 1];
      LastStampBefore(ticks, n);
      if ticks[n - 1].outcome != Ours {
        LastOkIsStamped(startedAt, ticks, n - 1);
      }
    }
  }

  lemma {:induction false} LastStampIgnoresRest(a: seq<Tick>, b: seq<Tick>, n: int)
    requires -1 <= n < |a| && n < |b| && forall i :: 0 <= i <= n ==> a[i] == b[i]
    ensures LastStamp(a, n) == LastStamp(b, n)
    decreases n + 1
  {
    if n >= 0 { LastStampIgnoresRest(a, b, n - 1); }
  }

  lemma {:induction false} LastStampBefore(ticks: seq<Tick>, n: nat)
    requires 0 < n <= |ticks|
    ensures LastStamp(ticks[..n], n - 1) ==
            if ticks[n - 1].outcome == Ours then n - 1 else LastStamp(ticks[..n - 1], n - 2)
  {
    LastStampIgnoresRest(ticks[..n], ticks[..n - 1], n - 2);
  }

  /** Applied to the thread's own loop: over the ticks it answered, if no more than `k` in a row raised and
      `k + 1` spacings stay under the lease, every read found the key and the loss rule never fired. */
  lemma {:induction false} SteadyRunsKeepTheLease(startedAt: real, ticks: seq<Tick>, renewed: nat, lease: real,
                                                  spacing: real, k: nat, i: nat)
    requires i < renewed <= |ticks| && spacing >= 0.0 && Paced(startedAt, ticks[..renewed], spacing)
    requires RaisesAtMost(ticks[..renewed], k) && Honest(startedAt, ticks[..renewed], lease)
    requires Spacings(k + 1, spacing) < lease
    ensures KeepsLease(startedAt, ticks, lease, i) && LiveBefore(startedAt, ticks, lease, i, ticks[i].now)
  {
    var answered := ticks[..renewed];
    HonestTicksRenew(startedAt, answered, lease, spacing, k, renewed);
    assert answered[..i] == ticks[..i];
    forall j | 0 <= j < renewed ensures ticks[j].outcome != Lost {
      assert Found(startedAt, answered, lease, j) && answered[j] == ticks[j];
    }
    HonestTicksRenew(startedAt, answered, lease, spacing, k, i);
    StampGap(answered, i, k);
    var last := LastStamp(answered[..i], i - 1);
    LastOkIsStamped(startedAt, ticks, i);
    PacedSpan(startedAt, answered, spacing, last, i);
    SpacingsGrow(i - last, k + 1, spacing);
    assert answered[i] == ticks[i];
  }

  /** With the production interval, one failure in a row is always survived exactly while waits run late by
      less than a sixth of the lease; two are not, even when every tick is on time. */
  lemma ToleranceOfAThird(lease: real, delay: real)
    requires lease >= 3.0 && delay >= 0.0
    ensures Tolerates(lease, RenewInterval(lease) + delay, 1) <==> delay < lease / 6.0
    ensures ToleratesErrors(lease, RenewInterval(lease) + delay, 1) <==> delay < lease / 6.0
    ensures !Tolerates(lease, RenewInterval(lease) + delay, 2)
    ensures !ToleratesErrors(lease, RenewInterval(lease) + delay, 2)
  {
    var spacing := RenewInterval(lease) + delay;
    ToleratesIff(lease, spacing, 1);
    ToleratesIff(lease, spacing, 2);
    ToleratesErrorsIff(lease, spacing, 1);
    ToleratesErrorsIff(lease, spacing, 2);
    assert Spacings(0, spacing) == 0.0 && Spacings(1, spacing) == spacing;
    assert Spacings(2, spacing) == Spacings(1, spacing) + spacing;
    assert Spacings(3, spacing) == Spacings(2, spacing) + spacing;
  }

  /** Two failures in a row let the key lapse even when every tick is on time: it has just expired when the
      third tick comes. */
  lemma TwoFailuresLapse(startedAt: real, lease: real)
    requires lease >= 3.0
    ensures var d := RenewInterval(lease);
            var ticks := [Tick(startedAt + d, Raised), Tick(startedAt + 2.0 * d, Raised)];
            Paced(startedAt, ticks, d) && !LiveAt(startedAt, ticks, lease, startedAt + 3.0 * d)
  {
  }
}
