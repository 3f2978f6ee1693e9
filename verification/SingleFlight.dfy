/** A job that holds its lock for one pass, renewed by a thread (common/commands.py). */
module SingleFlight {
  import opened Common
  import opened Locks

  /** Where the main thread is: still inside `cache.add`, which has just written the key; constructing and
      starting the renewer; in the guarded body; then leaving the renewer's block, then the lock's. */
  datatype Main = Acquiring | Entering | Body | SettingStop | Joining | Reading | Deleting | Done

  /** Where the renewer thread is: not launched, in its timed wait, past the wait and before the renewal's read,
      or between that read and the write. */
  datatype Renewer = Absent | Waiting | Woken | Stamping | Finished

  datatype World = World(
    now: Time, keys: Keys, name: string, token: Token, timeout: Time, stop: bool, main: Main, renewer: Renewer)

  datatype Event =
    | Others(keys': Keys, elapsed: nat)
    | LockEntered
    | RenewerLaunched
    | BodyBegins
    | RenewWakes
    | RenewRead
    | RenewWrite
    | RenewRaises
    | RenewerStops
    | RenewerGivesUp
    | BodyEnds
    | StopIsSet
    | Joined
    | Sigterm
    | ReleaseRead
    | ReleaseDelete

  /** Nobody else ever writes our token: it is drawn fresh. */
  ghost predicate NoForgery(keys: Keys, keys': Keys, token: Token) {
    forall n :: n in keys' && keys'[n].token == token ==> n in keys && keys[n] == keys'[n]
  }

  /** Where the SystemExit a SIGTERM turns into takes the main thread: out of the block it is in, skipping the
      rest of that block's exit. */
  function Unwound(main: Main): Main {
    match main
    case Acquiring => Done
    case Entering => Reading
    case Body => SettingStop
    case SettingStop => Reading
    case Joining => Reading
    case _ => Done
  }

  ghost predicate Enabled(w: World, ev: Event) {
    match ev
    case Others(keys', _) => NoForgery(w.keys, keys', w.token)
    case LockEntered => w.main == Acquiring
    case RenewerLaunched => w.main == Entering && w.renewer == Absent
    case BodyBegins => w.main == Entering && w.renewer != Absent
    case RenewWakes => w.renewer == Waiting && !w.stop
    case RenewRead => w.renewer == Woken
    case RenewWrite => w.renewer == Stamping
    case RenewRaises => w.renewer == Woken || w.renewer == Stamping
    case RenewerStops => w.renewer == Waiting && w.stop
    case RenewerGivesUp => w.renewer == Woken || w.renewer == Stamping
    case BodyEnds => w.main == Body
    case StopIsSet => w.main == SettingStop
    case Joined => w.main == Joining && w.renewer == Finished
    case Sigterm => w.main != Done
    case ReleaseRead => w.main == Reading
    case ReleaseDelete => w.main == Deleting
  }

  ghost function Step(w: World, ev: Event): World {
    if !Enabled(w, ev) then w else
    match ev
    case Others(keys', elapsed) => w.(keys := keys', now := w.now + elapsed)
    case LockEntered => w.(main := Entering)
    case RenewerLaunched => w.(renewer := Waiting)
    case BodyBegins => w.(main := Body)
    case RenewWakes => w.(renewer := Woken)
    case RenewRead =>
      w.(renewer := if Get(w.keys, w.name, w.now) == Some(w.token) then Stamping else Finished)
    case RenewWrite => w.(renewer := Waiting, keys := Put(w.keys, w.name, w.token, w.timeout, w.now))
    case RenewRaises => w.(renewer := Waiting)
    case RenewerStops => w.(renewer := Finished)
    case RenewerGivesUp => w.(renewer := Finished)
    case BodyEnds => w.(main := SettingStop)
    case StopIsSet => w.(main := Joining, stop := true)
    case Joined => w.(main := Reading)
    case Sigterm => w.(main := Unwound(w.main))
    case ReleaseRead => w.(main := if Get(w.keys, w.name, w.now) == Some(w.token) then Deleting else Done)
    case ReleaseDelete => w.(main := Done, keys := w.keys - {w.name})
  }

  ghost function Exec(w: World, evs: seq<Event>): World
    decreases |evs|
  {
    if evs == [] then w else Exec(Step(w, evs[0]), evs[1..])
  }

  /** The key was just added, and nothing else has happened. */
  ghost predicate JustAdded(w: World) {
    w.main == Acquiring && w.renewer == Absent && !w.stop
  }

  predicate Leaving(w: World) { w.main == Reading || w.main == Deleting || w.main == Done }

  /** The key reads as ours. */
  predicate Ours(w: World) { Get(w.keys, w.name, w.now) == Some(w.token) }

  /** No SIGTERM lands outside the guarded body. */
  ghost predicate SigtermsInBody(w: World, evs: seq<Event>)
    decreases |evs|
  {
    evs != [] ==> (evs[0] == Sigterm ==> w.main == Body) && SigtermsInBody(Step(w, evs[0]), evs[1..])
  }

  ghost predicate Inv(w: World) {
    && (Leaving(w) ==> w.renewer == Finished)
    && (w.main == Done ==> !Ours(w))
    && (w.stop <==> w.main == Joining || Leaving(w))
    && (w.main == Acquiring ==> w.renewer == Absent)
    && (w.renewer == Absent ==> w.main == Acquiring || w.main == Entering)
  }

  /** However the body ended, a SIGTERM included, once the key is read for release the renewer has finished and
      can stamp no more, and when the block is left the key no longer carries our token. */
  lemma {:induction false} JoinPrecedesRelease(w: World, evs: seq<Event>)
    requires JustAdded(w) && SigtermsInBody(w, evs)
    ensures var w' := Exec(w, evs);
            && (Leaving(w') ==> w'.renewer == Finished && !Enabled(w', RenewWrite) && !Enabled(w', RenewRead))
            && (w'.main == Done ==> !Ours(w'))
  {
    InvHolds(w, evs);
  }

  lemma {:induction false} InvHolds(w: World, evs: seq<Event>)
    requires Inv(w) && SigtermsInBody(w, evs)
    ensures Inv(Exec(w, evs))
    decreases |evs|
  {
    if evs != [] {
      assert Inv(Step(w, evs[0]));
      InvHolds(Step(w, evs[0]), evs[1..]);
    }
  }

  lemma {:induction false} ThreeSteps(w: World, w1: World, w2: World, w3: World, a: Event, b: Event, c: Event,
                                      evs: seq<Event>)
    requires Step(w, a) == w1 && Step(w1, b) == w2 && Step(w2, c) == w3
    ensures Exec(w, [a] + ([b] + ([c] + evs))) == Exec(w3, evs)
  {
    Unroll(w, a, [b] + ([c] + evs));
    Unroll(w1, b, [c] + evs);
    Unroll(w2, c, evs);
  }

  const STAMPING: seq<Event> := [RenewWakes] + ([RenewRead] + ([RenewWrite] + []))

  const ENTERING: seq<Event> := [LockEntered] + ([RenewerLaunched] + ([BodyBegins] + STAMPING))

  const RELEASED: seq<Event> := [Joined] + ([ReleaseRead] + ([ReleaseDelete] + []))

  const EXITING: seq<Event> := [BodyEnds] + ([StopIsSet] + ([RenewerStops] + RELEASED))

  lemma StampingPass(w: World)
    requires w.main == Body && w.renewer == Waiting && !w.stop && Ours(w)
    ensures Exec(w, STAMPING) == w.(keys := w.keys[w.name := Entry(w.token, w.now + w.timeout)])
  {
    ThreeSteps(w, w.(renewer := Woken), w.(renewer := Stamping),
               w.(keys := w.keys[w.name := Entry(w.token, w.now + w.timeout)]), RenewWakes, RenewRead, RenewWrite, []);
  }

  lemma ReleasedPass(w: World)
    requires w.main == Joining && w.renewer == Finished && Ours(w)
    ensures Exec(w, RELEASED) == w.(main := Done, keys := w.keys - {w.name})
  {
    ThreeSteps(w, w.(main := Reading), w.(main := Deleting), w.(main := Done, keys := w.keys - {w.name}),
               Joined, ReleaseRead, ReleaseDelete, []);
  }

  lemma EnteringPass(w: World)
    requires JustAdded(w) && Ours(w)
    ensures Exec(w, ENTERING)
            == w.(main := Body, renewer := Waiting, keys := w.keys[w.name := Entry(w.token, w.now + w.timeout)])
  {
    var v := w.(main := Body, renewer := Waiting);
    ThreeSteps(w, w.(main := Entering), w.(main := Entering, renewer := Waiting), v,
               LockEntered, RenewerLaunched, BodyBegins, STAMPING);
    StampingPass(v);
  }

  lemma ExitingPass(w: World)
    requires w.main == Body && w.renewer == Waiting && Ours(w)
    ensures Exec(w, EXITING) == w.(main := Done, renewer := Finished, stop := true, keys := w.keys - {w.name})
  {
    var v := w.(main := Joining, stop := true, renewer := Finished);
    ThreeSteps(w, w.(main := SettingStop), w.(main := Joining, stop := true), v,
               BodyEnds, StopIsSet, RenewerStops, RELEASED);
    ReleasedPass(v);
  }

  /** A pass with one renewal, from the lock to its release: the key is stamped anew, and gone at the end. */
  lemma FullPass(w: World)
    requires JustAdded(w) && Ours(w) && w.timeout > 0
    ensures var v := Exec(w, ENTERING);
            && v == w.(main := Body, renewer := Waiting, keys := w.keys[w.name := Entry(w.token, w.now + w.timeout)])
            && Exec(v, EXITING) == v.(main := Done, renewer := Finished, stop := true, keys := v.keys - {w.name})
  {
    EnteringPass(w);
    ExitingPass(Exec(w, ENTERING));
  }

  /** The rest of what the threads and the world around them may do. */
  lemma OtherSteps(w: World, keys': Keys, elapsed: nat)
    ensures NoForgery(w.keys, keys', w.token) ==>
              Step(w, Others(keys', elapsed)) == w.(keys := keys', now := w.now + elapsed)
    ensures w.renewer == Woken && !Ours(w) ==> Step(w, RenewRead) == w.(renewer := Finished)
    ensures w.renewer == Woken || w.renewer == Stamping ==>
              Step(w, RenewRaises) == w.(renewer := Waiting) && Step(w, RenewerGivesUp) == w.(renewer := Finished)
    ensures w.renewer == Waiting && !w.stop ==> Step(w, RenewerStops) == w
    ensures w.main == Joining && w.renewer != Finished ==> Step(w, Joined) == w
    ensures w.main == Reading && !Ours(w) ==> Step(w, ReleaseRead) == w.(main := Done)
    ensures w.main == Body ==> Step(w, Sigterm) == Step(w, BodyEnds)
  {
  }

  /** The renewer can stamp no more: it has finished or was never launched, or its next read will find the key
      gone, or its wait will return with the stop event set. */
  predicate Quiet(w: World) {
    match w.renewer
    case Absent => true
    case Waiting => w.stop || !Ours(w)
    case Woken => !Ours(w)
    case Stamping => false
    case Finished => true
  }

  ghost predicate LeftQuietly(w: World) {
    Leaving(w) && Quiet(w) && (w.main == Done ==> !Ours(w))
  }

  lemma {:induction false} QuietHolds(w: World, evs: seq<Event>)
    requires LeftQuietly(w) && SigtermsInBody(w, evs)
    ensures LeftQuietly(Exec(w, evs))
    decreases |evs|
  {
    if evs != [] {
      assert LeftQuietly(Step(w, evs[0]));
      QuietHolds(Step(w, evs[0]), evs[1..]);
    }
  }

  /** Whatever follows, short of another SIGTERM outside the body, the job leaves no key of its own. */
  ghost predicate LeavesNoKey(w: World) {
    forall evs :: !Orphans(w, evs)
  }

  /** Where a SIGTERM may orphan the lock: once `cache.add` wrote the key; around the start of the renewer and
      before the stop event is set, while a renewal is in flight or could still come; in the join, while one is
      in flight; in the release, until the key is gone. */
  predicate Exposed(w: World) {
    match w.main
    case Acquiring => Ours(w)
    case Entering => MayStillStamp(w)
    case Body => false
    case SettingStop => MayStillStamp(w)
    case Joining => InFlight(w)
    case Reading => Ours(w)
    case Deleting => Ours(w)
    case Done => false
  }

  /** A renewal is past its timed wait: it has read the key, or would now find it ours. */
  predicate InFlight(w: World) {
    w.renewer == Stamping || (w.renewer == Woken && Ours(w))
  }

  predicate MayStillStamp(w: World) {
    InFlight(w) || (w.renewer == Waiting && Ours(w))
  }

  lemma {:induction false} Unroll(w: World, ev: Event, evs: seq<Event>)
    ensures Exec(w, [ev] + evs) == Exec(Step(w, ev), evs)
    ensures ev != Sigterm ==> (SigtermsInBody(w, [ev] + evs) <==> SigtermsInBody(Step(w, ev), evs))
  {
    assert ([ev] + evs)[1..] == evs;
  }

  /** The run ends with the lock left and its key still ours. */
  ghost predicate Orphans(w: World, evs: seq<Event>) {
    SigtermsInBody(w, evs) && Exec(w, evs).main == Done && Ours(Exec(w, evs))
  }

  const RELEASING: seq<Event> := [ReleaseRead, ReleaseDelete, RenewWrite]

  /** A renewal in flight at the release lands after it, whether or not there was a key to delete. */
  lemma RenewalLandsAfterRelease(w: World)
    requires w.main == Reading && w.renewer == Stamping && w.timeout > 0
    ensures Orphans(w, RELEASING)
  {
    var w1 := Step(w, ReleaseRead);
    var w2 := Step(w1, ReleaseDelete);
    assert w2.main == Done && w2.renewer == Stamping && w2.timeout > 0;
    assert RELEASING == [ReleaseRead] + ([ReleaseDelete] + ([RenewWrite] + []));
    Unroll(w, ReleaseRead, [ReleaseDelete] + ([RenewWrite] + []));
    Unroll(w1, ReleaseDelete, [RenewWrite] + []);
    Unroll(w2, RenewWrite, []);
  }

  lemma WokenLandsAfterRelease(w: World)
    requires w.main == Reading && w.renewer == Woken && Ours(w) && w.timeout > 0
    ensures Orphans(w, [RenewRead] + RELEASING)
  {
    Unroll(w, RenewRead, RELEASING);
    RenewalLandsAfterRelease(Step(w, RenewRead));
  }

  lemma WaitingLandsAfterRelease(w: World)
    requires w.main == Reading && w.renewer == Waiting && !w.stop && Ours(w) && w.timeout > 0
    ensures Orphans(w, [RenewWakes] + ([RenewRead] + RELEASING))
  {
    Unroll(w, RenewWakes, [RenewRead] + RELEASING);
    WokenLandsAfterRelease(Step(w, RenewWakes));
  }

  /** An exposed SIGTERM leaves, in some continuation, a lock nobody holds. */
  lemma ExposedSigtermOrphansTheLock(w: World) returns (evs: seq<Event>)
    requires Inv(w) && w.timeout > 0 && Exposed(w)
    ensures Orphans(Step(w, Sigterm), evs)
  {
    var w' := Step(w, Sigterm);
    if w.main == Acquiring || w.main == Reading || w.main == Deleting {
      evs := [];
    } else if w.renewer == Stamping {
      RenewalLandsAfterRelease(w');
      evs := RELEASING;
    } else if w.renewer == Woken {
      WokenLandsAfterRelease(w');
      evs := [RenewRead] + RELEASING;
    } else {
      WaitingLandsAfterRelease(w');
      evs := [RenewWakes] + ([RenewRead] + RELEASING);
    }
  }

  lemma {:induction false} HarmlessRunEnds(w: World, evs: seq<Event>)
    requires Inv(w) && !Exposed(w) && SigtermsInBody(Step(w, Sigterm), evs)
    ensures !Orphans(Step(w, Sigterm), evs)
  {
    if w.main == Body {
      InvHolds(Step(w, Sigterm), evs);
    } else {
      QuietHolds(Step(w, Sigterm), evs);
    }
  }

  /** Exactly when a SIGTERM is harmless in every continuation. */
  lemma SigtermIsHarmlessIff(w: World)
    requires Inv(w) && w.timeout > 0
    ensures LeavesNoKey(Step(w, Sigterm)) <==> !Exposed(w)
  {
    var w' := Step(w, Sigterm);
    if Exposed(w) {
      var evs := ExposedSigtermOrphansTheLock(w);
      assert !LeavesNoKey(w');
    } else {
      forall evs ensures !Orphans(w', evs) {
        if SigtermsInBody(w', evs) {
          HarmlessRunEnds(w, evs);
        }
      }
    }
  }

  /** In the join: harmless iff no renewal is in flight, be it past its wait and still to read the key. */
  lemma SigtermInJoinIsHarmlessIff(w: World)
    requires Inv(w) && w.main == Joining && w.timeout > 0
    ensures LeavesNoKey(Step(w, Sigterm)) <==> !InFlight(w)
  {
    SigtermIsHarmlessIff(w);
  }

  /** `execute`: skip when the job is already running, otherwise hold the lock around the body. `joined`
      and `later` are the cache as the body, its renewer and other processes leave it at the two reads. */
  method Execute(cache: Cache, name: string, token: Token, timeout: Time,
                 joined: Keys, joinedAt: Time, later: Keys, laterAt: Time)
    returns (ran: bool)
    modifies cache
    ensures ran == Get(old(cache.keys), name, old(cache.now)).None?
    ensures !ran ==> cache.keys == old(cache.keys) && cache.now == old(cache.now)
    ensures ran ==> Get(cache.keys, name, cache.now) != Some(token)
    ensures ran ==> cache.keys == joined || cache.keys == later - {name}
  {
    var lease := new LockLease.Acquire(cache, name, token, timeout);
    if !lease.acquired {
      return false;
    }
    cache.Meanwhile(joined, joinedAt);
    lease.Release(later, laterAt);
    return true;
  }
}
