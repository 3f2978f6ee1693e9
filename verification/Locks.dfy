/** Cache-backed lease locks (common/locks.py). */
module Locks {
  import opened Common

  type Token = nat

  /** A cache key's value and the instant it lapses. */
  datatype Entry = Entry(token: Token, expiresAt: Time)

  type Keys = map<string, Entry>

  /** `cache.get`: an expired key reads as missing. */
  function Get(keys: Keys, name: string, now: Time): Option<Token> {
    if name in keys && now < keys[name].expiresAt then Some(keys[name].token) else None
  }

  /** `cache.add`: atomic, succeeds iff the key reads as missing. */
  function Add(keys: Keys, name: string, token: Token, timeout: Time, now: Time): Keys {
    if Get(keys, name, now).None? then Put(keys, name, token, timeout, now) else keys
  }

  /** `cache.set`: unconditional. */
  function Put(keys: Keys, name: string, token: Token, timeout: Time, now: Time): Keys {
    keys[name := Entry(token, now + timeout)]
  }

  /** A cache call of a renewal that raises. */
  datatype Fault = NoFault | ReadRaises | WriteRaises

  datatype Renewal = StillOurs | Gone | Raised

  class Cache {
    var keys: Keys
    var now: Time

    constructor (now: Time)
      ensures keys == map[] && this.now == now
    {
      keys := map[];
      this.now := now;
    }

    method TryAdd(name: string, token: Token, timeout: Time) returns (added: bool)
      modifies `keys
      ensures added == Get(old(keys), name, now).None?
      ensures keys == Add(old(keys), name, token, timeout, now)
    {
      added := !(name in keys && now < keys[name].expiresAt);
      if added {
        keys := keys[name := Entry(token, now + timeout)];
      }
    }

    method Stamp(name: string, token: Token, timeout: Time)
      modifies `keys
      ensures keys == Put(old(keys), name, token, timeout, now)
    {
      keys := keys[name := Entry(token, now + timeout)];
    }

    method Drop(name: string)
      modifies `keys
      ensures keys == old(keys) - {name}
    {
      keys := keys - {name};
    }

    /** Whatever other processes do to the cache between two of our calls. */
    method Meanwhile(keys': Keys, now': Time)
      modifies this
      ensures keys == keys' && now == now'
    {
      keys, now := keys', now';
    }
  }

  /** A held (or missed) named lock. The cache calls of one method are separate steps: `gap` is the cache
      as other processes leave it between the read and the write. */
  class LockLease {
    const cache: Cache
    const name: string
    const token: Token
    const timeout: Time
    /** The local `acquired` of the context manager, fixed at entry. */
    const owned: bool
    /** The lease's own flag, cleared when a renewal finds the lease gone. */
    var acquired: bool

    constructor Acquire(cache: Cache, name: string, token: Token, timeout: Time)
      modifies cache`keys
      ensures this.cache == cache && this.name == name && this.token == token && this.timeout == timeout
      ensures owned == acquired == Get(old(cache.keys), name, cache.now).None?
      ensures cache.keys == Add(old(cache.keys), name, token, timeout, cache.now)
    {
      this.cache, this.name, this.token, this.timeout := cache, name, token, timeout;
      var added := cache.TryAdd(name, token, timeout);
      owned, acquired := added, added;
    }

    /** `fault` is the cache call that raises, if one does: the lease keeps its flag and nothing is stamped. */
    method Renew(gap: Keys, later: Time, fault: Fault) returns (r: Renewal)
      modifies this, cache
      ensures var held := old(acquired) && Get(old(cache.keys), name, old(cache.now)) == Some(token);
              r == if old(acquired) && fault == ReadRaises then Raised
                   else if !held then Gone
                   else if fault == WriteRaises then Raised else StillOurs
      ensures acquired == (old(acquired) && r != Gone)
      ensures r == StillOurs ==> cache.now == later && cache.keys == Put(gap, name, token, timeout, later)
      ensures r == Gone ==> cache.keys == old(cache.keys) && cache.now == old(cache.now)
      ensures r == Raised ==> (cache.keys, cache.now) == if fault == ReadRaises then (old(cache.keys), old(cache.now))
                                                         else (gap, later)
    {
      if !acquired {
        return Gone;
      }
      if fault == ReadRaises {
        return Raised;
      }
      if Get(cache.keys, name, cache.now) != Some(token) {
        acquired := false;
        return Gone;
      }
      cache.Meanwhile(gap, later);
      if fault == WriteRaises {
        return Raised;
      }
      cache.Stamp(name, token, timeout);
      return StillOurs;
    }

    method Release(gap: Keys, later: Time)
      modifies cache
      ensures if owned && Get(old(cache.keys), name, old(cache.now)) == Some(token)
              then cache.keys == gap - {name} && cache.now == later
              else cache.keys == old(cache.keys) && cache.now == old(cache.now)
    {
      if owned && Get(cache.keys, name, cache.now) == Some(token) {
        cache.Meanwhile(gap, later);
        cache.Drop(name);
      }
    }
  }
}

/** Every interleaving of any number of lease holders, with each cache call a step of its own. */
module LockRuns {
  import opened Common
  import opened Locks

  /** Between the read and the write of a renewal or release, the lease remembers when the key it read lapses. */
  datatype Phase = Idle | Renewing(lapse: Time) | Releasing(lapse: Time) | Released

  datatype Lease = Lease(
    name: string, token: Token, timeout: Time, owned: bool, acquired: bool, lastStamp: Time, phase: Phase)
  {
    /** Unreleased, and its last stamp is younger than its timeout. */
    predicate Fresh(now: Time) {
      owned && !phase.Released? && now < lastStamp + timeout
    }
  }

  datatype World = World(now: Time, keys: Keys, leases: seq<Lease>)

  datatype Event =
    | Tick(elapsed: nat)
    | Acquire(name: string, token: Token, timeout: Time)
    | RenewGet(l: nat)
    | RenewSet(l: nat)
    | RenewRaises(l: nat)
    | ReleaseGet(l: nat)
    | ReleaseDelete(l: nat)

  const START := World(0, map[], [])

  /** Tokens are drawn fresh. */
  ghost predicate Unused(w: World, token: Token) {
    && (forall i :: 0 <= i < |w.leases| ==> w.leases[i].token != token)
    && (forall name :: name in w.keys ==> w.keys[name].token != token)
  }

  /** Which events the code can issue in `w`. */
  ghost predicate Enabled(w: World, ev: Event) {
    match ev
    case Tick(_) => true
    case Acquire(_, token, _) => Unused(w, token)
    case RenewGet(l) => l < |w.leases| && w.leases[l].phase == Idle
    case RenewSet(l) => l < |w.leases| && w.leases[l].phase.Renewing?
    case RenewRaises(l) => l < |w.leases| && w.leases[l].phase.Renewing?
    case ReleaseGet(l) => l < |w.leases| && w.leases[l].phase == Idle
    case ReleaseDelete(l) => l < |w.leases| && w.leases[l].phase.Releasing?
  }

  ghost function With(w: World, l: nat, lease: Lease): World
    requires l < |w.leases|
  {
    w.(leases := w.leases[l := lease])
  }

  ghost function Step(w: World, ev: Event): World {
    if !Enabled(w, ev) then w else
    match ev
    case Tick(elapsed) => w.(now := w.now + elapsed)
    case Acquire(name, token, timeout) =>
      var added := Get(w.keys, name, w.now).None?;
      World(w.now, Add(w.keys, name, token, timeout, w.now),
            w.leases + [Lease(name, token, timeout, added, added, w.now, Idle)])
    case RenewGet(l) =>
      var x := w.leases[l];
      if !x.acquired then w
      else if Get(w.keys, x.name, w.now) != Some(x.token) then With(w, l, x.(acquired := false))
      else With(w, l, x.(phase := Renewing(w.keys[x.name].expiresAt)))
    case RenewSet(l) =>
      var x := w.leases[l];
      With(w, l, x.(lastStamp := w.now, phase := Idle)).(keys := Put(w.keys, x.name, x.token, x.timeout, w.now))
    case RenewRaises(l) => With(w, l, w.leases[l].(phase := Idle))
    case ReleaseGet(l) =>
      var x := w.leases[l];
      if x.owned && Get(w.keys, x.name, w.now) == Some(x.token)
      then With(w, l, x.(phase := Releasing(w.keys[x.name].expiresAt)))
      else With(w, l, x.(phase := Released))
    case ReleaseDelete(l) =>
      var x := w.leases[l];
      With(w, l, x.(phase := Released)).(keys := w.keys - {x.name})
  }

  /** Taking a lease is one step, as `LockLease.Acquire` states it. */
  lemma {:induction false} AcquireIsAStep(w: World, name: string, token: Token, timeout: Time)
    requires Unused(w, token)
    ensures var w', free := Step(w, Acquire(name, token, timeout)), Get(w.keys, name, w.now).None?;
            && w'.now == w.now
            && w'.keys == (if free then w.keys[name := Entry(token, w.now + timeout)] else w.keys)
            && |w'.leases| == |w.leases| + 1 && w'.leases[..|w.leases|] == w.leases
            && w'.leases[|w.leases|] == Lease(name, token, timeout, free, free, w.now, Idle)
  {
  }

  /** A renewal is two steps with anything in between, and their sum is what `LockLease.Renew` states: the first
      finds the lease ours or lost, the second stamps, or raises and leaves everything. `v` is the world at the
      second, with this lease as the first left it. */
  lemma RenewIsTwoSteps(w: World, v: World, l: nat)
    requires l < |w.leases| && w.leases[l].phase == Idle
    requires l < |v.leases| && v.leases[l] == Step(w, RenewGet(l)).leases[l]
    ensures var x, w' := w.leases[l], Step(w, RenewGet(l));
            var held := x.acquired && Get(w.keys, x.name, w.now) == Some(x.token);
            && w'.keys == w.keys && w'.now == w.now && |w'.leases| == |w.leases|
            && (forall i :: 0 <= i < |w.leases| && i != l ==> w'.leases[i] == w.leases[i])
            && (!held ==> w'.leases[l] == x.(acquired := false))
            && (held ==> w'.leases[l] == x.(phase := Renewing(w.keys[x.name].expiresAt)))
            && (held ==> Step(v, RenewSet(l)) == v.(
                  keys := v.keys[x.name := Entry(x.token, v.now + x.timeout)],
                  leases := v.leases[l := x.(lastStamp := v.now)]))
            && (held ==> Step(v, RenewRaises(l)) == v.(leases := v.leases[l := x]))
            && (!held ==> Step(v, RenewSet(l)) == v && Step(v, RenewRaises(l)) == v)
  {
  }

  /** So is a release, as `LockLease.Release` states it. */
  lemma ReleaseIsTwoSteps(w: World, v: World, l: nat)
    requires l < |w.leases| && w.leases[l].phase == Idle
    requires l < |v.leases| && v.leases[l] == Step(w, ReleaseGet(l)).leases[l]
    ensures var x, w' := w.leases[l], Step(w, ReleaseGet(l));
            var held := x.owned && Get(w.keys, x.name, w.now) == Some(x.token);
            && w'.keys == w.keys && w'.now == w.now && |w'.leases| == |w.leases|
            && (forall i :: 0 <= i < |w.leases| && i != l ==> w'.leases[i] == w.leases[i])
            && (!held ==> w'.leases[l] == x.(phase := Released) && Step(v, ReleaseDelete(l)) == v)
            && (held ==> w'.leases[l] == x.(phase := Releasing(w.keys[x.name].expiresAt)))
            && (held ==> Step(v, ReleaseDelete(l)) == v.(
                  keys := v.keys - {x.name}, leases := v.leases[l := x.(phase := Released)]))
  {
  }

  /** The writing half of a renewal or release: the step that acts on an earlier read. */
  ghost predicate Writes(w: World, ev: Event) {
    (ev.RenewSet? || ev.ReleaseDelete?) && Enabled(w, ev)
  }

  /** No renewal or release straddles the expiry of the key it read. */
  ghost predicate NoStraddle(w: World, ev: Event) {
    Writes(w, ev) ==> w.now < w.leases[ev.l].phase.lapse
  }

  ghost function Exec(w: World, evs: seq<Event>): World
    decreases |evs|
  {
    if evs == [] then w else Exec(Step(w, evs[0]), evs[1..])
  }

  ghost predicate NeverStraddles(w: World, evs: seq<Event>)
    decreases |evs|
  {
    evs != [] ==> NoStraddle(w, evs[0]) && NeverStraddles(Step(w, evs[0]), evs[1..])
  }

  /** At most one unreleased lease per name has a last stamp younger than its timeout. */
  ghost predicate Exclusive(w: World) {
    forall i, j :: 0 <= i < j < |w.leases| && w.leases[i].name == w.leases[j].name ==>
      !(w.leases[i].Fresh(w.now) && w.leases[j].Fresh(w.now))
  }

  ghost predicate LeaseOk(w: World, x: Lease) {
    && (x.acquired ==> x.owned)
    && (x.Fresh(w.now) ==> x.name in w.keys && w.keys[x.name] == Entry(x.token, x.lastStamp + x.timeout))
    && (x.phase.Renewing? || x.phase.Releasing? ==> x.owned && x.phase.lapse == x.lastStamp + x.timeout)
    && (x.phase.Renewing? ==> x.acquired)
  }

  /** A key that has not lapsed was stamped last by an unreleased lease of its name. */
  ghost predicate KeyOk(w: World, name: string)
    requires name in w.keys
  {
    w.now < w.keys[name].expiresAt ==>
      exists i :: 0 <= i < |w.leases| && w.leases[i].name == name && w.leases[i].token == w.keys[name].token
                  && w.leases[i].Fresh(w.now)
  }

  ghost predicate Inv(w: World) {
    && (forall i, j :: 0 <= i < j < |w.leases| ==> w.leases[i].token != w.leases[j].token)
    && (forall i :: 0 <= i < |w.leases| ==> LeaseOk(w, w.leases[i]))
    && (forall name :: name in w.keys ==> KeyOk(w, name))
    && (forall i, name :: 0 <= i < |w.leases| && name in w.keys && w.keys[name].token == w.leases[i].token ==>
          name == w.leases[i].name && w.keys[name].expiresAt == w.leases[i].lastStamp + w.leases[i].timeout)
  }

  /** What a second read just before the write would have shown: our token, or nothing. */
  ghost predicate StillFree(w: World, l: nat)
    requires l < |w.leases|
  {
    var x := w.leases[l];
    Get(w.keys, x.name, w.now) == Some(x.token) || Get(w.keys, x.name, w.now).None?
  }

  lemma InvIsExclusive(w: World)
    requires Inv(w)
    ensures Exclusive(w)
  {
    forall i, j | 0 <= i < j < |w.leases| && w.leases[i].name == w.leases[j].name
      ensures !(w.leases[i].Fresh(w.now) && w.leases[j].Fresh(w.now))
    {
      assert LeaseOk(w, w.leases[i]) && LeaseOk(w, w.leases[j]);
    }
  }

  /** A write that does not straddle the expiry still finds the key in place, with its own token. */
  lemma WriterOwnsTheKey(w: World, ev: Event)
    requires Inv(w) && Writes(w, ev) && NoStraddle(w, ev)
    ensures var x := w.leases[ev.l];
            x.name in w.keys && w.keys[x.name].token == x.token && Get(w.keys, x.name, w.now) == Some(x.token)
  {
    assert LeaseOk(w, w.leases[ev.l]);
  }

  /** A key that is still ours, or free, can be written without disturbing any other lease. */
  lemma OthersKeepTheirKeys(w: World, l: nat, w': World)
    requires Inv(w) && l < |w.leases| && StillFree(w, l)
    requires w'.now == w.now && |w'.leases| == |w.leases| && w'.leases == w.leases[l := w'.leases[l]]
    requires w'.keys - {w.leases[l].name} == w.keys - {w.leases[l].name}
    ensures forall i :: 0 <= i < |w.leases| && i != l ==> LeaseOk(w', w'.leases[i])
    ensures forall name :: name in w'.keys && name != w.leases[l].name ==> KeyOk(w', name)
  {
    var rest := w.keys - {w.leases[l].name};
    forall i | 0 <= i < |w.leases| && i != l ensures LeaseOk(w', w'.leases[i]) {
      var x := w.leases[i];
      assert LeaseOk(w, x) && w'.leases[i] == x;
      if x.Fresh(w.now) {
        assert x.name != w.leases[l].name;
        assert x.name in rest && x.name in w'.keys && w'.keys[x.name] == rest[x.name];
      }
    }
    forall name | name in w'.keys && name != w.leases[l].name ensures KeyOk(w', name) {
      assert name in rest && w.keys[name] == rest[name] == w'.keys[name];
      assert KeyOk(w, name);
      if w.now < w.keys[name].expiresAt {
        var i :| 0 <= i < |w.leases| && w.leases[i].name == name && w.leases[i].token == w.keys[name].token
                 && w.leases[i].Fresh(w.now);
        assert i != l && w'.leases[i] == w.leases[i];
      }
    }
  }

  lemma RenewSetKeepsInv(w: World, l: nat)
    requires Inv(w) && Enabled(w, RenewSet(l)) && StillFree(w, l)
    ensures Inv(Step(w, RenewSet(l)))
  {
    var w', x := Step(w, RenewSet(l)), w.leases[l];
    assert LeaseOk(w, x);
    assert w'.keys - {x.name} == w.keys - {x.name};
    OthersKeepTheirKeys(w, l, w');
    assert w'.leases[l].name == x.name && w'.leases[l].token == w'.keys[x.name].token;
    assert KeyOk(w', x.name) && LeaseOk(w', w'.leases[l]);
  }

  lemma ReleaseDeleteKeepsInv(w: World, l: nat)
    requires Inv(w) && Enabled(w, ReleaseDelete(l)) && StillFree(w, l)
    ensures Inv(Step(w, ReleaseDelete(l)))
  {
    var w', x := Step(w, ReleaseDelete(l)), w.leases[l];
    assert LeaseOk(w, x);
    assert w'.keys - {x.name} == w.keys - {x.name};
    OthersKeepTheirKeys(w, l, w');
  }

  lemma WriteKeepsInv(w: World, ev: Event)
    requires Inv(w) && Writes(w, ev) && StillFree(w, ev.l)
    ensures Inv(Step(w, ev))
  {
    match ev {
      case RenewSet(l) => RenewSetKeepsInv(w, l);
      case ReleaseDelete(l) => ReleaseDeleteKeepsInv(w, l);
      case _ =>
    }
  }

  lemma TickKeepsInv(w: World, elapsed: nat)
    requires Inv(w)
    ensures Inv(Step(w, Tick(elapsed)))
  {
    var w' := Step(w, Tick(elapsed));
    forall i | 0 <= i < |w.leases| ensures LeaseOk(w', w.leases[i]) {
      assert LeaseOk(w, w.leases[i]);
    }
    forall name | name in w'.keys ensures KeyOk(w', name) {
      assert KeyOk(w, name);
      if w'.now < w'.keys[name].expiresAt {
        var i :| 0 <= i < |w.leases| && w.leases[i].name == name && w.leases[i].token == w.keys[name].token
                 && w.leases[i].Fresh(w.now);
        assert LeaseOk(w, w.leases[i]) && w.leases[i].Fresh(w'.now);
      }
    }
  }

  lemma AcquireKeepsInv(w: World, ev: Event)
    requires Inv(w) && ev.Acquire? && Unused(w, ev.token)
    ensures Inv(Step(w, ev))
  {
    var w' := Step(w, ev);
    var n := |w.leases|;
    forall i | 0 <= i <= n ensures LeaseOk(w', w'.leases[i]) {
      if i < n { assert LeaseOk(w, w.leases[i]); }
    }
    forall name | name in w'.keys ensures KeyOk(w', name) {
      if name == ev.name && Get(w.keys, name, w.now).None? {
        assert w'.leases[n].name == name && w'.leases[n].token == ev.token;
      } else {
        assert KeyOk(w, name);
        if w.now < w.keys[name].expiresAt {
          var i :| 0 <= i < n && w.leases[i].name == name && w.leases[i].token == w.keys[name].token
                   && w.leases[i].Fresh(w.now);
          assert w'.leases[i] == w.leases[i];
        }
      }
    }
  }

  lemma BookkeepingKeepsInv(w: World, l: nat, x': Lease)
    requires Inv(w) && l < |w.leases|
    requires var x := w.leases[l];
             && (x'.name, x'.token, x'.timeout, x'.owned, x'.lastStamp)
                == (x.name, x.token, x.timeout, x.owned, x.lastStamp)
             && x'.Fresh(w.now) == x.Fresh(w.now)
    requires LeaseOk(w, x')
    ensures Inv(With(w, l, x'))
  {
    var w' := With(w, l, x');
    forall i | 0 <= i < |w.leases| ensures LeaseOk(w', w'.leases[i]) {
      assert LeaseOk(w, w.leases[i]);
    }
    forall name | name in w'.keys ensures KeyOk(w', name) {
      assert KeyOk(w, name);
      if w.now < w.keys[name].expiresAt {
        var i :| 0 <= i < |w.leases| && w.leases[i].name == name && w.leases[i].token == w.keys[name].token
                 && w.leases[i].Fresh(w.now);
        assert w'.leases[i].name == name && w'.leases[i].token == w.keys[name].token && w'.leases[i].Fresh(w.now);
      }
    }
  }

  /** Reads, and a renewal whose write raised, change one lease's bookkeeping and no key. */
  lemma ReadKeepsInv(w: World, ev: Event)
    requires Inv(w) && Enabled(w, ev) && (ev.RenewGet? || ev.RenewRaises? || ev.ReleaseGet?)
    ensures Inv(Step(w, ev))
  {
    var w', l := Step(w, ev), ev.l;
    assert LeaseOk(w, w.leases[l]);
    if w' != w {
      BookkeepingKeepsInv(w, l, w'.leases[l]);
    }
  }

  /** The lease invariant survives every step whose write, if any, does not straddle an expiry. */
  lemma StepKeepsInv(w: World, ev: Event)
    requires Inv(w) && NoStraddle(w, ev)
    ensures Inv(Step(w, ev))
  {
    if Enabled(w, ev) {
      if ev.RenewSet? || ev.ReleaseDelete? {
        WriterOwnsTheKey(w, ev);
        WriteKeepsInv(w, ev);
      } else if ev.Tick? {
        TickKeepsInv(w, ev.elapsed);
      } else if ev.Acquire? {
        AcquireKeepsInv(w, ev);
      } else {
        ReadKeepsInv(w, ev);
      }
    }
  }

  /** Exclusion over every run: if no renewal or release straddles the expiry of the key it read, then at
      every instant at most one unreleased lease per name is fresh. */
  lemma {:induction false} RunsAreExclusive(evs: seq<Event>)
    requires NeverStraddles(START, evs)
    ensures Inv(Exec(START, evs)) && Exclusive(Exec(START, evs))
  {
    RunKeepsInv(START, evs);
    InvIsExclusive(Exec(START, evs));
  }

  lemma {:induction false} RunKeepsInv(w: World, evs: seq<Event>)
    requires Inv(w) && NeverStraddles(w, evs)
    ensures Inv(Exec(w, evs))
    decreases |evs|
  {
    if evs != [] {
      StepKeepsInv(w, evs[0]);
      RunKeepsInv(Step(w, evs[0]), evs[1..]);
    }
  }

  /** Exactly when a late write is harmless: a second read would still show our token, or nothing. */
  lemma WriteKeepsInvIff(w: World, ev: Event)
    requires Inv(w) && Writes(w, ev)
    ensures Inv(Step(w, ev)) <==> StillFree(w, ev.l)
  {
    if StillFree(w, ev.l) {
      WriteKeepsInv(w, ev);
    } else {
      var w', x := Step(w, ev), w.leases[ev.l];
      assert KeyOk(w, x.name);
      var i :| 0 <= i < |w.leases| && w.leases[i].name == x.name && w.leases[i].token == w.keys[x.name].token
               && w.leases[i].Fresh(w.now);
      assert i != ev.l && w'.leases[i] == w.leases[i];
      assert !LeaseOk(w', w'.leases[i]);
    }
  }

  /** A number above all of `tokens`. */
  lemma {:induction false} Above(tokens: set<nat>) returns (n: nat)
    ensures forall t :: t in tokens ==> t < n
  {
    if tokens == {} {
      n := 0;
    } else {
      var t :| t in tokens;
      var m := Above(tokens - {t});
      n := if m > t then m else t + 1;
      assert forall u :: u in tokens ==> u == t || u in tokens - {t};
    }
  }

  lemma UnusedToken(w: World) returns (token: Token)
    ensures Unused(w, token)
  {
    var held := set i | 0 <= i < |w.leases| :: w.leases[i].token;
    var stored := set name | name in w.keys :: w.keys[name].token;
    token := Above(held + stored);
    forall i | 0 <= i < |w.leases| ensures w.leases[i].token != token { assert w.leases[i].token in held; }
    forall name | name in w.keys ensures w.keys[name].token != token { assert w.keys[name].token in stored; }
  }

  /** Whatever happens next without straddling, exclusion holds. */
  ghost predicate StaysExclusive(w: World) {
    forall evs :: NeverStraddles(w, evs) ==> Exclusive(Exec(w, evs))
  }

  /** A newcomer finds the key a late delete removed, while its holder is still fresh. */
  lemma {:induction false} NewcomerCollides(w: World, i: nat, name: string)
    requires i < |w.leases| && w.leases[i].Fresh(w.now) && w.leases[i].name == name && name !in w.keys
    ensures !StaysExclusive(w)
  {
    var token := UnusedToken(w);
    var ev := Acquire(name, token, 1);
    var w' := Step(w, ev);
    Unroll(w, ev, []);
    assert [ev] + [] == [ev] && NeverStraddles(w, [ev]) && Exec(w, [ev]) == w';
    assert w'.leases[i] == w.leases[i] && w'.leases[|w.leases|].Fresh(w'.now);
    assert !Exclusive(w');
  }

  /** The same condition is exact for exclusion itself: a write leaves every later instant exclusive iff a
      second read, just before it, would still show our token or nothing. A late set breaks exclusion at once,
      a late delete with the next newcomer. */
  lemma ExclusiveIffStillFree(w: World, ev: Event)
    requires Inv(w) && Writes(w, ev) && w.leases[ev.l].timeout > 0
    ensures StaysExclusive(Step(w, ev)) <==> StillFree(w, ev.l)
  {
    var w', x := Step(w, ev), w.leases[ev.l];
    if StillFree(w, ev.l) {
      WriteKeepsInv(w, ev);
      forall evs | NeverStraddles(w', evs) ensures Exclusive(Exec(w', evs)) {
        RunKeepsInv(w', evs);
        InvIsExclusive(Exec(w', evs));
      }
    } else {
      assert KeyOk(w, x.name) && LeaseOk(w, x);
      var i :| 0 <= i < |w.leases| && w.leases[i].name == x.name && w.leases[i].token == w.keys[x.name].token
               && w.leases[i].Fresh(w.now);
      assert i != ev.l && w'.leases[i] == w.leases[i];
      if ev.ReleaseDelete? {
        NewcomerCollides(w', i, x.name);
      } else {
        assert w'.leases[ev.l].Fresh(w'.now) && w'.leases[ev.l].name == x.name;
        assert NeverStraddles(w', []) && Exec(w', []) == w' && !Exclusive(w');
      }
    }
  }

  /** A lease seen lost never becomes acquired again, straddling or not. */
  lemma {:induction false} LostStaysLost(w: World, evs: seq<Event>, l: nat)
    requires l < |w.leases| && !w.leases[l].acquired && !w.leases[l].phase.Renewing?
    ensures l < |Exec(w, evs).leases| && !Exec(w, evs).leases[l].acquired
    ensures Exec(w, evs).leases[l].lastStamp == w.leases[l].lastStamp
    decreases |evs|
  {
    if evs != [] {
      var w' := Step(w, evs[0]);
      assert l < |w'.leases| && !w'.leases[l].acquired && !w'.leases[l].phase.Renewing?;
      LostStaysLost(w', evs[1..], l);
    }
  }

  /** A holder that has read its key live, and the clock then at the key's expiry. */
  const READ_THEN_LAPSED :=
    World(10, map["k" := Entry(1, 10)], [Lease("k", 1, 10, true, true, 0, Renewing(10))])

  lemma {:induction false} ReadThenLapsed(rest: seq<Event>)
    ensures var evs := [Acquire("k", 1, 10)] + ([RenewGet(0)] + ([Tick(10)] + rest));
            && Exec(START, evs) == Exec(READ_THEN_LAPSED, rest)
            && (NeverStraddles(START, evs) ==> NeverStraddles(READ_THEN_LAPSED, rest))
  {
    var w1 := World(0, map["k" := Entry(1, 10)], [Lease("k", 1, 10, true, true, 0, Idle)]);
    var w2 := w1.(leases := [Lease("k", 1, 10, true, true, 0, Renewing(10))]);
    assert Step(START, Acquire("k", 1, 10)).leases == w1.leases;
    assert Step(w1, RenewGet(0)).leases == w2.leases;
    Unroll(START, Acquire("k", 1, 10), [RenewGet(0)] + ([Tick(10)] + rest));
    Unroll(w1, RenewGet(0), [Tick(10)] + rest);
    Unroll(w2, Tick(10), rest);
  }

  lemma StampOverwrites()
    ensures var evs := [Acquire("k", 2, 10)] + ([RenewSet(0)] + []);
            !NeverStraddles(READ_THEN_LAPSED, evs) && !Exclusive(Exec(READ_THEN_LAPSED, evs))
  {
    var w1 := Step(READ_THEN_LAPSED, Acquire("k", 2, 10));
    var w2 := Step(w1, RenewSet(0));
    Unroll(READ_THEN_LAPSED, Acquire("k", 2, 10), [RenewSet(0)] + []);
    Unroll(w1, RenewSet(0), []);
    assert w1.leases[1].Fresh(10) && !NoStraddle(w1, RenewSet(0));
    assert w2.leases[0].Fresh(10) && w2.leases[1].Fresh(10);
  }

  /** Without the no-straddle condition exclusion fails: a renewal that read its key before the expiry and
      stamps it afterwards overwrites the next holder. */
  lemma StraddlingBreaksExclusion()
    ensures var evs := [Acquire("k", 1, 10), RenewGet(0), Tick(10), Acquire("k", 2, 10), RenewSet(0)];
            !NeverStraddles(START, evs) && !Exclusive(Exec(START, evs))
  {
    var rest := [Acquire("k", 2, 10)] + ([RenewSet(0)] + []);
    ReadThenLapsed(rest);
    StampOverwrites();
    assert [Acquire("k", 1, 10), RenewGet(0), Tick(10), Acquire("k", 2, 10), RenewSet(0)]
        == [Acquire("k", 1, 10)] + ([RenewGet(0)] + ([Tick(10)] + rest));
  }

  lemma {:induction false} Unroll(w: World, e: Event, rest: seq<Event>)
    ensures Exec(w, [e] + rest) == Exec(Step(w, e), rest)
    ensures NeverStraddles(w, [e] + rest) <==> NoStraddle(w, e) && NeverStraddles(Step(w, e), rest)
  {
    assert ([e] + rest)[1..] == rest;
  }
}
