/** Refresh-token rotation under its lock (auth_api/views.py, auth_api/services/tokens.py). */
module Tokens {
  import opened Common

  /** A refresh row: whose it is, the access token minted with it, and whether it was revoked. */
  datatype Refresh = Refresh(user: nat, access: string, revoked: bool)

  datatype Answer = Conflict | Unknown | AlreadyRevoked | Rotated(access: string, refresh: string) | ServerError

  type Store = map<string, Refresh>

  /** `mint_pair`: a new pair under names never used before. */
  function Minted(store: Store, user: nat, access: string, refresh: string): Store {
    store[refresh := Refresh(user, access, false)]
  }

  function Revoked(store: Store, refresh: string): Store
    requires refresh in store
  {
    store[refresh := store[refresh].(revoked := true)]
  }

  /** `revoke` by access token: the refresh row paired with it, if there is one. */
  function LoggedOut(store: Store, access: string): Store {
    map r | r in store :: if store[r].access == access then store[r].(revoked := true) else store[r]
  }

  /** Logging out a minted access token revokes the refresh token minted with it, and none of another access token. */
  lemma {:induction false} LogoutRevokesThePair(store: Store, user: nat, access: string, refresh: string)
    requires refresh !in store
    ensures var minted := Minted(store, user, access, refresh);
            var after := LoggedOut(minted, access);
            && minted[refresh].user == user && !minted[refresh].revoked
            && after[refresh].revoked && after[refresh].user == user
            && (forall r :: r in store ==> minted[r] == store[r])
            && (forall r :: r in minted && minted[r].access != access ==> r in after && after[r] == minted[r])
  {
  }

  /** The critical section of the refresh view: read the row, refuse, or revoke and mint together. */
  class TokenStore {
    var store: Store
    var accesses: set<string>

    method MintPair(user: nat, access: string, refresh: string, bootstrapped: bool) returns (ok: bool)
      modifies this
      ensures ok == bootstrapped
      ensures ok ==> store == Minted(old(store), user, access, refresh) && accesses == old(accesses) + {access}
      ensures ok ==> store == old(store)[refresh := Refresh(user, access, false)]
      ensures !ok ==> store == old(store) && accesses == old(accesses)
    {
      if !bootstrapped {
        return false;
      }
      accesses := accesses + {access};
      store := store[refresh := Refresh(user, access, false)];
      return true;
    }

    method Revoke(access: string)
      modifies this
      ensures access !in old(accesses) ==> store == old(store) && accesses == old(accesses)
      ensures access in old(accesses) ==> store == LoggedOut(old(store), access) && accesses == old(accesses) - {access}
      ensures access in old(accesses) ==> store.Keys == old(store).Keys && forall r :: r in store ==>
        store[r] == if old(store)[r].access == access then old(store)[r].(revoked := true) else old(store)[r]
    {
      if access !in accesses {
        return;
      }
      store := map r | r in store :: if store[r].access == access && !store[r].revoked
                                     then store[r].(revoked := true) else store[r];
      accesses := accesses - {access};
    }

    /** `acquired` is the lock's answer; a mint that raises rolls the revocation back. */
    method Post(acquired: bool, token: string, access: string, refresh: string, bootstrapped: bool)
      returns (answer: Answer)
      requires refresh !in store
      modifies this
      ensures answer == Conflict <==> !acquired
      ensures answer == Unknown <==> acquired && token !in old(store)
      ensures answer == AlreadyRevoked <==> acquired && token in old(store) && old(store)[token].revoked
      ensures answer == Rotated(access, refresh) <==>
              acquired && token in old(store) && !old(store)[token].revoked && bootstrapped
      ensures answer.Rotated? ==> answer == Rotated(access, refresh)
                                  && store == Minted(Revoked(old(store), token), old(store)[token].user,
                                                     access, refresh)
                                  && accesses == old(accesses) + {access}
      ensures answer.Rotated? ==>
        store == old(store)[token := old(store)[token].(revoked := true)][
                   refresh := Refresh(old(store)[token].user, access, false)]
      ensures !answer.Rotated? ==> store == old(store) && accesses == old(accesses)
    {
      if !acquired {
        return Conflict;
      }
      if token !in store {
        return Unknown;
      }
      var rt := store[token];
      if rt.revoked {
        return AlreadyRevoked;
      }
      var savepoint := store;
      store := store[token := rt.(revoked := true)];
      var ok := MintPair(rt.user, access, refresh, bootstrapped);
      if !ok {
        store := savepoint;
        return ServerError;
      }
      return Rotated(access, refresh);
    }
  }
}

/** Every interleaving of concurrent refreshes and logouts, as a client of the lease lock. */
module RotationRuns {
  import opened Common
  import opened Locks
  import L = LockRuns
  import opened Tokens

  /** A request: where it stands between entering the lock and answering. */
  datatype Phase = Checking | Accepted | Answered

  /** `lease` indexes the request's lease in the lock's world. */
  datatype Request = Request(token: string, lease: nat, phase: Phase)

  /** `minted` records every rotation as (exchanged token, successor); `loggedOut` the refresh tokens revoked
      through their access token. */
  datatype World = World(
    lock: L.World, store: Store, requests: seq<Request>, minted: seq<(string, string)>, loggedOut: set<string>)

  datatype Event =
    | Lock(ev: L.Event)
    | Arrive(token: string, lockToken: Token, timeout: Time)
    | ReadRow(r: nat)
    | Commit(r: nat, access: string, refresh: string)
    | RolledBack(r: nat)
    | Login(user: nat, access: string, refresh: string)
    | Logout(access: string)

  function LockName(token: string): string {
    "refresh_token_lock:" + token
  }

  ghost predicate Enabled(w: World, ev: Event) {
    match ev
    case Lock(_) => true
    case Arrive(_, lockToken, _) => L.Unused(w.lock, lockToken)
    case ReadRow(r) => r < |w.requests| && w.requests[r].phase == Checking
    case Commit(r, _, refresh) => r < |w.requests| && w.requests[r].phase == Accepted && refresh !in w.store
    case RolledBack(r) => r < |w.requests| && w.requests[r].phase == Accepted
    case Login(_, _, refresh) => refresh !in w.store
    case Logout(_) => true
  }

  ghost function At(w: World, r: nat, phase: Phase): World
    requires r < |w.requests|
  {
    w.(requests := w.requests[r := w.requests[r].(phase := phase)])
  }

  ghost function Step(w: World, ev: Event): World {
    if !Enabled(w, ev) then w else
    match ev
    case Lock(e) => w.(lock := L.Step(w.lock, e))
    case Arrive(token, lockToken, timeout) =>
      var lock := L.Step(w.lock, L.Acquire(LockName(token), lockToken, timeout));
      var acquired := Get(w.lock.keys, LockName(token), w.lock.now).None?;
      w.(lock := lock,
         requests := w.requests + [Request(token, |w.lock.leases|, if acquired then Checking else Answered)])
    case ReadRow(r) =>
      var t := w.requests[r].token;
      At(w, r, if t in w.store && !w.store[t].revoked then Accepted else Answered)
    case Commit(r, access, refresh) =>
      var t := w.requests[r].token;
      if t !in w.store then At(w, r, Answered) else
      At(w, r, Answered).(store := Minted(Revoked(w.store, t), w.store[t].user, access, refresh),
                          minted := w.minted + [(t, refresh)])
    case RolledBack(r) => At(w, r, Answered)
    case Login(user, access, refresh) => w.(store := Minted(w.store, user, access, refresh))
    case Logout(access) =>
      w.(store := LoggedOut(w.store, access),
         loggedOut := w.loggedOut + set r | r in w.store && w.store[r].access == access)
  }

  /** A request enters its lock in one step, and goes on only if the lock was free. */
  lemma {:induction false} ArriveIsAStep(w: World, token: string, lockToken: Token, timeout: Time)
    requires L.Unused(w.lock, lockToken)
    ensures var w' := Step(w, Arrive(token, lockToken, timeout));
            var free := Get(w.lock.keys, "refresh_token_lock:" + token, w.lock.now).None?;
            && w'.lock == L.Step(w.lock, L.Acquire("refresh_token_lock:" + token, lockToken, timeout))
            && w'.requests == w.requests + [Request(token, |w.lock.leases|, if free then Checking else Answered)]
            && (w'.store, w'.minted, w'.loggedOut) == (w.store, w.minted, w.loggedOut)
  {
  }

  /** The critical section is two steps with anything in between, and their sum is what `TokenStore.Post` states.
      `v` is the world at the second, with this request as the first left it. */
  lemma {:induction false} SectionIsTwoSteps(w: World, v: World, r: nat, access: string, refresh: string)
    requires r < |w.requests| && w.requests[r].phase == Checking
    requires r < |v.requests| && v.requests[r] == Step(w, ReadRow(r)).requests[r]
    requires refresh !in v.store && w.store.Keys <= v.store.Keys
    ensures var t := w.requests[r].token;
            var accepted := t in w.store && !w.store[t].revoked;
            && Step(w, ReadRow(r)) == w.(requests := w.requests[
                 r := w.requests[r].(phase := if accepted then Accepted else Answered)])
            && (!accepted ==> Step(v, Commit(r, access, refresh)) == v && Step(v, RolledBack(r)) == v)
            && (accepted ==> Step(v, Commit(r, access, refresh)) == v.(
                  requests := v.requests[r := v.requests[r].(phase := Answered)],
                  store := v.store[t := v.store[t].(revoked := true)][
                             refresh := Refresh(v.store[t].user, access, false)],
                  minted := v.minted + [(t, refresh)]))
            && (accepted ==> Step(v, RolledBack(r)) == v.(
                  requests := v.requests[r := v.requests[r].(phase := Answered)]))
  {
  }

  /** A login mints a pair; a logout revokes what was minted with its access token; the lock moves on its own. */
  lemma {:induction false} SessionsAreSteps(w: World, user: nat, access: string, refresh: string, e: L.Event)
    requires refresh !in w.store
    ensures Step(w, Login(user, access, refresh)) == w.(store := w.store[refresh := Refresh(user, access, false)])
    ensures var w' := Step(w, Logout(access));
            && w' == w.(store := w'.store, loggedOut := w'.loggedOut) && w'.store.Keys == w.store.Keys
            && (forall r :: r in w.store ==>
                  && w'.store[r] == (if w.store[r].access == access then w.store[r].(revoked := true) else w.store[r])
                  && (r in w'.loggedOut <==> r in w.loggedOut || w.store[r].access == access))
    ensures Step(w, Lock(e)) == w.(lock := L.Step(w.lock, e))
  {
  }

  /** The lock is not outlived: the section reads and commits while its own lease is fresh, and no release
      straddles an expiry. */
  ghost predicate InLease(w: World, ev: Event) {
    match ev
    case Lock(e) => L.NoStraddle(w.lock, e)
    case ReadRow(r) => Enabled(w, ev) ==> Holds(w, r)
    case Commit(r, _, _) => Enabled(w, ev) ==> Holds(w, r)
    case _ => true
  }

  ghost predicate Holds(w: World, r: nat)
    requires r < |w.requests|
  {
    w.requests[r].lease < |w.lock.leases| && w.lock.leases[w.requests[r].lease].Fresh(w.lock.now)
  }

  ghost function Exec(w: World, evs: seq<Event>): World
    decreases |evs|
  {
    if evs == [] then w else Exec(Step(w, evs[0]), evs[1..])
  }

  ghost predicate NeverOutlived(w: World, evs: seq<Event>)
    decreases |evs|
  {
    evs != [] ==> InLease(w, evs[0]) && NeverOutlived(Step(w, evs[0]), evs[1..])
  }

  const EMPTY := World(L.START, map[], [], [], {})

  ghost predicate Exchanged(w: World, token: string) {
    exists m :: m in w.minted && m.0 == token
  }

  ghost predicate RequestOk(w: World, r: nat)
    requires r < |w.requests|
  {
    var q := w.requests[r];
    && q.lease < |w.lock.leases|
    && w.lock.leases[q.lease].name == LockName(q.token)
    && (q.phase == Accepted ==> q.token in w.store)
    && (q.phase == Accepted && Holds(w, r) ==> !Exchanged(w, q.token))
  }

  ghost predicate StoreOk(w: World) {
    && (forall m :: m in w.minted ==> m.0 in w.store && m.1 in w.store && w.store[m.0].user == w.store[m.1].user)
    && w.loggedOut <= w.store.Keys
    && (forall t :: t in w.store ==> (w.store[t].revoked <==> Exchanged(w, t) || t in w.loggedOut))
    && (forall i, j :: 0 <= i < j < |w.minted| ==>
          w.minted[i].0 != w.minted[j].0 && w.minted[i].1 != w.minted[j].1)
  }

  ghost predicate Inv(w: World) {
    && L.Inv(w.lock)
    && (forall i, j :: 0 <= i < j < |w.requests| ==> w.requests[i].lease != w.requests[j].lease)
    && (forall r :: 0 <= r < |w.requests| ==> RequestOk(w, r))
    && StoreOk(w)
  }

  /** No lock event makes a lapsed lease fresh again. */
  lemma FreshnessOnlyFades(lock: L.World, ev: L.Event, l: nat)
    requires L.Inv(lock) && L.NoStraddle(lock, ev) && l < |lock.leases|
    ensures l < |L.Step(lock, ev).leases| && L.Step(lock, ev).leases[l].name == lock.leases[l].name
    ensures L.Step(lock, ev).leases[l].Fresh(L.Step(lock, ev).now) ==> lock.leases[l].Fresh(lock.now)
  {
    assert L.LeaseOk(lock, lock.leases[l]);
  }

  lemma LockKeepsInv(w: World, e: L.Event)
    requires Inv(w) && L.NoStraddle(w.lock, e)
    ensures Inv(Step(w, Lock(e)))
  {
    var w' := Step(w, Lock(e));
    L.StepKeepsInv(w.lock, e);
    forall r | 0 <= r < |w'.requests| ensures RequestOk(w', r) {
      assert RequestOk(w, r);
      FreshnessOnlyFades(w.lock, e, w.requests[r].lease);
    }
  }

  lemma ArriveKeepsInv(w: World, ev: Event)
    requires Inv(w) && ev.Arrive? && Enabled(w, ev)
    ensures Inv(Step(w, ev))
  {
    var w' := Step(w, ev);
    var e := L.Acquire(LockName(ev.token), ev.lockToken, ev.timeout);
    L.StepKeepsInv(w.lock, e);
    assert w'.lock.leases[..|w.lock.leases|] == w.lock.leases;
    forall i | 0 <= i < |w.requests| ensures RequestOk(w', i) && w'.requests[i].lease < |w.lock.leases| {
      assert RequestOk(w, i);
      FreshnessOnlyFades(w.lock, e, w.requests[i].lease);
    }
  }

  lemma SectionKeepsInv(w: World, ev: Event)
    requires Inv(w) && Enabled(w, ev) && (ev.ReadRow? || ev.RolledBack?)
    ensures Inv(Step(w, ev))
  {
    var w' := Step(w, ev);
    forall r | 0 <= r < |w'.requests| ensures RequestOk(w', r) {
      assert RequestOk(w, r);
    }
  }

  /** Two requests for one token never hold the lock together. */
  lemma OneHolder(w: World, r: nat, q: nat)
    requires Inv(w) && r < |w.requests| && q < |w.requests| && r != q
    requires w.requests[r].token == w.requests[q].token && Holds(w, r)
    ensures !Holds(w, q)
  {
    assert RequestOk(w, r) && RequestOk(w, q);
    L.InvIsExclusive(w.lock);
    var a, b := w.requests[r].lease, w.requests[q].lease;
    assert a != b;
    if a < b { assert w.lock.leases[a].name == w.lock.leases[b].name; }
  }

  lemma CommitKeepsInv(w: World, ev: Event)
    requires Inv(w) && ev.Commit? && Enabled(w, ev) && Holds(w, ev.r)
    ensures Inv(Step(w, ev))
  {
    var w', t := Step(w, ev), w.requests[ev.r].token;
    assert RequestOk(w, ev.r);
    assert forall m :: m in w'.minted <==> m in w.minted || m == (t, ev.refresh);
    forall r | 0 <= r < |w'.requests| ensures RequestOk(w', r) {
      assert RequestOk(w, r);
      if r != ev.r && w.requests[r].token == t {
        OneHolder(w, ev.r, r);
      }
    }
    CommitKeepsStore(w, ev);
  }

  lemma CommitKeepsStore(w: World, ev: Event)
    requires Inv(w) && ev.Commit? && Enabled(w, ev) && Holds(w, ev.r)
    ensures StoreOk(Step(w, ev))
  {
    var w', t := Step(w, ev), w.requests[ev.r].token;
    assert RequestOk(w, ev.r);
    assert forall m :: m in w'.minted <==> m in w.minted || m == (t, ev.refresh);
    forall i, j | 0 <= i < j < |w'.minted|
      ensures w'.minted[i].0 != w'.minted[j].0 && w'.minted[i].1 != w'.minted[j].1
    {
      assert w'.minted[i] in w.minted;
    }
    forall x | x in w'.store ensures w'.store[x].revoked <==> Exchanged(w', x) || x in w'.loggedOut {
      if x == t { assert (t, ev.refresh) in w'.minted; }
    }
  }

  lemma SessionKeepsInv(w: World, ev: Event)
    requires Inv(w) && Enabled(w, ev) && (ev.Login? || ev.Logout?)
    ensures Inv(Step(w, ev))
  {
    var w' := Step(w, ev);
    forall r | 0 <= r < |w'.requests| ensures RequestOk(w', r) {
      assert RequestOk(w, r);
      assert Exchanged(w', w.requests[r].token) <==> Exchanged(w, w.requests[r].token);
    }
    forall x | x in w'.store ensures w'.store[x].revoked <==> Exchanged(w', x) || x in w'.loggedOut {
      assert Exchanged(w', x) <==> Exchanged(w, x);
    }
  }

  lemma StepKeepsInv(w: World, ev: Event)
    requires Inv(w) && InLease(w, ev)
    ensures Inv(Step(w, ev))
  {
    if Enabled(w, ev) {
      match ev {
        case Lock(e) => LockKeepsInv(w, e);
        case Arrive(_, _, _) => ArriveKeepsInv(w, ev);
        case ReadRow(_) => SectionKeepsInv(w, ev);
        case RolledBack(_) => SectionKeepsInv(w, ev);
        case Commit(_, _, _) => CommitKeepsInv(w, ev);
        case Login(_, _, _) => SessionKeepsInv(w, ev);
        case Logout(_) => SessionKeepsInv(w, ev);
      }
    }
  }

  lemma {:induction false} RunKeepsInv(w: World, evs: seq<Event>)
    requires Inv(w) && NeverOutlived(w, evs)
    ensures Inv(Exec(w, evs))
    decreases |evs|
  {
    if evs != [] {
      StepKeepsInv(w, evs[0]);
      RunKeepsInv(Step(w, evs[0]), evs[1..]);
    }
  }

  /** In every run whose locks are not outlived: a refresh token has at most one successor and a successor
      one parent, both of the same user, and a token is revoked exactly when it was exchanged or logged
      out - so revocation and mint came together. */
  lemma {:induction false} RotationIsSafe(evs: seq<Event>)
    requires NeverOutlived(EMPTY, evs)
    ensures StoreOk(Exec(EMPTY, evs))
  {
    RunKeepsInv(EMPTY, evs);
  }

  /** An exchanged token stays revoked, and no later read of it is ever accepted. */
  lemma {:induction false} ExchangedIsNeverAccepted(w: World, evs: seq<Event>, r: nat, token: string)
    requires Inv(w) && NeverOutlived(w, evs) && Exchanged(w, token)
    ensures var w' := Exec(w, evs);
            && token in w'.store && w'.store[token].revoked
            && (Enabled(w', ReadRow(r)) && w'.requests[r].token == token ==>
                  Step(w', ReadRow(r)).requests[r].phase == Answered)
            && (r < |w'.requests| && w'.requests[r].token == token && w'.requests[r].phase == Accepted ==>
                  !Holds(w', r))
    decreases |evs|
  {
    if evs == [] {
      var m :| m in w.minted && m.0 == token;
      assert m.0 in w.store;
      if r < |w.requests| { assert RequestOk(w, r); }
    } else {
      StepKeepsInv(w, evs[0]);
      var w' := Step(w, evs[0]);
      var m :| m in w.minted && m.0 == token;
      assert m in w'.minted;
      ExchangedIsNeverAccepted(w', evs[1..], r, token);
    }
  }
}
