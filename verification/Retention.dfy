/** Why a rewind does not bring pruned items back (feeds/policy.py, feeds/services/polling.py). */
module Retention {
  import opened Common
  import opened Policy
  import opened FeedLog
  import K = Seek

  /** When a seek put a mark where it is: its clock, and how many cycles had started by then. */
  datatype Sought = Sought(at: Time, cycles: nat)

  /** A source's mark, with the seek that set it if no poll has advanced it since. */
  datatype Mark = Mark(value: Time, sought: Option<Sought>)

  /** One feed. `cycle` is the start of the poll cycle in progress, `cycles` how many were started, `pruned`
      the start of the latest cycle that pruned, `last` when each item was last recorded. `total` is how many
      sources the cycle counted at its start, `succeeded` how many it has polled without error. */
  datatype World = World(
    now: Time, occurred: map<Key, Time>, log: Log, last: map<Key, Time>, marks: map<nat, Mark>,
    cycle: Option<Time>, cycles: nat, pruned: Option<Time>, total: nat, succeeded: nat)

  /** An item may become visible long after it occurred. A cycle ends by itself, or dies with its process. */
  datatype Event =
    | Tick(elapsed: nat)
    | Publish(key: Key, at: Time)
    | OpenCycle
    | FetchSource(source: nat, keys: set<Key>, newest: Time)
    | FetchFails(source: nat, keys: set<Key>)
    | CloseCycle
    | CycleDies
    | AddSource(source: nat, mark: Time)
    | RemoveSource(source: nat)
    | SeekTo(source: nat, raw: K.RawTarget)

  /** What a poll of `source` may come upon: published items dated at or after its mark. */
  predicate Reads(w: World, source: nat, keys: set<Key>) {
    && w.cycle.Some? && source in w.marks
    && forall k :: k in keys ==> k in w.occurred && w.marks[source].value <= w.occurred[k]
  }

  predicate Enabled(w: World, ev: Event, days: nat) {
    match ev
    case Tick(_) => true
    case Publish(k, at) => k !in w.occurred && at <= w.now
    case OpenCycle => w.cycle.None?
    case FetchSource(s, keys, newest) => Reads(w, s, keys) && w.marks[s].value <= newest
    case FetchFails(s, keys) => Reads(w, s, keys)
    case CloseCycle => w.cycle.Some?
    case CycleDies => w.cycle.Some?
    case AddSource(s, mark) => s !in w.marks && mark <= w.now
    case RemoveSource(_) => true
    case SeekTo(s, raw) => s in w.marks && K.ResolveTarget(raw, days, w.now, w.now).Accepted?
  }

  /** There were sources and not one of them could be polled. */
  predicate FullOutage(w: World) { w.total > 0 && w.succeeded == 0 }

  /** The keys a fetch inserts: the others dedup. */
  function Inserted(w: World, keys: set<Key>): (added: set<Key>)
    ensures added <= keys && added !! w.log.Keys
  {
    keys - w.log.Keys
  }

  /** The log and the times of recording once `keys` have been recorded. */
  function Record(w: World, keys: set<Key>): World
    requires keys <= w.occurred.Keys
  {
    var added := Inserted(w, keys);
    w.(log := w.log + map k | k in added :: Item("", map[], w.occurred[k], w.now),
       last := w.last + map k | k in added :: w.now)
  }

  function Step(w: World, ev: Event, days: nat): World {
    if !Enabled(w, ev, days) then w else
    match ev
    case Tick(elapsed) => w.(now := w.now + elapsed)
    case Publish(k, at) => w.(occurred := w.occurred[k := at])
    case OpenCycle => w.(cycle := Some(w.now), cycles := w.cycles + 1, total := |w.marks|, succeeded := 0)
    case FetchSource(s, keys, newest) =>
      Record(w, keys).(
        marks := w.marks[s := if newest == w.marks[s].value then w.marks[s] else Mark(newest, None)],
        succeeded := w.succeeded + 1)
    case FetchFails(_, keys) => Record(w, keys)
    case CloseCycle =>
      if FullOutage(w) then w.(cycle := None)
      else w.(log := Prune(w.log, SeekFloor(days, w.cycle.value)), cycle := None, pruned := w.cycle)
    case CycleDies => w.(cycle := None)
    case AddSource(s, mark) => w.(marks := w.marks[s := Mark(mark, None)])
    case RemoveSource(s) => w.(marks := w.marks - {s})
    case SeekTo(s, raw) =>
      w.(marks := w.marks[s := Mark(K.ResolveTarget(raw, days, w.now, w.now).value, Some(Sought(w.now, w.cycles)))])
  }

  function Exec(w: World, evs: seq<Event>, days: nat): World
    decreases |evs|
  {
    if evs == [] then w else Exec(Step(w, evs[0], days), evs[1..], days)
  }

  /** A poll that succeeds moves the mark to its newest instant, one that fails leaves it; each leaves a row for every
      item it came upon, and changes no old row. */
  lemma FetchesAreSteps(w: World, days: nat, s: nat, keys: set<Key>, newest: Time)
    requires Reads(w, s, keys) && w.marks[s].value <= newest
    ensures var w' := Step(w, FetchSource(s, keys, newest), days);
            && s in w'.marks && w'.marks[s].value == newest
            && w'.marks == w.marks[s := if newest > w.marks[s].value then Mark(newest, None) else w.marks[s]]
            && w'.succeeded == w.succeeded + 1 && (w'.total, w'.cycle, w'.cycles) == (w.total, w.cycle, w.cycles)
            && keys <= w'.log.Keys && forall k :: k in w.log ==> k in w'.log && w'.log[k] == w.log[k]
    ensures var w' := Step(w, FetchFails(s, keys), days);
            && (w'.marks, w'.succeeded, w'.total, w'.cycle) == (w.marks, w.succeeded, w.total, w.cycle)
            && keys <= w'.log.Keys && forall k :: k in w.log ==> k in w'.log && w'.log[k] == w.log[k]
  {
  }

  /** A cycle ends in a prune unless it had sources and polled none of them; one that dies never prunes. */
  lemma CyclesAreSteps(w: World, days: nat)
    ensures w.cycle.None? ==>
              Step(w, OpenCycle, days) == w.(
                cycle := Some(w.now), cycles := w.cycles + 1, total := |w.marks|, succeeded := 0)
    ensures w.cycle.Some? && w.total > 0 && w.succeeded == 0 ==> Step(w, CloseCycle, days) == w.(cycle := None)
    ensures w.cycle.Some? && (w.total == 0 || w.succeeded > 0) ==>
              Step(w, CloseCycle, days) == w.(
                log := Prune(w.log, w.cycle.value - days * DAY), cycle := None, pruned := w.cycle)
    ensures w.cycle.Some? ==> Step(w, CycleDies, days) == w.(cycle := None)
  {
  }

  /** What an operator, and the world, may do to the sources at any time. */
  lemma SourcesAreSteps(w: World, days: nat, s: nat, mark: Time, raw: K.RawTarget, k: Key)
    ensures s !in w.marks && mark <= w.now ==>
              Step(w, AddSource(s, mark), days) == w.(marks := w.marks[s := Mark(mark, None)])
    ensures Step(w, RemoveSource(s), days) == w.(marks := w.marks - {s})
    ensures s in w.marks && K.ResolveTarget(raw, days, w.now, w.now).Accepted? ==>
              Step(w, SeekTo(s, raw), days) == w.(marks := w.marks[
                s := Mark(K.ResolveTarget(raw, days, w.now, w.now).value, Some(Sought(w.now, w.cycles)))])
    ensures k !in w.occurred && mark <= w.now ==>
              Step(w, Publish(k, mark), days) == w.(occurred := w.occurred[k := mark])
  {
  }

  const START := World(0, map[], map[], map[], map[], None, 0, None, 0, 0)

  /** An item ever recorded still has its row, unless it was recorded before the latest prune's cutoff; and
      items are recorded at or after they occurred. */
  ghost predicate HistoryOk(w: World, days: nat) {
    && w.log.Keys <= w.last.Keys <= w.occurred.Keys
    && (forall k :: k in w.last ==> w.occurred[k] <= w.last[k] <= w.now)
    && (forall k :: k in w.log ==> w.log[k].recordedAt == w.last[k])
    && (forall k :: k in w.last && k !in w.log ==>
          w.pruned.Some? && Older(w.last[k], SeekFloor(days, w.pruned.value)))
  }

  /** Cycles run one after another, in clock order. */
  predicate CyclesOk(w: World) {
    && (w.cycle.Some? ==> w.cycles > 0 && w.cycle.value <= w.now)
    && (w.cycle.Some? && w.pruned.Some? ==> w.pruned.value <= w.cycle.value)
    && (w.pruned.Some? ==> w.pruned.value <= w.now)
    && (forall k :: k in w.occurred ==> w.occurred[k] <= w.now)
  }

  /** The first cycle to fetch after the seek has not pruned yet: it was running at the seek, or is the next. */
  predicate FirstFetch(w: World, sought: Sought) {
    w.cycles <= sought.cycles || (w.cycles == sought.cycles + 1 && w.cycle.Some?)
  }

  predicate MarkOk(w: World, m: Mark, days: nat) {
    m.sought.Some? ==>
      var s := m.sought.value;
      && SeekFloor(days, s.at) <= m.value && s.at <= w.now && s.cycles <= w.cycles
      && (w.cycles == s.cycles && w.cycle.Some? ==> w.cycle.value <= s.at)
      && (FirstFetch(w, s) && w.pruned.Some? ==> w.pruned.value <= s.at)
  }

  ghost predicate Inv(w: World, days: nat) {
    HistoryOk(w, days) && CyclesOk(w) && forall s :: s in w.marks ==> MarkOk(w, w.marks[s], days)
  }

  lemma PruneKeepsHistory(w: World, days: nat)
    requires Inv(w, days) && w.cycle.Some? && !FullOutage(w)
    ensures HistoryOk(Step(w, CloseCycle, days), days)
  {
    var w' := Step(w, CloseCycle, days);
    forall k | k in w'.last && k !in w'.log ensures Older(w'.last[k], SeekFloor(days, w'.pruned.value)) {
      if k !in w.log {
        assert SeekFloor(days, w.pruned.value) <= SeekFloor(days, w.cycle.value);
      }
    }
  }

  lemma RecordKeepsHistory(w: World, keys: set<Key>, days: nat)
    requires HistoryOk(w, days) && CyclesOk(w) && keys <= w.occurred.Keys
    ensures HistoryOk(Record(w, keys), days)
  {
    var w' := Record(w, keys);
    var added := Inserted(w, keys);
    assert w'.log.Keys == w.log.Keys + added && w'.last.Keys == w.last.Keys + added;
    forall k | k in w'.last && k !in w'.log ensures w'.last[k] == w.last[k] {
    }
  }

  lemma OtherKeepsHistory(w: World, ev: Event, days: nat)
    requires HistoryOk(w, days) && CyclesOk(w)
    requires !ev.FetchSource? && !ev.FetchFails? && (ev.CloseCycle? ==> FullOutage(w))
    ensures HistoryOk(Step(w, ev, days), days)
  {
  }

  lemma StepKeepsHistory(w: World, ev: Event, days: nat)
    requires Inv(w, days)
    ensures HistoryOk(Step(w, ev, days), days)
  {
    if ev.FetchSource? || ev.FetchFails? {
      if Enabled(w, ev, days) {
        RecordKeepsHistory(w, ev.keys, days);
      }
    } else if ev.CloseCycle? && w.cycle.Some? && !FullOutage(w) {
      PruneKeepsHistory(w, days);
    } else if Enabled(w, ev, days) {
      OtherKeepsHistory(w, ev, days);
    }
  }

  lemma StepKeepsCycles(w: World, ev: Event, days: nat)
    requires CyclesOk(w)
    ensures CyclesOk(Step(w, ev, days))
  {
  }

  lemma StepKeepsMark(w: World, ev: Event, s: nat, days: nat)
    requires Inv(w, days) && s in Step(w, ev, days).marks
    ensures MarkOk(Step(w, ev, days), Step(w, ev, days).marks[s], days)
  {
    if s in w.marks { assert MarkOk(w, w.marks[s], days); }
    if ev.SeekTo? && Enabled(w, ev, days) && s == ev.source {
      K.AcceptedIffInWindow(ev.raw, days, w.now, w.now, Step(w, ev, days).marks[s].value);
    }
  }

  lemma StepKeepsInv(w: World, ev: Event, days: nat)
    requires Inv(w, days)
    ensures Inv(Step(w, ev, days), days)
  {
    StepKeepsHistory(w, ev, days);
    StepKeepsCycles(w, ev, days);
    forall s | s in Step(w, ev, days).marks ensures MarkOk(Step(w, ev, days), Step(w, ev, days).marks[s], days) {
      StepKeepsMark(w, ev, s, days);
    }
  }

  lemma {:induction false} RunKeepsInv(w: World, evs: seq<Event>, days: nat)
    requires Inv(w, days)
    ensures Inv(Exec(w, evs, days), days)
    decreases |evs|
  {
    if evs != [] {
      StepKeepsInv(w, evs[0], days);
      RunKeepsInv(Step(w, evs[0], days), evs[1..], days);
    }
  }

  /** No resurrection: in every run, the first fetch after an accepted seek, whatever its target, inserts no
      row for an item that was ever recorded before - a failing fetch included. */
  lemma {:induction false} NoResurrection(evs: seq<Event>, days: nat, source: nat, keys: set<Key>)
    requires var w := Exec(START, evs, days);
             Reads(w, source, keys) && w.marks[source].sought.Some? && FirstFetch(w, w.marks[source].sought.value)
    ensures var w := Exec(START, evs, days);
            Inserted(w, keys) !! w.last.Keys
  {
    RunKeepsInv(START, evs, days);
    var w := Exec(START, evs, days);
    assert MarkOk(w, w.marks[source], days);
    FetchIsSafe(w, days, source, keys);
  }

  /** The latest prune's cutoff, in milliseconds, is not past `mark`. */
  predicate NotPrunedPast(pruned: Option<Time>, days: nat, mark: Time) {
    pruned.Some? ==> !Older(mark, SeekFloor(days, pruned.value))
  }

  lemma FetchIsSafe(w: World, days: nat, source: nat, keys: set<Key>)
    requires Inv(w, days) && Reads(w, source, keys)
    requires NotPrunedPast(w.pruned, days, w.marks[source].value)
    ensures Inserted(w, keys) !! w.last.Keys
  {
    forall k | k in keys && k in w.last ensures k in w.log {
      assert w.marks[source].value <= w.occurred[k] <= w.last[k];
    }
  }

  /** Same clock, marks and cycles; the items and the log may differ. */
  predicate SameSchedule(v: World, w: World) {
    v.(occurred := w.occurred, log := w.log, last := w.last) == w
  }

  ghost predicate FetchesAreSafe(w: World, days: nat, source: nat) {
    forall keys | Reads(w, source, keys) :: Inserted(w, keys) !! w.last.Keys
  }

  /** When the fetch is not the first one, the exact condition is the one a poller could check before it: no
      prune has passed the mark. It protects every history; without it some history is re-recorded. */
  lemma SafeIffNotPrunedPast(w: World, days: nat, source: nat)
    requires Inv(w, days) && w.cycle.Some? && source in w.marks && w.marks[source].value <= w.now
    ensures NotPrunedPast(w.pruned, days, w.marks[source].value) <==>
            forall v | Inv(v, days) && SameSchedule(v, w) :: FetchesAreSafe(v, days, source)
  {
    var m := w.marks[source].value;
    if NotPrunedPast(w.pruned, days, m) {
      forall v | Inv(v, days) && SameSchedule(v, w) ensures FetchesAreSafe(v, days, source) {
        forall keys | Reads(v, source, keys) ensures Inserted(v, keys) !! v.last.Keys {
          FetchIsSafe(v, days, source, keys);
        }
      }
    } else {
      var k := Key("", "");
      var v := w.(occurred := map[k := m], log := map[], last := map[k := m]);
      forall s | s in v.marks ensures MarkOk(v, v.marks[s], days) {
        assert MarkOk(w, w.marks[s], days);
      }
      assert Inv(v, days) && SameSchedule(v, w) && Reads(v, source, {k});
      assert k in Inserted(v, {k}) && k in v.last.Keys;
      assert !FetchesAreSafe(v, days, source);
    }
  }

  /** Publish an item and record it in a first cycle over two sources. */
  function Recording(k: Key): seq<Event> {
    [Publish(k, 0), AddSource(0, 0), AddSource(1, 0), OpenCycle, FetchSource(0, {k}, 0), CloseCycle]
  }

  /** Wait out the retention, seek the first source to `oldest`, and run a cycle in which its poll fails while
      the other's succeeds. */
  function Missing(days: nat): seq<Event> {
    [Tick(days * DAY), SeekTo(0, K.Oldest), Tick(1000), OpenCycle, FetchFails(0, {}), FetchSource(1, {}, 0), CloseCycle]
  }

  lemma {:induction false} ExecAppends(w: World, evs: seq<Event>, ev: Event, days: nat)
    ensures Exec(w, evs + [ev], days) == Step(Exec(w, evs, days), ev, days)
    decreases |evs|
  {
    if evs == [] {
      assert evs + [ev] == [ev] && [ev][1..] == [];
      assert Exec(Step(w, ev, days), [], days) == Step(w, ev, days);
    } else {
      ExecAppends(Step(w, evs[0], days), evs[1..], ev, days);
      assert (evs + [ev])[1..] == evs[1..] + [ev];
    }
  }

  const ORIGINS: map<nat, Mark> := map[0 := Mark(0, None), 1 := Mark(0, None)]

  /** The two sources are there and the item is published. */
  lemma AfterSetup(days: nat, k: Key)
    ensures Exec(START, Recording(k)[..4], days)
            == World(0, map[k := 0], map[], map[], ORIGINS, Some(0), 1, None, 2, 0)
  {
    var evs := Recording(k);
    ExecAppends(START, [], evs[0], days);
    ExecAppends(START, evs[..1], evs[1], days);
    ExecAppends(START, evs[..2], evs[2], days);
    ExecAppends(START, evs[..3], evs[3], days);
    assert [] + [evs[0]] == evs[..1] && evs[..1] + [evs[1]] == evs[..2];
    assert evs[..2] + [evs[2]] == evs[..3] && evs[..3] + [evs[3]] == evs[..4];
    var w2 := Exec(START, evs[..3], days);
    assert w2.marks == ORIGINS && |ORIGINS.Keys| == |{0, 1}| == 2;
  }

  function Kept(k: Key): Log { map[k := Item("", map[], 0, 0)] }

  lemma AfterRecording(days: nat, k: Key)
    ensures Exec(START, Recording(k), days)
            == World(0, map[k := 0], Kept(k), map[k := 0], ORIGINS, None, 1, Some(0), 2, 1)
  {
    var evs := Recording(k);
    AfterSetup(days, k);
    var w := Exec(START, evs[..4], days);
    ExecAppends(START, evs[..4], evs[4], days);
    ExecAppends(START, evs[..5], evs[5], days);
    assert evs[..4] + [evs[4]] == evs[..5] && evs[..5] + [evs[5]] == evs;
    assert Inserted(w, {k}) == {k};
    var v := Step(w, evs[4], days);
    assert v.log == Kept(k) && v.last == map[k := 0] && v.marks == ORIGINS;
    assert Prune(v.log, SeekFloor(days, 0)) == v.log;
  }

  /** The first source's mark, sought to the floor once the retention has passed. */
  function SoughtMarks(days: nat): map<nat, Mark> {
    ORIGINS[0 := Mark(0, Some(Sought(days * DAY, 1)))]
  }

  lemma AfterSeek(days: nat, w: World)
    requires w.now == 0 && w.marks == ORIGINS && w.cycles == 1
    ensures Exec(w, Missing(days)[..2], days) == w.(now := days * DAY, marks := SoughtMarks(days))
  {
    var evs, r := Missing(days), days * DAY;
    ExecAppends(w, [], evs[0], days);
    ExecAppends(w, evs[..1], evs[1], days);
    assert [] + [evs[0]] == evs[..1] && evs[..1] + [evs[1]] == evs[..2];
    K.OldestIsTheDeepest(K.Oldest, days, 0, r, r);
  }

  /** The next cycle starts a millisecond later. */
  lemma AfterReopening(days: nat, w: World)
    requires w.now == 0 && w.marks == ORIGINS && w.cycles == 1 && w.cycle == None
    ensures var r := days * DAY;
            Exec(w, Missing(days)[..4], days)
            == w.(now := r + 1000, marks := SoughtMarks(days), cycle := Some(r + 1000), cycles := 2,
                  total := 2, succeeded := 0)
  {
    var evs := Missing(days);
    AfterSeek(days, w);
    ExecAppends(w, evs[..2], evs[2], days);
    ExecAppends(w, evs[..3], evs[3], days);
    assert evs[..2] + [evs[2]] == evs[..3] && evs[..3] + [evs[3]] == evs[..4];
    assert SoughtMarks(days).Keys == {0, 1} && |{0, 1}| == 2;
  }

  lemma AfterMissing(days: nat, k: Key, w: World)
    requires days >= 1
    requires w == World(0, map[k := 0], Kept(k), map[k := 0], ORIGINS, None, 1, Some(0), 2, 1)
    ensures var w' := Exec(w, Missing(days), days);
            w'.log == map[] && w'.last == w.last && w'.occurred == w.occurred && w'.cycle == None
            && 0 in w'.marks && w'.marks[0].value == 0
  {
    var evs, r := Missing(days), days * DAY;
    AfterReopening(days, w);
    ExecAppends(w, evs[..4], evs[4], days);
    ExecAppends(w, evs[..5], evs[5], days);
    ExecAppends(w, evs[..6], evs[6], days);
    assert evs[..4] + [evs[4]] == evs[..5] && evs[..5] + [evs[5]] == evs[..6] && evs[..6] + [evs[6]] == evs;
    var v := Exec(w, evs[..4], days);
    assert Record(v, {}).log == v.log && Record(v, {}).last == v.last;
    var u := Step(Step(v, evs[4], days), evs[5], days);
    assert u.log == Kept(k) && u.succeeded == 1;
    assert Prune(u.log, SeekFloor(days, r + 1000)) == map[];
  }

  /** Sought to the floor, then missed by the first cycle: that cycle, kept out of an outage by another source,
      prunes past the mark, and the next one records the old item anew. */
  lemma MissedFirstFetchResurrects(days: nat, k: Key)
    requires days >= 1
    ensures var w := Step(Exec(Exec(START, Recording(k), days), Missing(days), days), OpenCycle, days);
            Enabled(w, FetchSource(0, {k}, 0), days) && k in w.last && k in Inserted(w, {k})
  {
    AfterRecording(days, k);
    AfterMissing(days, k, Exec(START, Recording(k), days));
  }
}
