/** One source row under overlapping polls, seeks and removals, one statement per step
    (feeds/services/polling.py, sources.py, _sources_seek.py). */
module Coverage {
  import opened Common
  import S = Sources

  datatype Item = Item(id: nat, at: Time)

  /** How far a poll has come since it read the row's mark. */
  datatype Phase =
    | Reading
    | Fetched(items: set<Item>, newest: Time)
    | Recorded(items: set<Item>, newest: Time)
    | Ended

  datatype Poll = Poll(mark: Time, phase: Phase)
  {
    predicate Holding() { phase.Fetched? || phase.Recorded? }
  }

  /** `row` is the stored mark, None once the row is removed. `base` is where coverage starts: the row's first
      mark, or the last target a seek jumped to past what was covered. */
  datatype World = World(published: set<Item>, recorded: set<Item>, row: Option<Time>, base: Time, polls: seq<Poll>)

  datatype Event =
    | Publish(item: Item)
    | Start
    | Fetch(p: nat, items: set<Item>, newest: Time)
    | Record(p: nat)
    | RecordStray(items: set<Item>)
    | Advance(p: nat)
    | Abandon(p: nat)
    | Seek(to: Time)
    | Remove

  /** A clean fetch since `mark`: nothing unpublished, everything past the mark, and `newest` is the running
      maximum the poll ends with. */
  ghost predicate CleanFetch(w: World, mark: Time, items: set<Item>, newest: Time) {
    && items <= w.published
    && (forall x :: x in w.published && x.at > mark ==> x in items)
    && mark <= newest
    && (forall x :: x in items ==> x.at <= newest)
    && (newest == mark || exists x :: x in items && x.at == newest)
  }

  ghost predicate Enabled(w: World, ev: Event) {
    match ev
    case Publish(x) => x !in w.published
    case Start => w.row.Some?
    case Fetch(p, items, newest) =>
      p < |w.polls| && w.polls[p].phase == Reading && CleanFetch(w, w.polls[p].mark, items, newest)
    case Record(p) => p < |w.polls| && w.polls[p].phase.Fetched?
    case RecordStray(items) => items <= w.published
    case Advance(p) => p < |w.polls| && w.polls[p].phase.Recorded?
    case Abandon(p) => p < |w.polls|
    case Seek(_) => w.row.Some?
    case Remove => true
  }

  ghost function At(w: World, p: nat, phase: Phase): World
    requires p < |w.polls|
  {
    w.(polls := w.polls[p := w.polls[p].(phase := phase)])
  }

  ghost function Step(w: World, ev: Event): World {
    if !Enabled(w, ev) then w else
    match ev
    case Publish(x) => w.(published := w.published + {x})
    case Start => w.(polls := w.polls + [Poll(w.row.value, Reading)])
    case Fetch(p, items, newest) => At(w, p, Fetched(items, newest))
    case Record(p) =>
      var ph := w.polls[p].phase;
      At(w, p, Recorded(ph.items, ph.newest)).(recorded := w.recorded + ph.items)
    case RecordStray(items) => w.(recorded := w.recorded + items)
    case Advance(p) =>
      var poll := w.polls[p];
      var moves := poll.phase.newest != poll.mark && S.MayAdvance(w.row, Some(poll.mark), poll.phase.newest);
      At(w, p, Ended).(row := if moves then Some(poll.phase.newest) else w.row)
    case Abandon(p) => At(w, p, Ended)
    case Seek(to) => w.(row := Some(to), base := if w.base <= to <= w.row.value then w.base else to)
    case Remove => w.(row := None)
  }

  ghost function Exec(w: World, evs: seq<Event>): World
    decreases |evs|
  {
    if evs == [] then w else Exec(Step(w, evs[0]), evs[1..])
  }

  /** Every upstream item dated past the base and up to the mark was recorded. */
  ghost predicate Covered(w: World) {
    w.row.Some? ==> forall x :: x in w.published && w.base < x.at <= w.row.value ==> x in w.recorded
  }

  /** An item is published in time when it is dated past the mark (or before coverage starts), and no poll
      that already fetched is about to carry the mark over it. */
  ghost predicate Timely(w: World, x: Item) {
    && (w.row.Some? ==> x.at > w.row.value || x.at <= w.base)
    && (forall p :: 0 <= p < |w.polls| && w.polls[p].Holding() ==>
          !(w.polls[p].mark < x.at <= w.polls[p].phase.newest))
  }

  ghost predicate TimelyRun(w: World, evs: seq<Event>)
    decreases |evs|
  {
    evs != [] ==>
      (evs[0].Publish? && Enabled(w, evs[0]) ==> Timely(w, evs[0].item)) && TimelyRun(Step(w, evs[0]), evs[1..])
  }

  ghost predicate PollOk(w: World, poll: Poll) {
    poll.Holding() ==>
      && poll.phase.items <= w.published
      && (forall x :: x in w.published && poll.mark < x.at <= poll.phase.newest ==> x in poll.phase.items)
      && (poll.phase.Recorded? ==> poll.phase.items <= w.recorded)
  }

  ghost predicate Inv(w: World) {
    && Covered(w)
    && w.recorded <= w.published
    && (w.row.Some? ==> w.base <= w.row.value)
    && (forall p :: 0 <= p < |w.polls| ==> PollOk(w, w.polls[p]))
  }

  /** A row just created at `mark`, whatever has been published. */
  ghost predicate Fresh(w: World) {
    w.row == Some(w.base) && w.polls == [] && w.recorded <= w.published
  }

  lemma StepKeepsInv(w: World, ev: Event)
    requires Inv(w) && (ev.Publish? && Enabled(w, ev) ==> Timely(w, ev.item))
    ensures Inv(Step(w, ev))
  {
    var w' := Step(w, ev);
    forall p | 0 <= p < |w'.polls| ensures PollOk(w', w'.polls[p]) {
      if p < |w.polls| { assert PollOk(w, w.polls[p]); }
    }
    if ev.Advance? && ev.p < |w.polls| {
      assert PollOk(w, w.polls[ev.p]);
    }
  }

  /** Coverage in every interleaving of overlapping polls, failures, lost compare-and-sets, removals and seeks
      in both directions, as long as every item is published in time. */
  lemma {:induction false} RunsStayCovered(w: World, evs: seq<Event>)
    requires Fresh(w) && TimelyRun(w, evs)
    ensures Covered(Exec(w, evs))
  {
    RunKeepsInv(w, evs);
  }

  lemma {:induction false} RunKeepsInv(w: World, evs: seq<Event>)
    requires Inv(w) && TimelyRun(w, evs)
    ensures Inv(Exec(w, evs))
    decreases |evs|
  {
    if evs != [] {
      StepKeepsInv(w, evs[0]);
      RunKeepsInv(Step(w, evs[0]), evs[1..]);
    }
  }

  lemma {:induction false} Unroll(w: World, ev: Event, evs: seq<Event>)
    ensures Exec(w, [ev] + evs) == Exec(Step(w, ev), evs)
    ensures !ev.Publish? && TimelyRun(Step(w, ev), evs) ==> TimelyRun(w, [ev] + evs)
  {
    assert ([ev] + evs)[1..] == evs;
  }

  /** An item published under a poll that already fetched past its date is lost once the row is back at that
      poll's mark and the poll finishes. */
  lemma OvertakenItemIsLost(w: World, x: Item, p: nat)
    requires Inv(w) && w.row.Some? && x !in w.published && p < |w.polls| && w.polls[p].Holding()
    requires w.polls[p].mark < x.at <= w.polls[p].phase.newest
    ensures var evs := [Seek(w.polls[p].mark), Record(p), Advance(p)];
            TimelyRun(Step(w, Publish(x)), evs) && !Covered(Exec(Step(w, Publish(x)), evs))
  {
    var m, ph := w.polls[p].mark, w.polls[p].phase;
    assert PollOk(w, w.polls[p]);
    var w0 := Step(w, Publish(x));
    var w1 := Step(w0, Seek(m));
    var w2 := Step(w1, Record(p));
    var w3 := Step(w2, Advance(p));
    assert w1.row == Some(m) && w1.base <= m;
    assert w2.row == w1.row && w2.base == w1.base && x !in w2.recorded;
    assert w2.polls[p] == Poll(m, Recorded(ph.items, ph.newest));
    assert w3.row == Some(ph.newest) && x in w3.published && w3.base < x.at <= w3.row.value && x !in w3.recorded;
    Unroll(w2, Advance(p), []);
    Unroll(w1, Record(p), [Advance(p)]);
    Unroll(w0, Seek(m), [Record(p), Advance(p)]);
    assert [Record(p)] + [Advance(p)] == [Record(p), Advance(p)];
    assert [Seek(m)] + [Record(p), Advance(p)] == [Seek(m), Record(p), Advance(p)];
    assert [Advance(p)] + [] == [Advance(p)];
  }

  /** A row fresh at `base`, nothing published yet. */
  function NewRow(base: Time): World { World({}, {}, Some(base), base, []) }

  /** A poll fetches `x`; `y`, dated past the mark but before `x`, appears; the poll records and advances. */
  function Overtaking(x: Item, y: Item): seq<Event> {
    [Publish(x), Start, Fetch(0, {x}, x.at)] + [Publish(y), Record(0), Advance(0)]
  }

  lemma {:induction false} ThreeSteps(w: World, a: Event, b: Event, c: Event, evs: seq<Event>)
    ensures Exec(w, [a, b, c] + evs) == Exec(Step(Step(Step(w, a), b), c), evs)
  {
    assert [a, b, c] + evs == [a] + ([b] + ([c] + evs));
    Unroll(w, a, [b] + ([c] + evs));
    Unroll(Step(w, a), b, [c] + evs);
    Unroll(Step(Step(w, a), b), c, evs);
  }

  /** It takes no seek: the second item is dated past every mark the row has reached, and is lost. */
  lemma FreshRunLosesAnItem(base: Time, x: Item, y: Item)
    requires x != y && base < y.at < x.at
    ensures Fresh(NewRow(base)) && Exec(NewRow(base), Overtaking(x, y)[..3]).row == Some(base)
    ensures var w := Exec(NewRow(base), Overtaking(x, y));
            w.row == Some(x.at) && w.base == base && y in w.published && y !in w.recorded && !Covered(w)
  {
    var w0 := NewRow(base);
    ThreeSteps(w0, Publish(x), Start, Fetch(0, {x}, x.at), []);
    ThreeSteps(w0, Publish(x), Start, Fetch(0, {x}, x.at), [Publish(y), Record(0), Advance(0)]);
    var w3 := Step(Step(Step(w0, Publish(x)), Start), Fetch(0, {x}, x.at));
    assert w3 == World({x}, {}, Some(base), base, [Poll(base, Fetched({x}, x.at))]);
    assert Overtaking(x, y)[..3] == [Publish(x), Start, Fetch(0, {x}, x.at)] + [];
    ThreeSteps(w3, Publish(y), Record(0), Advance(0), []);
    assert [Publish(y), Record(0), Advance(0)] + [] == [Publish(y), Record(0), Advance(0)];
    var w6 := Step(Step(Step(w3, Publish(y)), Record(0)), Advance(0));
    assert w6.published == {x, y} && w6.recorded == {x} && w6.row == Some(x.at) && w6.base == base;
  }

  lemma UntimelyItemIsLost(w: World, x: Item) returns (evs: seq<Event>)
    requires Inv(w) && w.row.Some? && x !in w.published && !Timely(w, x)
    ensures TimelyRun(Step(w, Publish(x)), evs) && !Covered(Exec(Step(w, Publish(x)), evs))
  {
    if !(x.at > w.row.value || x.at <= w.base) {
      evs := [];
    } else {
      var p :| 0 <= p < |w.polls| && w.polls[p].Holding() && w.polls[p].mark < x.at <= w.polls[p].phase.newest;
      OvertakenItemIsLost(w, x, p);
      evs := [Seek(w.polls[p].mark), Record(p), Advance(p)];
    }
  }

  /** The publishing condition is exact: a new item is safe in every continuation iff it was timely. It is not
      enough that the item is dated past the mark reached so far. */
  lemma SafeIffTimely(w: World, x: Item)
    requires Inv(w) && w.row.Some? && x !in w.published
    ensures Timely(w, x) <==>
            forall evs :: TimelyRun(Step(w, Publish(x)), evs) ==> Covered(Exec(Step(w, Publish(x)), evs))
  {
    var w' := Step(w, Publish(x));
    if Timely(w, x) {
      StepKeepsInv(w, Publish(x));
      forall evs | TimelyRun(w', evs) ensures Covered(Exec(w', evs)) {
        RunKeepsInv(w', evs);
      }
    } else {
      var evs := UntimelyItemIsLost(w, x);
      assert TimelyRun(w', evs) && !Covered(Exec(w', evs));
    }
  }

  /** The fetch a poll makes - everything published from the mark on, or everything past it, and the newest instant
      among the mark and those - is a clean one. */
  lemma PollFetchesCleanly(w: World, mark: Time, items: set<Item>, newest: Time)
    requires || items == (set x | x in w.published && x.at >= mark)
             || items == (set x | x in w.published && x.at > mark)
    requires newest >= mark && (forall x :: x in items ==> newest >= x.at)
    requires newest == mark || exists x :: x in items && x.at == newest
    ensures CleanFetch(w, mark, items, newest)
  {
  }

  lemma PollReachesRecord(w: World, items: set<Item>, newest: Time)
    requires w.row.Some? && CleanFetch(w, w.row.value, items, newest)
    ensures var p := |w.polls|;
            Step(Step(Step(w, Start), Fetch(p, items, newest)), Record(p))
            == w.(recorded := w.recorded + items, polls := w.polls + [Poll(w.row.value, Recorded(items, newest))])
  {
    var p, mark := |w.polls|, w.row.value;
    var w1 := Step(w, Start);
    var w2 := Step(w1, Fetch(p, items, newest));
    assert w1.polls == w.polls + [Poll(mark, Reading)];
    assert w2.polls == w.polls + [Poll(mark, Fetched(items, newest))];
    assert w2 == w.(polls := w.polls + [Poll(mark, Fetched(items, newest))]);
    assert Step(w2, Record(p)).polls == w.polls + [Poll(mark, Recorded(items, newest))];
  }

  /** A poll nobody disturbs: its items recorded, the row at its newest instant, nothing else moved. */
  lemma UndisturbedPoll(w: World, items: set<Item>, newest: Time)
    requires w.row.Some? && CleanFetch(w, w.row.value, items, newest)
    ensures var p := |w.polls|;
            Exec(w, [Start, Fetch(p, items, newest), Record(p)] + [Advance(p)])
            == w.(recorded := w.recorded + items, row := Some(newest), polls := w.polls + [Poll(w.row.value, Ended)])
  {
    var p := |w.polls|;
    var v := w.(recorded := w.recorded + items, polls := w.polls + [Poll(w.row.value, Recorded(items, newest))]);
    ThreeSteps(w, Start, Fetch(p, items, newest), Record(p), [Advance(p)]);
    PollReachesRecord(w, items, newest);
    Unroll(v, Advance(p), []);
    assert [Advance(p)] + [] == [Advance(p)];
    LastStep(w, v, items, newest);
  }

  lemma LastStep(w: World, v: World, items: set<Item>, newest: Time)
    requires w.row.Some? && newest >= w.row.value
    requires v == w.(recorded := w.recorded + items, polls := w.polls + [Poll(w.row.value, Recorded(items, newest))])
    ensures Step(v, Advance(|w.polls|)) == v.(row := Some(newest), polls := w.polls + [Poll(w.row.value, Ended)])
  {
    assert Step(v, Advance(|w.polls|)).polls == w.polls + [Poll(w.row.value, Ended)];
  }

  /** A poll may die at any point, leaving what it recorded; a source may be removed at any time; whatever is
      published may be recorded by others; a seek inside what is covered forgets none of it. */
  lemma OtherSteps(w: World, x: Item, p: nat, items: set<Item>, to: Time)
    ensures x !in w.published ==> Step(w, Publish(x)) == w.(published := w.published + {x})
    ensures p < |w.polls| ==> Step(w, Abandon(p)) == w.(polls := w.polls[p := Poll(w.polls[p].mark, Ended)])
    ensures items <= w.published ==> Step(w, RecordStray(items)) == w.(recorded := w.recorded + items)
    ensures Step(w, Remove) == w.(row := None)
    ensures w.row.Some? && w.base <= to && to <= w.row.value ==> Step(w, Seek(to)) == w.(row := Some(to))
    ensures w.row.Some? && !(w.base <= to && to <= w.row.value) ==> Step(w, Seek(to)) == w.(row := Some(to), base := to)
  {
  }

  /** Only a seek lowers a mark; a poll's advance strictly raises it, from exactly the value that poll read. */
  lemma MarkMoves(w: World, ev: Event)
    requires Step(w, ev).row != w.row
    ensures match ev
            case Seek(to) => Step(w, ev).row == Some(to)
            case Remove => Step(w, ev).row == None
            case Advance(p) =>
              p < |w.polls| && w.row == Some(w.polls[p].mark) && Step(w, ev).row.Some?
              && Step(w, ev).row.value > w.row.value
            case _ => false
  {
  }

  /** The row never stands at `mark` along the run. */
  ghost predicate StaysOff(w: World, evs: seq<Event>, mark: Time)
    decreases |evs|
  {
    w.row != Some(mark) && (evs != [] ==> StaysOff(Step(w, evs[0]), evs[1..], mark))
  }

  /** The run without poll `p`'s advances. */
  function Without(evs: seq<Event>, p: nat): seq<Event> {
    if evs == [] then []
    else if evs[0] == Advance(p) then Without(evs[1..], p)
    else [evs[0]] + Without(evs[1..], p)
  }

  ghost predicate SameButPoll(v: World, w: World, p: nat) {
    && (v.published, v.row, v.base) == (w.published, w.row, w.base)
    && |v.polls| == |w.polls| && p < |w.polls| && v.polls[p].mark == w.polls[p].mark
    && forall q :: 0 <= q < |w.polls| && q != p ==> v.polls[q] == w.polls[q]
  }

  lemma SameStep(v: World, w: World, ev: Event, p: nat)
    requires SameButPoll(v, w, p) && ev != Advance(p)
    ensures SameButPoll(Step(v, ev), Step(w, ev), p)
  {
  }

  lemma {:induction false} Noninterference(v: World, w: World, evs: seq<Event>, p: nat)
    requires SameButPoll(v, w, p) && StaysOff(w, evs, w.polls[p].mark)
    ensures SameButPoll(Exec(v, Without(evs, p)), Exec(w, evs), p)
    decreases |evs|
  {
    if evs != [] {
      var w' := Step(w, evs[0]);
      if evs[0] == Advance(p) {
        assert SameButPoll(v, w', p);
        Noninterference(v, w', evs[1..], p);
      } else {
        SameStep(v, w, evs[0], p);
        assert w'.polls[p].mark == w.polls[p].mark;
        Unroll(v, evs[0], Without(evs[1..], p));
        Noninterference(Step(v, evs[0]), w', evs[1..], p);
      }
    }
  }

  /** A seek survives the polls in flight: while nothing puts the row back on the mark a poll read, the row
      moves exactly as if that poll never tried to advance it. */
  lemma {:induction false} StalePollIsInert(w: World, evs: seq<Event>, p: nat)
    requires p < |w.polls| && StaysOff(w, evs, w.polls[p].mark)
    ensures Exec(w, evs).row == Exec(w, Without(evs, p)).row
  {
    Noninterference(w, w, evs, p);
  }
}
