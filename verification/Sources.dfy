/** Source rows and the writes on them (feeds/services/sources.py). */
module Sources {
  import opened Common
  import opened Policy

  datatype Spec = Reddit(subreddit: string) | Other(otherKind: string, body: string)
  {
    function Kind(): string {
      match this
      case Reddit(_) => "reddit_subreddit"
      case Other(k, _) => k
    }
  }

  /** SHA-256 of a spec's canonical form, taken as injective. */
  datatype Hash = HashOf(spec: Spec)

  datatype Source = Source(
    id: nat, account: string, feed: string, kind: string, spec: Spec, hash: Hash,
    mark: Option<Time>, meta: map<string, string>, fieldMap: map<string, string>)
  {
    predicate In(a: string, f: string) { account == a && feed == f }
  }

  type Table = map<nat, Source>

  /** Rows are filed under their own id, and no two share (account, feed, hash). */
  predicate TableOk(t: Table) {
    && (forall id :: id in t ==> t[id].id == id)
    && (forall a, b :: a in t && b in t && a != b ==>
          !(t[a].account == t[b].account && t[a].feed == t[b].feed && t[a].hash == t[b].hash))
  }

  /** Compare-and-set of a watermark: the row still holds what the poll read, and the move is forward. */
  predicate MayAdvance(current: Option<Time>, readAt: Option<Time>, value: Time) {
    if readAt.None? then current.None? else current == readAt && readAt.value < value
  }

  function Advance(t: Table, account: string, source: Source, value: Time): Table {
    if source.id in t && t[source.id].account == account && MayAdvance(t[source.id].mark, source.mark, value)
    then t[source.id := t[source.id].(mark := Some(value))] else t
  }

  datatype SourceInput = SourceInput(
    spec: Spec, mark: Option<Time>, meta: map<string, string>, fieldMap: map<string, string>)

  type Wanted = map<Hash, SourceInput>

  /** Deduplicated input, first occurrence winning. */
  function FirstByHash(items: seq<SourceInput>): (w: Wanted)
    ensures forall h :: h in w ==> h == HashOf(w[h].spec)
  {
    if items == [] then map[] else
    var w := FirstByHash(items[..|items| - 1]);
    var last := items[|items| - 1];
    if HashOf(last.spec) in w then w else w[HashOf(last.spec) := last]
  }

  lemma {:induction false} FirstOccurrenceWins(items: seq<SourceInput>, i: nat)
    requires i < |items|
    ensures HashOf(items[i].spec) in FirstByHash(items)
    ensures (forall j :: 0 <= j < i ==> items[j].spec != items[i].spec) ==>
              FirstByHash(items)[HashOf(items[i].spec)] == items[i]
  {
    var n := |items| - 1;
    if i < n {
      FirstOccurrenceWins(items[..n], i);
    } else if HashOf(items[i].spec) in FirstByHash(items[..n]) {
      var j := WantedComesFrom(items[..n], HashOf(items[i].spec));
      assert items[j].spec == items[i].spec;
    }
  }

  lemma {:induction false} WantedComesFrom(items: seq<SourceInput>, h: Hash) returns (i: nat)
    requires h in FirstByHash(items)
    ensures i < |items| && items[i] == FirstByHash(items)[h]
  {
    var n := |items| - 1;
    if h in FirstByHash(items[..n]) {
      i := WantedComesFrom(items[..n], h);
    } else {
      i := n;
    }
  }

  function Hashes(t: Table, account: string, feed: string): set<Hash> {
    set id | id in t && t[id].In(account, feed) :: t[id].hash
  }

  datatype SetResult = SetResult(added: nat, removed: nat, persisted: nat, sourceCount: nat)

  /** The diff a dry run reports. */
  function Diff(t: Table, account: string, feed: string, wanted: Wanted): SetResult {
    var have := Hashes(t, account, feed);
    SetResult(|wanted.Keys - have|, |have - wanted.Keys|, |wanted.Keys * have|, |wanted.Keys|)
  }

  datatype SetError = NotCurated | NoConnector | Unsafe | Concurrent | BadWatermark

  datatype SetOutcome = Applied(result: SetResult) | Refused(error: SetError)

  function NewRow(id: nat, account: string, feed: string, item: SourceInput, mark: Time): Source {
    Source(id, account, feed, item.spec.Kind(), item.spec, HashOf(item.spec), Some(mark), item.meta, item.fieldMap)
  }

  function Watermark(item: SourceInput, now: Time): Checked {
    DefaultAndEnforceSourceWatermark(item.mark, now)
  }

  /** `t'` is `t` with one feed's rows replaced by `wanted`, the new rows filed under `ids`. */
  ghost predicate Reconciled(t: Table, t': Table, account: string, feed: string, wanted: Wanted, ids: map<Hash, nat>,
                             now: Time)
    requires ids.Keys == wanted.Keys
  {
    && OthersUntouched(t, t', account, feed)
    && Persisted(t, t', account, feed, wanted)
    && Added(t, t', account, feed, wanted, ids, now)
  }

  predicate OthersUntouched(t: Table, t': Table, account: string, feed: string) {
    && (forall id :: id in t && !t[id].In(account, feed) ==> id in t' && t'[id] == t[id])
    && (forall id :: id in t' && !t'[id].In(account, feed) ==> id in t)
  }

  /** A row that persists keeps its id, spec and mark, and takes meta and field map from the input. */
  predicate Persisted(t: Table, t': Table, account: string, feed: string, wanted: Wanted) {
    forall id :: id in t && t[id].In(account, feed) ==>
      (id in t' <==> t[id].hash in wanted) && (id in t' ==> t'[id] == Refreshed(t[id], wanted))
  }

  /** A spec without a row gets one, with an accepted watermark; and there is no other new row. */
  ghost predicate Added(t: Table, t': Table, account: string, feed: string, wanted: Wanted, ids: map<Hash, nat>,
                        now: Time)
    requires ids.Keys == wanted.Keys
  {
    && (forall h :: h in wanted && h !in Hashes(t, account, feed) ==>
          Watermark(wanted[h], now).Accepted? && ids[h] in t'
          && t'[ids[h]] == NewRow(ids[h], account, feed, wanted[h], Watermark(wanted[h], now).value))
    && (forall id :: id in t' && id !in t ==> exists h :: h in wanted && h !in Hashes(t, account, feed) && ids[h] == id)
  }

  predicate Registered(items: seq<SourceInput>, registered: set<string>) {
    forall item :: item in items ==> item.spec.Kind() in registered
  }

  predicate Safe(items: seq<SourceInput>, safe: Spec -> bool) {
    forall item :: item in items ==> safe(item.spec)
  }

  /** Rows whose meta or field map the input changes. */
  function Dirty(t: Table, account: string, feed: string, wanted: Wanted): set<nat> {
    set id | id in t && t[id].In(account, feed) && t[id].hash in wanted
             && (t[id].meta, t[id].fieldMap) != (wanted[t[id].hash].meta, wanted[t[id].hash].fieldMap)
  }

  /** The ids drawn for new rows are distinct and unused. */
  predicate FreshIds(t: Table, wanted: Wanted, ids: map<Hash, nat>) {
    && ids.Keys == wanted.Keys
    && (forall h :: h in ids ==> ids[h] !in t)
    && (forall g, h :: g in ids && h in ids && ids[g] == ids[h] ==> g == h)
  }

  /** The rows the delete leaves. */
  function Kept(t: Table, account: string, feed: string, wanted: Wanted): Table {
    map id | id in t && (!t[id].In(account, feed) || t[id].hash in wanted) :: t[id]
  }

  function Without(t: Table, account: string, feed: string, gone: set<Hash>): Table {
    map id | id in t && !(t[id].In(account, feed) && t[id].hash in gone) :: t[id]
  }

  lemma {:induction false} KeptIsComplement(t: Table, account: string, feed: string, wanted: Wanted)
    ensures var gone := Hashes(t, account, feed) - wanted.Keys;
            && Without(t, account, feed, gone) == Kept(t, account, feed, wanted)
            && (gone == {} ==> t == Kept(t, account, feed, wanted))
  {
    forall id | id in t && t[id].In(account, feed) ensures t[id].hash in Hashes(t, account, feed) {
    }
  }

  /** `rows` holds one new row for each of `hs`, with an accepted watermark. */
  ghost predicate Built(rows: Table, account: string, feed: string, wanted: Wanted, ids: map<Hash, nat>,
                        hs: set<Hash>, now: Time)
    requires ids.Keys == wanted.Keys && hs <= wanted.Keys
  {
    && (forall id :: id in rows ==> exists h :: h in hs && ids[h] == id)
    && (forall h :: h in hs ==>
          Watermark(wanted[h], now).Accepted? && ids[h] in rows
          && rows[ids[h]] == NewRow(ids[h], account, feed, wanted[h], Watermark(wanted[h], now).value))
  }

  lemma {:induction false} BuiltGrows(rows: Table, rows': Table, account: string, feed: string, wanted: Wanted,
                                      ids: map<Hash, nat>, hs: set<Hash>, h: Hash, now: Time)
    requires ids.Keys == wanted.Keys && hs <= wanted.Keys && h in wanted && h !in hs
    requires forall f, g :: f in ids && g in ids && ids[f] == ids[g] ==> f == g
    requires Built(rows, account, feed, wanted, ids, hs, now) && Watermark(wanted[h], now).Accepted?
    requires rows' == rows[ids[h] := NewRow(ids[h], account, feed, wanted[h], Watermark(wanted[h], now).value)]
    ensures Built(rows', account, feed, wanted, ids, hs + {h}, now)
  {
    forall id | id in rows' ensures exists g :: g in hs + {h} && ids[g] == id {
      if id == ids[h] {
        assert h in hs + {h};
      } else {
        var g :| g in hs && ids[g] == id;
        assert g in hs + {h};
      }
    }
  }

  function Refreshed(row: Source, wanted: Wanted): Source
    requires row.hash in wanted
  {
    row.(meta := wanted[row.hash].meta, fieldMap := wanted[row.hash].fieldMap)
  }

  function RefreshedTable(t: Table, account: string, feed: string, wanted: Wanted): Table {
    map id | id in t :: if t[id].In(account, feed) && t[id].hash in wanted then Refreshed(t[id], wanted) else t[id]
  }

  /** The table once the transaction has deleted, inserted `rows` and refreshed. */
  function Replaced(t: Table, rows: Table, account: string, feed: string, wanted: Wanted): Table {
    RefreshedTable(Kept(t, account, feed, wanted) + rows, account, feed, wanted)
  }

  lemma {:induction false} NewRowsStandApart(t: Table, rows: Table, account: string, feed: string, wanted: Wanted,
                                             ids: map<Hash, nat>, id: nat, now: Time)
    requires FreshIds(t, wanted, ids)
    requires Built(rows, account, feed, wanted, ids, wanted.Keys - Hashes(t, account, feed), now)
    requires (forall h :: h in wanted ==> h == HashOf(wanted[h].spec)) && id in rows
    ensures id !in t && rows[id].id == id && rows[id].In(account, feed)
    ensures rows[id].hash in wanted && rows[id].hash !in Hashes(t, account, feed) && ids[rows[id].hash] == id
    ensures Refreshed(rows[id], wanted) == rows[id]
  {
    var h :| h in wanted.Keys - Hashes(t, account, feed) && ids[h] == id;
    assert rows[id] == NewRow(id, account, feed, wanted[h], Watermark(wanted[h], now).value);
  }

  lemma {:induction false} ReplacedIsOk(t: Table, rows: Table, account: string, feed: string, wanted: Wanted,
                                        ids: map<Hash, nat>, now: Time)
    requires TableOk(t) && FreshIds(t, wanted, ids)
    requires Built(rows, account, feed, wanted, ids, wanted.Keys - Hashes(t, account, feed), now)
    requires forall h :: h in wanted ==> h == HashOf(wanted[h].spec)
    ensures TableOk(Replaced(t, rows, account, feed, wanted))
  {
    var t' := Replaced(t, rows, account, feed, wanted);
    forall id | id in rows ensures t'[id] == rows[id] && id !in t {
      NewRowsStandApart(t, rows, account, feed, wanted, ids, id, now);
    }
    forall id | id in t' ensures t'[id].id == id {
      if id in rows { NewRowsStandApart(t, rows, account, feed, wanted, ids, id, now); }
    }
    forall a, b | a in t' && b in t' && a != b
      ensures !(t'[a].account == t'[b].account && t'[a].feed == t'[b].feed && t'[a].hash == t'[b].hash)
    {
      ReplacedRowsDiffer(t, rows, account, feed, wanted, ids, now, a, b);
    }
  }

  lemma {:induction false} ReplacedRowsDiffer(t: Table, rows: Table, account: string, feed: string, wanted: Wanted,
                                              ids: map<Hash, nat>, now: Time, a: nat, b: nat)
    requires TableOk(t) && FreshIds(t, wanted, ids)
    requires Built(rows, account, feed, wanted, ids, wanted.Keys - Hashes(t, account, feed), now)
    requires forall h :: h in wanted ==> h == HashOf(wanted[h].spec)
    requires var t' := Replaced(t, rows, account, feed, wanted); a in t' && b in t' && a != b
    ensures var t' := Replaced(t, rows, account, feed, wanted);
            !(t'[a].account == t'[b].account && t'[a].feed == t'[b].feed && t'[a].hash == t'[b].hash)
  {
    if a in rows { NewRowsStandApart(t, rows, account, feed, wanted, ids, a, now); }
    if b in rows { NewRowsStandApart(t, rows, account, feed, wanted, ids, b, now); }
    if a in t && t[a].In(account, feed) { assert t[a].hash in Hashes(t, account, feed); }
    if b in t && t[b].In(account, feed) { assert t[b].hash in Hashes(t, account, feed); }
  }

  lemma {:induction false} ReplacedIsReconciled(t: Table, rows: Table, account: string, feed: string, wanted: Wanted,
                                                ids: map<Hash, nat>, now: Time)
    requires TableOk(t) && FreshIds(t, wanted, ids)
    requires Built(rows, account, feed, wanted, ids, wanted.Keys - Hashes(t, account, feed), now)
    requires forall h :: h in wanted ==> h == HashOf(wanted[h].spec)
    ensures Reconciled(t, Replaced(t, rows, account, feed, wanted), account, feed, wanted, ids, now)
  {
    forall id | id in rows
      ensures id !in t && rows[id].In(account, feed)
      ensures rows[id].hash in wanted && Refreshed(rows[id], wanted) == rows[id]
    {
      NewRowsStandApart(t, rows, account, feed, wanted, ids, id, now);
    }
    OldRowsAreKept(t, rows, account, feed, wanted);
    NewRowsAreAdded(t, rows, account, feed, wanted, ids, now);
  }

  lemma {:induction false} OldRowsAreKept(t: Table, rows: Table, account: string, feed: string, wanted: Wanted)
    requires forall id :: id in rows ==> id !in t && rows[id].In(account, feed)
    ensures OthersUntouched(t, Replaced(t, rows, account, feed, wanted), account, feed)
    ensures Persisted(t, Replaced(t, rows, account, feed, wanted), account, feed, wanted)
  {
  }

  lemma {:induction false} NewRowsAreAdded(t: Table, rows: Table, account: string, feed: string, wanted: Wanted,
                                           ids: map<Hash, nat>, now: Time)
    requires FreshIds(t, wanted, ids)
    requires Built(rows, account, feed, wanted, ids, wanted.Keys - Hashes(t, account, feed), now)
    requires forall id :: id in rows ==> rows[id].hash in wanted && Refreshed(rows[id], wanted) == rows[id]
    ensures Added(t, Replaced(t, rows, account, feed, wanted), account, feed, wanted, ids, now)
  {
  }

  lemma {:induction false} WantedHasRow(t: Table, t': Table, account: string, feed: string, wanted: Wanted,
                                        ids: map<Hash, nat>, now: Time, h: Hash)
    requires ids.Keys == wanted.Keys && Reconciled(t, t', account, feed, wanted, ids, now)
    requires h in wanted && h == HashOf(wanted[h].spec)
    ensures h in Hashes(t', account, feed)
  {
    if h in Hashes(t, account, feed) {
      var id :| id in t && t[id].In(account, feed) && t[id].hash == h;
      assert id in t' && t'[id].hash == h && t'[id].In(account, feed);
    } else {
      assert t'[ids[h]].hash == h && t'[ids[h]].In(account, feed);
    }
  }

  lemma {:induction false} RowIsWanted(t: Table, t': Table, account: string, feed: string, wanted: Wanted,
                                       ids: map<Hash, nat>, now: Time, id: nat)
    requires ids.Keys == wanted.Keys && Reconciled(t, t', account, feed, wanted, ids, now)
    requires id in t' && t'[id].In(account, feed) && forall h :: h in wanted ==> h == HashOf(wanted[h].spec)
    ensures t'[id].hash in wanted
    ensures (t'[id].meta, t'[id].fieldMap) == (wanted[t'[id].hash].meta, wanted[t'[id].hash].fieldMap)
  {
    if id in t {
      assert t[id].In(account, feed);
    } else {
      var h :| h in wanted && h !in Hashes(t, account, feed) && ids[h] == id;
      assert t'[id].hash == h;
    }
  }

  /** Neither the delete nor the insert adds to the rows there are to refresh. */
  lemma {:induction false} DirtyStays(t: Table, rows: Table, account: string, feed: string, wanted: Wanted,
                                      ids: map<Hash, nat>, now: Time)
    requires FreshIds(t, wanted, ids)
    requires Built(rows, account, feed, wanted, ids, wanted.Keys - Hashes(t, account, feed), now)
    requires forall h :: h in wanted ==> h == HashOf(wanted[h].spec)
    ensures Dirty(Kept(t, account, feed, wanted) + rows, account, feed, wanted) == Dirty(t, account, feed, wanted)
  {
    forall id | id in rows ensures id !in t && Refreshed(rows[id], wanted) == rows[id] {
      NewRowsStandApart(t, rows, account, feed, wanted, ids, id, now);
    }
  }

  /** A successful set leaves exactly one row per wanted spec, and as many rows as specs. */
  lemma {:induction false} ReconciledIsExact(t: Table, t': Table, account: string, feed: string, wanted: Wanted,
                                             ids: map<Hash, nat>, now: Time)
    requires TableOk(t') && FreshIds(t, wanted, ids) && Reconciled(t, t', account, feed, wanted, ids, now)
    requires forall h :: h in wanted ==> h == HashOf(wanted[h].spec)
    ensures Hashes(t', account, feed) == wanted.Keys
    ensures forall id :: id in t' ==> Matches(t'[id], account, feed, wanted)
    ensures Diff(t', account, feed, wanted) == SetResult(0, 0, |wanted|, |wanted|)
    ensures Dirty(t', account, feed, wanted) == {}
  {
    forall h | h in wanted ensures h in Hashes(t', account, feed) {
      WantedHasRow(t, t', account, feed, wanted, ids, now, h);
    }
    forall id | id in t' ensures Matches(t'[id], account, feed, wanted) {
      if t'[id].In(account, feed) {
        RowIsWanted(t, t', account, feed, wanted, ids, now, id);
      }
    }
    MatchingIsExact(t', account, feed, wanted);
  }

  /** A row of the feed is wanted, with the meta and field map it has. */
  predicate Matches(row: Source, account: string, feed: string, wanted: Wanted) {
    row.In(account, feed) ==>
      row.hash in wanted && (row.meta, row.fieldMap) == (wanted[row.hash].meta, wanted[row.hash].fieldMap)
  }

  lemma {:induction false} MatchingIsExact(t: Table, account: string, feed: string, wanted: Wanted)
    requires wanted.Keys <= Hashes(t, account, feed)
    requires forall id :: id in t ==> Matches(t[id], account, feed, wanted)
    ensures Hashes(t, account, feed) == wanted.Keys && Dirty(t, account, feed, wanted) == {}
    ensures Diff(t, account, feed, wanted) == SetResult(0, 0, |wanted|, |wanted|)
  {
    forall h | h in Hashes(t, account, feed) ensures h in wanted {
      var id :| id in t && t[id].In(account, feed) && t[id].hash == h;
      assert Matches(t[id], account, feed, wanted);
    }
    assert Hashes(t, account, feed) == wanted.Keys;
    forall id | id in t ensures id !in Dirty(t, account, feed, wanted) {
      assert Matches(t[id], account, feed, wanted);
    }
    DiffOfExact(t, account, feed, wanted);
  }

  lemma {:induction false} DiffOfExact(t: Table, account: string, feed: string, wanted: Wanted)
    requires Hashes(t, account, feed) == wanted.Keys
    ensures Diff(t, account, feed, wanted) == SetResult(0, 0, |wanted|, |wanted|)
  {
    var have := Hashes(t, account, feed);
    assert wanted.Keys - have == {} && have - wanted.Keys == {} && wanted.Keys * have == wanted.Keys;
  }

  lemma {:induction false} NothingToDo(t: Table, t': Table, account: string, feed: string, wanted: Wanted,
                                       ids: map<Hash, nat>, now: Time)
    requires ids.Keys == wanted.Keys && Reconciled(t, t', account, feed, wanted, ids, now)
    requires Hashes(t, account, feed) == wanted.Keys && Dirty(t, account, feed, wanted) == {}
    ensures t' == t
  {
    forall id | id in t ensures id in t' && t'[id] == t[id] {
      if t[id].In(account, feed) {
        assert t[id].hash in Hashes(t, account, feed) && id !in Dirty(t, account, feed, wanted);
      }
    }
    assert forall id :: id in t' ==> id in t;
  }

  /** Repeating the same set writes nothing, whatever the clock and the ids drawn. */
  lemma {:induction false} RepeatedSetIsIdle(t: Table, t': Table, t'': Table, account: string, feed: string,
                                             wanted: Wanted, ids: map<Hash, nat>, ids': map<Hash, nat>, now: Time,
                                             now': Time)
    requires TableOk(t') && FreshIds(t, wanted, ids) && Reconciled(t, t', account, feed, wanted, ids, now)
    requires forall h :: h in wanted ==> h == HashOf(wanted[h].spec)
    requires FreshIds(t', wanted, ids') && Reconciled(t', t'', account, feed, wanted, ids', now')
    ensures t'' == t'
  {
    ReconciledIsExact(t, t', account, feed, wanted, ids, now);
    NothingToDo(t', t'', account, feed, wanted, ids', now');
  }

  lemma Split<T>(a: set<T>, b: set<T>)
    ensures |a - b| + |a * b| == |a|
  {
    assert a == (a - b) + (a * b);
  }

  /** What the set reports adds up: every wanted spec was either added or persisted, and every row it found
      was either removed or persisted. */
  lemma {:induction false} DiffAddsUp(t: Table, account: string, feed: string, wanted: Wanted)
    ensures var d := Diff(t, account, feed, wanted);
            && d.added + d.persisted == d.sourceCount == |wanted|
            && d.removed + d.persisted == |Hashes(t, account, feed)|
  {
    var have := Hashes(t, account, feed);
    Split(wanted.Keys, have);
    Split(have, wanted.Keys);
    assert have * wanted.Keys == wanted.Keys * have;
  }

  /** Some new row's watermark would be refused. */
  ghost predicate HasBadWatermark(t: Table, account: string, feed: string, wanted: Wanted, now: Time) {
    exists h :: h in wanted && h !in Hashes(t, account, feed) && Watermark(wanted[h], now).Rejected?
  }

  /** What a set answers. */
  ghost function Answer(t: Table, account: string, feed: string, curated: bool, items: seq<SourceInput>, dryRun: bool,
                        registered: set<string>, safe: Spec -> bool, locked: bool, now: Time): SetOutcome
  {
    if !curated then Refused(NotCurated)
    else if !Registered(items, registered) then Refused(NoConnector)
    else if !Safe(items, safe) then Refused(Unsafe)
    else if !dryRun && !locked then Refused(Concurrent)
    else if !dryRun && HasBadWatermark(t, account, feed, FirstByHash(items), now) then Refused(BadWatermark)
    else Applied(Diff(t, account, feed, FirstByHash(items)))
  }

  /** A dry run promises a set that the real run refuses exactly when a concurrent set holds the lock, or a new
      source carries a watermark in the future. */
  lemma {:induction false} DryRunMisleadsIff(t: Table, account: string, feed: string, curated: bool,
                                             items: seq<SourceInput>, registered: set<string>, safe: Spec -> bool,
                                             locked: bool, now: Time)
    ensures var dry := Answer(t, account, feed, curated, items, true, registered, safe, locked, now);
            var run := Answer(t, account, feed, curated, items, false, registered, safe, locked, now);
            && (dry.Applied? && run.Refused? <==>
                  curated && Registered(items, registered) && Safe(items, safe)
                  && (!locked || AddsFutureMark(t, account, feed, FirstByHash(items), now)))
            && (run.Applied? ==> dry == run)
  {
    BadIsFuture(t, account, feed, FirstByHash(items), now);
  }

  predicate IsAhead(item: SourceInput, now: Time) { item.mark.Some? && item.mark.value > now }

  /** Some spec without a row asks for a watermark in the future. */
  ghost predicate AddsFutureMark(t: Table, account: string, feed: string, wanted: Wanted, now: Time) {
    exists h :: h in wanted && h !in Hashes(t, account, feed) && IsAhead(wanted[h], now)
  }

  lemma {:induction false} BadIsFuture(t: Table, account: string, feed: string, wanted: Wanted, now: Time)
    ensures HasBadWatermark(t, account, feed, wanted, now) <==> AddsFutureMark(t, account, feed, wanted, now)
  {
    if HasBadWatermark(t, account, feed, wanted, now) {
      var h :| h in wanted && h !in Hashes(t, account, feed) && Watermark(wanted[h], now).Rejected?;
      assert IsAhead(wanted[h], now);
    }
    if AddsFutureMark(t, account, feed, wanted, now) {
      var h :| h in wanted && h !in Hashes(t, account, feed) && IsAhead(wanted[h], now);
      assert Watermark(wanted[h], now).Rejected?;
    }
  }

  /** Such a set: one new source whose watermark is a microsecond ahead of the clock. */
  lemma {:induction false} DryRunMisleads(account: string, feed: string, spec: Spec, now: Time)
    ensures var items := [SourceInput(spec, Some(now + 1), map[], map[])];
            var registered := {spec.Kind()};
            && Answer(map[], account, feed, true, items, true, registered, _ => true, true, now)
               == Applied(SetResult(1, 0, 0, 1))
            && Answer(map[], account, feed, true, items, false, registered, _ => true, true, now)
               == Refused(BadWatermark)
  {
    var item := SourceInput(spec, Some(now + 1), map[], map[]);
    var none: Table := map[];
    assert [item][..0] == [] && FirstByHash([item]) == map[HashOf(spec) := item];
    var wanted := FirstByHash([item]);
    assert wanted.Keys == {HashOf(spec)} && Hashes(none, account, feed) == {};
    assert wanted.Keys - {} == wanted.Keys && {} - wanted.Keys == {} && wanted.Keys * {} == {};
    assert HashOf(spec) in wanted && Watermark(wanted[HashOf(spec)], now).Rejected?;
  }

  /** Item `i` is the first of its spec. */
  predicate IsFirstOf(items: seq<SourceInput>, i: nat)
    requires i < |items|
  {
    forall j :: 0 <= j < i ==> items[j].spec != items[i].spec
  }

  /** A row that stays: the same but for meta and field map, which are those of the first item of its spec. */
  predicate Stays(row: Source, row': Source, items: seq<SourceInput>) {
    exists i :: 0 <= i < |items| && IsFirstOf(items, i) && row.hash == HashOf(items[i].spec)
                && row' == row.(meta := items[i].meta, fieldMap := items[i].fieldMap)
  }

  /** A row made for the first item of its spec, at its watermark, or at now when it has none. */
  predicate IsNew(row': Source, id: nat, account: string, feed: string, items: seq<SourceInput>, now: Time) {
    exists i :: 0 <= i < |items| && IsFirstOf(items, i) && MadeOf(row', id, account, feed, items[i], now)
  }

  predicate MadeOf(row': Source, id: nat, account: string, feed: string, item: SourceInput, now: Time) {
    && (row'.id, row'.account, row'.feed) == (id, account, feed)
    && (row'.kind, row'.spec, row'.hash) == (item.spec.Kind(), item.spec, HashOf(item.spec))
    && (row'.meta, row'.fieldMap) == (item.meta, item.fieldMap)
    && row'.mark.Some? && row'.mark.value <= now
    && (match item.mark case Some(at) => row'.mark.value == at case None => row'.mark.value == now)
  }

  predicate Asks(items: seq<SourceInput>, h: Hash) {
    exists i :: 0 <= i < |items| && HashOf(items[i].spec) == h
  }

  /** What a set does to the table, row by row. */
  predicate SetTo(t: Table, t': Table, account: string, feed: string, items: seq<SourceInput>, now: Time) {
    && (forall id :: id in t && (t[id].account != account || t[id].feed != feed) ==> id in t' && t'[id] == t[id])
    && (forall id :: id in t && t[id].account == account && t[id].feed == feed ==>
          (id in t' <==> Asks(items, t[id].hash)) && (id in t' ==> Stays(t[id], t'[id], items)))
    && (forall id :: id in t' && id !in t ==> IsNew(t'[id], id, account, feed, items, now))
    && (forall i :: 0 <= i < |items| ==> HasRow(t', account, feed, items[i].spec))
  }

  predicate HasRow(t: Table, account: string, feed: string, spec: Spec) {
    exists id :: id in t && t[id].account == account && t[id].feed == feed && t[id].hash == HashOf(spec)
  }

  lemma {:induction false} WantedIsFirst(items: seq<SourceInput>, h: Hash) returns (i: nat)
    requires h in FirstByHash(items)
    ensures i < |items| && IsFirstOf(items, i) && h == HashOf(items[i].spec) && FirstByHash(items)[h] == items[i]
  {
    var n := |items| - 1;
    if h in FirstByHash(items[..n]) {
      i := WantedIsFirst(items[..n], h);
    } else {
      i := n;
      forall j | 0 <= j < n ensures items[j].spec != items[n].spec {
        FirstOccurrenceWins(items[..n], j);
      }
    }
  }

  lemma {:induction false} AskedIsWanted(items: seq<SourceInput>, h: Hash)
    ensures h in FirstByHash(items) <==> Asks(items, h)
  {
    if h in FirstByHash(items) {
      var i := WantedIsFirst(items, h);
    }
    if Asks(items, h) {
      var i :| 0 <= i < |items| && HashOf(items[i].spec) == h;
      FirstOccurrenceWins(items, i);
    }
  }

  lemma {:induction false} RowStays(t: Table, t': Table, account: string, feed: string, items: seq<SourceInput>,
                                    id: nat)
    requires Persisted(t, t', account, feed, FirstByHash(items)) && id in t
    requires t[id].account == account && t[id].feed == feed
    ensures (id in t' <==> Asks(items, t[id].hash)) && (id in t' ==> Stays(t[id], t'[id], items))
  {
    assert t[id].In(account, feed);
    AskedIsWanted(items, t[id].hash);
    if id in t' {
      var i := WantedIsFirst(items, t[id].hash);
    }
  }

  lemma {:induction false} RowIsNew(t: Table, t': Table, account: string, feed: string, items: seq<SourceInput>,
                                    ids: map<Hash, nat>, now: Time, id: nat)
    requires ids.Keys == FirstByHash(items).Keys && id in t' && id !in t
    requires Added(t, t', account, feed, FirstByHash(items), ids, now)
    ensures IsNew(t'[id], id, account, feed, items, now)
  {
    var h :| h in FirstByHash(items) && h !in Hashes(t, account, feed) && ids[h] == id;
    var i := WantedIsFirst(items, h);
    assert MadeOf(t'[id], id, account, feed, items[i], now);
  }

  lemma {:induction false} ReconciledMeans(t: Table, t': Table, account: string, feed: string, items: seq<SourceInput>,
                                           ids: map<Hash, nat>, now: Time)
    requires ids.Keys == FirstByHash(items).Keys
    requires Reconciled(t, t', account, feed, FirstByHash(items), ids, now)
    ensures SetTo(t, t', account, feed, items, now)
  {
    forall id | id in t && (t[id].account != account || t[id].feed != feed) ensures id in t' && t'[id] == t[id] {
      assert !t[id].In(account, feed);
    }
    forall id | id in t && t[id].account == account && t[id].feed == feed
      ensures (id in t' <==> Asks(items, t[id].hash)) && (id in t' ==> Stays(t[id], t'[id], items))
    {
      RowStays(t, t', account, feed, items, id);
    }
    forall id | id in t' && id !in t ensures IsNew(t'[id], id, account, feed, items, now) {
      RowIsNew(t, t', account, feed, items, ids, now, id);
    }
    forall i | 0 <= i < |items| ensures HasRow(t', account, feed, items[i].spec) {
      FirstOccurrenceWins(items, i);
      WantedHasRow(t, t', account, feed, FirstByHash(items), ids, now, HashOf(items[i].spec));
    }
  }

  lemma {:induction false} HashesOf(t: Table, account: string, feed: string, rows: set<nat>)
    requires TableOk(t) && forall id :: id in rows ==> id in t && t[id].account == account && t[id].feed == feed
    ensures |set id | id in rows :: t[id].hash| == |rows|
    decreases rows
  {
    if rows != {} {
      var id :| id in rows;
      var rest := rows - {id};
      HashesOf(t, account, feed, rest);
      assert (set k | k in rows :: t[k].hash) == (set k | k in rest :: t[k].hash) + {t[id].hash};
    }
  }

  lemma {:induction false} MadeAreCounted(t: Table, t': Table, account: string, feed: string, items: seq<SourceInput>,
                                          ids: map<Hash, nat>, now: Time)
    requires TableOk(t') && FreshIds(t, FirstByHash(items), ids)
    requires Added(t, t', account, feed, FirstByHash(items), ids, now)
    ensures |FirstByHash(items).Keys - Hashes(t, account, feed)| == |set id | id in t' && id !in t|
  {
    var made := set id | id in t' && id !in t;
    MadeAreAdded(t, t', account, feed, items, ids, now, made);
    HashesOf(t', account, feed, made);
  }

  lemma {:induction false} GoneAndKeptAreCounted(t: Table, t': Table, account: string, feed: string, wanted: Wanted)
    requires TableOk(t) && Persisted(t, t', account, feed, wanted) && OthersUntouched(t, t', account, feed)
    ensures |Hashes(t, account, feed) - wanted.Keys| == |set id | id in t && id !in t'|
    ensures |wanted.Keys * Hashes(t, account, feed)|
            == |set id | id in t && id in t' && t[id].account == account && t[id].feed == feed|
  {
    var gone := set id | id in t && id !in t';
    var kept := set id | id in t && id in t' && t[id].account == account && t[id].feed == feed;
    GoneAndKept(t, t', account, feed, wanted, gone, kept);
    HashesOf(t, account, feed, gone);
    HashesOf(t, account, feed, kept);
  }

  /** The numbers a set reports are the numbers of rows it made, removed and kept. */
  lemma {:induction false} CountsAreRows(t: Table, t': Table, account: string, feed: string, items: seq<SourceInput>,
                                         ids: map<Hash, nat>, now: Time)
    requires TableOk(t) && TableOk(t') && FreshIds(t, FirstByHash(items), ids)
    requires Reconciled(t, t', account, feed, FirstByHash(items), ids, now)
    ensures var d := Diff(t, account, feed, FirstByHash(items));
            && d.added == |set id | id in t' && id !in t|
            && d.removed == |set id | id in t && id !in t'|
            && d.persisted == |set id | id in t && id in t' && t[id].account == account && t[id].feed == feed|
  {
    MadeAreCounted(t, t', account, feed, items, ids, now);
    GoneAndKeptAreCounted(t, t', account, feed, FirstByHash(items));
  }

  lemma {:induction false} MadeAreAdded(t: Table, t': Table, account: string, feed: string, items: seq<SourceInput>,
                                        ids: map<Hash, nat>, now: Time, made: set<nat>)
    requires FreshIds(t, FirstByHash(items), ids) && made == set id | id in t' && id !in t
    requires Added(t, t', account, feed, FirstByHash(items), ids, now)
    ensures forall id :: id in made ==> t'[id].account == account && t'[id].feed == feed
    ensures (set id | id in made :: t'[id].hash) == FirstByHash(items).Keys - Hashes(t, account, feed)
  {
    var wanted, have := FirstByHash(items), Hashes(t, account, feed);
    forall id | id in made
      ensures t'[id].account == account && t'[id].feed == feed && t'[id].hash in wanted.Keys - have
    {
      var h :| h in wanted && h !in have && ids[h] == id;
      assert t'[id] == NewRow(id, account, feed, wanted[h], Watermark(wanted[h], now).value);
    }
    forall h | h in wanted.Keys - have ensures exists id :: id in made && t'[id].hash == h {
      assert ids[h] in made && t'[ids[h]].hash == h;
    }
  }

  lemma {:induction false} GoneAndKept(t: Table, t': Table, account: string, feed: string, wanted: Wanted,
                                       gone: set<nat>, kept: set<nat>)
    requires Persisted(t, t', account, feed, wanted) && OthersUntouched(t, t', account, feed)
    requires gone == set id | id in t && id !in t'
    requires kept == set id | id in t && id in t' && t[id].account == account && t[id].feed == feed
    ensures forall id :: id in gone ==> t[id].account == account && t[id].feed == feed
    ensures (set id | id in gone :: t[id].hash) == Hashes(t, account, feed) - wanted.Keys
    ensures (set id | id in kept :: t[id].hash) == wanted.Keys * Hashes(t, account, feed)
  {
    forall id | id in t ensures t[id].In(account, feed) <==> t[id].account == account && t[id].feed == feed {
    }
    forall h | h in Hashes(t, account, feed)
      ensures h !in wanted ==> exists id :: id in gone && t[id].hash == h
      ensures h in wanted ==> exists id :: id in kept && t[id].hash == h
    {
      var id :| id in t && t[id].In(account, feed) && t[id].hash == h;
      assert id in gone || id in kept;
    }
  }

  class SourceService {
    const account: string
    var table: Table

    constructor (account: string)
      ensures this.account == account && table == map[]
    {
      this.account := account;
      table := map[];
    }

    method AdvanceWatermark(source: Source, value: Time) returns (n: nat)
      modifies this
      ensures table == Advance(old(table), account, source, value)
      ensures n == if table == old(table) then 0 else 1
      // One row moves, and only off the mark that was read: forward from it, or to a first mark.
      ensures n == 1 <==> source.id in old(table) && old(table)[source.id].account == account
                          && old(table)[source.id].mark == source.mark
                          && (source.mark.Some? ==> source.mark.value < value)
      ensures n == 1 ==> table == old(table)[source.id := old(table)[source.id].(mark := Some(value))]
    {
      if source.id in table && table[source.id].account == account {
        var row := table[source.id];
        if (source.mark.None? && row.mark.None?)
           || (source.mark.Some? && row.mark == source.mark && row.mark.value < value) {
          table := table[source.id := row.(mark := Some(value))];
          return 1;
        }
      }
      return 0;
    }

    /** Replace-mode reconcile. `locked` is the per-feed lock's answer; `written` counts the rows inserted,
        deleted or updated. */
    method SetSources(feed: string, curated: bool, items: seq<SourceInput>, dryRun: bool, registered: set<string>,
                      safe: Spec -> bool, locked: bool, ids: map<Hash, nat>, now: Time)
      returns (outcome: SetOutcome, written: nat)
      requires TableOk(table) && FreshIds(table, FirstByHash(items), ids)
      modifies this
      ensures outcome == Refused(NotCurated) <==> !curated
      ensures outcome == Refused(NoConnector) <==> curated && !Registered(items, registered)
      ensures outcome == Refused(Unsafe) <==> curated && Registered(items, registered) && !Safe(items, safe)
      ensures outcome == Refused(Concurrent) <==>
              curated && Registered(items, registered) && Safe(items, safe) && !dryRun && !locked
      ensures outcome == Refused(BadWatermark) <==>
              curated && Registered(items, registered) && Safe(items, safe) && !dryRun && locked
              && HasBadWatermark(old(table), account, feed, FirstByHash(items), now)
      ensures outcome == Answer(old(table), account, feed, curated, items, dryRun, registered, safe, locked, now)
      ensures outcome.Applied? ==> outcome.result == Diff(old(table), account, feed, FirstByHash(items))
      ensures outcome.Refused? || dryRun ==> table == old(table) && written == 0
      ensures outcome.Applied? && !dryRun ==>
              locked && TableOk(table)
              && Reconciled(old(table), table, account, feed, FirstByHash(items), ids, now)
              && SetTo(old(table), table, account, feed, items, now)
              && outcome.result.added == |set id | id in table && id !in old(table)|
              && outcome.result.removed == |set id | id in old(table) && id !in table|
              && written == outcome.result.added + outcome.result.removed
                            + |Dirty(old(table), account, feed, FirstByHash(items))|
    {
      written := 0;
      if !curated {
        return Refused(NotCurated), 0;
      }
      if !Registered(items, registered) {
        return Refused(NoConnector), 0;
      }
      if !Safe(items, safe) {
        return Refused(Unsafe), 0;
      }
      var wanted: Wanted := map[];
      for i := 0 to |items|
        invariant wanted == FirstByHash(items[..i])
      {
        assert items[..i + 1][..i] == items[..i];
        if HashOf(items[i].spec) !in wanted {
          wanted := wanted[HashOf(items[i].spec) := items[i]];
        }
      }
      assert items[..|items|] == items;
      var have := Hashes(table, account, feed);
      var result := SetResult(|wanted.Keys - have|, |have - wanted.Keys|, |wanted.Keys * have|, |wanted.Keys|);
      if dryRun {
        return Applied(result), 0;
      }
      if !locked {
        return Refused(Concurrent), 0;
      }
      var savepoint := table;
      var ok;
      ok, written := Replace(feed, wanted, ids, now);
      if !ok {
        table := savepoint;
        return Refused(BadWatermark), 0;
      }
      ReconciledMeans(savepoint, table, account, feed, items, ids, now);
      CountsAreRows(savepoint, table, account, feed, items, ids, now);
      return Applied(result), written;
    }

    /** The body of the transaction: delete, insert, refresh. A rejected watermark raises out of it. */
    method Replace(feed: string, wanted: Wanted, ids: map<Hash, nat>, now: Time) returns (ok: bool, written: nat)
      requires TableOk(table) && FreshIds(table, wanted, ids)
      requires forall h :: h in wanted ==> h == HashOf(wanted[h].spec)
      modifies this
      ensures ok ==> TableOk(table) && Reconciled(old(table), table, account, feed, wanted, ids, now)
      ensures ok ==> var d := Diff(old(table), account, feed, wanted);
                     written == d.added + d.removed + |Dirty(old(table), account, feed, wanted)|
      ensures !ok ==> exists h :: h in wanted && h !in Hashes(old(table), account, feed)
                                  && Watermark(wanted[h], now).Rejected?
    {
      var have := Hashes(table, account, feed);
      ghost var was := table;
      var removed := DeleteRows(feed, wanted);
      var rows, inserted;
      ok, rows, inserted := BuildRows(feed, wanted, ids, wanted.Keys - have, now);
      written := 0;
      if ok {
        DirtyStays(was, rows, account, feed, wanted, ids, now);
        table := table + rows;
        var updated := RefreshRows(feed, wanted);
        written := inserted + removed + updated;
        ReplacedIsOk(was, rows, account, feed, wanted, ids, now);
        ReplacedIsReconciled(was, rows, account, feed, wanted, ids, now);
      }
    }

    /** Delete the rows whose spec is no longer wanted; counts their specs. */
    method DeleteRows(feed: string, wanted: Wanted) returns (removed: nat)
      modifies this
      ensures table == Kept(old(table), account, feed, wanted)
      ensures removed == |Hashes(old(table), account, feed) - wanted.Keys|
    {
      var gone := Hashes(table, account, feed) - wanted.Keys;
      KeptIsComplement(table, account, feed, wanted);
      if gone != {} {
        table := Without(table, account, feed, gone);
      }
      removed := |gone|;
    }

    /** The rows to insert, or the first rejected watermark. */
    method BuildRows(feed: string, wanted: Wanted, ids: map<Hash, nat>, added: set<Hash>, now: Time)
      returns (ok: bool, rows: Table, inserted: nat)
      requires ids.Keys == wanted.Keys && added <= wanted.Keys
      requires forall g, h :: g in ids && h in ids && ids[g] == ids[h] ==> g == h
      ensures ok ==> Built(rows, account, feed, wanted, ids, added, now) && inserted == |added|
      ensures !ok ==> exists h :: h in added && Watermark(wanted[h], now).Rejected?
    {
      rows, inserted := map[], 0;
      var todo := added;
      while todo != {}
        invariant todo <= added && inserted + |todo| == |added|
        invariant Built(rows, account, feed, wanted, ids, added - todo, now)
        decreases todo
      {
        var h :| h in todo;
        var mark := Watermark(wanted[h], now);
        if mark.Rejected? {
          return false, map[], 0;
        }
        ghost var before := rows;
        rows := rows[ids[h] := NewRow(ids[h], account, feed, wanted[h], mark.value)];
        BuiltGrows(before, rows, account, feed, wanted, ids, added - todo, h, now);
        todo := todo - {h};
        inserted := inserted + 1;
        assert added - todo == (added - (todo + {h})) + {h};
      }
      assert added - {} == added;
      return true, rows, inserted;
    }

    /** Refresh meta and field map where the input changed them. */
    method RefreshRows(feed: string, wanted: Wanted) returns (updated: nat)
      modifies this
      ensures table == RefreshedTable(old(table), account, feed, wanted)
      ensures updated == |Dirty(old(table), account, feed, wanted)|
    {
      updated := 0;
      var dirty := Dirty(table, account, feed, wanted);
      while dirty != {}
        invariant dirty <= Dirty(old(table), account, feed, wanted)
        invariant updated + |dirty| == |Dirty(old(table), account, feed, wanted)|
        invariant table.Keys == old(table).Keys
        invariant forall id :: id in table ==>
          table[id] == if id in Dirty(old(table), account, feed, wanted) - dirty
                       then Refreshed(old(table)[id], wanted) else old(table)[id]
        decreases dirty
      {
        var id :| id in dirty;
        var desired := wanted[table[id].hash];
        table := table[id := table[id].(meta := desired.meta, fieldMap := desired.fieldMap)];
        dirty := dirty - {id};
        updated := updated + 1;
      }
      assert table == RefreshedTable(old(table), account, feed, wanted);
    }
  }
}
