/** Canonical subreddit slugs (feeds/migrations/0002_lowercase_reddit_subreddit_slugs.py). */
module Slugs {
  import opened Common

  /** A pasted `r/` or `/r/`, in either case. */
  function PrefixLength(s: string): (n: nat)
    ensures n <= |s|
  {
    if |s| >= 3 && s[0] == '/' && (s[1] == 'r' || s[1] == 'R') && s[2] == '/' then 3
    else if |s| >= 2 && (s[0] == 'r' || s[0] == 'R') && s[1] == '/' then 2
    else 0
  }

  function Canon(slug: string): string {
    var s := Strip(slug);
    Lower(s[PrefixLength(s)..])
  }

  /** What a pasted slug becomes: stripped, one prefix dropped, and every letter small. */
  lemma {:induction false} CanonMeans(slug: string)
    ensures var s := Strip(slug);
            var n := if s[..Least(3, |s|)] == "/r/" || s[..Least(3, |s|)] == "/R/" then 3
                     else if s[..Least(2, |s|)] == "r/" || s[..Least(2, |s|)] == "R/" then 2 else 0;
            && SameButCase(Canon(slug), s[n..])
            && forall i :: 0 <= i < |Canon(slug)| ==> !('A' <= Canon(slug)[i] <= 'Z')
  {
    var s := Strip(slug);
    FoldedHasNoCapital(s[PrefixLength(s)..]);
    assert |s| >= 3 ==> s[..3] == [s[0], s[1], s[2]];
    assert |s| >= 2 ==> s[..2] == [s[0], s[1]];
    var c, d := s[PrefixLength(s)..], Canon(slug);
    assert forall i :: 0 <= i < |c| ==> SameLetter(c[i], d[i]);
    assert SameButCase(d, c);
  }

  function Least(a: nat, b: nat): nat { if a < b then a else b }

  lemma {:induction false} LowerIsIdempotent(s: string)
    ensures Lower(Lower(s)) == Lower(s)
  {
  }

  predicate Padded(s: string) {
    s != "" && (IsSpace(s[0]) || IsSpace(s[|s| - 1]))
  }

  /** Canonicalizing twice is the same as once exactly when the result carries no second prefix and no space
      that the first one was hiding. */
  lemma {:induction false} CanonSettlesIff(slug: string)
    ensures Canon(Canon(slug)) == Canon(slug) <==> !Padded(Canon(slug)) && PrefixLength(Canon(slug)) == 0
  {
    var c := Canon(slug);
    var s := Strip(c);
    var base := Strip(slug);
    LowerIsIdempotent(base[PrefixLength(base)..]);
    assert |Canon(c)| == |s| - PrefixLength(s);
    assert Strip(c) == c || |Strip(c)| < |c|;
    if !Padded(c) {
      assert s == c && c[0..] == c;
    }
  }

  /** A doubled prefix does not settle: only the outer one is dropped. */
  lemma DoublePrefixDoesNotSettle()
    ensures Canon("r/r/x") == "r/x" && Canon("r/x") == "x"
  {
    assert Strip("r/r/x") == "r/r/x" && Strip("r/x") == "r/x";
    assert "r/r/x"[2..] == "r/x" && "r/x"[2..] == "x";
    assert Lower("r/x") == "r/x" && Lower("x") == "x";
  }
}

module SlugMigration {
  import opened Common
  import opened Sources
  import opened Slugs

  const REDDIT := "reddit_subreddit"

  /** The canonical spec of a stored reddit row; a spec without a slug counts as the empty one. */
  function CanonicalSpec(spec: Spec): Spec {
    Reddit(Canon(if spec.Reddit? then spec.subreddit else ""))
  }

  predicate IsCanonical(canon: Spec -> Spec, row: Source) {
    row.spec == canon(row.spec) && row.hash == HashOf(canon(row.spec))
  }

  /** The sibling already stored under the row's canonical hash. */
  predicate IsSurvivor(canon: Spec -> Spec, t: Table, row: Source, id: nat) {
    id in t && id != row.id && t[id].In(row.account, row.feed) && t[id].hash == HashOf(canon(row.spec))
  }

  /** The larger of two marks, None being less than any. */
  function Furthest(a: Option<Time>, b: Option<Time>): Option<Time> {
    if a.Some? && (b.None? || a.value > b.value) then a else b
  }

  predicate AtMost(a: Option<Time>, b: Option<Time>) {
    a.None? || (b.Some? && a.value <= b.value)
  }

  function Rewritten(canon: Spec -> Spec, row: Source): Source {
    row.(spec := canon(row.spec), hash := HashOf(canon(row.spec)))
  }

  /** One turn of the loop. `row` is as the iterator read it; the table may have moved since. */
  ghost predicate Turn(canon: Spec -> Spec, t: Table, row: Source, t': Table) {
    if IsCanonical(canon, row) then t' == t
    else if exists id :: IsSurvivor(canon, t, row, id) then
      exists id :: IsSurvivor(canon, t, row, id)
                   && t' == t[id := t[id].(mark := Furthest(row.mark, t[id].mark))] - {row.id}
    else
      row.id in t && t' == t[row.id := t[row.id].(spec := canon(row.spec), hash := HashOf(canon(row.spec)))]
  }

  /** `steps` are the tables after each of the first `n` turns. */
  ghost predicate Chain(canon: Spec -> Spec, steps: seq<Table>, rows: seq<Source>, n: nat) {
    n <= |rows| && |steps| == n + 1 && forall i :: 0 <= i < n ==> Turn(canon, steps[i], rows[i], steps[i + 1])
  }

  lemma {:induction false} ChainExtends(canon: Spec -> Spec, steps: seq<Table>, rows: seq<Source>, n: nat, t: Table)
    requires n < |rows| && Chain(canon, steps, rows, n) && Turn(canon, steps[n], rows[n], t)
    ensures Chain(canon, steps + [t], rows, n + 1)
    ensures (steps + [t])[0] == steps[0] && (steps + [t])[n + 1] == t
  {
    var more := steps + [t];
    forall i | 0 <= i < n + 1 ensures Turn(canon, more[i], rows[i], more[i + 1]) {
      if i < n { assert more[i] == steps[i] && more[i + 1] == steps[i + 1]; }
    }
  }

  class SourceTable {
    var table: Table

    /** The migration, with the canonical form it inlines. */
    method Migrate(rows: seq<Source>)
      requires Stored(CanonicalSpec, table, rows)
      modifies this
      ensures Finished(CanonicalSpec, old(table), table)
      ensures MigratedTo(old(table), table)
    {
      ghost var start := table;
      ghost var steps := NormalizeRedditSlugs(CanonicalSpec, rows);
      StepsAreReached(CanonicalSpec, rows, steps, |rows|);
      MigrationMeans(CanonicalSpec, start, rows, table);
      FinishedMeans(start, table);
    }

    /** The migration loop over the reddit rows, read once, in id order. `steps` are the tables it passes through. */
    method NormalizeRedditSlugs(canon: Spec -> Spec, rows: seq<Source>) returns (ghost steps: seq<Table>)
      requires Sound(canon, table) && Listed(table, rows)
      modifies this
      ensures Chain(canon, steps, rows, |rows|) && steps[0] == old(table) && steps[|rows|] == table
    {
      ghost var start := table;
      steps := [table];
      StartIsReached(canon, table, rows);
      for n := 0 to |rows|
        invariant Chain(canon, steps, rows, n) && steps[0] == start && steps[n] == table
        invariant Reached(canon, start, rows, n, table)
      {
        RowIsThere(canon, start, rows, n, table);
        ghost var before := table;
        Visit(canon, rows[n]);
        ChainExtends(canon, steps, rows, n, table);
        TurnReaches(canon, start, rows, n, before, table);
        steps := steps + [table];
      }
    }

    /** The body of the loop. */
    method Visit(canon: Spec -> Spec, row: Source)
      requires row.id in table
      modifies this
      ensures Turn(canon, old(table), row, table)
    {
      var newSpec := canon(row.spec);
      var newHash := HashOf(newSpec);
      if row.spec == newSpec && row.hash == newHash {
        return;
      }
      if id :| id in table && id != row.id && table[id].In(row.account, row.feed) && table[id].hash == newHash {
        ghost var before := table;
        if row.mark.Some? && (table[id].mark.None? || row.mark.value > table[id].mark.value) {
          table := table[id := table[id].(mark := row.mark)];
        }
        table := map i | i in table && i != row.id :: table[i];
        assert IsSurvivor(canon, before, row, id);
        assert table == before[id := before[id].(mark := Furthest(row.mark, before[id].mark))] - {row.id};
      } else {
        assert !exists id :: IsSurvivor(canon, table, row, id);
        table := table[row.id := table[row.id].(spec := newSpec, hash := newHash)];
      }
    }
  }

  /** What the stored rows must satisfy: unique, hashed by their spec, kinds in order, canonical forms settled. */
  ghost predicate Sound(canon: Spec -> Spec, t: Table) {
    && TableOk(t)
    && (forall spec :: canon(spec).Reddit?)
    && (forall id :: id in t ==> t[id].hash == HashOf(t[id].spec))
    && (forall id :: id in t ==> (t[id].kind == REDDIT <==> t[id].spec.Kind() == REDDIT))
    && (forall id :: id in t && t[id].kind == REDDIT ==> canon(canon(t[id].spec)) == canon(t[id].spec))
  }

  /** `rows` are reddit rows of `t`, each once. */
  ghost predicate Listed(t: Table, rows: seq<Source>) {
    && (forall i :: 0 <= i < |rows| ==> rows[i].kind == REDDIT && rows[i].id in t && t[rows[i].id] == rows[i])
    && (forall i, j :: 0 <= i < j < |rows| ==> rows[i].id != rows[j].id)
  }

  /** `rows` are all the reddit rows of a sound table. */
  ghost predicate Stored(canon: Spec -> Spec, t: Table, rows: seq<Source>) {
    && Sound(canon, t) && Listed(t, rows)
    && (forall id :: id in t && t[id].kind == REDDIT ==> t[id] in rows)
  }

  /** Same subreddit of the same feed. */
  predicate SameGroup(canon: Spec -> Spec, a: Source, b: Source) {
    a.account == b.account && a.feed == b.feed && canon(a.spec) == canon(b.spec)
  }

  /** Some row of `t` in the group of `row` has come at least as far. */
  predicate Kept(canon: Spec -> Spec, t: Table, row: Source) {
    exists id :: id in t && t[id].kind == REDDIT && SameGroup(canon, t[id], row) && AtMost(row.mark, t[id].mark)
  }

  /** The row's mark comes from some original row of its group. */
  predicate Inherited(canon: Spec -> Spec, t0: Table, row: Source) {
    exists id :: id in t0 && t0[id].kind == REDDIT && SameGroup(canon, t0[id], row) && t0[id].mark == row.mark
  }

  /** Which rows there are after `n` turns, and what they look like. */
  ghost predicate Frame(canon: Spec -> Spec, t0: Table, rows: seq<Source>, n: nat, t: Table)
    requires n <= |rows|
  {
    && Sound(canon, t)
    && (forall id :: id in t ==>
          id in t0 && (t[id].account, t[id].feed, t[id].kind) == (t0[id].account, t0[id].feed, t0[id].kind))
    && (forall id :: id in t0 && t0[id].kind != REDDIT ==> id in t && t[id] == t0[id])
    && Ahead(canon, rows, n, t) && Behind(canon, rows, n, t)
  }

  /** The rows still to come are as they were read, but that a merge may have moved a canonical one's mark. */
  ghost predicate Ahead(canon: Spec -> Spec, rows: seq<Source>, n: nat, t: Table) {
    forall i :: n <= i < |rows| ==> rows[i].id in t && t[rows[i].id].spec == rows[i].spec
                                    && (IsCanonical(canon, rows[i]) || t[rows[i].id] == rows[i])
  }

  /** The rows gone by are canonical or gone. */
  ghost predicate Behind(canon: Spec -> Spec, rows: seq<Source>, n: nat, t: Table)
    requires n <= |rows|
  {
    forall i :: 0 <= i < n && rows[i].id in t ==> IsCanonical(canon, t[rows[i].id])
  }

  /** No group has lost progress, and no mark was made up. */
  ghost predicate Marks(canon: Spec -> Spec, t0: Table, t: Table) {
    && (forall id {:trigger Kept(canon, t, t0[id])} :: id in t0 && t0[id].kind == REDDIT ==> Kept(canon, t, t0[id]))
    && (forall id {:trigger Inherited(canon, t0, t[id])} ::
          id in t && t[id].kind == REDDIT ==> Inherited(canon, t0, t[id]))
  }

  /** Where the loop stands after `n` rows. */
  ghost predicate Reached(canon: Spec -> Spec, t0: Table, rows: seq<Source>, n: nat, t: Table)
    requires n <= |rows|
  {
    Frame(canon, t0, rows, n, t) && Marks(canon, t0, t)
  }

  lemma {:induction false} StartIsReached(canon: Spec -> Spec, t: Table, rows: seq<Source>)
    requires Sound(canon, t) && Listed(t, rows)
    ensures Reached(canon, t, rows, 0, t)
  {
    forall id | id in t && t[id].kind == REDDIT ensures Kept(canon, t, t[id]) && Inherited(canon, t, t[id]) {
      assert SameGroup(canon, t[id], t[id]) && AtMost(t[id].mark, t[id].mark);
    }
  }

  lemma {:induction false} RowIsThere(canon: Spec -> Spec, t0: Table, rows: seq<Source>, n: nat, t: Table)
    requires n < |rows| && Reached(canon, t0, rows, n, t)
    ensures rows[n].id in t
  {
  }

  lemma RewriteIsSound(canon: Spec -> Spec, t: Table, row: Source)
    requires Sound(canon, t) && row.id in t && t[row.id] == row && row.kind == REDDIT && !IsCanonical(canon, row)
    requires !exists id :: IsSurvivor(canon, t, row, id)
    ensures Sound(canon, t[row.id := Rewritten(canon, row)])
  {
    var t' := t[row.id := Rewritten(canon, row)];
    forall a, b | a in t' && b in t' && a != b
      ensures !(t'[a].account == t'[b].account && t'[a].feed == t'[b].feed && t'[a].hash == t'[b].hash)
    {
      if a == row.id { assert !IsSurvivor(canon, t, row, b); }
      if b == row.id { assert !IsSurvivor(canon, t, row, a); }
    }
  }

  lemma {:induction false} RewriteFrame(canon: Spec -> Spec, t0: Table, rows: seq<Source>, n: nat, t: Table)
    requires n < |rows| && Listed(t0, rows) && Frame(canon, t0, rows, n, t) && !IsCanonical(canon, rows[n])
    requires !exists id :: IsSurvivor(canon, t, rows[n], id)
    ensures Frame(canon, t0, rows, n + 1, t[rows[n].id := Rewritten(canon, rows[n])])
  {
    RewriteIsSound(canon, t, rows[n]);
    OtherRowsKeep(canon, t0, rows, n, t, t[rows[n].id := Rewritten(canon, rows[n])]);
  }

  /** A turn settles the row it visits and leaves every other row but for, at most, a canonical one's mark. */
  ghost predicate Settles(canon: Spec -> Spec, t: Table, row: Source, t': Table) {
    && (forall id :: id in t && id != row.id ==>
          id in t' && (t'[id] == t[id] || (IsCanonical(canon, t[id]) && t[id].kind == REDDIT
                                           && t'[id] == t[id].(mark := t'[id].mark))))
    && (forall id :: id in t' ==> id in t)
    && (row.id in t' ==> IsCanonical(canon, t'[row.id]) && t'[row.id].kind == REDDIT
                         && t'[row.id].In(row.account, row.feed))
  }

  lemma {:induction false} StaysAhead(canon: Spec -> Spec, rows: seq<Source>, n: nat, t: Table, t': Table)
    requires n < |rows| && Ahead(canon, rows, n, t) && Settles(canon, t, rows[n], t')
    requires forall i :: n < i < |rows| ==> rows[i].id != rows[n].id
    ensures Ahead(canon, rows, n + 1, t')
  {
  }

  lemma {:induction false} StaysBehind(canon: Spec -> Spec, rows: seq<Source>, n: nat, t: Table, t': Table)
    requires n < |rows| && Behind(canon, rows, n, t) && Settles(canon, t, rows[n], t')
    ensures Behind(canon, rows, n + 1, t')
  {
    forall i | 0 <= i < n + 1 && rows[i].id in t' ensures IsCanonical(canon, t'[rows[i].id]) {
      assert rows[i].id in t;
    }
  }

  lemma {:induction false} OtherRowsKeep(canon: Spec -> Spec, t0: Table, rows: seq<Source>, n: nat, t: Table, t': Table)
    requires n < |rows| && Listed(t0, rows) && Frame(canon, t0, rows, n, t) && Sound(canon, t')
    requires Settles(canon, t, rows[n], t')
    ensures Frame(canon, t0, rows, n + 1, t')
  {
    StaysAhead(canon, rows, n, t, t');
    StaysBehind(canon, rows, n, t, t');
  }

  lemma RewriteMarks(canon: Spec -> Spec, t0: Table, row: Source, t: Table)
    requires Sound(canon, t) && Marks(canon, t0, t) && row.id in t && t[row.id] == row && row.kind == REDDIT
    ensures Marks(canon, t0, t[row.id := Rewritten(canon, row)])
  {
    var t' := t[row.id := Rewritten(canon, row)];
    assert SameGroup(canon, t'[row.id], row) && SameGroup(canon, row, t'[row.id]);
    forall id | id in t0 && t0[id].kind == REDDIT ensures Kept(canon, t', t0[id]) {
      assert Kept(canon, t, t0[id]);
      var k :| k in t && t[k].kind == REDDIT && SameGroup(canon, t[k], t0[id]) && AtMost(t0[id].mark, t[k].mark);
      assert k in t' && SameGroup(canon, t'[k], t0[id]);
    }
    forall id | id in t' && t'[id].kind == REDDIT ensures Inherited(canon, t0, t'[id]) {
      assert Inherited(canon, t0, t[id]);
      var k :| k in t0 && t0[k].kind == REDDIT && SameGroup(canon, t0[k], t[id]) && t0[k].mark == t[id].mark;
      assert SameGroup(canon, t0[k], t'[id]);
    }
  }

  function Merged(t: Table, row: Source, s: nat): Table
    requires s in t
  {
    t[s := t[s].(mark := Furthest(row.mark, t[s].mark))] - {row.id}
  }

  lemma SurvivorIsCanonical(canon: Spec -> Spec, t: Table, row: Source, s: nat)
    requires Sound(canon, t) && IsSurvivor(canon, t, row, s) && row.id in t && t[row.id] == row && row.kind == REDDIT
    ensures t[s].kind == REDDIT && IsCanonical(canon, t[s]) && SameGroup(canon, t[s], row)
  {
    assert t[s].spec == canon(row.spec);
  }

  lemma {:induction false} MergeFrame(canon: Spec -> Spec, t0: Table, rows: seq<Source>, n: nat, t: Table, s: nat)
    requires n < |rows| && Listed(t0, rows) && Frame(canon, t0, rows, n, t)
    requires !IsCanonical(canon, rows[n]) && IsSurvivor(canon, t, rows[n], s)
    ensures Frame(canon, t0, rows, n + 1, Merged(t, rows[n], s))
  {
    SurvivorIsCanonical(canon, t, rows[n], s);
    MergeIsSound(canon, t, rows[n], s);
    OtherRowsKeep(canon, t0, rows, n, t, Merged(t, rows[n], s));
  }

  lemma MergeIsSound(canon: Spec -> Spec, t: Table, row: Source, s: nat)
    requires Sound(canon, t) && s in t
    ensures Sound(canon, Merged(t, row, s))
  {
  }

  lemma MergeMarks(canon: Spec -> Spec, t0: Table, row: Source, t: Table, s: nat)
    requires Sound(canon, t) && Marks(canon, t0, t) && row.id in t && t[row.id] == row && row.kind == REDDIT
    requires IsSurvivor(canon, t, row, s)
    ensures Marks(canon, t0, Merged(t, row, s))
  {
    var t' := Merged(t, row, s);
    SurvivorIsCanonical(canon, t, row, s);
    forall id | id in t0 && t0[id].kind == REDDIT ensures Kept(canon, t', t0[id]) {
      assert Kept(canon, t, t0[id]);
      var k :| k in t && t[k].kind == REDDIT && SameGroup(canon, t[k], t0[id]) && AtMost(t0[id].mark, t[k].mark);
      var k' := if k == row.id then s else k;
      assert k' in t' && t'[k'].kind == REDDIT && SameGroup(canon, t'[k'], t0[id]) && AtMost(t0[id].mark, t'[k'].mark);
    }
    forall id | id in t' && t'[id].kind == REDDIT ensures Inherited(canon, t0, t'[id]) {
      var from := if id == s && Furthest(row.mark, t[s].mark) == row.mark then row.id else id;
      assert Inherited(canon, t0, t[from]);
      var k :| k in t0 && t0[k].kind == REDDIT && SameGroup(canon, t0[k], t[from]) && t0[k].mark == t[from].mark;
      assert SameGroup(canon, t0[k], t'[id]) && t0[k].mark == t'[id].mark;
    }
  }

  lemma {:induction false} TurnReaches(canon: Spec -> Spec, t0: Table, rows: seq<Source>, n: nat, t: Table, t': Table)
    requires n < |rows| && Listed(t0, rows) && Reached(canon, t0, rows, n, t) && Turn(canon, t, rows[n], t')
    ensures Reached(canon, t0, rows, n + 1, t')
  {
    var row := rows[n];
    if IsCanonical(canon, row) {
      assert IsCanonical(canon, t[row.id]);
    } else if exists id :: IsSurvivor(canon, t, row, id) {
      var s :| IsSurvivor(canon, t, row, s) && t' == t[s := t[s].(mark := Furthest(row.mark, t[s].mark))] - {row.id};
      MergeFrame(canon, t0, rows, n, t, s);
      MergeMarks(canon, t0, row, t, s);
    } else {
      RewriteFrame(canon, t0, rows, n, t);
      RewriteMarks(canon, t0, row, t);
    }
  }

  lemma {:induction false} NextIsReached(canon: Spec -> Spec, t0: Table, rows: seq<Source>, n: nat, next: nat,
                                         t: Table, t': Table)
    requires n < |rows| && next == n + 1 && Listed(t0, rows)
    requires Reached(canon, t0, rows, n, t) && Turn(canon, t, rows[n], t')
    ensures Reached(canon, t0, rows, next, t')
  {
    TurnReaches(canon, t0, rows, n, t, t');
  }

  lemma {:induction false} ChainTurn(canon: Spec -> Spec, rows: seq<Source>, steps: seq<Table>, m: nat, n: nat, i: nat)
    requires Chain(canon, steps, rows, m) && i < m && n == i + 1
    ensures Turn(canon, steps[i], rows[i], steps[n])
  {
  }

  /** Every table the loop passes through is a good one. */
  lemma {:induction false} StepsAreReached(canon: Spec -> Spec, rows: seq<Source>, steps: seq<Table>, n: nat)
    requires Chain(canon, steps, rows, |rows|) && Sound(canon, steps[0]) && Listed(steps[0], rows) && n <= |rows|
    ensures Reached(canon, steps[0], rows, n, steps[n])
  {
    if n == 0 {
      StartIsReached(canon, steps[0], rows);
    } else {
      var i := n - 1;
      StepsAreReached(canon, rows, steps, i);
      ChainTurn(canon, rows, steps, |rows|, n, i);
      NextIsReached(canon, steps[0], rows, i, n, steps[i], steps[n]);
    }
  }

  /** The finished migration: uniqueness holds, other kinds are untouched, every reddit row is canonical, each
      group that had a row has exactly one, and it carries the group's largest mark. */
  ghost predicate Finished(canon: Spec -> Spec, t0: Table, t: Table) {
    && TableOk(t)
    && (forall id :: id in t0 && t0[id].kind != REDDIT ==> id in t && t[id] == t0[id])
    && (forall id :: id in t ==> id in t0 && (t[id].kind == REDDIT ==> IsCanonical(canon, t[id])))
    && (forall a, b | a in t && b in t && t[a].kind == REDDIT && t[b].kind == REDDIT ::
          SameGroup(canon, t[a], t[b]) ==> a == b)
    && (forall id :: id in t0 && t0[id].kind == REDDIT ==> HasSurvivor(canon, t0, t, t0[id]))
  }

  ghost predicate HasSurvivor(canon: Spec -> Spec, t0: Table, t: Table, row: Source) {
    exists s :: s in t && t[s].kind == REDDIT && SameGroup(canon, t[s], row) && IsLargest(canon, t0, t[s])
  }

  /** A row for the same feed under the canonical form of the row's slug, at a mark no earlier than its own. A row
      without a slug counts as one with the empty slug. */
  predicate HasHeir(t: Table, row: Source) {
    var slug := match row.spec case Reddit(s) => s case Other(_, _) => "";
    exists id :: id in t && t[id].account == row.account && t[id].feed == row.feed && t[id].spec == Reddit(Canon(slug))
                 && (row.mark.Some? ==> t[id].mark.Some? && t[id].mark.value >= row.mark.value)
  }

  /** Some old row of the same feed and canonical slug had this row's mark. */
  predicate IsHeir(t0: Table, row: Source) {
    exists id :: id in t0 && t0[id].account == row.account && t0[id].feed == row.feed && t0[id].mark == row.mark
                 && match t0[id].spec
                    case Reddit(slug) => row.spec == Reddit(Canon(slug))
                    case Other(_, _) => row.spec == Reddit(Canon(""))
  }

  lemma InheritedIsHeir(t0: Table, row: Source)
    requires Inherited(CanonicalSpec, t0, row) && IsCanonical(CanonicalSpec, row)
    ensures IsHeir(t0, row)
  {
    var id :| id in t0 && t0[id].kind == REDDIT && SameGroup(CanonicalSpec, t0[id], row) && t0[id].mark == row.mark;
    assert row.spec == CanonicalSpec(t0[id].spec);
  }

  lemma CanonicalRowMeans(row: Source)
    requires IsCanonical(CanonicalSpec, row)
    ensures row.spec.Reddit? && row.spec.subreddit == Canon(row.spec.subreddit) && row.hash == HashOf(row.spec)
  {
  }

  lemma SurvivorIsHeir(t0: Table, t: Table, row: Source)
    requires HasSurvivor(CanonicalSpec, t0, t, row) && row.id in t0 && t0[row.id] == row && row.kind == REDDIT
    requires forall id :: id in t && t[id].kind == REDDIT ==> IsCanonical(CanonicalSpec, t[id])
    ensures HasHeir(t, row)
  {
    var s :| s in t && t[s].kind == REDDIT && SameGroup(CanonicalSpec, t[s], row) && IsLargest(CanonicalSpec, t0, t[s]);
    CanonicalRowMeans(t[s]);
    assert SameGroup(CanonicalSpec, t0[row.id], t[s]);
  }

  /** What the migration does, row by row: every slug left is canonical, and no two rows of a feed share one; each
      old row has an heir, come at least as far, and each row left has its mark from an old one; the rest stay. */
  predicate MigratedTo(t0: Table, t: Table) {
    && (forall id :: id in t && t[id].kind == REDDIT ==>
          t[id].spec.Reddit? && t[id].spec.subreddit == Canon(t[id].spec.subreddit) && t[id].hash == HashOf(t[id].spec))
    && (forall a, b | a in t && b in t && a != b && t[a].kind == REDDIT && t[b].kind == REDDIT ::
          !(t[a].account == t[b].account && t[a].feed == t[b].feed && t[a].spec == t[b].spec))
    && (forall id :: id in t0 && t0[id].kind == REDDIT ==> HasHeir(t, t0[id]))
    && (forall id :: id in t && t[id].kind == REDDIT ==> IsHeir(t0, t[id]))
    && (forall id :: id in t0 && t0[id].kind != REDDIT ==> id in t && t[id] == t0[id])
    && (forall id :: id in t ==> id in t0)
  }

  lemma RowsAreHeirs(t0: Table, t: Table)
    requires Sound(CanonicalSpec, t0) && Finished(CanonicalSpec, t0, t)
    requires forall id :: id in t && t[id].kind == REDDIT ==> Inherited(CanonicalSpec, t0, t[id])
    ensures forall id :: id in t && t[id].kind == REDDIT ==> IsHeir(t0, t[id])
  {
    forall id | id in t && t[id].kind == REDDIT ensures IsHeir(t0, t[id]) {
      assert Inherited(CanonicalSpec, t0, t[id]);
      InheritedIsHeir(t0, t[id]);
    }
  }

  lemma FinishedMeans(t0: Table, t: Table)
    requires Sound(CanonicalSpec, t0) && Finished(CanonicalSpec, t0, t)
    requires forall id :: id in t && t[id].kind == REDDIT ==> Inherited(CanonicalSpec, t0, t[id])
    ensures MigratedTo(t0, t)
  {
    forall id | id in t && t[id].kind == REDDIT
      ensures t[id].spec.Reddit? && t[id].spec.subreddit == Canon(t[id].spec.subreddit)
      ensures t[id].hash == HashOf(t[id].spec)
    {
      CanonicalRowMeans(t[id]);
    }
    forall id | id in t0 && t0[id].kind == REDDIT ensures HasHeir(t, t0[id]) {
      SurvivorIsHeir(t0, t, t0[id]);
    }
    RowsAreHeirs(t0, t);
  }

  lemma {:induction false} AllRowsCanonical(canon: Spec -> Spec, t0: Table, rows: seq<Source>, t: Table)
    requires Stored(canon, t0, rows) && Reached(canon, t0, rows, |rows|, t)
    ensures forall id :: id in t && t[id].kind == REDDIT ==> id in t0 && IsCanonical(canon, t[id])
    ensures forall a, b | a in t && b in t && t[a].kind == REDDIT && t[b].kind == REDDIT ::
              SameGroup(canon, t[a], t[b]) ==> a == b
  {
    forall id | id in t && t[id].kind == REDDIT ensures id in t0 && IsCanonical(canon, t[id]) {
      assert t0[id] in rows;
    }
  }

  lemma {:induction false} MigrationMeans(canon: Spec -> Spec, t0: Table, rows: seq<Source>, t: Table)
    requires Stored(canon, t0, rows) && Reached(canon, t0, rows, |rows|, t)
    ensures Finished(canon, t0, t)
  {
    AllRowsCanonical(canon, t0, rows, t);
    forall id | id in t0 && t0[id].kind == REDDIT ensures HasSurvivor(canon, t0, t, t0[id]) {
      assert Kept(canon, t, t0[id]);
      var s :| s in t && t[s].kind == REDDIT && SameGroup(canon, t[s], t0[id]) && AtMost(t0[id].mark, t[s].mark);
      assert Inherited(canon, t0, t[s]);
      forall k | k in t0 && t0[k].kind == REDDIT && SameGroup(canon, t0[k], t[s])
        ensures AtMost(t0[k].mark, t[s].mark)
      {
        assert Kept(canon, t, t0[k]);
        var u :| u in t && t[u].kind == REDDIT && SameGroup(canon, t[u], t0[k]) && AtMost(t0[k].mark, t[u].mark);
        assert u == s;
      }
    }
  }

  /** The row's mark is its original group's largest, and some original row had it. */
  ghost predicate IsLargest(canon: Spec -> Spec, t0: Table, row: Source) {
    && Inherited(canon, t0, row)
    && forall k :: k in t0 && t0[k].kind == REDDIT && SameGroup(canon, t0[k], row) ==> AtMost(t0[k].mark, row.mark)
  }

  /** Row `row` is gone or no longer as it was read. */
  predicate Altered(t: Table, row: Source) {
    row.id in t ==> (t[row.id].spec, t[row.id].hash) != (row.spec, row.hash)
  }

  lemma TurnAlters(canon: Spec -> Spec, t: Table, row: Source, t': Table)
    requires Turn(canon, t, row, t') && !IsCanonical(canon, row)
    ensures Altered(t', row)
  {
  }

  lemma TurnKeepsAltered(canon: Spec -> Spec, t: Table, row: Source, t': Table, other: Source)
    requires Turn(canon, t, row, t') && row.id != other.id && Altered(t, other)
    ensures Altered(t', other)
  {
  }

  lemma {:induction false} AlteredForGood(canon: Spec -> Spec, rows: seq<Source>, steps: seq<Table>, k: nat, n: nat)
    requires Chain(canon, steps, rows, |rows|) && k < n <= |rows| && !IsCanonical(canon, rows[k])
    requires forall i, j :: 0 <= i < j < |rows| ==> rows[i].id != rows[j].id
    ensures Altered(steps[n], rows[k])
  {
    var i := n - 1;
    ChainTurn(canon, rows, steps, |rows|, n, i);
    if i == k {
      TurnAlters(canon, steps[i], rows[i], steps[n]);
    } else {
      AlteredForGood(canon, rows, steps, k, i);
      TurnKeepsAltered(canon, steps[i], rows[i], steps[n], rows[k]);
    }
  }

  lemma {:induction false} IdleOnCanonical(canon: Spec -> Spec, rows: seq<Source>, steps: seq<Table>, n: nat)
    requires Chain(canon, steps, rows, |rows|) && n <= |rows| && forall i :: 0 <= i < n ==> IsCanonical(canon, rows[i])
    ensures steps[n] == steps[0]
  {
    if n > 0 {
      var i := n - 1;
      IdleOnCanonical(canon, rows, steps, i);
      ChainTurn(canon, rows, steps, |rows|, n, i);
    }
  }

  /** A run leaves the table as it found it exactly when every row it visits is already canonical, whether or
      not canonical forms settle. */
  lemma {:induction false} RunIsIdleIff(canon: Spec -> Spec, rows: seq<Source>, steps: seq<Table>)
    requires Chain(canon, steps, rows, |rows|) && Listed(steps[0], rows)
    ensures steps[|rows|] == steps[0] <==> forall i :: 0 <= i < |rows| ==> IsCanonical(canon, rows[i])
  {
    if forall i :: 0 <= i < |rows| ==> IsCanonical(canon, rows[i]) {
      IdleOnCanonical(canon, rows, steps, |rows|);
    } else {
      var k :| 0 <= k < |rows| && !IsCanonical(canon, rows[k]);
      AlteredForGood(canon, rows, steps, k, |rows|);
      assert steps[0][rows[k].id] == rows[k];
    }
  }

  /** A second run over what the first one left changes nothing. */
  lemma {:induction false} SecondRunIsIdle(canon: Spec -> Spec, t0: Table, rows: seq<Source>, t: Table,
                                           rows': seq<Source>, steps': seq<Table>)
    requires Stored(canon, t0, rows) && Reached(canon, t0, rows, |rows|, t)
    requires Listed(t, rows') && Chain(canon, steps', rows', |rows'|) && steps'[0] == t
    ensures steps'[|rows'|] == t
  {
    AllRowsCanonical(canon, t0, rows, t);
    RunIsIdleIff(canon, rows', steps');
  }

  /** Exactly when a second run is idle on a row: its canonical form has to be a fixed point. */
  lemma SecondRunIsIdleIff(row: Source, t1: Table, t2: Table)
    requires row.hash == HashOf(row.spec)
    requires Turn(CanonicalSpec, map[row.id := row], row, t1) && row.id in t1 && Turn(CanonicalSpec, t1, t1[row.id], t2)
    ensures t2 == t1 <==> CanonicalSpec(CanonicalSpec(row.spec)) == CanonicalSpec(row.spec)
  {
    var once := t1[row.id];
    assert forall id :: !IsSurvivor(CanonicalSpec, map[row.id := row], row, id);
    assert t1.Keys == {row.id} && once.spec == CanonicalSpec(row.spec) && once.hash == HashOf(once.spec);
    assert forall id :: !IsSurvivor(CanonicalSpec, t1, once, id);
    assert t2[row.id].spec == CanonicalSpec(once.spec);
  }
}
