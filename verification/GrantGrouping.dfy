/**
  The grant rows of a party: the latest record of each scope, newest first, each carrying the superseded
  records of its scope, newest first. Which record is the latest of its scope is a parameter.
 */
module GrantGrouping {
  import opened Common

  type Scope = string

  /** `grantedAt` stands for the place of the consent time in the collation order. */
  datatype Grant = Grant(id: string, scope: Scope, grantedAt: int)

  datatype Row = Row(grant: Grant, earlier: seq<Grant>)

  /** What picking one index per scope gives: every scope present, each once, with an index of its own. */
  ghost predicate LatestPerScope(grants: seq<Grant>, latest: seq<(Scope, nat)>) {
    && (forall n :: 0 <= n < |latest| ==> latest[n].1 < |grants| && grants[latest[n].1].scope == latest[n].0)
    && (forall m, n :: 0 <= m < n < |latest| ==> latest[m].0 != latest[n].0)
    && (forall g :: g in grants ==> exists n :: 0 <= n < |latest| && latest[n].0 == g.scope)
  }

  function Indices(latest: seq<(Scope, nat)>): set<nat> {
    set p | p in latest :: p.1
  }

  /** The records of one scope that are not current, in the list's order. */
  function Superseded(grants: seq<Grant>, current: set<nat>, scope: Scope): (s: seq<Grant>)
    ensures forall g :: g in s ==> g in grants && g.scope == scope
  {
    if grants == [] then [] else
      var n := |grants| - 1;
      Superseded(grants[..n], current, scope)
      + if n in current || grants[n].scope != scope then [] else [grants[n]]
  }

  /** The records of a set of scopes, in the list's order. */
  function Scoped(grants: seq<Grant>, scopes: set<Scope>): seq<Grant> {
    if grants == [] then [] else
      var n := |grants| - 1;
      Scoped(grants[..n], scopes) + if grants[n].scope in scopes then [grants[n]] else []
  }

  lemma {:induction false} ScopedGrows(grants: seq<Grant>, scopes: set<Scope>, scope: Scope)
    requires scope !in scopes
    ensures multiset(Scoped(grants, scopes + {scope})) == multiset(Scoped(grants, scopes)) + multiset(Scoped(grants, {scope}))
  {
    if grants != [] { ScopedGrows(grants[..|grants| - 1], scopes, scope); }
  }

  lemma {:induction false} ScopedAll(grants: seq<Grant>, scopes: set<Scope>)
    requires forall g :: g in grants ==> g.scope in scopes
    ensures Scoped(grants, scopes) == grants
  {
    if grants != [] {
      var n := |grants| - 1;
      assert grants == grants[..n] + [grants[n]];
      ScopedAll(grants[..n], scopes);
    }
  }

  /** The current record of a scope, where it is among those at hand. */
  function Current(grants: seq<Grant>, index: nat): multiset<Grant> {
    if index < |grants| then multiset{grants[index]} else multiset{}
  }

  /** The last record, where it is of the scope. */
  function LastOf(grants: seq<Grant>, scope: Scope): multiset<Grant>
    requires grants != []
  {
    var g := grants[|grants| - 1];
    if g.scope == scope then multiset{g} else multiset{}
  }

  lemma ScopedLast(grants: seq<Grant>, scope: Scope)
    requires grants != []
    ensures multiset(Scoped(grants, {scope}))
      == multiset(Scoped(grants[..|grants| - 1], {scope})) + LastOf(grants, scope)
  {
  }

  lemma SupersededLast(grants: seq<Grant>, current: set<nat>, scope: Scope)
    requires grants != []
    ensures multiset(Superseded(grants, current, scope))
      == multiset(Superseded(grants[..|grants| - 1], current, scope))
         + if |grants| - 1 in current then multiset{} else LastOf(grants, scope)
  {
  }

  lemma CurrentLast(grants: seq<Grant>, current: set<nat>, scope: Scope, index: nat)
    requires grants != []
    requires |grants| - 1 in current && grants[|grants| - 1].scope == scope <==> index == |grants| - 1
    ensures Current(grants, index)
      == Current(grants[..|grants| - 1], index) + if |grants| - 1 in current then LastOf(grants, scope) else multiset{}
  {
  }

  lemma Regroup(a: multiset<Grant>, b: multiset<Grant>, last: multiset<Grant>, superseded: bool)
    ensures a + b + last == (a + if superseded then last else multiset{}) + (b + if superseded then multiset{} else last)
  {
  }

  /** A scope's records are its current one and its superseded ones, each once. */
  lemma {:induction false} ScopeSplits(grants: seq<Grant>, current: set<nat>, scope: Scope, index: nat)
    requires index in current && (index < |grants| ==> grants[index].scope == scope)
    requires forall i :: i in current && i < |grants| && grants[i].scope == scope ==> i == index
    ensures multiset(Scoped(grants, {scope})) == multiset(Superseded(grants, current, scope)) + Current(grants, index)
  {
    if grants != [] {
      ScopeSplits(grants[..|grants| - 1], current, scope, index);
      ScopedLast(grants, scope);
      SupersededLast(grants, current, scope);
      CurrentLast(grants, current, scope, index);
      var front := grants[..|grants| - 1];
      Regroup(multiset(Superseded(front, current, scope)), Current(front, index), LastOf(grants, scope),
              |grants| - 1 !in current);
    }
  }

  /** Every record the rows show, with how often. */
  function Shown(rows: seq<Row>): multiset<Grant> {
    if rows == [] then multiset{} else
      Shown(rows[..|rows| - 1]) + multiset{rows[|rows| - 1].grant} + multiset(rows[|rows| - 1].earlier)
  }

  lemma {:induction false} ShownReads(rows: seq<Row>, g: Grant)
    ensures g in Shown(rows) <==> exists row :: row in rows && (row.grant == g || g in row.earlier)
  {
    if rows != [] {
      var front, last := rows[..|rows| - 1], rows[|rows| - 1];
      ShownReads(front, g);
      assert rows == front + [last];
    }
  }

  lemma ShownOne(rows: seq<Row>, row: Row)
    ensures Shown(rows + [row]) == Shown(rows) + multiset{row.grant} + multiset(row.earlier)
  {
    assert (rows + [row])[..|rows|] == rows;
  }

  predicate Descending<T>(s: seq<T>, key: T -> int) {
    forall i, j :: 0 <= i < j < |s| ==> key(s[i]) >= key(s[j])
  }

  /** One insertion of a stable sort, newest first: a later element goes behind its equals. */
  function InsertBy<T>(s: seq<T>, x: T, key: T -> int): (r: seq<T>)
    ensures |r| == |s| + 1
  {
    if s == [] || key(s[|s| - 1]) >= key(x) then s + [x] else InsertBy(s[..|s| - 1], x, key) + [s[|s| - 1]]
  }

  function SortBy<T>(s: seq<T>, key: T -> int): (r: seq<T>)
    ensures |r| == |s|
  {
    if s == [] then [] else InsertBy(SortBy(s[..|s| - 1], key), s[|s| - 1], key)
  }

  lemma {:induction false} InsertPermutes<T>(s: seq<T>, x: T, key: T -> int)
    ensures multiset(InsertBy(s, x, key)) == multiset(s) + multiset{x}
  {
    if s != [] {
      InsertPermutes(s[..|s| - 1], x, key);
      assert s == s[..|s| - 1] + [s[|s| - 1]];
    }
  }

  lemma {:induction false} SortPermutes<T>(s: seq<T>, key: T -> int)
    ensures multiset(SortBy(s, key)) == multiset(s)
  {
    if s != [] {
      SortPermutes(s[..|s| - 1], key);
      InsertPermutes(SortBy(s[..|s| - 1], key), s[|s| - 1], key);
      assert s == s[..|s| - 1] + [s[|s| - 1]];
    }
  }

  lemma {:induction false} InsertDescends<T>(s: seq<T>, x: T, key: T -> int)
    requires Descending(s, key)
    ensures Descending(InsertBy(s, x, key), key)
    ensures forall i :: 0 <= i <= |s| ==> InsertBy(s, x, key)[i] == x || InsertBy(s, x, key)[i] in s
  {
    if s != [] && key(s[|s| - 1]) < key(x) {
      InsertDescends(s[..|s| - 1], x, key);
    }
  }

  lemma {:induction false} SortDescends<T>(s: seq<T>, key: T -> int)
    ensures Descending(SortBy(s, key), key)
  {
    if s != [] {
      SortDescends(s[..|s| - 1], key);
      InsertDescends(SortBy(s[..|s| - 1], key), s[|s| - 1], key);
    }
  }

  function OfKey<T>(s: seq<T>, key: T -> int, k: int): seq<T> {
    if s == [] then [] else
      OfKey(s[..|s| - 1], key, k) + if key(s[|s| - 1]) == k then [s[|s| - 1]] else []
  }

  lemma OfKeyGrows<T>(s: seq<T>, x: T, key: T -> int, k: int)
    ensures OfKey(s + [x], key, k) == OfKey(s, key, k) + if key(x) == k then [x] else []
  {
    assert (s + [x])[..|s|] == s;
  }

  lemma {:induction false} InsertIsStable<T>(s: seq<T>, x: T, key: T -> int, k: int)
    ensures OfKey(InsertBy(s, x, key), key, k) == OfKey(s, key, k) + if key(x) == k then [x] else []
  {
    if s == [] || key(s[|s| - 1]) >= key(x) {
      OfKeyGrows(s, x, key, k);
    } else {
      var front, last := s[..|s| - 1], s[|s| - 1];
      InsertIsStable(front, x, key, k);
      OfKeyGrows(InsertBy(front, x, key), last, key, k);
    }
  }

  /** Sorting is stable: what is of one time keeps its order. */
  lemma {:induction false} SortIsStable<T>(s: seq<T>, key: T -> int, k: int)
    ensures OfKey(SortBy(s, key), key, k) == OfKey(s, key, k)
  {
    if s != [] {
      SortIsStable(s[..|s| - 1], key, k);
      InsertIsStable(SortBy(s[..|s| - 1], key), s[|s| - 1], key, k);
    }
  }

  const GRANT_TIME := (g: Grant) => g.grantedAt
  const ROW_TIME := (row: Row) => row.grant.grantedAt

  lemma {:induction false} InsertShows(rows: seq<Row>, row: Row)
    ensures Shown(InsertBy(rows, row, ROW_TIME)) == Shown(rows) + multiset{row.grant} + multiset(row.earlier)
  {
    if rows == [] || ROW_TIME(rows[|rows| - 1]) >= ROW_TIME(row) {
      ShownOne(rows, row);
    } else {
      var front, last := rows[..|rows| - 1], rows[|rows| - 1];
      InsertShows(front, row);
      ShownOne(InsertBy(front, row, ROW_TIME), last);
      assert InsertBy(rows, row, ROW_TIME) == InsertBy(front, row, ROW_TIME) + [last];
    }
  }

  lemma {:induction false} SortShows(rows: seq<Row>)
    ensures Shown(SortBy(rows, ROW_TIME)) == Shown(rows)
  {
    if rows != [] {
      SortShows(rows[..|rows| - 1]);
      InsertShows(SortBy(rows[..|rows| - 1], ROW_TIME), rows[|rows| - 1]);
    }
  }

  /** The superseded records of each scope, in some order. */
  type Earlier = Scope -> seq<Grant>

  function RowOf(grants: seq<Grant>, pick: (Scope, nat), earlier: Earlier): Row
    requires pick.1 < |grants|
  {
    Row(grants[pick.1], earlier(pick.0))
  }

  predicate InRange(grants: seq<Grant>, latest: seq<(Scope, nat)>) {
    forall n :: 0 <= n < |latest| ==> latest[n].1 < |grants|
  }

  /** One row per scope, before the rows are sorted. */
  function RowsOf(grants: seq<Grant>, latest: seq<(Scope, nat)>, earlier: Earlier): (rows: seq<Row>)
    requires InRange(grants, latest)
    ensures |rows| == |latest|
  {
    seq(|latest|, n requires 0 <= n < |latest| && latest[n].1 < |grants| => RowOf(grants, latest[n], earlier))
  }

  lemma RowsGrow(grants: seq<Grant>, front: seq<(Scope, nat)>, pick: (Scope, nat), earlier: Earlier)
    requires InRange(grants, front) && pick.1 < |grants|
    ensures InRange(grants, front + [pick])
    ensures RowsOf(grants, front + [pick], earlier) == RowsOf(grants, front, earlier) + [RowOf(grants, pick, earlier)]
  {
  }

  function ScopesOf(latest: seq<(Scope, nat)>): set<Scope> {
    set p | p in latest :: p.0
  }

  /** Each scope's index is the only current one of that scope. */
  ghost predicate Picked(grants: seq<Grant>, latest: seq<(Scope, nat)>, current: set<nat>) {
    && (forall n :: 0 <= n < |latest| ==> PickedAt(grants, latest[n], current))
    && (forall m, n :: 0 <= m < n < |latest| ==> latest[m].0 != latest[n].0)
  }

  ghost predicate PickedAt(grants: seq<Grant>, pick: (Scope, nat), current: set<nat>) {
    && pick.1 < |grants| && grants[pick.1].scope == pick.0 && pick.1 in current
    && forall i :: i in current && i < |grants| && grants[i].scope == pick.0 ==> i == pick.1
  }

  lemma LatestIsPicked(grants: seq<Grant>, latest: seq<(Scope, nat)>)
    requires LatestPerScope(grants, latest)
    ensures Picked(grants, latest, Indices(latest))
  {
    forall n | 0 <= n < |latest| ensures PickedAt(grants, latest[n], Indices(latest)) {
      assert latest[n] in latest;
    }
  }

  /** `earlier` holds each scope's superseded records, newest first. */
  ghost predicate Groups(grants: seq<Grant>, current: set<nat>, earlier: Earlier) {
    forall s: Scope :: Grouped(Superseded(grants, current, s), earlier(s))
  }

  ghost predicate Grouped(superseded: seq<Grant>, sorted: seq<Grant>) {
    multiset(sorted) == multiset(superseded) && Descending(sorted, GRANT_TIME)
  }

  lemma RowShows(grants: seq<Grant>, pick: (Scope, nat), current: set<nat>, earlier: Earlier)
    requires PickedAt(grants, pick, current) && Groups(grants, current, earlier)
    ensures var row := RowOf(grants, pick, earlier);
            multiset{row.grant} + multiset(row.earlier) == multiset(Scoped(grants, {pick.0}))
    ensures RowFits(RowOf(grants, pick, earlier))
  {
    ScopeSplits(grants, current, pick.0, pick.1);
    var superseded := Superseded(grants, current, pick.0);
    assert Grouped(superseded, earlier(pick.0));
    forall g | g in earlier(pick.0) ensures g.scope == pick.0 {
      assert g in multiset(earlier(pick.0)) && g in superseded;
    }
  }

  lemma {:induction false} ScopedNone(grants: seq<Grant>)
    ensures Scoped(grants, {}) == []
  {
    if grants != [] { ScopedNone(grants[..|grants| - 1]); }
  }

  ghost predicate RowFits(row: Row) {
    Descending(row.earlier, GRANT_TIME) && forall g :: g in row.earlier ==> g.scope == row.grant.scope
  }

  lemma PickedFront(grants: seq<Grant>, front: seq<(Scope, nat)>, pick: (Scope, nat), current: set<nat>)
    requires Picked(grants, front + [pick], current)
    ensures Picked(grants, front, current) && PickedAt(grants, pick, current) && InRange(grants, front)
    ensures pick.0 !in ScopesOf(front) && ScopesOf(front + [pick]) == ScopesOf(front) + {pick.0}
  {
    var all := front + [pick];
    assert all[|front|] == pick && forall n :: 0 <= n < |front| ==> all[n] == front[n];
    assert forall p :: p in all <==> p in front || p == pick;
  }

  lemma OneMoreRow(grants: seq<Grant>, front: seq<(Scope, nat)>, pick: (Scope, nat), current: set<nat>, earlier: Earlier)
    requires Picked(grants, front + [pick], current) && Groups(grants, current, earlier) && InRange(grants, front)
    requires Shown(RowsOf(grants, front, earlier)) == multiset(Scoped(grants, ScopesOf(front)))
    ensures InRange(grants, front + [pick])
    ensures Shown(RowsOf(grants, front + [pick], earlier)) == multiset(Scoped(grants, ScopesOf(front + [pick])))
  {
    PickedFront(grants, front, pick, current);
    RowsGrow(grants, front, pick, earlier);
    ShownOne(RowsOf(grants, front, earlier), RowOf(grants, pick, earlier));
    RowShows(grants, pick, current, earlier);
    ScopedGrows(grants, ScopesOf(front), pick.0);
  }

  /** The rows of some scopes show exactly the records of those scopes. */
  lemma {:induction false} RowsShow(grants: seq<Grant>, latest: seq<(Scope, nat)>, current: set<nat>, earlier: Earlier)
    requires Picked(grants, latest, current) && Groups(grants, current, earlier)
    ensures InRange(grants, latest)
    ensures Shown(RowsOf(grants, latest, earlier)) == multiset(Scoped(grants, ScopesOf(latest)))
  {
    if latest == [] {
      ScopedNone(grants);
      assert ScopesOf(latest) == {} && RowsOf(grants, latest, earlier) == [];
    } else {
      var front, pick := latest[..|latest| - 1], latest[|latest| - 1];
      assert latest == front + [pick];
      PickedFront(grants, front, pick, current);
      RowsShow(grants, front, current, earlier);
      OneMoreRow(grants, front, pick, current, earlier);
    }
  }

  lemma RowsFit(grants: seq<Grant>, latest: seq<(Scope, nat)>, current: set<nat>, earlier: Earlier)
    requires Picked(grants, latest, current) && Groups(grants, current, earlier) && InRange(grants, latest)
    ensures forall row :: row in RowsOf(grants, latest, earlier) ==> RowFits(row)
  {
    var rows := RowsOf(grants, latest, earlier);
    forall row | row in rows ensures RowFits(row) {
      var n :| 0 <= n < |rows| && rows[n] == row;
      assert PickedAt(grants, latest[n], current);
      RowShows(grants, latest[n], current, earlier);
    }
  }

  /** No record is lost or shown twice by the rows of every scope. */
  lemma RowsConserve(grants: seq<Grant>, latest: seq<(Scope, nat)>, earlier: Earlier)
    requires LatestPerScope(grants, latest) && Groups(grants, Indices(latest), earlier)
    ensures InRange(grants, latest)
    ensures Shown(RowsOf(grants, latest, earlier)) == multiset(grants)
    ensures forall row :: row in RowsOf(grants, latest, earlier) ==> RowFits(row)
  {
    LatestIsPicked(grants, latest);
    RowsShow(grants, latest, Indices(latest), earlier);
    RowsFit(grants, latest, Indices(latest), earlier);
    forall g | g in grants ensures g.scope in ScopesOf(latest) {
      var n :| 0 <= n < |latest| && latest[n].0 == g.scope;
      assert latest[n] in latest;
    }
    ScopedAll(grants, ScopesOf(latest));
  }

  /** Sorting the rows keeps them all. */
  lemma SortedRows(rows: seq<Row>)
    ensures var sorted := SortBy(rows, ROW_TIME);
            && Shown(sorted) == Shown(rows) && Descending(sorted, ROW_TIME)
            && forall row :: row in sorted <==> row in rows
  {
    SortShows(rows);
    SortDescends(rows, ROW_TIME);
    SortPermutes(rows, ROW_TIME);
    forall row ensures row in SortBy(rows, ROW_TIME) <==> row in rows {
      assert row in SortBy(rows, ROW_TIME) <==> row in multiset(SortBy(rows, ROW_TIME));
      assert row in rows <==> row in multiset(rows);
    }
  }

  /** Both levels by consent time, and a row's superseded records by theirs. */
  ghost predicate Newest(rows: seq<Row>) {
    && (forall i, j :: 0 <= i < j < |rows| ==> rows[i].grant.grantedAt >= rows[j].grant.grantedAt)
    && (forall row :: row in rows ==>
          forall i, j :: 0 <= i < j < |row.earlier| ==> row.earlier[i].grantedAt >= row.earlier[j].grantedAt)
  }

  /** The records of the list are those the rows show. */
  ghost predicate ShowAll(grants: seq<Grant>, rows: seq<Row>) {
    forall g :: g in grants <==> exists row :: row in rows && (row.grant == g || g in row.earlier)
  }

  /** What the rows mean for the records themselves. */
  lemma RowsTold(grants: seq<Grant>, rows: seq<Row>)
    requires Shown(rows) == multiset(grants) && Descending(rows, ROW_TIME) && forall row :: row in rows ==> RowFits(row)
    ensures Newest(rows) && ShowAll(grants, rows)
  {
    forall i, j | 0 <= i < j < |rows| ensures rows[i].grant.grantedAt >= rows[j].grant.grantedAt {
      assert ROW_TIME(rows[i]) >= ROW_TIME(rows[j]);
    }
    forall row, i, j | row in rows && 0 <= i < j < |row.earlier|
      ensures row.earlier[i].grantedAt >= row.earlier[j].grantedAt
    {
      assert GRANT_TIME(row.earlier[i]) >= GRANT_TIME(row.earlier[j]);
    }
    forall g ensures g in grants <==> exists row :: row in rows && (row.grant == g || g in row.earlier) {
      ShownReads(rows, g);
      assert g in multiset(grants) <==> g in grants;
    }
  }

  /** The superseded records by scope, in one pass over the list. */
  method GroupEarlier(grants: seq<Grant>, current: set<nat>) returns (earlier: map<Scope, seq<Grant>>)
    ensures forall s: Scope :: (if s in earlier then earlier[s] else []) == Superseded(grants, current, s)
  {
    earlier := map[];
    for n := 0 to |grants|
      invariant forall s: Scope :: (if s in earlier then earlier[s] else []) == Superseded(grants[..n], current, s)
    {
      assert grants[..n + 1][..n] == grants[..n];
      if n in current { continue; }
      var scope := grants[n].scope;
      var held := if scope in earlier then earlier[scope] else [];
      earlier := earlier[scope := held + [grants[n]]];
    }
    assert grants[..|grants|] == grants;
  }

  /** Each scope's records as collected, sorted. */
  function SortedGroups(groups: map<Scope, seq<Grant>>): Earlier {
    s => SortBy(if s in groups then groups[s] else [], GRANT_TIME)
  }

  lemma SortingGroups(grants: seq<Grant>, current: set<nat>, groups: map<Scope, seq<Grant>>)
    requires forall s: Scope :: (if s in groups then groups[s] else []) == Superseded(grants, current, s)
    ensures Groups(grants, current, SortedGroups(groups))
  {
    forall s: Scope ensures Grouped(Superseded(grants, current, s), SortedGroups(groups)(s)) {
      var held := if s in groups then groups[s] else [];
      assert held == Superseded(grants, current, s);
      SortPermutes(held, GRANT_TIME);
      SortDescends(held, GRANT_TIME);
    }
  }

  method BuildRows(grants: seq<Grant>, latest: seq<(Scope, nat)>, groups: map<Scope, seq<Grant>>) returns (rows: seq<Row>)
    requires InRange(grants, latest)
    ensures rows == RowsOf(grants, latest, SortedGroups(groups))
  {
    rows := [];
    for n := 0 to |latest|
      invariant |rows| == n && forall m :: 0 <= m < n ==> rows[m] == RowOf(grants, latest[m], SortedGroups(groups))
    {
      rows := rows + [RowOf(grants, latest[n], SortedGroups(groups))];
    }
  }

  /** The grouping: every record in exactly one place, one row for each scope, both levels newest first. */
  method GroupNewestFirst(grants: seq<Grant>, latest: seq<(Scope, nat)>) returns (rows: seq<Row>)
    requires LatestPerScope(grants, latest)
    ensures Shown(rows) == multiset(grants)
    ensures |rows| == |latest| && Descending(rows, ROW_TIME)
    ensures forall row :: row in rows ==> RowFits(row)
    // The same, told of the records themselves.
    ensures Newest(rows) && ShowAll(grants, rows)
    ensures forall n :: 0 <= n < |latest| ==> exists row :: row in rows && row.grant == grants[latest[n].1]
  {
    var groups := GroupEarlier(grants, Indices(latest));
    SortingGroups(grants, Indices(latest), groups);
    RowsConserve(grants, latest, SortedGroups(groups));
    var all := BuildRows(grants, latest, groups);
    forall n | 0 <= n < |latest| ensures exists row :: row in all && row.grant == grants[latest[n].1] {
      assert all[n] in all && all[n].grant == grants[latest[n].1];
    }
    SortedRows(all);
    rows := SortBy(all, ROW_TIME);
    RowsTold(grants, rows);
  }
}
