/**
 * The generic repository (BaseRepository): CRUD, filters, counts, soft delete
 * and restore over one model's table.
 *
 * The table is the sequence of stored rows. A query returns rows in that
 * order; the database may return an unordered query in any order, and no
 * property below depends on the order except where a result is said to be
 * the first row of a query. Each commit is one atomic update of the table.
 */
module Repositories {
  import opened Wrappers
  import opened Records

  /** Keyword filters: column name to required value. */
  type Filters = map<string, Value>

  /** A partial update: attribute name to new value. */
  type Changes = map<string, Value>

  /** What the repository raises itself. */
  datatype RepoError =
    | NotSupported(message: string)   // TypeError: the model does not support soft delete
    | IntegrityError                  // the commit violates the primary key

  function Min(a: int, b: int): int {
    if a <= b then a else b
  }

  // ---------------------------------------------------------------- queries

  /** The rows of `t` that satisfy `p`, in table order. */
  function Where(t: seq<Record>, p: Record -> bool): (r: seq<Record>)
    ensures |r| <= |t|
    ensures forall x :: x in r <==> x in t && p(x)
  {
    if t == [] then [] else (if p(t[0]) then [t[0]] else []) + Where(t[1..], p)
  }

  /** Filtering by a weaker predicate keeps at least as many rows. */
  lemma {:induction false} WhereMonotone(t: seq<Record>, p: Record -> bool, q: Record -> bool)
    requires forall i :: 0 <= i < |t| && p(t[i]) ==> q(t[i])
    ensures |Where(t, p)| <= |Where(t, q)|
  {
    if t != [] {
      WhereMonotone(t[1..], p, q);
    }
  }

  /** A predicate every row satisfies keeps the whole table. */
  lemma {:induction false} WhereAll(t: seq<Record>, p: Record -> bool)
    requires forall i :: 0 <= i < |t| ==> p(t[i])
    ensures Where(t, p) == t
  {
    if t != [] {
      WhereAll(t[1..], p);
    }
  }

  /** Two predicates that agree on every row select the same rows. */
  lemma {:induction false} WhereAgree(t: seq<Record>, p: Record -> bool, q: Record -> bool)
    requires forall i :: 0 <= i < |t| ==> p(t[i]) == q(t[i])
    ensures Where(t, p) == Where(t, q)
  {
    if t != [] {
      WhereAgree(t[1..], p, q);
    }
  }

  /** The positions, from `i` on, of the rows of `t` that satisfy `p`. */
  function PositionsFrom(t: seq<Record>, p: Record -> bool, i: nat): seq<nat>
    requires i <= |t|
    decreases |t| - i
  {
    if i == |t| then [] else (if p(t[i]) then [i] else []) + PositionsFrom(t, p, i + 1)
  }

  /** The positions from `i` on lie within the table. */
  lemma {:induction false} PositionsFromBounds(t: seq<Record>, p: Record -> bool, i: nat)
    requires i <= |t|
    ensures forall a :: 0 <= a < |PositionsFrom(t, p, i)| ==> i <= PositionsFrom(t, p, i)[a] < |t|
    decreases |t| - i
  {
    if i < |t| {
      PositionsFromBounds(t, p, i + 1);
    }
  }

  /** The positions from `i` on are exactly the matching ones. */
  lemma {:induction false} PositionsFromMembers(t: seq<Record>, p: Record -> bool, i: nat)
    requires i <= |t|
    ensures forall j: nat :: j in PositionsFrom(t, p, i) <==> i <= j < |t| && p(t[j])
    decreases |t| - i
  {
    if i < |t| {
      PositionsFromMembers(t, p, i + 1);
      var rest := PositionsFrom(t, p, i + 1);
      if p(t[i]) {
        assert PositionsFrom(t, p, i) == [i] + rest;
      } else {
        assert PositionsFrom(t, p, i) == rest;
      }
    }
  }

  /** The positions from `i` on are in increasing order. */
  lemma {:induction false} PositionsFromIncreasing(t: seq<Record>, p: Record -> bool, i: nat)
    requires i <= |t|
    ensures forall a, b :: 0 <= a < b < |PositionsFrom(t, p, i)| ==> PositionsFrom(t, p, i)[a] < PositionsFrom(t, p, i)[b]
    decreases |t| - i
  {
    if i < |t| {
      PositionsFromIncreasing(t, p, i + 1);
      PositionsFromBounds(t, p, i + 1);
      var rest := PositionsFrom(t, p, i + 1);
      if p(t[i]) {
        var r := [i] + rest;
        assert forall a :: 1 <= a < |r| ==> r[a] == rest[a - 1];
      }
    }
  }

  /** The positions of the rows of `t` that satisfy `p`, in table order. */
  function Positions(t: seq<Record>, p: Record -> bool): (r: seq<nat>)
    ensures forall j: nat :: j in r <==> j < |t| && p(t[j])
    ensures forall a :: 0 <= a < |r| ==> r[a] < |t|
    ensures forall a, b :: 0 <= a < b < |r| ==> r[a] < r[b]
    ensures r == [] <==> forall j :: 0 <= j < |t| ==> !p(t[j])
  {
    PositionsFromMembers(t, p, 0);
    PositionsFromBounds(t, p, 0);
    PositionsFromIncreasing(t, p, 0);
    var r := PositionsFrom(t, p, 0);
    assert r != [] ==> r[0] in r;
    r
  }

  /** The rows from `i` on that satisfy `p` are the rows at their positions, in order. */
  lemma {:induction false} PositionsFromCount(t: seq<Record>, p: Record -> bool, i: nat)
    requires i <= |t|
    ensures |PositionsFrom(t, p, i)| == |Where(t[i..], p)|
    ensures forall a :: 0 <= a < |Where(t[i..], p)| ==>
      PositionsFrom(t, p, i)[a] < |t| && Where(t[i..], p)[a] == t[PositionsFrom(t, p, i)[a]]
    decreases |t| - i
  {
    if i < |t| {
      assert t[i..][0] == t[i] && t[i..][1..] == t[i + 1..];
      PositionsFromCount(t, p, i + 1);
      var w, ps := Where(t[i + 1..], p), PositionsFrom(t, p, i + 1);
      if p(t[i]) {
        assert Where(t[i..], p) == [t[i]] + w;
        assert PositionsFrom(t, p, i) == [i] + ps;
        forall a | 1 <= a < |Where(t[i..], p)|
          ensures PositionsFrom(t, p, i)[a] < |t| && Where(t[i..], p)[a] == t[PositionsFrom(t, p, i)[a]]
        {
          assert Where(t[i..], p)[a] == w[a - 1] && PositionsFrom(t, p, i)[a] == ps[a - 1];
        }
      } else {
        assert Where(t[i..], p) == w;
      }
    }
  }

  /** The rows that satisfy `p` are the rows at their positions, in order. */
  lemma PositionsCount(t: seq<Record>, p: Record -> bool)
    ensures |Positions(t, p)| == |Where(t, p)|
    ensures forall a :: 0 <= a < |Where(t, p)| ==> Where(t, p)[a] == t[Positions(t, p)[a]]
  {
    PositionsFromCount(t, p, 0);
    assert t[0..] == t;
  }

  /** Predicates that agree on every row have the same positions. */
  lemma {:induction false} PositionsFromAgree(t: seq<Record>, p: Record -> bool, q: Record -> bool, i: nat)
    requires i <= |t| && forall j :: 0 <= j < |t| ==> p(t[j]) == q(t[j])
    ensures PositionsFrom(t, p, i) == PositionsFrom(t, q, i)
    decreases |t| - i
  {
    if i < |t| {
      PositionsFromAgree(t, p, q, i + 1);
    }
  }

  lemma PositionsAgree(t: seq<Record>, p: Record -> bool, q: Record -> bool)
    requires forall j :: 0 <= j < |t| ==> p(t[j]) == q(t[j])
    ensures Positions(t, p) == Positions(t, q)
  {
    PositionsFromAgree(t, p, q, 0);
  }

  /** OFFSET skip LIMIT limit */
  function Page<T>(s: seq<T>, skip: nat, limit: nat): (r: seq<T>)
    ensures |r| <= limit
    ensures |r| == if skip >= |s| then 0 else Min(limit, |s| - skip)
    ensures forall i :: 0 <= i < |r| ==> r[i] == s[skip + i]
    ensures forall x :: x in r ==> x in s
  {
    if skip >= |s| then [] else s[skip..skip + Min(limit, |s| - skip)]
  }

  /** The filters a query keeps: those whose key is an attribute of the model. */
  function Recognized(m: Model, filters: Filters): Filters {
    map k | k in filters && HasAttr(m, k) :: filters[k]
  }

  /** The conjunction of `column == value` over the kept filters. */
  predicate Satisfies(r: Record, conds: Filters) {
    forall k :: k in conds ==> Attr(r, k) == Some(conds[k])
  }

  /** Soft-deleted rows are hidden unless asked for or the model lacks soft delete. */
  predicate Visible(m: Model, r: Record, includeDeleted: bool) {
    includeDeleted || !m.supportsSoftDelete || r.Live()
  }

  predicate Selected(m: Model, r: Record, conds: Filters, includeDeleted: bool) {
    Satisfies(r, conds) && Visible(m, r, includeDeleted)
  }

  /** The rows a query with these conditions selects. */
  function SelectedBy(m: Model, conds: Filters, includeDeleted: bool): Record -> bool {
    (x: Record) => Selected(m, x, conds, includeDeleted)
  }

  /** The rows a filtered query returns before pagination. */
  function Matching(m: Model, t: seq<Record>, conds: Filters, includeDeleted: bool): seq<Record> {
    Where(t, SelectedBy(m, conds, includeDeleted))
  }

  /** A filter on a key the model does not have changes nothing. */
  lemma UnknownFilterIgnored(m: Model, filters: Filters, key: string, v: Value)
    requires !HasAttr(m, key)
    ensures Recognized(m, filters[key := v]) == Recognized(m, filters - {key})
    ensures Recognized(m, filters[key := v]) == Recognized(m, filters) - {key}
  {
  }

  /** More conditions never match more rows. */
  lemma MatchingFewer(m: Model, t: seq<Record>, conds: Filters, includeDeleted: bool)
    ensures |Matching(m, t, conds, includeDeleted)| <= |Matching(m, t, map[], includeDeleted)|
  {
    WhereMonotone(t, SelectedBy(m, conds, includeDeleted), SelectedBy(m, map[], includeDeleted));
  }

  /** The first index of a row with this uuid, among live rows when `onlyLive`. */
  function Find(t: seq<Record>, uuid: Uuid, onlyLive: bool): (i: Option<nat>)
    ensures i.Some? ==> i.value < |t| && t[i.value].uuid == uuid && (onlyLive ==> t[i.value].Live())
    ensures i.None? <==> forall j :: 0 <= j < |t| && t[j].uuid == uuid ==> onlyLive && !t[j].Live()
  {
    if t == [] then None
    else if t[0].uuid == uuid && (!onlyLive || t[0].Live()) then Some(0)
    else match Find(t[1..], uuid, onlyLive)
      case None => None
      case Some(j) => Some(j + 1)
  }

  // ---------------------------------------------------------------- table invariant

  predicate UniqueIds(t: seq<Record>) {
    forall i, j :: 0 <= i < j < |t| ==> t[i].uuid != t[j].uuid
  }

  predicate TableOk(m: Model, t: seq<Record>) {
    UniqueIds(t) && forall i :: 0 <= i < |t| ==> Conforms(m, t[i])
  }

  // ---------------------------------------------------------------- update

  /** The new values an update may carry; uuid and created_at are discarded anyway. */
  predicate AssignableData(data: Changes) {
    forall k :: k in data && k != UuidKey && k != CreatedAtKey ==> Assignable(k, data[k])
  }

  /**
   * The row after `update(uuid, data)`: uuid and created_at are kept, every
   * other attribute of the row named in `data` takes the new value, and the
   * rest of the row is unchanged.
   */
  function Updated(r: Record, data: Changes): Record
    requires AssignableData(data)
  {
    Record(
      r.uuid,
      r.createdAt,
      if UpdatedAtKey in data then data[UpdatedAtKey].i else r.updatedAt,
      if DeletedAtKey in data then StampOf(data[DeletedAtKey]) else r.deletedAt,
      map k | k in r.attrs :: if k in data && k !in BaseColumns then data[k] else r.attrs[k])
  }

  /** What `update` does, attribute by attribute, read back through getattr. */
  lemma UpdatedAttrs(r: Record, data: Changes)
    requires AssignableData(data)
    ensures Updated(r, data).uuid == r.uuid && Updated(r, data).createdAt == r.createdAt
    ensures forall k :: k != UuidKey && k != CreatedAtKey && k in data && HasField(r, k) ==>
      Attr(Updated(r, data), k) == Some(data[k])
    ensures forall k :: (k == UuidKey || k == CreatedAtKey || k !in data || !HasField(r, k)) ==>
      Attr(Updated(r, data), k) == Attr(r, k)
    ensures UpdatedAtKey !in data ==> Updated(r, data).updatedAt == r.updatedAt
  {
    forall k | k != UuidKey && k != CreatedAtKey && k in data && HasField(r, k)
      ensures Attr(Updated(r, data), k) == Some(data[k])
    {
      if k == DeletedAtKey {
        assert data[k].Null? || data[k].Int?;
      }
    }
  }

  /** One more assignment in the update loop. */
  lemma UpdatedStep(r: Record, done: Changes, key: string, v: Value)
    requires AssignableData(done) && key !in done
    requires key != UuidKey && key != CreatedAtKey && Assignable(key, v)
    ensures AssignableData(done[key := v])
    ensures HasField(Updated(r, done), key) <==> HasField(r, key)
    ensures HasField(r, key) ==> Updated(r, done[key := v]) == Assigned(Updated(r, done), key, v)
    ensures !HasField(r, key) ==> Updated(r, done[key := v]) == Updated(r, done)
  {
    var d' := done[key := v];
    if HasField(r, key) && key !in BaseColumns {
      assert Updated(r, d').attrs == Updated(r, done).attrs[key := v];
    }
    if !HasField(r, key) {
      assert Updated(r, d').attrs == Updated(r, done).attrs;
    }
  }

  /** Dropping uuid and created_at from the changes does not alter the result. */
  lemma UpdatedIgnoresProtected(r: Record, data: Changes)
    requires AssignableData(data)
    ensures AssignableData(data - {UuidKey, CreatedAtKey})
    ensures Updated(r, data - {UuidKey, CreatedAtKey}) == Updated(r, data)
  {
    var d' := data - {UuidKey, CreatedAtKey};
    assert Updated(r, d').attrs == Updated(r, data).attrs;
  }

  /** An update keeps a row of the model a row of the model. */
  lemma UpdatedConforms(m: Model, r: Record, data: Changes)
    requires AssignableData(data) && Conforms(m, r)
    ensures Conforms(m, Updated(r, data)) && Updated(r, data).uuid == r.uuid
  {
  }

  /**
   * update_bulk: the table after the updates, applied in order, and the rows of
   * the updates that found their record, in input order.
   */
  function UpdateAll(m: Model, t: seq<Record>, updates: seq<(Uuid, Changes)>): (res: (seq<Record>, seq<Record>))
    requires forall j :: 0 <= j < |updates| ==> AssignableData(updates[j].1)
    ensures |res.0| == |t|
    ensures |res.1| <= |updates|
    ensures TableOk(m, t) ==> TableOk(m, res.0)
    decreases |updates|
  {
    if updates == [] then (t, [])
    else
      var (uuid, data) := updates[0];
      match Find(t, uuid, m.supportsSoftDelete)
      case None => UpdateAll(m, t, updates[1..])
      case Some(i) =>
        var row := Updated(t[i], data);
        var rest := UpdateAll(m, t[i := row], updates[1..]);
        (rest.0, [row] + rest.1)
  }

  /**
   * One pass of the loop of update_bulk: applying update to the first pending
   * pair, as update's contract describes it, leaves the same overall outcome.
   */
  lemma UpdateAllStep(m: Model, t: seq<Record>, t': seq<Record>, pending: seq<(Uuid, Changes)>,
                      obj: Option<Record>, updated: seq<Record>, all: (seq<Record>, seq<Record>))
    requires pending != [] && forall j :: 0 <= j < |pending| ==> AssignableData(pending[j].1)
    requires Find(t, pending[0].0, m.supportsSoftDelete).None? ==> obj.None? && t' == t
    requires Find(t, pending[0].0, m.supportsSoftDelete).Some? ==>
      var i := Find(t, pending[0].0, m.supportsSoftDelete).value;
      obj == Some(Updated(t[i], pending[0].1)) && t' == t[i := obj.value]
    requires all.0 == UpdateAll(m, t, pending).0 && all.1 == updated + UpdateAll(m, t, pending).1
    ensures all.0 == UpdateAll(m, t', pending[1..]).0
    ensures all.1 == (if obj.Some? then updated + [obj.value] else updated) + UpdateAll(m, t', pending[1..]).1
  {
    var rest := UpdateAll(m, t', pending[1..]);
    if obj.Some? {
      assert UpdateAll(m, t, pending) == (rest.0, [obj.value] + rest.1);
      assert updated + ([obj.value] + rest.1) == (updated + [obj.value]) + rest.1;
    }
  }

  /**
   * The instances update_bulk returns, read after its last commit. The session
   * holds one instance per row, so each shows the stored row with its uuid,
   * and two updates of one uuid return that one instance twice.
   */
  function Refetched(t: seq<Record>, rows: seq<Record>): (r: seq<Record>)
    ensures |r| == |rows|
    ensures forall i :: 0 <= i < |r| ==> r[i].uuid == rows[i].uuid
    ensures forall i :: 0 <= i < |r| && Find(t, rows[i].uuid, false).Some? ==> r[i] in t
  {
    seq(|rows|, i requires 0 <= i < |rows| =>
      match Find(t, rows[i].uuid, false)
      case None => rows[i]
      case Some(j) => t[j])
  }

  /** update_bulk keeps every row's uuid, and each row it returns is still in the table. */
  lemma {:induction false} UpdateAllUuids(m: Model, t: seq<Record>, updates: seq<(Uuid, Changes)>)
    requires forall j :: 0 <= j < |updates| ==> AssignableData(updates[j].1)
    ensures forall k :: 0 <= k < |t| ==> UpdateAll(m, t, updates).0[k].uuid == t[k].uuid
    ensures forall a :: 0 <= a < |UpdateAll(m, t, updates).1| ==>
      Find(UpdateAll(m, t, updates).0, UpdateAll(m, t, updates).1[a].uuid, false).Some?
    decreases |updates|
  {
    if updates != [] {
      match Find(t, updates[0].0, m.supportsSoftDelete)
      case None =>
        UpdateAllUuids(m, t, updates[1..]);
      case Some(i) =>
        var t' := t[i := Updated(t[i], updates[0].1)];
        UpdateAllUuids(m, t', updates[1..]);
        var res := UpdateAll(m, t', updates[1..]);
        assert res.0[i].uuid == t[i].uuid;
        assert UpdateAll(m, t, updates).1 == [Updated(t[i], updates[0].1)] + res.1;
    }
  }

  /** No two updates name the same uuid. */
  predicate DistinctTargets(updates: seq<(Uuid, Changes)>) {
    forall a, b :: 0 <= a < b < |updates| ==> updates[a].0 != updates[b].0
  }

  /** Updates that do not name a row's uuid leave that row as it was. */
  lemma {:induction false} UpdateAllKeeps(m: Model, t: seq<Record>, updates: seq<(Uuid, Changes)>, i: nat)
    requires forall j :: 0 <= j < |updates| ==> AssignableData(updates[j].1)
    requires i < |t| && forall j :: 0 <= j < |updates| ==> updates[j].0 != t[i].uuid
    ensures UpdateAll(m, t, updates).0[i] == t[i]
    decreases |updates|
  {
    if updates != [] {
      match Find(t, updates[0].0, m.supportsSoftDelete)
      case None =>
        UpdateAllKeeps(m, t, updates[1..], i);
      case Some(k) =>
        var t' := t[k := Updated(t[k], updates[0].1)];
        UpdateAllKeeps(m, t', updates[1..], i);
    }
  }

  /**
   * When no uuid is updated twice, the instances update_bulk returns show
   * exactly the row each update produced.
   */
  lemma {:induction false} RefetchedDistinct(m: Model, t: seq<Record>, updates: seq<(Uuid, Changes)>)
    requires TableOk(m, t) && DistinctTargets(updates)
    requires forall j :: 0 <= j < |updates| ==> AssignableData(updates[j].1)
    ensures Refetched(UpdateAll(m, t, updates).0, UpdateAll(m, t, updates).1) == UpdateAll(m, t, updates).1
    decreases |updates|
  {
    if updates != [] {
      var (uuid, data) := updates[0];
      match Find(t, uuid, m.supportsSoftDelete)
      case None =>
        RefetchedDistinct(m, t, updates[1..]);
      case Some(i) =>
        var row := Updated(t[i], data);
        var t' := t[i := row];
        UpdatedConforms(m, t[i], data);
        StampsKeepTable(m, t, t');
        var rest := UpdateAll(m, t', updates[1..]);
        RefetchedDistinct(m, t', updates[1..]);
        UpdateAllKeeps(m, t', updates[1..], i);
        FindUnique(rest.0, uuid, i);
        RefetchedCons(rest.0, row, rest.1, i);
    }
  }

  /** Refetching a row that is stored as it is, followed by the others. */
  lemma RefetchedCons(t: seq<Record>, row: Record, rows: seq<Record>, i: nat)
    requires i < |t| && t[i] == row && Find(t, row.uuid, false) == Some(i)
    ensures Refetched(t, [row] + rows) == [row] + Refetched(t, rows)
  {
    var r := Refetched(t, [row] + rows);
    forall a | 1 <= a < |r|
      ensures r[a] == Refetched(t, rows)[a - 1]
    {
      assert ([row] + rows)[a] == rows[a - 1];
    }
  }

  /**
   * What update_bulk returns, read after its last commit: rows of the final
   * table, one instance per uuid, and the rows the updates produced when no
   * uuid is updated twice.
   */
  lemma RefetchedResult(m: Model, t: seq<Record>, updates: seq<(Uuid, Changes)>)
    requires TableOk(m, t) && forall j :: 0 <= j < |updates| ==> AssignableData(updates[j].1)
    ensures var (t', rows) := UpdateAll(m, t, updates);
      forall i :: 0 <= i < |rows| ==> Refetched(t', rows)[i] in t'
    ensures var (t', rows) := UpdateAll(m, t, updates);
      forall i, j :: 0 <= i < |rows| && 0 <= j < |rows| && Refetched(t', rows)[i].uuid == Refetched(t', rows)[j].uuid ==>
        Refetched(t', rows)[i] == Refetched(t', rows)[j]
    ensures DistinctTargets(updates) ==> Refetched(UpdateAll(m, t, updates).0, UpdateAll(m, t, updates).1) == UpdateAll(m, t, updates).1
  {
    UpdateAllUuids(m, t, updates);
    if DistinctTargets(updates) {
      RefetchedDistinct(m, t, updates);
    }
  }

  // ---------------------------------------------------------------- bulk effects

  /** The rows whose uuid is listed. */
  function Listed(uuids: seq<Uuid>): Record -> bool {
    (x: Record) => x.uuid in uuids
  }

  /** The rows whose uuid is not listed. */
  function Unlisted(uuids: seq<Uuid>): Record -> bool {
    (x: Record) => x.uuid !in uuids
  }

  /** The live rows whose uuid is listed: what soft_delete_bulk touches. */
  function ListedLive(uuids: seq<Uuid>): Record -> bool {
    (x: Record) => x.uuid in uuids && x.Live()
  }

  /** The soft-deleted rows whose uuid is listed: what restore_bulk touches. */
  function ListedDeleted(uuids: seq<Uuid>): Record -> bool {
    (x: Record) => x.uuid in uuids && !x.Live()
  }

  /** soft_delete_bulk on the table: listed live rows get the deletion stamp. */
  function SoftDeletedIn(t: seq<Record>, uuids: seq<Uuid>, now: int): (r: seq<Record>)
    ensures |r| == |t|
  {
    seq(|t|, j requires 0 <= j < |t| => if t[j].uuid in uuids && t[j].Live() then SoftDeleted(t[j], now) else t[j])
  }

  /** restore_bulk on the table: listed soft-deleted rows become live. */
  function RestoredIn(t: seq<Record>, uuids: seq<Uuid>): (r: seq<Record>)
    ensures |r| == |t|
  {
    seq(|t|, j requires 0 <= j < |t| => if t[j].uuid in uuids && !t[j].Live() then Restored(t[j]) else t[j])
  }

  /** soft_delete on one row, as a function value. */
  function SoftDeleting(now: int): Record -> Record {
    (x: Record) => SoftDeleted(x, now)
  }

  /** restore on one row, as a function value. */
  function Restoring(): Record -> Record {
    (x: Record) => Restored(x)
  }

  /** The table with `f` applied to the rows at the given positions. */
  function ApplyAt(t: seq<Record>, pos: seq<nat>, f: Record -> Record): (r: seq<Record>)
    ensures |r| == |t|
  {
    seq(|t|, j requires 0 <= j < |t| => if j in pos then f(t[j]) else t[j])
  }

  /** Applying `f` at one more, new position. */
  lemma ApplyAtStep(t: seq<Record>, pos: seq<nat>, k: nat, f: Record -> Record)
    requires k < |pos| && pos[k] < |t| && pos[k] !in pos[..k]
    ensures ApplyAt(t, pos[..k], f)[pos[k]] == t[pos[k]]
    ensures ApplyAt(t, pos[..k + 1], f) == ApplyAt(t, pos[..k], f)[pos[k] := f(t[pos[k]])]
  {
    assert pos[..k + 1] == pos[..k] + [pos[k]];
  }

  /** Applying `f` at the positions of the rows satisfying `p` is a pointwise choice. */
  lemma ApplyAtPositions(t: seq<Record>, p: Record -> bool, f: Record -> Record)
    ensures ApplyAt(t, Positions(t, p), f) == seq(|t|, j requires 0 <= j < |t| => if p(t[j]) then f(t[j]) else t[j])
  {
  }

  lemma SoftDeletedInByPositions(m: Model, t: seq<Record>, uuids: seq<Uuid>, now: int)
    ensures SoftDeletedIn(t, uuids, now) == ApplyAt(t, Positions(t, ListedLive(uuids)), SoftDeleting(now))
    ensures TableOk(m, t) ==> TableOk(m, SoftDeletedIn(t, uuids, now))
  {
    ApplyAtPositions(t, ListedLive(uuids), SoftDeleting(now));
  }

  lemma RestoredInByPositions(m: Model, t: seq<Record>, uuids: seq<Uuid>)
    ensures RestoredIn(t, uuids) == ApplyAt(t, Positions(t, ListedDeleted(uuids)), Restoring())
    ensures TableOk(m, t) ==> TableOk(m, RestoredIn(t, uuids))
  {
    ApplyAtPositions(t, ListedDeleted(uuids), Restoring());
  }

  /** Rows that keep their uuids and stay rows of the model keep the table invariant. */
  lemma StampsKeepTable(m: Model, t: seq<Record>, t': seq<Record>)
    requires TableOk(m, t) && |t'| == |t|
    requires forall j :: 0 <= j < |t| ==> t'[j].uuid == t[j].uuid && Conforms(m, t'[j])
    ensures TableOk(m, t')
  {
  }

  /** Repeating soft_delete_bulk finds nothing left to delete. */
  lemma SoftDeleteBulkTwice(t: seq<Record>, uuids: seq<Uuid>, now: int)
    ensures forall j :: 0 <= j < |t| ==> !ListedLive(uuids)(SoftDeletedIn(t, uuids, now)[j])
    ensures Positions(SoftDeletedIn(t, uuids, now), ListedLive(uuids)) == []
  {

  }

  /** Repeating restore_bulk finds nothing left to restore. */
  lemma RestoreBulkTwice(t: seq<Record>, uuids: seq<Uuid>)
    ensures forall j :: 0 <= j < |t| ==> !ListedDeleted(uuids)(RestoredIn(t, uuids)[j])
    ensures Positions(RestoredIn(t, uuids), ListedDeleted(uuids)) == []
  {

  }

  // ---------------------------------------------------------------- the repository

  /** BaseRepository[T] bound to one model and the table of its rows. */
  class Repository {
    const model: Model
    var table: seq<Record>

    ghost predicate Valid()
      reads this
    {
      WellFormed(model) && TableOk(model, table)
    }

    constructor (model: Model, table: seq<Record>)
      requires WellFormed(model) && TableOk(model, table)
      ensures Valid() && this.model == model && this.table == table
    {
      this.model := model;
      this.table := table;
    }

    // -------------------------------------------------- read operations

    /** get: the row with this uuid, unless soft-deleted in a soft-delete model. */
    function Get(uuid: Uuid): (r: Option<Record>)
      reads this
      ensures r.Some? ==> r.value in table && r.value.uuid == uuid && (model.supportsSoftDelete ==> r.value.Live())
      ensures r.None? <==> forall x :: x in table && x.uuid == uuid ==> model.supportsSoftDelete && !x.Live()
    {
      match Find(table, uuid, model.supportsSoftDelete)
      case None => None
      case Some(i) => Some(table[i])
    }

    /** get_all: a page of the visible rows (GetAllAt gives its contents). */
    function GetAll(skip: nat, limit: nat, includeDeleted: bool): (r: seq<Record>)
      reads this
      ensures |r| <= limit
      ensures forall x :: x in r ==> x in table && Visible(model, x, includeDeleted)
      ensures |r| == if skip >= Count(includeDeleted) then 0 else Min(limit, Count(includeDeleted) - skip)
    {
      Page(Matching(model, table, map[], includeDeleted), skip, limit)
    }

    /**
     * The loop of get_by_filters, exists and count_by_filters that turns the
     * keyword filters into conditions, skipping keys the model does not have.
     */
    method FilterConditions(filters: Filters) returns (conds: Filters)
      ensures conds == Recognized(model, filters)
    {
      conds := map[];
      var pending := filters.Keys;
      while pending != {}
        invariant pending <= filters.Keys
        invariant forall k :: k in conds <==> k in filters && k !in pending && HasAttr(model, k)
        invariant forall k :: k in conds ==> conds[k] == filters[k]
        decreases pending
      {
        var key :| key in pending;
        if HasAttr(model, key) {
          conds := conds[key := filters[key]];
        }
        pending := pending - {key};
      }
    }

    /** get_by_filters: a page of the rows the recognised filters select (GetByFiltersAt gives its contents). */
    function GetByFilters(skip: nat, limit: nat, includeDeleted: bool, filters: Filters): (r: seq<Record>)
      reads this
      ensures |r| <= limit
      ensures forall x :: x in r ==> x in table && Visible(model, x, includeDeleted)
      ensures forall x, k :: x in r && k in filters && HasAttr(model, k) ==> Attr(x, k) == Some(filters[k])
      ensures |r| == if skip >= CountByFilters(includeDeleted, filters) then 0
                     else Min(limit, CountByFilters(includeDeleted, filters) - skip)
    {
      Page(Matching(model, table, Recognized(model, filters), includeDeleted), skip, limit)
    }

    /**
     * `results[0] if results else None` over get_by_filters with the default
     * page: the first row the filters select, if any.
     */
    function First(filters: Filters): (r: Option<Record>)
      reads this
      ensures r.None? <==> forall x :: x in table ==> !Selected(model, x, Recognized(model, filters), false)
      ensures r.Some? ==> r.value in table && Visible(model, r.value, false)
      ensures r.Some? ==> forall k :: k in filters && HasAttr(model, k) ==> Attr(r.value, k) == Some(filters[k])
    {
      var results := GetByFilters(0, 100, false, filters);
      if results == [] then
        None
      else
        assert results[0] in results;
        Some(results[0])
    }

    /** exists: the same conditions, with soft-deleted rows counted too. */
    function Exists(filters: Filters): (b: bool)
      reads this
      ensures b <==> exists x :: x in table && Satisfies(x, Recognized(model, filters))
    {
      var found := Matching(model, table, Recognized(model, filters), true);
      if found == [] then false
      else
        assert found[0] in found;
        true
    }

    /** count: the number of rows the query can see (CountIsPositions gives its value). */
    function Count(includeDeleted: bool): (n: nat)
      reads this
      ensures n <= |table|
      ensures includeDeleted || !model.supportsSoftDelete ==> n == |table|
    {
      var rows := Matching(model, table, map[], includeDeleted);
      if includeDeleted || !model.supportsSoftDelete then
        WhereAll(table, SelectedBy(model, map[], includeDeleted));
        |rows|
      else
        |rows|
    }

    /** count_by_filters: the number of rows the recognised filters select (CountByFiltersIsPositions gives its value). */
    function CountByFilters(includeDeleted: bool, filters: Filters): (n: nat)
      reads this
      ensures n <= Count(includeDeleted)
    {
      MatchingFewer(model, table, Recognized(model, filters), includeDeleted);
      |Matching(model, table, Recognized(model, filters), includeDeleted)|
    }

    // -------------------------------------------------- create

    /** create: add the instance and commit; the primary key rejects a reused uuid. */
    method Create(e: Entity) returns (r: Result<Record, RepoError>)
      requires Valid() && Conforms(model, e.Val())
      modifies this
      ensures Valid()
      ensures (forall x :: x in old(table) ==> x.uuid != e.uuid) ==>
        r == Ok(e.Val()) && table == old(table) + [e.Val()]
      ensures (exists x :: x in old(table) && x.uuid == e.uuid) ==>
        r == Err(IntegrityError) && table == old(table)
    {
      if exists x :: x in table && x.uuid == e.uuid {
        return Err(IntegrityError);
      }
      table := table + [e.Val()];
      r := Ok(e.Val());
    }

    /**
     * create_bulk: add every instance in one commit, which fails as a whole
     * when any uuid is reused. An instance listed twice is added once, and
     * the list is returned as given.
     */
    method CreateBulk(objects: seq<Entity>) returns (r: Result<seq<Record>, RepoError>)
      requires Valid() && forall j :: 0 <= j < |objects| ==> Conforms(model, objects[j].Val())
      modifies this
      ensures Valid()
      ensures r.Ok? ==> table == old(table) + Values(Distinct(objects))
      ensures r.Ok? ==> |r.value| == |objects| && forall j :: 0 <= j < |objects| ==> r.value[j] == objects[j].Val()
      ensures r.Err? ==> r.error == IntegrityError && table == old(table)
      ensures r.Ok? <==> UniqueIds(old(table) + Values(Distinct(objects)))
    {
      var added := AddAll(objects);
      var rows := Values(added);
      if !UniqueIds(table + rows) {
        return Err(IntegrityError);
      }
      DistinctConforms(model, objects);
      AppendKeepsTable(model, table, rows);
      table := table + rows;
      r := Ok(Values(objects));
    }

    // -------------------------------------------------- update

    /**
     * update: look the row up as get does, assign each change the instance has
     * an attribute for, except uuid and created_at, and commit.
     */
    method Update(uuid: Uuid, data: Changes) returns (r: Option<Record>)
      requires Valid() && AssignableData(data)
      modifies this
      ensures Valid()
      ensures Find(old(table), uuid, model.supportsSoftDelete).None? ==> r.None? && table == old(table)
      ensures Find(old(table), uuid, model.supportsSoftDelete).Some? ==>
        var i := Find(old(table), uuid, model.supportsSoftDelete).value;
        r == Some(Updated(old(table)[i], data)) && table == old(table)[i := r.value]
    {
      var found := Find(table, uuid, model.supportsSoftDelete);
      if found.None? {
        return None;
      }
      var i := found.value;
      var obj := new Entity.Load(table[i]);
      UpdatedIgnoresProtected(table[i], data);
      AssignChanges(obj, data - {UuidKey, CreatedAtKey});
      UpdatedConforms(model, table[i], data);
      ghost var t := table;
      table := table[i := obj.Val()];
      StampsKeepTable(model, t, table);
      r := Some(obj.Val());
    }

    /**
     * update_bulk: update each pair in turn and keep the instances that were
     * found, which show their rows as last committed.
     */
    method UpdateBulk(updates: seq<(Uuid, Changes)>) returns (updated: seq<Record>)
      requires Valid() && forall j :: 0 <= j < |updates| ==> AssignableData(updates[j].1)
      modifies this
      ensures Valid()
      ensures table == UpdateAll(model, old(table), updates).0
      ensures updated == Refetched(table, UpdateAll(model, old(table), updates).1)
      ensures forall i :: 0 <= i < |updated| ==> updated[i] in table
      ensures forall i, j :: 0 <= i < |updated| && 0 <= j < |updated| && updated[i].uuid == updated[j].uuid ==>
        updated[i] == updated[j]
      ensures DistinctTargets(updates) ==> updated == UpdateAll(model, old(table), updates).1
    {
      ghost var t0 := table;
      updated := [];
      ghost var all := UpdateAll(model, table, updates);
      var pending := updates;
      assert updated + all.1 == all.1;
      while pending != []
        invariant Valid()
        invariant forall j :: 0 <= j < |pending| ==> AssignableData(pending[j].1)
        invariant all.0 == UpdateAll(model, table, pending).0
        invariant all.1 == updated + UpdateAll(model, table, pending).1
        decreases |pending|
      {
        var (uuid, data) := pending[0];
        ghost var t := table;
        var obj := Update(uuid, data);
        UpdateAllStep(model, t, table, pending, obj, updated, all);
        if obj.Some? {
          updated := updated + [obj.value];
        }
        pending := pending[1..];
      }
      RefetchedResult(model, t0, updates);
      updated := Refetched(table, updated);
    }

    // -------------------------------------------------- delete

    /** delete: a row get can see is removed for good. */
    method Delete(uuid: Uuid) returns (deleted: bool)
      requires Valid()
      modifies this
      ensures Valid()
      ensures deleted == old(Get(uuid)).Some?
      ensures !deleted ==> table == old(table)
      ensures deleted ==> var i := Find(old(table), uuid, model.supportsSoftDelete).value;
        table == old(table)[..i] + old(table)[i + 1..]
      ensures deleted ==> forall x :: x in table ==> x.uuid != uuid
    {
      var found := Find(table, uuid, model.supportsSoftDelete);
      if found.None? {
        return false;
      }
      var i := found.value;
      RemovedRowGone(table, i);
      table := table[..i] + table[i + 1..];
      deleted := true;
    }

    /** delete_bulk: every listed row is removed, soft-deleted or not, and counted. */
    method DeleteBulk(uuids: seq<Uuid>) returns (n: nat)
      requires Valid()
      modifies this
      ensures Valid()
      ensures table == Where(old(table), Unlisted(uuids))
      ensures n == |Where(old(table), Listed(uuids))|
      ensures n == |old(table)| - |table|
    {
      var objects := Positions(table, Listed(uuids));
      var marked: set<Uuid> := {};
      for k := 0 to |objects|
        invariant forall u :: u in marked <==> exists j :: 0 <= j < k && table[objects[j]].uuid == u
      {
        marked := marked + {table[objects[k]].uuid};
      }
      ghost var t := table;
      forall j | 0 <= j < |t|
        ensures (t[j].uuid !in marked) == (t[j].uuid !in uuids)
      {
        if t[j].uuid in uuids {
          assert j in objects;
        }
      }
      WhereAgree(t, (x: Record) => x.uuid !in marked, Unlisted(uuids));
      table := Where(table, (x: Record) => x.uuid !in marked);
      PartitionCount(t, uuids);
      PositionsCount(t, Listed(uuids));
      n := |objects|;
      KeepOk(model, t, Unlisted(uuids));
    }

    // -------------------------------------------------- soft delete and restore

    /** soft_delete: stamp a row get can see; the model must derive from SoftDeleteMixin. */
    method SoftDelete(uuid: Uuid, now: int) returns (r: Result<Option<Record>, RepoError>)
      requires Valid()
      modifies this
      ensures Valid()
      ensures !model.supportsSoftDelete ==>
        r == Err(NotSupported(model.name + " does not support soft delete")) && table == old(table)
      ensures model.supportsSoftDelete ==> match Find(old(table), uuid, true)
        case None => r == Ok(None) && table == old(table)
        case Some(i) => r == Ok(Some(SoftDeleted(old(table)[i], now))) && table == old(table)[i := r.value.value]
      ensures model.supportsSoftDelete ==> Get(uuid).None?
    {
      if !model.supportsSoftDelete {
        return Err(NotSupported(model.name + " does not support soft delete"));
      }
      var found := Find(table, uuid, model.supportsSoftDelete);
      if found.None? {
        return Ok(None);
      }
      var i := found.value;
      var obj := new Entity.Load(table[i]);
      obj.SoftDelete(now);
      ghost var t := table;
      table := table[i := obj.Val()];
      StampsKeepTable(model, t, table);
      r := Ok(Some(obj.Val()));
    }

    /** restore: look the row up including soft-deleted ones and clear its stamp. */
    method Restore(uuid: Uuid) returns (r: Result<Option<Record>, RepoError>)
      requires Valid()
      modifies this
      ensures Valid()
      ensures !model.supportsSoftDelete ==>
        r == Err(NotSupported(model.name + " does not support soft delete")) && table == old(table)
      ensures model.supportsSoftDelete ==> match Find(old(table), uuid, false)
        case None => r == Ok(None) && table == old(table)
        case Some(i) => (r == Ok(Some(Restored(old(table)[i]))) && table == old(table)[i := r.value.value]
            && Get(uuid) == Some(Restored(old(table)[i])))
    {
      if !model.supportsSoftDelete {
        return Err(NotSupported(model.name + " does not support soft delete"));
      }
      var found := Find(table, uuid, false);
      if found.None? {
        return Ok(None);
      }
      var i := found.value;
      var obj := new Entity.Load(table[i]);
      obj.Restore();
      ghost var t := table;
      table := table[i := obj.Val()];
      StampsKeepTable(model, t, table);
      FindUnique(table, uuid, i);
      r := Ok(Some(obj.Val()));
    }

    /** soft_delete_bulk: stamp the listed live rows and count them. */
    method SoftDeleteBulk(uuids: seq<Uuid>, now: int) returns (r: Result<nat, RepoError>)
      requires Valid()
      modifies this
      ensures Valid()
      ensures !model.supportsSoftDelete ==>
        r == Err(NotSupported(model.name + " does not support soft delete")) && table == old(table)
      ensures model.supportsSoftDelete ==>
        && table == SoftDeletedIn(old(table), uuids, now)
        && r == Ok(|Positions(old(table), ListedLive(uuids))|)
    {
      if !model.supportsSoftDelete {
        return Err(NotSupported(model.name + " does not support soft delete"));
      }
      ghost var t0 := table;
      var n := SoftDeleteWhere(ListedLive(uuids), now);
      SoftDeletedInByPositions(model, t0, uuids, now);
      r := Ok(n);
    }

    /**
     * The loop of soft_delete_bulk and of the OTP sweep: call soft_delete on
     * every row the query selects, commit, and count them.
     */
    method SoftDeleteWhere(p: Record -> bool, now: int) returns (n: nat)
      requires Valid()
      modifies this
      ensures Valid()
      ensures table == ApplyAt(old(table), Positions(old(table), p), SoftDeleting(now))
      ensures n == |Positions(old(table), p)|
    {
      var objects := Positions(table, p);
      var t := SoftDeleteRows(table, objects, now);
      StampsKeepTable(model, old(table), t);
      table := t;
      n := |objects|;
    }

    /** restore_bulk: clear the stamp of the listed soft-deleted rows and count them. */
    method RestoreBulk(uuids: seq<Uuid>) returns (r: Result<nat, RepoError>)
      requires Valid()
      modifies this
      ensures Valid()
      ensures !model.supportsSoftDelete ==>
        r == Err(NotSupported(model.name + " does not support soft delete")) && table == old(table)
      ensures model.supportsSoftDelete ==>
        && table == RestoredIn(old(table), uuids)
        && r == Ok(|Positions(old(table), ListedDeleted(uuids))|)
    {
      if !model.supportsSoftDelete {
        return Err(NotSupported(model.name + " does not support soft delete"));
      }
      var objects := Positions(table, ListedDeleted(uuids));
      ghost var t0 := table;
      var t := RestoreRows(table, objects);
      RestoredInByPositions(model, t0, uuids);
      table := t;
      r := Ok(|objects|);
    }
  }

  /** The loop of add_all: each instance joins the session once, at its first occurrence. */
  method AddAll(objects: seq<Entity>) returns (added: seq<Entity>)
    ensures added == Distinct(objects)
  {
    added := [];
    for k := 0 to |objects|
      invariant added == Distinct(objects[..k])
    {
      assert objects[..k + 1][..k] == objects[..k];
      if objects[k] !in added {
        added := added + [objects[k]];
      }
    }
    assert objects[..|objects|] == objects;
  }

  /** The instances added once each are rows of the model when every listed instance is. */
  lemma DistinctConforms(m: Model, objects: seq<Entity>)
    requires forall j :: 0 <= j < |objects| ==> Conforms(m, objects[j].Val())
    ensures forall j :: 0 <= j < |Values(Distinct(objects))| ==> Conforms(m, Values(Distinct(objects))[j])
  {
    var d := Distinct(objects);
    forall j | 0 <= j < |d|
      ensures Conforms(m, d[j].Val())
    {
      assert d[j] in objects;
    }
  }

  // ---------------------------------------------------------------- the queries by position

  /** count is the number of rows the query can see, counted by their positions. */
  lemma CountIsPositions(repo: Repository, includeDeleted: bool)
    ensures repo.Count(includeDeleted) == |Positions(repo.table, SelectedBy(repo.model, map[], includeDeleted))|
  {
    PositionsCount(repo.table, SelectedBy(repo.model, map[], includeDeleted));
  }

  /** count_by_filters is the number of rows the recognised filters select, counted by their positions. */
  lemma CountByFiltersIsPositions(repo: Repository, includeDeleted: bool, filters: Filters)
    ensures repo.CountByFilters(includeDeleted, filters) ==
      |Positions(repo.table, SelectedBy(repo.model, Recognized(repo.model, filters), includeDeleted))|
  {
    PositionsCount(repo.table, SelectedBy(repo.model, Recognized(repo.model, filters), includeDeleted));
  }

  /**
   * get_all returns the visible rows at consecutive positions of the query
   * from `skip` on: in table order, without repeats, and as many as allowed.
   */
  lemma GetAllAt(repo: Repository, skip: nat, limit: nat, includeDeleted: bool)
    ensures var ps := Positions(repo.table, SelectedBy(repo.model, map[], includeDeleted));
      |repo.GetAll(skip, limit, includeDeleted)| == if skip >= |ps| then 0 else Min(limit, |ps| - skip)
    ensures var ps := Positions(repo.table, SelectedBy(repo.model, map[], includeDeleted));
      forall i :: 0 <= i < |repo.GetAll(skip, limit, includeDeleted)| ==>
        skip + i < |ps| && repo.GetAll(skip, limit, includeDeleted)[i] == repo.table[ps[skip + i]]
  {
    PositionsCount(repo.table, SelectedBy(repo.model, map[], includeDeleted));
  }

  /**
   * get_by_filters returns the rows the recognised filters select at
   * consecutive positions from `skip` on: in table order, without repeats,
   * and as many as allowed.
   */
  lemma GetByFiltersAt(repo: Repository, skip: nat, limit: nat, includeDeleted: bool, filters: Filters)
    ensures var ps := Positions(repo.table, SelectedBy(repo.model, Recognized(repo.model, filters), includeDeleted));
      |repo.GetByFilters(skip, limit, includeDeleted, filters)| == if skip >= |ps| then 0 else Min(limit, |ps| - skip)
    ensures var ps := Positions(repo.table, SelectedBy(repo.model, Recognized(repo.model, filters), includeDeleted));
      forall i :: 0 <= i < |repo.GetByFilters(skip, limit, includeDeleted, filters)| ==>
        skip + i < |ps| && repo.GetByFilters(skip, limit, includeDeleted, filters)[i] == repo.table[ps[skip + i]]
  {
    PositionsCount(repo.table, SelectedBy(repo.model, Recognized(repo.model, filters), includeDeleted));
  }

  /** The loop of update: setattr for every change the instance has an attribute for. */
  method AssignChanges(obj: Entity, changes: Changes)
    requires AssignableData(changes) && UuidKey !in changes && CreatedAtKey !in changes
    modifies obj
    ensures obj.Val() == Updated(old(obj.Val()), changes)
  {
    ghost var row := obj.Val();
    var pending := changes.Keys;
    assert Done(changes, pending) == map[];
    while pending != {}
      invariant pending <= changes.Keys
      invariant obj.Val() == Updated(row, Done(changes, pending))
      decreases pending
    {
      var key :| key in pending;
      UpdatedStep(row, Done(changes, pending), key, changes[key]);
      if key in BaseColumns || key in obj.attrs {
        obj.SetAttr(key, changes[key]);
      }
      DoneStep(changes, pending, key);
      pending := pending - {key};
    }
    assert Done(changes, {}) == changes;
  }

  /** The changes the loop of update has applied while `pending` remain. */
  function Done(changes: Changes, pending: set<string>): Changes {
    map k | k in changes && k !in pending :: changes[k]
  }

  lemma DoneStep(changes: Changes, pending: set<string>, key: string)
    requires key in pending && key in changes
    ensures key !in Done(changes, pending)
    ensures Done(changes, pending - {key}) == Done(changes, pending)[key := changes[key]]
  {
  }

  /** The loop `for obj in objects: obj.soft_delete()` over the selected positions. */
  method SoftDeleteRows(t0: seq<Record>, objects: seq<nat>, now: int) returns (t: seq<Record>)
    requires forall a :: 0 <= a < |objects| ==> objects[a] < |t0|
    requires forall a, b :: 0 <= a < b < |objects| ==> objects[a] < objects[b]
    ensures t == ApplyAt(t0, objects, SoftDeleting(now))
  {
    t := t0;
    for k := 0 to |objects|
      invariant t == ApplyAt(t0, objects[..k], SoftDeleting(now))
    {
      var j := objects[k];
      IncreasingFresh(objects, k);
      ApplyAtStep(t0, objects, k, SoftDeleting(now));
      var row := SoftDeleteRow(t[j], now);
      t := t[j := row];
    }
    assert objects[..|objects|] == objects;
  }

  /** The loop `for obj in objects: obj.restore()` over the selected positions. */
  method RestoreRows(t0: seq<Record>, objects: seq<nat>) returns (t: seq<Record>)
    requires forall a :: 0 <= a < |objects| ==> objects[a] < |t0|
    requires forall a, b :: 0 <= a < b < |objects| ==> objects[a] < objects[b]
    ensures t == ApplyAt(t0, objects, Restoring())
  {
    t := t0;
    for k := 0 to |objects|
      invariant t == ApplyAt(t0, objects[..k], Restoring())
    {
      var j := objects[k];
      IncreasingFresh(objects, k);
      ApplyAtStep(t0, objects, k, Restoring());
      var row := RestoreRow(t[j]);
      t := t[j := row];
    }
    assert objects[..|objects|] == objects;
  }

  /** Load the instance of a row, call its soft_delete, and read it back. */
  method SoftDeleteRow(r: Record, now: int) returns (r': Record)
    ensures r' == SoftDeleted(r, now)
  {
    var obj := new Entity.Load(r);
    obj.SoftDelete(now);
    r' := obj.Val();
  }

  /** Load the instance of a row, call its restore, and read it back. */
  method RestoreRow(r: Record) returns (r': Record)
    ensures r' == Restored(r)
  {
    var obj := new Entity.Load(r);
    obj.Restore();
    r' := obj.Val();
  }

  /** In a strictly increasing sequence no element repeats an earlier one. */
  lemma IncreasingFresh(s: seq<nat>, k: nat)
    requires forall a, b :: 0 <= a < b < |s| ==> s[a] < s[b]
    requires k < |s|
    ensures s[k] !in s[..k]
  {
  }

  /** Removing a row removes its uuid from a table of unique uuids. */
  lemma RemovedRowGone(t: seq<Record>, i: nat)
    requires UniqueIds(t) && i < |t|
    ensures forall x :: x in t[..i] + t[i + 1..] ==> x.uuid != t[i].uuid
  {
    var rest := t[..i] + t[i + 1..];
    forall x | x in rest
      ensures x.uuid != t[i].uuid
    {
      var j :| 0 <= j < |rest| && rest[j] == x;
      if j < i {
        assert x == t[j];
      } else {
        assert x == t[j + 1];
      }
    }
  }

  /** In a table with unique uuids, the row at i is the one Find returns. */
  lemma FindUnique(t: seq<Record>, uuid: Uuid, i: nat)
    requires UniqueIds(t) && i < |t| && t[i].uuid == uuid
    ensures Find(t, uuid, false) == Some(i)
    ensures t[i].Live() ==> Find(t, uuid, true) == Some(i)
  {
  }

  /** Appending rows of the model with fresh, distinct uuids keeps the table invariant. */
  lemma AppendKeepsTable(m: Model, t: seq<Record>, rows: seq<Record>)
    requires TableOk(m, t) && UniqueIds(t + rows)
    requires forall j :: 0 <= j < |rows| ==> Conforms(m, rows[j])
    ensures TableOk(m, t + rows)
  {
    forall j | 0 <= j < |t + rows|
      ensures Conforms(m, (t + rows)[j])
    {
      if j >= |t| {
        assert (t + rows)[j] == rows[j - |t|];
      }
    }
  }

  /** Removing rows keeps the table invariant. */
  lemma {:induction false} KeepOk(m: Model, t: seq<Record>, p: Record -> bool)
    requires TableOk(m, t)
    ensures TableOk(m, Where(t, p))
  {
    if t != [] {
      KeepOk(m, t[1..], p);
      var rest := Where(t[1..], p);
      forall j | 0 <= j < |rest|
        ensures rest[j].uuid != t[0].uuid && rest[j] in t
      {
        assert rest[j] in t[1..];
      }
    }
  }

  /** The listed and the unlisted rows make up the table. */
  lemma {:induction false} PartitionCount(t: seq<Record>, uuids: seq<Uuid>)
    ensures |Where(t, Listed(uuids))| + |Where(t, Unlisted(uuids))| == |t|
  {
    if t != [] {
      PartitionCount(t[1..], uuids);
    }
  }
}
