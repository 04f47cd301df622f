/**
 * The persisted entity base (BaseSQLModel = UUIDModel + TimestampModel +
 * SoftDeleteMixin): every row carries a uuid, two timestamps and a nullable
 * deletion stamp, beside the columns of its own model.
 *
 * A row is a `Record` value; the ORM instance that the repository fetches,
 * changes and commits is an `Entity` object with the same fields.
 */
module Records {
  import opened Wrappers

  type Uuid = nat

  /** A column value as the ORM holds it; datetimes and dates are integers (seconds). */
  datatype Value = Null | Bool(b: bool) | Int(i: int) | Str(s: string) | Id(id: Uuid)

  /** Python's truth value of a column value, as in `if not user.is_active`. */
  predicate Truthy(v: Value) {
    match v
    case Null => false
    case Bool(b) => b
    case Int(i) => i != 0
    case Str(s) => s != ""
    case Id(_) => true
  }

  const UuidKey: string := "uuid"
  const CreatedAtKey: string := "created_at"
  const UpdatedAtKey: string := "updated_at"
  const DeletedAtKey: string := "deleted_at"

  /** The columns every BaseSQLModel has. */
  const BaseColumns: set<string> := {UuidKey, CreatedAtKey, UpdatedAtKey, DeletedAtKey}

  /** One stored row: the base columns, typed, and the model's own columns by name. */
  datatype Record = Record(
    uuid: Uuid,
    createdAt: int,
    updatedAt: int,
    deletedAt: Option<int>,
    attrs: map<string, Value>)
  {
    /** `deleted_at IS NULL` */
    predicate Live() {
      deletedAt.None?
    }
  }

  function Stamp(t: Option<int>): Value {
    match t
    case None => Null
    case Some(i) => Int(i)
  }

  /** An optional integer field as a column value. */
  function OptInt(v: Option<int>): Value {
    match v
    case Some(i) => Int(i)
    case None => Null
  }

  /** An optional string field as a column value. */
  function OptStr(v: Option<string>): Value {
    match v
    case Some(s) => Str(s)
    case None => Null
  }

  /** getattr(record, key), or None when the record has no such attribute. */
  function Attr(r: Record, key: string): Option<Value> {
    if key == UuidKey then Some(Id(r.uuid))
    else if key == CreatedAtKey then Some(Int(r.createdAt))
    else if key == UpdatedAtKey then Some(Int(r.updatedAt))
    else if key == DeletedAtKey then Some(Stamp(r.deletedAt))
    else if key in r.attrs then Some(r.attrs[key])
    else None
  }

  /** getattr with a Null in place of a missing attribute. */
  function Field(r: Record, key: string): Value {
    match Attr(r, key)
    case Some(v) => v
    case None => Null
  }

  /** hasattr(instance, key) */
  predicate HasField(r: Record, key: string) {
    key in BaseColumns || key in r.attrs
  }

  /**
   * model_dump(exclude=excluded): every attribute of the record except the
   * excluded names.
   */
  function Dump(r: Record, excluded: set<string>): (d: map<string, Value>)
    ensures forall k :: k in d <==> HasField(r, k) && k !in excluded
    ensures forall k :: k in d ==> Attr(r, k) == Some(d[k])
  {
    map k | k in (BaseColumns + r.attrs.Keys) - excluded :: Field(r, k)
  }

  /**
   * An entity class. `columns` maps each of its own columns to the value a new
   * instance gets when the column is not given (Null when it has no default);
   * `supportsSoftDelete` says whether it derives from the SoftDeleteMixin of
   * app/common/models.py, the one the repository tests with issubclass.
   */
  datatype Model = Model(name: string, columns: map<string, Value>, supportsSoftDelete: bool)

  /** A model's own columns never shadow the base columns. */
  predicate WellFormed(m: Model) {
    m.columns.Keys !! BaseColumns
  }

  /** hasattr(model_class, key), restricted to column names. */
  predicate HasAttr(m: Model, key: string) {
    key in BaseColumns || key in m.columns
  }

  /** A row of model `m` holds exactly the model's own columns. */
  predicate Conforms(m: Model, r: Record) {
    r.attrs.Keys == m.columns.Keys
  }

  /**
   * The column values of Model(**kwargs): a given column takes its value, a
   * missing one its default, and keys that are not columns are dropped.
   */
  function Construct(m: Model, kwargs: map<string, Value>): map<string, Value> {
    map k | k in m.columns :: if k in kwargs then kwargs[k] else m.columns[k]
  }

  lemma ConstructConforms(m: Model, kwargs: map<string, Value>)
    ensures Conforms(m, Record(0, 0, 0, None, Construct(m, kwargs)))
    ensures forall k :: k in m.columns && k in kwargs ==> Construct(m, kwargs)[k] == kwargs[k]
    ensures forall k :: k in m.columns && k !in kwargs ==> Construct(m, kwargs)[k] == m.columns[k]
    ensures forall k :: k in kwargs && k !in m.columns ==> k !in Construct(m, kwargs)
  {
  }

  /** SoftDeleteMixin.soft_delete on a row's value. */
  function SoftDeleted(r: Record, now: int): Record {
    r.(deletedAt := Some(now))
  }

  /** SoftDeleteMixin.restore on a row's value. */
  function Restored(r: Record): Record {
    r.(deletedAt := None)
  }

  lemma SoftDeleteOnlyStamps(r: Record, now: int)
    ensures !SoftDeleted(r, now).Live()
    ensures forall k :: k != DeletedAtKey ==> Attr(SoftDeleted(r, now), k) == Attr(r, k)
    ensures Attr(SoftDeleted(r, now), DeletedAtKey) == Some(Int(now))
  {
  }

  lemma RestoreUndoesSoftDelete(r: Record, now: int)
    requires r.Live()
    ensures Restored(SoftDeleted(r, now)) == r
  {
  }

  lemma RestoreIdempotent(r: Record)
    ensures Restored(r).Live()
    ensures Restored(Restored(r)) == Restored(r)
    ensures forall k :: k != DeletedAtKey ==> Attr(Restored(r), k) == Attr(r, k)
  {
  }

  /** The values setattr may store in a base column without breaking its type. */
  predicate Assignable(key: string, v: Value) {
    && (key == UuidKey ==> v.Id?)
    && (key == CreatedAtKey || key == UpdatedAtKey ==> v.Int?)
    && (key == DeletedAtKey ==> v.Null? || v.Int?)
  }

  function StampOf(v: Value): Option<int>
    requires v.Null? || v.Int?
  {
    if v.Null? then None else Some(v.i)
  }

  /** setattr(instance, key, v) on a row's value. */
  function Assigned(r: Record, key: string, v: Value): Record
    requires HasField(r, key) && Assignable(key, v)
  {
    if key == UuidKey then r.(uuid := v.id)
    else if key == CreatedAtKey then r.(createdAt := v.i)
    else if key == UpdatedAtKey then r.(updatedAt := v.i)
    else if key == DeletedAtKey then r.(deletedAt := StampOf(v))
    else r.(attrs := r.attrs[key := v])
  }

  /** The rows a sequence of ORM instances holds. */
  function Values(objs: seq<Entity>): (r: seq<Record>)
    reads objs
    ensures |r| == |objs|
    ensures forall j :: 0 <= j < |objs| ==> r[j] == objs[j].Val()
  {
    if objs == [] then [] else [objs[0].Val()] + Values(objs[1..])
  }

  /**
   * The instances of `objs` without repeats, each at its first occurrence:
   * what the session holds after `add_all(objs)`.
   */
  function Distinct(objs: seq<Entity>): (r: seq<Entity>)
    ensures forall i :: 0 <= i < |objs| ==> objs[i] in r
    ensures forall i :: 0 <= i < |r| ==> r[i] in objs
    ensures forall i, j :: 0 <= i < j < |r| ==> r[i] != r[j]
    ensures |r| <= |objs|
  {
    if objs == [] then []
    else
      var init := objs[..|objs| - 1];
      var last := objs[|objs| - 1];
      assert forall i :: 0 <= i < |init| ==> objs[i] == init[i];
      if last in init then Distinct(init) else Distinct(init) + [last]
  }

  /** Distinct keeps the instances in the order of their first occurrence. */
  lemma {:induction false} DistinctInOrder(objs: seq<Entity>)
    ensures forall i, j :: 0 <= i < j < |Distinct(objs)| ==>
      IndexOf(objs, Distinct(objs)[i]) < IndexOf(objs, Distinct(objs)[j])
  {
    if objs != [] {
      var init := objs[..|objs| - 1];
      var last := objs[|objs| - 1];
      var d := Distinct(init);
      DistinctInOrder(init);
      FirstIndexInPrefix(objs);
      var r := Distinct(objs);
      assert r == if last in init then d else d + [last];
      forall i, j | 0 <= i < j < |r|
        ensures IndexOf(objs, r[i]) < IndexOf(objs, r[j])
      {
        assert r[i] == d[i] && d[i] in init;
        if j < |d| {
          assert r[j] == d[j] && d[j] in init;
        }
      }
    }
  }

  /** The position at which `o` first occurs in `s`. */
  function IndexOf(s: seq<Entity>, o: Entity): (k: nat)
    requires o in s
    ensures k < |s| && s[k] == o
    ensures forall a :: 0 <= a < k ==> s[a] != o
  {
    if s[0] == o then 0 else 1 + IndexOf(s[1..], o)
  }

  /** Dropping the last instance keeps the first occurrences of the others. */
  lemma FirstIndexInPrefix(s: seq<Entity>)
    requires s != []
    ensures forall o :: o in s[..|s| - 1] ==> IndexOf(s, o) == IndexOf(s[..|s| - 1], o) < |s| - 1
    ensures s[|s| - 1] !in s[..|s| - 1] ==> IndexOf(s, s[|s| - 1]) == |s| - 1
  {
    var init := s[..|s| - 1];
    forall o | o in init
      ensures IndexOf(s, o) == IndexOf(init, o) < |s| - 1
    {
      var a, b := IndexOf(s, o), IndexOf(init, o);
      assert s[b] == o;
      assert a <= b;
      assert init[a] == o;
    }
  }

  /** An ORM instance of some model. */
  class Entity {
    var uuid: Uuid
    var createdAt: int
    var updatedAt: int
    var deletedAt: Option<int>
    var attrs: map<string, Value>

    function Val(): Record
      reads this
    {
      Record(uuid, createdAt, updatedAt, deletedAt, attrs)
    }

    /**
     * A new instance: the uuid comes from uuid4 (an input here), created_at
     * and updated_at from the clock reading `now`, and it starts live.
     */
    constructor New(uuid: Uuid, now: int, attrs: map<string, Value>)
      ensures Val() == Record(uuid, now, now, None, attrs)
    {
      this.uuid := uuid;
      this.createdAt := now;
      this.updatedAt := now;
      this.deletedAt := None;
      this.attrs := attrs;
    }

    /** The instance the session hands out for a stored row. */
    constructor Load(r: Record)
      ensures Val() == r
    {
      uuid := r.uuid;
      createdAt := r.createdAt;
      updatedAt := r.updatedAt;
      deletedAt := r.deletedAt;
      attrs := r.attrs;
    }

    method SoftDelete(now: int)
      modifies this
      ensures Val() == SoftDeleted(old(Val()), now)
    {
      deletedAt := Some(now);
    }

    method Restore()
      modifies this
      ensures Val() == Restored(old(Val()))
    {
      deletedAt := None;
    }

    /** setattr(self, key, v) for an attribute the instance has. */
    method SetAttr(key: string, v: Value)
      requires HasField(Val(), key) && Assignable(key, v)
      modifies this
      ensures Val() == Assigned(old(Val()), key, v)
    {
      if key == UuidKey {
        uuid := v.id;
      } else if key == CreatedAtKey {
        createdAt := v.i;
      } else if key == UpdatedAtKey {
        updatedAt := v.i;
      } else if key == DeletedAtKey {
        deletedAt := StampOf(v);
      } else {
        attrs := attrs[key := v];
      }
    }
  }
}
