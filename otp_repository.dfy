/**
 * OTPRepository: the persisted OTP rows and the three queries of its own.
 *
 * A datetime is an integer number of seconds; a comparison with a column
 * that does not hold a datetime is SQL's unknown and selects nothing.
 */
module OtpRepositories {
  import opened Wrappers
  import opened Records
  import opened Repositories

  const MobileNumberKey: string := "mobile_number"
  const ExpiresAtKey: string := "expires_at"
  const IsVerifiedKey: string := "is_verified"

  /** The OTP table model: its columns with their defaults, and soft delete. */
  const OtpModel: Model := Model("OTP",
    map[MobileNumberKey := Null, "otp" := Null, ExpiresAtKey := Null,
        "attempts" := Int(0), IsVerifiedKey := Bool(false), "verified_at" := Null],
    true)

  predicate MobileIs(r: Record, mobile: string) {
    Attr(r, MobileNumberKey) == Some(Str(mobile))
  }

  /** `expires_at > now` */
  predicate ExpiresAfter(r: Record, now: int) {
    match Attr(r, ExpiresAtKey)
    case Some(Int(e)) => e > now
    case _ => false
  }

  /** `expires_at <= now` */
  predicate ExpiredBy(r: Record, now: int) {
    match Attr(r, ExpiresAtKey)
    case Some(Int(e)) => e <= now
    case _ => false
  }

  /** `is_verified == False` */
  predicate Unverified(r: Record) {
    Attr(r, IsVerifiedKey) == Some(Bool(false))
  }

  /** The rows get_active_by_mobile selects before ordering. */
  function ActiveFor(mobile: string, now: int): Record -> bool {
    (r: Record) => MobileIs(r, mobile) && ExpiresAfter(r, now) && Unverified(r) && r.Live()
  }

  /** The rows get_latest_by_mobile selects before ordering. */
  function OfMobile(mobile: string, includeDeleted: bool): Record -> bool {
    (r: Record) => MobileIs(r, mobile) && (includeDeleted || r.Live())
  }

  /** The rows soft_delete_expired stamps. */
  function SweepableAt(now: int): Record -> bool {
    (r: Record) => ExpiredBy(r, now) && Unverified(r) && r.Live()
  }

  /**
   * ORDER BY created_at DESC LIMIT 1: a newest row, the earliest in table
   * order among rows created at the same instant.
   */
  function Latest(s: seq<Record>): (r: Option<Record>)
    ensures r.None? <==> s == []
    ensures r.Some? ==> r.value in s && forall x :: x in s ==> x.createdAt <= r.value.createdAt
  {
    if s == [] then None
    else match Latest(s[1..])
      case None => Some(s[0])
      case Some(y) => if y.createdAt > s[0].createdAt then Some(y) else Some(s[0])
  }

  /** get_active_by_mobile */
  function GetActiveByMobile(repo: Repository, mobile: string, now: int): (r: Option<Record>)
    reads repo
    ensures r.None? <==> forall x :: x in repo.table ==> !ActiveFor(mobile, now)(x)
    ensures r.Some? ==> && r.value in repo.table
                        && MobileIs(r.value, mobile) && ExpiresAfter(r.value, now)
                        && Unverified(r.value) && r.value.Live()
    ensures r.Some? ==> forall x :: x in repo.table && ActiveFor(mobile, now)(x) ==>
                          x.createdAt <= r.value.createdAt
  {
    var rows := Where(repo.table, ActiveFor(mobile, now));
    Latest(rows)
  }

  /** get_latest_by_mobile */
  function GetLatestByMobile(repo: Repository, mobile: string, includeDeleted: bool): (r: Option<Record>)
    reads repo
    ensures r.None? <==> forall x :: x in repo.table && MobileIs(x, mobile) ==> !includeDeleted && !x.Live()
    ensures r.Some? ==> r.value in repo.table && MobileIs(r.value, mobile) && (includeDeleted || r.value.Live())
    ensures r.Some? ==> forall x :: x in repo.table && OfMobile(mobile, includeDeleted)(x) ==>
                          x.createdAt <= r.value.createdAt
  {
    var rows := Where(repo.table, OfMobile(mobile, includeDeleted));
    Latest(rows)
  }

  /** soft_delete_expired: stamp every expired, unverified, live OTP and count them. */
  method SoftDeleteExpired(repo: Repository, now: int) returns (n: nat)
    requires repo.Valid()
    modifies repo
    ensures repo.Valid()
    ensures repo.table == Swept(old(repo.table), now)
    ensures n == |Where(old(repo.table), SweepableAt(now))|
  {
    ghost var t0 := repo.table;
    n := repo.SoftDeleteWhere(SweepableAt(now), now);
    ApplyAtPositions(t0, SweepableAt(now), SoftDeleting(now));
    PositionsCount(t0, SweepableAt(now));
  }

  /** The table after soft_delete_expired, row by row. */
  function Swept(t: seq<Record>, now: int): (r: seq<Record>)
    ensures |r| == |t|
  {
    seq(|t|, j requires 0 <= j < |t| => if SweepableAt(now)(t[j]) then SoftDeleted(t[j], now) else t[j])
  }

  /** An OTP row is either active for its own number or a candidate for the sweep, never both. */
  lemma ActiveExcludesSweepable(r: Record, mobile: string, now: int)
    ensures !(ActiveFor(mobile, now)(r) && SweepableAt(now)(r))
    ensures r.Live() && Unverified(r) && Attr(r, ExpiresAtKey).Some? && Attr(r, ExpiresAtKey).value.Int? ==>
      ExpiresAfter(r, now) || SweepableAt(now)(r)
  {
  }

  /** Rows that agree wherever the predicate holds, and on the predicate, select the same rows. */
  lemma {:induction false} WhereUnchangedOn(t: seq<Record>, t': seq<Record>, p: Record -> bool)
    requires |t| == |t'|
    requires forall j :: 0 <= j < |t| ==> p(t[j]) == p(t'[j])
    requires forall j :: 0 <= j < |t| && p(t[j]) ==> t[j] == t'[j]
    ensures Where(t, p) == Where(t', p)
  {
    if t != [] {
      WhereUnchangedOn(t[1..], t'[1..], p);
    }
  }

  /** The sweep never hides an active OTP: every number's active OTP is the same after it. */
  lemma SweepKeepsActive(t: seq<Record>, mobile: string, now: int)
    ensures Where(Swept(t, now), ActiveFor(mobile, now)) == Where(t, ActiveFor(mobile, now))
  {
    var t' := Swept(t, now);
    forall j | 0 <= j < |t|
      ensures ActiveFor(mobile, now)(t'[j]) == ActiveFor(mobile, now)(t[j])
      ensures ActiveFor(mobile, now)(t'[j]) ==> t'[j] == t[j]
    {
      if SweepableAt(now)(t[j]) {
        ActiveExcludesSweepable(t[j], mobile, now);
        assert !t'[j].Live();
      }
    }
    WhereUnchangedOn(t', t, ActiveFor(mobile, now));
  }

  /** A second sweep at the same instant finds nothing. */
  lemma SweepTwiceFindsNothing(t: seq<Record>, now: int)
    ensures Where(Swept(t, now), SweepableAt(now)) == []
  {
    PositionsCount(Swept(t, now), SweepableAt(now));
  }
}
