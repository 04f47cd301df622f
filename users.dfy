/**
 * UserRepository: the user table and its two lookups.
 *
 * User derives from the BaseSQLModel of app/core/models.py, whose soft-delete
 * mixin is not the one the generic repository tests, so the repository never
 * treats users as soft-deletable.
 */
module Users {
  import opened Wrappers
  import opened Records
  import opened Repositories

  const MobileNumberKey: string := "mobile_number"
  const EmailKey: string := "email"
  const PasswordKey: string := "password"
  const IsActiveKey: string := "is_active"

  /** The columns of app/users/models.py with their defaults. */
  const UserColumns: map<string, Value> := map[
    MobileNumberKey := Null, EmailKey := Null, "company_name" := Null, "state" := Null,
    "company_address" := Null, "gstin" := Null, "pan" := Null,
    IsActiveKey := Bool(true), "is_verified" := Bool(false)]

  /** The User table as declared: it has no password column. */
  const UserModelAsWritten: Model := Model("User", UserColumns, false)

  /** The User table with the password column the services read and write. */
  const UserModel: Model := Model("User", UserColumns[PasswordKey := Null], false)

  /** get_by_email */
  function GetByEmail(repo: Repository, email: string): (r: Option<Record>)
    reads repo
    ensures r.Some? ==> r.value in repo.table && Visible(repo.model, r.value, false)
    ensures HasAttr(repo.model, EmailKey) ==> r.Some? ==> Attr(r.value, EmailKey) == Some(Str(email))
    ensures HasAttr(repo.model, EmailKey) && !repo.model.supportsSoftDelete ==>
      (r.None? <==> forall x :: x in repo.table ==> Attr(x, EmailKey) != Some(Str(email)))
  {
    repo.First(map[EmailKey := Str(email)])
  }

  /** get_by_mobile */
  function GetByMobile(repo: Repository, mobile: string): (r: Option<Record>)
    reads repo
    ensures r.Some? ==> r.value in repo.table && Visible(repo.model, r.value, false)
    ensures HasAttr(repo.model, MobileNumberKey) ==> r.Some? ==> Attr(r.value, MobileNumberKey) == Some(Str(mobile))
    ensures HasAttr(repo.model, MobileNumberKey) && !repo.model.supportsSoftDelete ==>
      (r.None? <==> forall x :: x in repo.table ==> Attr(x, MobileNumberKey) != Some(Str(mobile)))
  {
    repo.First(map[MobileNumberKey := Str(mobile)])
  }

  /** A user table of either declaration. */
  predicate IsUserTable(repo: Repository)
    reads repo
  {
    repo.model == UserModel || repo.model == UserModelAsWritten
  }

  /** The lookup by email does not hide soft-deleted users. */
  lemma SoftDeletedUserFoundByEmail(repo: Repository, u: Record, email: string)
    requires IsUserTable(repo)
    requires u in repo.table && !u.Live() && Attr(u, EmailKey) == Some(Str(email))
    ensures GetByEmail(repo, email).Some?
  {
  }

  /** The lookup by mobile number does not hide soft-deleted users. */
  lemma SoftDeletedUserFoundByMobile(repo: Repository, u: Record, mobile: string)
    requires IsUserTable(repo)
    requires u in repo.table && !u.Live() && Attr(u, MobileNumberKey) == Some(Str(mobile))
    ensures GetByMobile(repo, mobile).Some?
  {
  }
}
