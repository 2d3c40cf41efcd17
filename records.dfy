/** The six record kinds of the local database (lib/database.ts), with dates
    as integer millisecond timestamps and money as whole currency units.
    An absent `isSynced` reads as false wherever the application tests it,
    so it is a plain boolean here. */
module Records {
  import opened Optional
  import opened Seqs

  datatype Gender = Male | Female
  datatype DeceasedStatus = Pending | Completed
  datatype Religion = Christian | Muslim | OtherReligion
  datatype Role = Admin | Recorder | Viewer | Auditor

  datatype Deceased = Deceased(
    id: int,
    name: string,
    age: int,
    gender: Gender,
    deathDate: string,
    burialDate: string,
    photo: Option<string>,
    representativeName: string,
    representativePhone: string,
    status: DeceasedStatus,
    isSynced: bool,
    createdAt: int,
    updatedAt: int)

  datatype Contributor = Contributor(
    id: int,
    name: string,
    phone: string,
    religion: Religion,
    expectedContribution: int,
    isSynced: bool,
    createdAt: int,
    updatedAt: int)

  datatype Contribution = Contribution(
    id: int,
    deceasedId: int,
    contributorId: int,
    amount: int,
    date: int,
    notes: Option<string>,
    isSynced: bool,
    createdAt: int)

  datatype Expense = Expense(
    id: int,
    deceasedId: int,
    description: string,
    amount: int,
    date: int,
    isSynced: bool,
    createdAt: int)

  datatype User = User(
    id: int,
    name: string,
    email: string,
    password: string,
    role: Role,
    isActive: bool,
    createdAt: int,
    updatedAt: int)

  datatype Setting = Setting(id: int, key: string, value: string, updatedAt: int)

  /** The signed-in user as the session keeps it (lib/auth.ts). */
  datatype AuthUser = AuthUser(id: int, email: string, name: string, role: Role, createdAt: int)

  /** What `getAllDeceased`, `getAllContributors`, `getAllContributions`
      and `getAllExpenses` return. */
  datatype Stores = Stores(
    deceased: seq<Deceased>,
    contributors: seq<Contributor>,
    contributions: seq<Contribution>,
    expenses: seq<Expense>)

  /** The backup document: every collection in primary-key order. */
  datatype Snapshot = Snapshot(
    deceased: seq<Deceased>,
    contributors: seq<Contributor>,
    contributions: seq<Contribution>,
    expenses: seq<Expense>,
    users: seq<User>,
    settings: seq<Setting>)

  // Primary keys and index fields, as function values for the generic tables.
  function DeceasedKey(d: Deceased): int { d.id }
  function ContributorKey(c: Contributor): int { c.id }
  function ContributionKey(c: Contribution): int { c.id }
  function ExpenseKey(e: Expense): int { e.id }
  function UserKey(u: User): int { u.id }
  function SettingKey(s: Setting): int { s.id }
  function DeceasedCreatedAt(d: Deceased): int { d.createdAt }
  function ContributionDate(c: Contribution): int { c.date }
  function ExpenseDate(e: Expense): int { e.date }
  function ReligionOf(c: Contributor): Religion { c.religion }
  function StatusOf(d: Deceased): DeceasedStatus { d.status }

  /** The fields a `Partial<Deceased>` may carry: None leaves a field alone. */
  datatype DeceasedPatch = DeceasedPatch(
    name: Option<string>,
    age: Option<int>,
    gender: Option<Gender>,
    deathDate: Option<string>,
    burialDate: Option<string>,
    photo: Option<string>,
    representativeName: Option<string>,
    representativePhone: Option<string>,
    status: Option<DeceasedStatus>,
    isSynced: Option<bool>,
    createdAt: Option<int>)

  datatype ContributorPatch = ContributorPatch(
    name: Option<string>,
    phone: Option<string>,
    religion: Option<Religion>,
    expectedContribution: Option<int>,
    isSynced: Option<bool>,
    createdAt: Option<int>)

  datatype UserPatch = UserPatch(
    name: Option<string>,
    email: Option<string>,
    password: Option<string>,
    role: Option<Role>,
    isActive: Option<bool>)

  /** `{...record, ...updates, updatedAt: now}` for a deceased record. */
  function PatchDeceased(d: Deceased, p: DeceasedPatch, now: int): (r: Deceased)
    ensures r.id == d.id && r.updatedAt == now
    ensures p.name.None? ==> r.name == d.name
    ensures p.name.Some? ==> r.name == p.name.value
    ensures p.age.None? ==> r.age == d.age
    ensures p.age.Some? ==> r.age == p.age.value
    ensures p.gender.None? ==> r.gender == d.gender
    ensures p.gender.Some? ==> r.gender == p.gender.value
    ensures p.deathDate.None? ==> r.deathDate == d.deathDate
    ensures p.deathDate.Some? ==> r.deathDate == p.deathDate.value
    ensures p.burialDate.None? ==> r.burialDate == d.burialDate
    ensures p.burialDate.Some? ==> r.burialDate == p.burialDate.value
    ensures p.photo.None? ==> r.photo == d.photo
    ensures p.photo.Some? ==> r.photo == p.photo
    ensures p.representativeName.None? ==> r.representativeName == d.representativeName
    ensures p.representativeName.Some? ==> r.representativeName == p.representativeName.value
    ensures p.representativePhone.None? ==> r.representativePhone == d.representativePhone
    ensures p.representativePhone.Some? ==> r.representativePhone == p.representativePhone.value
    ensures p.status.None? ==> r.status == d.status
    ensures p.status.Some? ==> r.status == p.status.value
    ensures p.isSynced.None? ==> r.isSynced == d.isSynced
    ensures p.isSynced.Some? ==> r.isSynced == p.isSynced.value
    ensures p.createdAt.None? ==> r.createdAt == d.createdAt
    ensures p.createdAt.Some? ==> r.createdAt == p.createdAt.value
  {
    d.(name := p.name.GetOr(d.name),
       age := p.age.GetOr(d.age),
       gender := p.gender.GetOr(d.gender),
       deathDate := p.deathDate.GetOr(d.deathDate),
       burialDate := p.burialDate.GetOr(d.burialDate),
       photo := if p.photo.Some? then p.photo else d.photo,
       representativeName := p.representativeName.GetOr(d.representativeName),
       representativePhone := p.representativePhone.GetOr(d.representativePhone),
       status := p.status.GetOr(d.status),
       isSynced := p.isSynced.GetOr(d.isSynced),
       createdAt := p.createdAt.GetOr(d.createdAt),
       updatedAt := now)
  }

  function PatchContributor(c: Contributor, p: ContributorPatch, now: int): (r: Contributor)
    ensures r.id == c.id && r.updatedAt == now
    ensures p.name.None? ==> r.name == c.name
    ensures p.name.Some? ==> r.name == p.name.value
    ensures p.phone.None? ==> r.phone == c.phone
    ensures p.phone.Some? ==> r.phone == p.phone.value
    ensures p.religion.None? ==> r.religion == c.religion
    ensures p.religion.Some? ==> r.religion == p.religion.value
    ensures p.expectedContribution.None? ==> r.expectedContribution == c.expectedContribution
    ensures p.expectedContribution.Some? ==> r.expectedContribution == p.expectedContribution.value
    ensures p.isSynced.None? ==> r.isSynced == c.isSynced
    ensures p.isSynced.Some? ==> r.isSynced == p.isSynced.value
    ensures p.createdAt.None? ==> r.createdAt == c.createdAt
    ensures p.createdAt.Some? ==> r.createdAt == p.createdAt.value
  {
    c.(name := p.name.GetOr(c.name),
       phone := p.phone.GetOr(c.phone),
       religion := p.religion.GetOr(c.religion),
       expectedContribution := p.expectedContribution.GetOr(c.expectedContribution),
       isSynced := p.isSynced.GetOr(c.isSynced),
       createdAt := p.createdAt.GetOr(c.createdAt),
       updatedAt := now)
  }

  function PatchUser(u: User, p: UserPatch, now: int): (r: User)
    ensures r.id == u.id && r.createdAt == u.createdAt && r.updatedAt == now
    ensures p.name.None? ==> r.name == u.name
    ensures p.name.Some? ==> r.name == p.name.value
    ensures p.email.None? ==> r.email == u.email
    ensures p.email.Some? ==> r.email == p.email.value
    ensures p.password.None? ==> r.password == u.password
    ensures p.password.Some? ==> r.password == p.password.value
    ensures p.role.None? ==> r.role == u.role
    ensures p.role.Some? ==> r.role == p.role.value
    ensures p.isActive.None? ==> r.isActive == u.isActive
    ensures p.isActive.Some? ==> r.isActive == p.isActive.value
  {
    u.(name := p.name.GetOr(u.name),
       email := p.email.GetOr(u.email),
       password := p.password.GetOr(u.password),
       role := p.role.GetOr(u.role),
       isActive := p.isActive.GetOr(u.isActive),
       updatedAt := now)
  }

  /** A whole server record used as the `updates` argument: every field it
      carries overwrites, except the primary key (equal anyway) and
      `updatedAt` (overwritten by the update itself); an absent photo is
      not carried. */
  function DeceasedAsPatch(d: Deceased): DeceasedPatch {
    DeceasedPatch(Some(d.name), Some(d.age), Some(d.gender), Some(d.deathDate),
                  Some(d.burialDate), d.photo, Some(d.representativeName),
                  Some(d.representativePhone), Some(d.status), Some(d.isSynced),
                  Some(d.createdAt))
  }

  function ContributorAsPatch(c: Contributor): ContributorPatch {
    ContributorPatch(Some(c.name), Some(c.phone), Some(c.religion),
                     Some(c.expectedContribution), Some(c.isSynced), Some(c.createdAt))
  }

  /** Updating with a whole server record takes the server's fields and a
      fresh `updatedAt`; only an absent photo keeps the local one. */
  lemma DeceasedFullPatch(local: Deceased, server: Deceased, now: int)
    requires local.id == server.id
    ensures PatchDeceased(local, DeceasedAsPatch(server), now) ==
            server.(updatedAt := now, photo := if server.photo.Some? then server.photo else local.photo)
  {
  }

  /** Every contributor has one of the three religions, and every deceased
      one of the two statuses. */
  lemma {:induction false} ReligionCountsCover(cs: seq<Contributor>)
    ensures Count(cs, KeyIs(ReligionOf, Christian)) + Count(cs, KeyIs(ReligionOf, Muslim))
            + Count(cs, KeyIs(ReligionOf, OtherReligion)) == |cs|
  {
    if cs != [] {
      ReligionCountsCover(cs[1..]);
      CountFirst(cs, KeyIs(ReligionOf, Christian));
      CountFirst(cs, KeyIs(ReligionOf, Muslim));
      CountFirst(cs, KeyIs(ReligionOf, OtherReligion));
      assert KeyIs(ReligionOf, Christian)(cs[0]) == (cs[0].religion == Christian);
      assert KeyIs(ReligionOf, Muslim)(cs[0]) == (cs[0].religion == Muslim);
      assert KeyIs(ReligionOf, OtherReligion)(cs[0]) == (cs[0].religion == OtherReligion);
    }
  }

  lemma {:induction false} StatusCountsCover(ds: seq<Deceased>)
    ensures Count(ds, KeyIs(StatusOf, Pending)) + Count(ds, KeyIs(StatusOf, Completed)) == |ds|
  {
    if ds != [] {
      StatusCountsCover(ds[1..]);
      CountFirst(ds, KeyIs(StatusOf, Pending));
      CountFirst(ds, KeyIs(StatusOf, Completed));
      assert KeyIs(StatusOf, Pending)(ds[0]) == (ds[0].status == Pending);
      assert KeyIs(StatusOf, Completed)(ds[0]) == (ds[0].status == Completed);
    }
  }
}
