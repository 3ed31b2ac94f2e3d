/** The user model: the role and gender enumerations of the user schema and the
    `age` virtual computed from the date of birth. */
module Users {
  import opened Wrappers
  import opened Dates

  /** `role: { enum: ['admin', 'user'], default: 'user' }` */
  datatype Role = AdminRole | UserRole

  /** `gender: { enum: ['male', 'female'], required }` */
  datatype Gender = Male | Female

  function RoleName(r: Role): string
  {
    match r
    case AdminRole => "admin"
    case UserRole => "user"
  }

  function GenderName(g: Gender): string
  {
    match g
    case Male => "male"
    case Female => "female"
  }

  /** The role a stored user gets from the submitted field: missing means the default
      `user`; anything outside the enumeration is a validation failure (`None`). */
  function RoleFromField(raw: Option<string>): (r: Option<Role>)
    ensures raw.None? ==> r == Some(UserRole)
    ensures raw.Some? ==> (r.Some? <==> raw.value in {"admin", "user"})
    ensures raw.Some? && r.Some? ==> RoleName(r.value) == raw.value
  {
    match raw
    case None => Some(UserRole)
    case Some(s) =>
      if s == "admin" then Some(AdminRole)
      else if s == "user" then Some(UserRole)
      else None
  }

  /** The gender of a stored user: the field is required, and only the two enumeration
      values are accepted. */
  function GenderFromField(raw: Option<string>): (g: Option<Gender>)
    ensures g.Some? <==> raw.Some? && raw.value in {"male", "female"}
    ensures g.Some? ==> GenderName(g.value) == raw.value
  {
    match raw
    case None => None
    case Some(s) =>
      if s == "male" then Some(Male)
      else if s == "female" then Some(Female)
      else None
  }

  /** Every role and gender survives being written out and read back. */
  lemma EnumerationsRoundTrip(r: Role, g: Gender)
    ensures RoleFromField(Some(RoleName(r))) == Some(r)
    ensures GenderFromField(Some(GenderName(g))) == Some(g)
  {
  }

  /** A stored user; `createdAt` is the schema's timestamp. */
  datatype UserDoc = UserDoc(
    id: string, name: string, email: string, photo: string,
    role: Role, gender: Gender, dob: Date, createdAt: Date)

  /** True when today's (month, day) comes before the birthday's (month, day). */
  predicate BeforeBirthdayInYear(today: Date, dob: Date)
  {
    today.month < dob.month || (today.month == dob.month && today.day < dob.day)
  }

  /** The `age` virtual: the difference of the years, less one while this year's
      birthday is still ahead. */
  function Age(today: Date, dob: Date): (age: int)
    ensures age == today.year - dob.year || age == today.year - dob.year - 1
    ensures age == today.year - dob.year - 1 <==> BeforeBirthdayInYear(today, dob)
  {
    var age := today.year - dob.year;
    if BeforeBirthdayInYear(today, dob) then age - 1 else age
  }

  /** The n-th birthday of someone born on `dob`, as a (year, month, day) triple. */
  function Birthday(dob: Date, n: int): Date
  {
    Date(dob.year + n, dob.month, dob.day)
  }

  /** The age is the number of birthdays passed: the `age`-th birthday is on or before
      today and the next one is after today. */
  lemma AgeIsCompletedYears(today: Date, dob: Date)
    ensures OnOrBefore(Birthday(dob, Age(today, dob)), today)
    ensures !OnOrBefore(Birthday(dob, Age(today, dob) + 1), today)
  {
  }

  /** Someone whose date of birth is not after today has a non-negative age. */
  lemma AgeNonNegative(today: Date, dob: Date)
    requires OnOrBefore(dob, today)
    ensures Age(today, dob) >= 0
  {
  }

  /** For a fixed date of birth the age never decreases as today advances. */
  lemma AgeMonotone(today1: Date, today2: Date, dob: Date)
    requires OnOrBefore(today1, today2)
    ensures Age(today1, dob) <= Age(today2, dob)
  {
    AgeIsCompletedYears(today1, dob);
    AgeIsCompletedYears(today2, dob);
  }
}
