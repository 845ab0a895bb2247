/** The value-level rules of the Doctrine entities: the role list a user
    presents, the user identifier, the set-once creation stamp, an actor's
    full name and age, and the validation constraints of a review. */
module EntityRules {
  import opened Wrappers
  import opened Collections
  import opened Text

  const RoleUser: string := "ROLE_USER"
  const RoleAdmin: string := "ROLE_ADMIN"

  /** `User::getRoles()`: the stored roles with `ROLE_USER` appended, passed
      through `array_unique`. */
  function EffectiveRoles(stored: seq<string>): (roles: seq<string>)
    ensures |roles| <= |stored| + 1
    ensures forall r :: r in roles ==> r in stored || r == RoleUser
  {
    Dedupe(stored + [RoleUser])
  }

  /** Every user has `ROLE_USER`, keeps every stored role, gains no other
      role, and no role is listed twice. */
  lemma EffectiveRolesSpec(stored: seq<string>)
    ensures RoleUser in EffectiveRoles(stored)
    ensures forall r :: r in EffectiveRoles(stored) <==> r in stored || r == RoleUser
    ensures NoDuplicates(EffectiveRoles(stored))
  {
    DedupeSpec(stored + [RoleUser]);
  }

  /** Stored roles that are already distinct and lack `ROLE_USER` come back
      unchanged, in order, with `ROLE_USER` last. */
  lemma EffectiveRolesOfDistinct(stored: seq<string>)
    requires NoDuplicates(stored) && RoleUser !in stored
    ensures EffectiveRoles(stored) == stored + [RoleUser]
  {
    DedupeOfNoDuplicates(stored + [RoleUser]);
  }

  /** `User::getUserIdentifier()`: `(string) $this->email`, where a null
      email casts to the empty string. */
  function UserIdentifier(email: Option<string>): (id: string)
    ensures email.Some? ==> id == email.value
    ensures email.None? ==> id == ""
  {
    email.GetOr("")
  }

  /** The `createdAt` lifecycle hooks of `Movie` and `Actor` (both
      `PrePersist` and `PreUpdate`): stamp with the clock only when unset. */
  function StampOnce(createdAt: Option<int>, now: int): (stamped: Option<int>)
    ensures stamped.Some?
    ensures createdAt.Some? ==> stamped == createdAt
    ensures createdAt.None? ==> stamped == Some(now)
  {
    if createdAt.None? then Some(now) else createdAt
  }

  /** Running the hooks at the given clock readings, in order. */
  function StampAll(createdAt: Option<int>, clock: seq<int>): (stamped: Option<int>)
    ensures createdAt.Some? || clock != [] ==> stamped.Some?
    ensures clock == [] ==> stamped == createdAt
    decreases |clock|
  {
    if clock == [] then createdAt else StampAll(StampOnce(createdAt, clock[0]), clock[1..])
  }

  /** However many times the hooks run, `createdAt` ends up as the value it
      already had, or else as the clock reading of the first run: once set,
      it never changes. */
  lemma {:induction false} StampAllKeepsFirst(createdAt: Option<int>, clock: seq<int>)
    requires createdAt.Some? || clock != []
    ensures StampAll(createdAt, clock) == if createdAt.Some? then createdAt else Some(clock[0])
    decreases |clock|
  {
    if clock != [] {
      var next := StampOnce(createdAt, clock[0]);
      if clock[1..] != [] || next.Some? {
        StampAllKeepsFirst(next, clock[1..]);
      }
    }
  }

  /** `Actor::getFullName()`: `trim($lastname . ' ' . $firstname)`, where a
      null part concatenates as the empty string. */
  function FullName(lastname: Option<string>, firstname: Option<string>): (name: string)
    ensures |name| <= |lastname.GetOr("")| + 1 + |firstname.GetOr("")|
    ensures name != [] ==> !IsTrimmed(name[0]) && !IsTrimmed(name[|name| - 1])
  {
    Trim(lastname.GetOr("") + " " + firstname.GetOr(""))
  }

  /** Without a first name, the full name is the trimmed last name: the
      separator space does not survive. */
  lemma FullNameWithoutFirstname(lastname: Option<string>)
    ensures FullName(lastname, None) == Trim(lastname.GetOr(""))
  {
    TrimIgnoresTrailing(lastname.GetOr(""), " ");
    assert lastname.GetOr("") + " " + "" == lastname.GetOr("") + " ";
  }

  /** Two non-empty names with no surrounding whitespace are joined by
      exactly one space. */
  lemma FullNameOfCleanParts(lastname: string, firstname: string)
    requires lastname != [] && !IsTrimmed(lastname[0]) && !IsTrimmed(lastname[|lastname| - 1])
    requires firstname != [] && !IsTrimmed(firstname[0]) && !IsTrimmed(firstname[|firstname| - 1])
    ensures FullName(Some(lastname), Some(firstname)) == lastname + " " + firstname
  {
    var s := lastname + " " + firstname;
    assert s[0] == lastname[0] && s[|s| - 1] == firstname[|firstname| - 1];
    TrimOfTrimmed(s);
  }

  /** A calendar date (the `DATE_IMMUTABLE` columns `dob` and `dod`). */
  datatype Date = Date(year: int, month: int, day: int)

  predicate Before(a: Date, b: Date) {
    a.year < b.year || (a.year == b.year && (a.month < b.month || (a.month == b.month && a.day < b.day)))
  }

  predicate NotAfter(a: Date, b: Date) {
    !Before(b, a)
  }

  /** The whole years of `DateTime::diff` between two dates, `from` not
      after `to`: the year difference, less one when the anniversary has
      not yet come round. */
  function FullYears(from: Date, to: Date): int {
    to.year - from.year - (if NotAfter(Date(to.year, from.month, from.day), to) then 0 else 1)
  }

  /** `Actor::getAge()`: null without a date of birth; otherwise the whole
      years (`diff(...)->y`, which is unsigned) from the date of birth to the
      date of death, or to today when there is none. */
  function Age(dob: Option<Date>, dod: Option<Date>, today: Date): (age: Option<int>)
    ensures age.None? <==> dob.None?
    ensures age.Some? ==> age.value >= 0
  {
    if dob.None? then None
    else
      var reference := dod.GetOr(today);
      if NotAfter(dob.value, reference) then Some(FullYears(dob.value, reference))
      else Some(FullYears(reference, dob.value))
  }

  /** Once a date of death is recorded, the age no longer depends on the
      clock. */
  lemma AgeFixedByDeath(dob: Option<Date>, dod: Date, today1: Date, today2: Date)
    ensures Age(dob, Some(dod), today1) == Age(dob, Some(dod), today2)
  {
  }

  /** A living actor's age never decreases as the clock moves forward. */
  lemma AgeMonotonic(dob: Date, today1: Date, today2: Date)
    requires NotAfter(dob, today1) && NotAfter(today1, today2)
    ensures Age(Some(dob), None, today1).value <= Age(Some(dob), None, today2).value
  {
  }

  /** The messages of `Review`'s validation constraints that fail, in
      declaration order: `comment` `NotBlank`, `rating` `NotNull` and
      `Range(0, 5)` (which skips a null rating), `movie` `NotNull`. */
  function ReviewViolations(comment: Option<string>, rating: Option<int>, hasMovie: bool): (v: seq<string>)
    ensures v == [] <==> !IsBlank(comment) && rating.Some? && 0 <= rating.value <= 5 && hasMovie
    ensures |v| <= 3
  {
    (if IsBlank(comment) then ["Le commentaire ne peut pas être vide"] else [])
    + (if rating.None? then ["La note est obligatoire"]
       else if rating.value < 0 || rating.value > 5 then ["La note doit être entre 0 et 5"]
       else [])
    + (if hasMovie then [] else ["Le film est obligatoire"])
  }
}
