/**
 * One address-book contact: its fields, the bean-validation constraints on them,
 * the derived age and the random hexadecimal id.
 */
module Contacts {
  import opened Nullable
  import opened Hex
  import opened Dates

  /** Length of the id the constructors generate. */
  const IdLength := 8
  const MinNameLength := 3
  const MaxNameLength := 64
  const MinPhoneNumberLength := 7
  const MinAge := 10
  const MaxAge := 100

  /** The fields of a contact at one moment (what the store serialises). */
  datatype ContactRecord = ContactRecord(
    id: string,
    name: Option<string>,
    email: Option<string>,
    phoneNumber: Option<string>,
    dateOfBirth: Option<Date>,
    age: int)

  /** One failed validation constraint, one per annotation message. */
  datatype Violation =
    | NameMissing          // @NotNull on name
    | NameSize             // @Size(min = 3, max = 64) on name
    | PhoneNumberSize      // @Size(min = 7) on phoneNumber
    | DateOfBirthMissing   // @NotNull on dateOfBirth
    | DateOfBirthNotPast   // @Past on dateOfBirth
    | AgeTooLow            // @Min(10) on age
    | AgeTooHigh           // @Max(100) on age

  /**
   * `String.length()`: the number of UTF-16 code units, so a character outside the
   * Basic Multilingual Plane counts twice.
   */
  function Utf16Length(s: string): (n: nat)
    ensures |s| <= n <= 2 * |s|
    ensures (forall i :: 0 <= i < |s| ==> s[i] as int < 0x1_0000) ==> n == |s|
  {
    if s == [] then 0
    else Utf16Length(s[.. |s| - 1]) + (if s[|s| - 1] as int < 0x1_0000 then 1 else 2)
  }

  /** Two emoji make a name of four UTF-16 units, long enough for `@Size(min = 3)`. */
  lemma EmojiNameLength(today: Date)
    ensures Utf16Length("\U{1F600}\U{1F600}") == 4
    ensures NameSize !in Violations(ContactRecord("", Some("\U{1F600}\U{1F600}"), None, None, None, 0), today)
  {
    // Each emoji lies above U+FFFF and so counts two units.
  }

  /**
   * The constraints a contact must meet on `today`. As in Bean Validation, a size
   * or past-date constraint accepts null; only the not-null constraints reject it.
   * A valid contact has a date of birth and an age other than 0, which no
   * constructor gives it.
   */
  predicate IsValid(c: ContactRecord, today: Date)
    ensures IsValid(c, today) ==> c.dateOfBirth.Some? && c.age != 0
  {
    && c.name.Some?
    && MinNameLength <= Utf16Length(c.name.value) <= MaxNameLength
    && (c.phoneNumber.Some? ==> Utf16Length(c.phoneNumber.value) >= MinPhoneNumberLength)
    && c.dateOfBirth.Some?
    && IsBefore(c.dateOfBirth.value, today)
    && MinAge <= c.age <= MaxAge
  }

  /** Every constraint the contact breaks on `today`, each checked on its own. */
  function Violations(c: ContactRecord, today: Date): (v: set<Violation>)
    ensures v == {} <==> IsValid(c, today)
    ensures NameMissing in v <==> c.name.None?
    ensures NameSize in v <==>
      c.name.Some? && !(MinNameLength <= Utf16Length(c.name.value) <= MaxNameLength)
    ensures PhoneNumberSize in v <==>
      c.phoneNumber.Some? && Utf16Length(c.phoneNumber.value) < MinPhoneNumberLength
    ensures DateOfBirthMissing in v <==> c.dateOfBirth.None?
    ensures DateOfBirthNotPast in v <==> c.dateOfBirth.Some? && !IsBefore(c.dateOfBirth.value, today)
    ensures AgeTooLow in v <==> c.age < MinAge
    ensures AgeTooHigh in v <==> c.age > MaxAge
  {
    (if c.name.None? then {NameMissing} else {})
    + (if c.name.Some? && !(MinNameLength <= Utf16Length(c.name.value) <= MaxNameLength) then {NameSize} else {})
    + (if c.phoneNumber.Some? && Utf16Length(c.phoneNumber.value) < MinPhoneNumberLength then {PhoneNumberSize} else {})
    + (if c.dateOfBirth.None? then {DateOfBirthMissing} else {})
    + (if c.dateOfBirth.Some? && !IsBefore(c.dateOfBirth.value, today) then {DateOfBirthNotPast} else {})
    + (if c.age < MinAge then {AgeTooLow} else {})
    + (if c.age > MaxAge then {AgeTooHigh} else {})
  }

  /**
   * The age `setDateOfBirth` derives: 0 for a null date, otherwise the whole years
   * from the date of birth to `today`.
   */
  function AgeOn(dateOfBirth: Option<Date>, today: Date): (age: int)
    ensures dateOfBirth.None? ==> age == 0
    ensures dateOfBirth.Some? && !IsBefore(today, dateOfBirth.value) ==>
      age >= 0 &&
      age == today.year - dateOfBirth.value.year
             - (if MonthDayBefore(today, dateOfBirth.value) then 1 else 0)
    ensures dateOfBirth.Some? && IsBefore(today, dateOfBirth.value) ==> age <= 0
  {
    match dateOfBirth
    case None => 0
    case Some(d) =>
      if IsBefore(today, d) then
        FutureYears(d, today);
        YearsBetween(d, today)
      else
        WholeYears(d, today);
        YearsBetween(d, today)
  }

  /**
   * The hexadecimal renderings of the first `k` random ints, concatenated: what the
   * id builder holds after `k` appends.
   */
  function Drawn(k: nat, nextInt: nat -> Int32): (s: string)
    ensures |s| >= k
    ensures IsHexString(s)
  {
    if k == 0 then "" else Drawn(k - 1, nextInt) + ToHexString(nextInt(k - 1))
  }

  /** The builder only grows: what it held earlier is a prefix of what it holds later. */
  lemma {:induction false} DrawnPrefix(j: nat, k: nat, nextInt: nat -> Int32)
    requires j <= k
    ensures Drawn(j, nextInt) <= Drawn(k, nextInt)
    decreases k
  {
    if j < k {
      DrawnPrefix(j, k - 1, nextInt);
    }
  }

  /**
   * `generateId(numChars)`: append `Integer.toHexString` of random ints until the
   * builder holds at least `numChars` characters, then keep the first `numChars`.
   * `nextInt(i)` is the i-th int drawn from the random generator.
   */
  method GenerateId(numChars: nat, nextInt: nat -> Int32) returns (id: string)
    ensures |id| == numChars
    ensures IsHexString(id)
    ensures id == Drawn(numChars, nextInt)[..numChars]
  {
    var sb := "";
    var drawn := 0;
    while |sb| < numChars
      invariant sb == Drawn(drawn, nextInt)
      decreases numChars - |sb|
    {
      sb := sb + ToHexString(nextInt(drawn));
      drawn := drawn + 1;
    }
    if drawn <= numChars {
      DrawnPrefix(drawn, numChars, nextInt);
    } else {
      DrawnPrefix(numChars, drawn, nextInt);
    }
    id := sb[..numChars];
  }

  /** A contact as the web form and the store see it; its setters update it in place. */
  class Contact {
    var id: string
    var name: Option<string>
    var email: Option<string>
    var phoneNumber: Option<string>
    var dateOfBirth: Option<Date>
    var age: int

    function Snapshot(): ContactRecord
      reads this
    {
      ContactRecord(id, name, email, phoneNumber, dateOfBirth, age)
    }

    /** `Contact()`: a fresh 8-character id, every other field null or 0. */
    constructor Empty(nextInt: nat -> Int32)
      ensures |id| == IdLength && IsHexString(id)
      ensures id == Drawn(IdLength, nextInt)[..IdLength]
      ensures Snapshot() == ContactRecord(id, None, None, None, None, 0)
      ensures forall today :: !IsValid(Snapshot(), today)
    {
      var generated := GenerateId(IdLength, nextInt);
      id := generated;
      name, email, phoneNumber, dateOfBirth, age := None, None, None, None, 0;
    }

    /**
     * `Contact(name, email, phoneNumber, dateOfBirth)`: a fresh id and the three
     * strings; the date of birth argument is dropped, so the date stays null and
     * the age 0.
     */
    constructor WithDetails(name: Option<string>, email: Option<string>, phoneNumber: Option<string>,
                            dateOfBirth: Option<Date>, nextInt: nat -> Int32)
      ensures |id| == IdLength && IsHexString(id)
      ensures id == Drawn(IdLength, nextInt)[..IdLength]
      ensures Snapshot() == ContactRecord(id, name, email, phoneNumber, None, 0)
      ensures forall today :: !IsValid(Snapshot(), today)
    {
      var generated := GenerateId(IdLength, nextInt);
      id := generated;
      this.name, this.email, this.phoneNumber := name, email, phoneNumber;
      this.dateOfBirth, age := None, 0;
    }

    /**
     * `Contact(id, name, email, phoneNumber, dateOfBirth)`: every argument is stored
     * as given; the age is not derived and stays 0.
     */
    constructor WithId(id: string, name: Option<string>, email: Option<string>,
                       phoneNumber: Option<string>, dateOfBirth: Option<Date>)
      ensures Snapshot() == ContactRecord(id, name, email, phoneNumber, dateOfBirth, 0)
      ensures forall today :: !IsValid(Snapshot(), today)
    {
      this.id, this.name, this.email, this.phoneNumber := id, name, email, phoneNumber;
      this.dateOfBirth, age := dateOfBirth, 0;
    }

    method SetName(name: Option<string>)
      modifies this
      ensures Snapshot() == old(Snapshot()).(name := name)
    {
      this.name := name;
    }

    method SetEmail(email: Option<string>)
      modifies this
      ensures Snapshot() == old(Snapshot()).(email := email)
    {
      this.email := email;
    }

    method SetPhoneNumber(phoneNumber: Option<string>)
      modifies this
      ensures Snapshot() == old(Snapshot()).(phoneNumber := phoneNumber)
    {
      this.phoneNumber := phoneNumber;
    }

    method SetId(id: string)
      modifies this
      ensures Snapshot() == old(Snapshot()).(id := id)
    {
      this.id := id;
    }

    /** Sets the age directly: it may then disagree with the date of birth. */
    method SetAge(age: int)
      modifies this
      ensures Snapshot() == old(Snapshot()).(age := age)
    {
      this.age := age;
    }

    /**
     * `setDateOfBirth(dateOfBirth)`: stores the date and derives the age from it on
     * `today` (0 for a null date). Nothing else changes.
     */
    method SetDateOfBirth(dateOfBirth: Option<Date>, today: Date)
      modifies this
      ensures Snapshot() == old(Snapshot()).(dateOfBirth := dateOfBirth, age := AgeOn(dateOfBirth, today))
      ensures dateOfBirth.Some? && !IsBefore(today, dateOfBirth.value) ==> age >= 0
    {
      var calculatedAge := 0;
      if dateOfBirth.Some? {
        calculatedAge := YearsBetween(dateOfBirth.value, today);
      }
      age := calculatedAge;
      this.dateOfBirth := dateOfBirth;
    }
  }
}
