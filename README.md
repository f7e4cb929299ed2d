# Address-book contacts: a Dafny model

This project models the persistence core of a small Spring address-book
application. It covers two parts:

- **The contact record** (`Contact.java`). A contact holds an id, a name, an
  email, a phone number, a date of birth and an age. A generated id is 8
  lowercase hexadecimal characters. The 5-argument constructor and `setId`
  store whatever string they are given. `generateId` builds an id by appending
  `Integer.toHexString` renderings of random ints until it has enough
  characters, then truncates. `setDateOfBirth` derives the age as the whole
  years up to today. The bean-validation annotations constrain the fields.
- **The store gateway** (`ContactsRedis.java`). The store is a Redis list of
  ids under `contactlist`, newest first, and a Redis hash from id to contact
  under `contactlist_Map`. `save` pushes the id on the left of the list and
  puts the contact into the hash. `findById` reads one hash entry. `findAll`
  reads a range of the list, fetches those ids from the hash in one call, and
  drops the ids that have no entry.

Modules:

- `Nullable`: `Option` stands for a Java reference that may be null.
- `Hex`: `Integer.toHexString` on a Java `int`.
- `Dates`: `LocalDate` as a subset type of valid calendar days, and
  `Period.between(start, end).getYears()` as `YearsBetween`.
- `Contacts`: the `ContactRecord` value, the validation constraints, the
  `GenerateId` loop, and the `Contact` class with its three constructors and
  its setters.
- `Gateway`: the two Redis structures as a `Store` value, and the Redis
  commands the gateway uses (LPUSH, HSET, HGET, HMGET, LRANGE) as functions
  over it. `findById` and `findAll` only read the store, so they are functions
  of its state. `save` is a method of the `ContactsRedis` class. That class
  holds the list and the hash as fields and updates them in place. Its result
  is specified by the function `Saved`.

Redis stores a serialised copy of the contact. So the store holds
`ContactRecord` values, the snapshot of a `Contact` object's fields at the time
of `save`. Changing the object later does not change the store.

The random generator is a parameter, `nextInt: nat -> Int32`: the i-th int
drawn. The clock is a parameter too, `today`.

`GenerateId` is specified without reference to where its loop stopped. The id
is the first `numChars` characters of the renderings of the first `numChars`
draws, concatenated. This works because each rendering is non-empty and the
builder only grows.

The `findAll` window is modelled as the code writes it: `LRANGE contactlist
startIndex 10`. The stop index 10 is inclusive, and it is the same for every
`startIndex`. So `findAll(0)` can return up to 11 contacts, `findAll(s)` for
`s > 10` is always empty, and `findAll(5)` returns at most 6. A page of ten ids
from `startIndex` would need the stop index `startIndex + 9`. The model keeps
the literal 10 that the code passes.

Saving an id that is already stored adds it to the list a second time and
overwrites its hash entry. `ResaveListsTwice` shows that `findAll` then lists
the newer contact twice.

## Model

| member | source | states |
|---|---|---|
| `Hex.ToHexString` | src/main/java/sg/edu/nus/iss/app/day14workshop/models/Contact.java:105 | The hex rendering of an `int` is 1 to 8 lowercase hex digits with no leading zero. It parses back to the `int` read as unsigned 32 bits. |
| `Hex.HexOf` | src/main/java/sg/edu/nus/iss/app/day14workshop/models/Contact.java:105 | The base-16 digits of a natural number are non-empty, lowercase hex, and have no leading zero. They parse back to the number. |
| `Hex.HexOfLength` | src/main/java/sg/edu/nus/iss/app/day14workshop/models/Contact.java:105 | A number below 16^k has at most k hex digits. This bounds a rendering at 8 characters. |
| `Contacts.Drawn` | src/main/java/sg/edu/nus/iss/app/day14workshop/models/Contact.java:104-106 | After k appends, the builder holds at least k characters, all lowercase hex. |
| `Contacts.DrawnPrefix` | src/main/java/sg/edu/nus/iss/app/day14workshop/models/Contact.java:104-106 | The builder only grows: its content after j appends is a prefix of its content after k >= j appends. |
| `Contacts.GenerateId` | src/main/java/sg/edu/nus/iss/app/day14workshop/models/Contact.java:98-109 | The loop terminates. The id has exactly `numChars` characters, all lowercase hex. It is the first `numChars` characters of the concatenated renderings of the random draws. |
| `Contacts.Utf16Length` | src/main/java/sg/edu/nus/iss/app/day14workshop/models/Contact.java:26 | The length `@Size` checks is `String.length()`: one UTF-16 unit per character, two for a character outside the Basic Multilingual Plane. It lies between the character count and twice it. |
| `Contacts.EmojiNameLength` | src/main/java/sg/edu/nus/iss/app/day14workshop/models/Contact.java:26 | A name of two emoji has length 4, so it passes the name size constraint. |
| `Contacts.IsValid` | src/main/java/sg/edu/nus/iss/app/day14workshop/models/Contact.java:25-49 | The annotation constraints, which need a date of birth and an age other than 0. So no contact fresh from a constructor is valid. |
| `Contacts.Violations` | src/main/java/sg/edu/nus/iss/app/day14workshop/models/Contact.java:25-49 | There are no violations exactly when the contact is valid. Each annotation reports its own violation exactly when it fails: name null; name not 3..64 UTF-16 units long; phone present and under 7 units; date of birth null; date of birth present and not before today; age under 10; age over 100. |
| `Dates.IsBefore` | src/main/java/sg/edu/nus/iss/app/day14workshop/models/Contact.java:41 | The `@Past` comparison is `LocalDate.isBefore`. It is strict, and it orders by months since year 0 first and by day of the month second. |
| `Dates.YearsBetween` | src/main/java/sg/edu/nus/iss/app/day14workshop/models/Contact.java:153 | `Period.between(d, today).getYears()`, following the JDK's `LocalDate.until`. It takes the difference of months since year 0. It moves that one month toward zero when the day of the month has not been reached. Then it divides by 12, truncating toward zero. The result is 0 for equal dates, at least 0 when the start is not after the end, and at most 0 otherwise. |
| `Dates.WholeYears` | src/main/java/sg/edu/nus/iss/app/day14workshop/models/Contact.java:153 | For a date of birth on or before today, `Period.between(...).getYears()` is the difference of the years, less one if today's month and day come before the birthday's. So it is never negative. |
| `Dates.YearsBetweenAntisymmetric` | src/main/java/sg/edu/nus/iss/app/day14workshop/models/Contact.java:153 | Swapping the two dates negates the years count. |
| `Dates.FutureYears` | src/main/java/sg/edu/nus/iss/app/day14workshop/models/Contact.java:153 | A date of birth after today gives an age of zero or less. |
| `Contacts.AgeOn` | src/main/java/sg/edu/nus/iss/app/day14workshop/models/Contact.java:151-154 | The derived age is 0 for a null date. For a past date it is the whole-years difference, at least 0. For a future date it is at most 0. |
| `Contacts.Contact.Empty` | src/main/java/sg/edu/nus/iss/app/day14workshop/models/Contact.java:53-56 | The no-argument constructor gives an 8-character lowercase-hex id. Every other field is null or 0, so the contact is never valid. |
| `Contacts.Contact.WithDetails` | src/main/java/sg/edu/nus/iss/app/day14workshop/models/Contact.java:67-72 | The 4-argument constructor generates an 8-character hex id and stores name, email and phone. It ignores the date-of-birth argument, so the date stays null and the age 0, and the contact is never valid. |
| `Contacts.Contact.WithId` | src/main/java/sg/edu/nus/iss/app/day14workshop/models/Contact.java:83-89 | The 5-argument constructor stores all five arguments unchanged, the id included. It leaves the age at 0 and does not derive it, so the contact is never valid. |
| `Contacts.Contact.SetName` | src/main/java/sg/edu/nus/iss/app/day14workshop/models/Contact.java:117-119 | Changes the name and no other field. |
| `Contacts.Contact.SetEmail` | src/main/java/sg/edu/nus/iss/app/day14workshop/models/Contact.java:125-127 | Changes the email and no other field. |
| `Contacts.Contact.SetPhoneNumber` | src/main/java/sg/edu/nus/iss/app/day14workshop/models/Contact.java:133-135 | Changes the phone number and no other field. |
| `Contacts.Contact.SetId` | src/main/java/sg/edu/nus/iss/app/day14workshop/models/Contact.java:141-143 | Changes the id and no other field. |
| `Contacts.Contact.SetDateOfBirth` | src/main/java/sg/edu/nus/iss/app/day14workshop/models/Contact.java:149-157 | Stores the date and sets the age to the derived age on `today` (0 for null). The age is at least 0 for a date not after today. Nothing else changes. |
| `Contacts.Contact.SetAge` | src/main/java/sg/edu/nus/iss/app/day14workshop/models/Contact.java:163-165 | Changes the age and no other field, so the age can disagree with the date of birth. |
| `Gateway.LRange` | src/main/java/sg/edu/nus/iss/app/day14workshop/service/ContactsRedis.java:42 | For non-negative indices, LRANGE returns the elements from `start` to `stop` inclusive that exist, in list order. It never returns more than the list holds. |
| `Gateway.LRangeFromEnd` | src/main/java/sg/edu/nus/iss/app/day14workshop/service/ContactsRedis.java:42 | A negative start index counts back from the end of the list, clipped at 0. |
| `Gateway.Window` | src/main/java/sg/edu/nus/iss/app/day14workshop/service/ContactsRedis.java:42 | `findAll(s)` reads the ids at positions s..min(10, length-1), inclusive: at most 11 ids. The window is empty when s > 10 or s >= length. |
| `Gateway.HGet` | src/main/java/sg/edu/nus/iss/app/day14workshop/service/ContactsRedis.java:34 | HGET returns an entry exactly when the field is in the hash, and that entry is the field's value. |
| `Gateway.HMGet` | src/main/java/sg/edu/nus/iss/app/day14workshop/service/ContactsRedis.java:45-46 | HMGET returns one answer per requested field, in order: each field's value, or nil. |
| `Gateway.Present` | src/main/java/sg/edu/nus/iss/app/day14workshop/service/ContactsRedis.java:47-50 | The filter-and-cast step is never longer than its input. It keeps every element, in order, when none is nil. |
| `Gateway.Consistent` | src/main/java/sg/edu/nus/iss/app/day14workshop/service/ContactsRedis.java:24-29 | Agreement between the two structures: every listed id has an entry and every entry is listed, which the design assumes but does not enforce. Every entry is also stored under its own id, which the model adds and every save keeps. So every listed id leads to a record that carries that id. |
| `Gateway.FindById` | src/main/java/sg/edu/nus/iss/app/day14workshop/service/ContactsRedis.java:32-37 | The lookup finds a contact exactly when the id has an entry, and returns that entry. In a consistent store the contact found carries the id looked up. |
| `Gateway.FindAll` | src/main/java/sg/edu/nus/iss/app/day14workshop/service/ContactsRedis.java:40-54 | The result is at most as long as the window, so at most 11. It is empty past position 10 or past the list's end. In a consistent store it holds exactly the window's contacts, in window order. |
| `Gateway.PresentOfHMGet` | src/main/java/sg/edu/nus/iss/app/day14workshop/service/ContactsRedis.java:45-50 | HMGET followed by the filter gives the entries of the ids that have one, in the ids' order. |
| `Gateway.FindAllKeepsOrder` | src/main/java/sg/edu/nus/iss/app/day14workshop/service/ContactsRedis.java:42-50 | `findAll` is the window's ids mapped through the hash. Ids without an entry are dropped, and the order is kept. |
| `Gateway.Saved` | src/main/java/sg/edu/nus/iss/app/day14workshop/service/ContactsRedis.java:24-29 | A save prepends the id, so the list grows by exactly one even for an id already listed. It puts the contact under its id and leaves every other entry alone. It keeps the store consistent. |
| `Gateway.FindByIdAfterSave` | src/main/java/sg/edu/nus/iss/app/day14workshop/service/ContactsRedis.java:24-37 | After a save, looking up the saved id gives the saved contact. Every other id gives what it gave before. |
| `Gateway.ListAfterSaves` | src/main/java/sg/edu/nus/iss/app/day14workshop/service/ContactsRedis.java:26 | After a run of saves the list holds their ids, newest first, followed by the old list. |
| `Gateway.SavesKeepConsistent` | src/main/java/sg/edu/nus/iss/app/day14workshop/service/ContactsRedis.java:24-29 | Any run of saves keeps a consistent store consistent. |
| `Gateway.HashAfterSaves` | src/main/java/sg/edu/nus/iss/app/day14workshop/service/ContactsRedis.java:28 | After a run of saves, the entry of an id is the last contact saved under it. |
| `Gateway.FirstPageAfterSaves` | src/main/java/sg/edu/nus/iss/app/day14workshop/service/ContactsRedis.java:24-54 | Save up to 11 contacts with distinct ids into any store, including one whose list and hash disagree. Then the first results of `findAll(0)` are all of them, most recently saved first. |
| `Gateway.FirstPageAfterSavesIntoEmpty` | src/main/java/sg/edu/nus/iss/app/day14workshop/service/ContactsRedis.java:24-54 | Into an empty store, `findAll(0)` after those saves is exactly them, most recently saved first. |
| `Gateway.ResaveListsTwice` | src/main/java/sg/edu/nus/iss/app/day14workshop/service/ContactsRedis.java:24-54 | Save two contacts with the same id into an empty store. Then `findAll(0)` lists the newer one twice. |
| `Gateway.ContactsRedis.Save` | src/main/java/sg/edu/nus/iss/app/day14workshop/service/ContactsRedis.java:24-29 | The store's new state is `Saved` of the old state and the contact's current fields. The list gains the id at its head, and consistency is kept. |

## Left out

- The web controller (`AddressBookController.java`) is not modelled. It is Spring MVC routing: it calls the gateway and picks a view name. Its unguarded use of a null `findById` result (line 68) is not modelled either.
- The Redis client, the network, and Java serialisation are not modelled. The store is one list and one hash. The key names `contactlist` and `contactlist_Map` only choose which Redis structures are used.
- Randomness: the generator is a parameter, and the PRNG itself is not modelled. Ids are not claimed to be unique, since nothing checks for collisions.
- The clock is the `today` parameter.
- Java's `synchronized` on `generateId`, and concurrent `save` calls, are not modelled. So the non-atomic two-step save is not modelled.
- `Contacts.Violations`: does not check the `@Email` format, because its regular expression is not part of this model. The `MM-dd-yyyy` parsing of `@DateTimeFormat` is left out too.
- A null id is not modelled. The id is always a string, although Java lets the 5-argument constructor and `setId` take null.
- `Contacts.GenerateId`: a negative `numChars`, which makes `substring` throw in Java, is excluded by the `nat` type. The constructors always pass 8.
- The age is an unbounded integer. The `int` width of the age and of `Period`'s years is not modelled, and neither are the year limits of `LocalDate`.
- Getters are plain reads of the `Contact` class's fields, so they have no member of their own.
