# Tutor contact book: subjects, person builder, date filter, stored persons

This project is a Dafny model of four pieces of a tutor's contact book. Each
student record (a `Person`) has a name, phone, email, address, next lesson,
pay status and a set of subjects. For each piece the model proves what the
code and its tests promise.

- **`Subject`** (module `Subjects`, `subject.dfy`). A self-validating value
  type. A name is accepted only when it is a non-empty run of ASCII letters
  and digits. The stored form is lower-cased. Equality, hash code and
  `toString` all follow the stored form. `SubjectSet` models
  `SampleDataUtil.getSubjectSet`: a set of Subjects built from a list of
  names, where any one invalid name fails the whole call.
- **Dates** (module `Calendar`, `calendar.dfy`). Proleptic Gregorian dates
  of the kind `java.time.LocalDate` represents: month lengths, leap years,
  calendar order, and `plusYears(1)`.
- **The person record** (module `People`, `person.dfy`). The value types and
  the `Person` record. The format rules of Name, Phone, Email, Address and
  PayStatus, and NextLesson's parser and printer, are not part of this model.
  They enter as a `Rules` value, and `Sound(rules)` lists what the model
  assumes about them:
  - the invalid samples of the storage tests are rejected, and the builder's
    default strings are accepted;
  - the default lesson string parses to 15 June 2025, 19:00 to 21:00;
  - every lesson the parser returns is well formed;
  - parsing the printed form of any well-formed lesson gives that lesson
    back. The storage test fixes this only for one sample person;
    `Storage.RoundTrip` needs it for every person.
- **`PersonBuilder`** (module `Builder`, `builder.dfy`). The test utility,
  modelled as a class with the builder's seven mutable fields. Each `withX`
  method declares in `modifies` the one field it may change. Its `ensures`
  gives the whole new state and the outcome: either success, or the
  exception the value type's constructor throws. The class invariant
  `Valid()` holds after every call. `withNextLesson(date, start, end)` is
  modelled as written: it branches on the builder's current lesson, not on
  its arguments.
- **Date-filter parsing** (module `FilterDate`, `filterdate.dfy`).
  `ParseFilterDate(args, today)` turns the argument of the filter-by-date
  command into a `FilterDateCommand` or one of five errors. The checks run in
  this order: blank input, the `d/M/yyyy` shape, calendar validity, past
  dates, dates more than a year ahead. The clock reading `LocalDate.now()`
  is the parameter `today`.
- **Stored persons** (module `Storage`, `storage.dfy`). `JsonAdaptedPerson`
  is the all-strings stored form, with `None` for a JSON null.
  `ToModelType` converts it back to a Person, or reports the first failure:
  - an invalid subject, which rejects the whole record;
  - a missing field, naming its type;
  - a malformed value, carrying its type's constraint.

  `FromPerson` is the serialising constructor. `RoundTrip` proves that
  storing a valid person and converting it back gives the same person.

`Wrappers` (`wrappers.dfy`) holds the `Option`, `Result` and `Outcome` types.

The date-filter parser, `JsonAdaptedPerson` itself, `Person`, `NextLesson`
and the other value types are not part of this model as source. Their
behaviour is taken from the test files cited below, and where the tests leave
a gap the model follows these rules of the system:
- a filter date has a day and a month of one or two digits and a year of
  exactly four digits, separated by `/`; any other shape is a format error;
- a null field is reported as missing, naming its type; a rejected value is
  reported with its type's constraint; one invalid subject name rejects the
  whole record;
- a real date before today is a past-date error, and one more than exactly
  one year after today is a year error. So today is accepted, and so is the
  day exactly one year ahead (`today.plusYears(1)`); the day after that is
  rejected.

## Model

| member | source | states |
|---|---|---|
| Subjects.IsValidSubjectName | src/main/java/seedu/address/model/subject/Subject.java:15-35 | a subject name is valid iff it is a non-empty run of ASCII letters and digits (the `\p{Alnum}+` pattern) |
| Subjects.LowerChar | src/main/java/seedu/address/model/subject/Subject.java:27 | an upper-case ASCII letter is moved to its lower-case partner; every other character is kept |
| Subjects.ToLower | src/main/java/seedu/address/model/subject/Subject.java:27 | lower-casing keeps the length and lowers each character in place |
| Subjects.NewSubject | src/main/java/seedu/address/model/subject/Subject.java:24-28 | construction succeeds iff the name is non-empty ASCII alphanumeric; failure carries MESSAGE_CONSTRAINTS; a success stores the lower-cased name, which is again valid and lower-case |
| Subjects.LowerCaseKeepsValid | src/main/java/seedu/address/model/subject/Subject.java:27 | the lower-cased form of a valid name is valid |
| Subjects.LowerCaseIdempotent | src/main/java/seedu/address/model/subject/Subject.java:27 | lower-casing twice equals lower-casing once |
| Subjects.NewSubjectIdempotent | src/main/java/seedu/address/model/subject/Subject.java:24-28 | constructing from a Subject's stored name gives the same Subject |
| Subjects.NewSubjectEqualIffLowerEqual | src/main/java/seedu/address/model/subject/Subject.java:24-50 | two valid names give equal Subjects iff their lower-cased forms are equal |
| Subjects.MathEqualsLowerMath | src/main/java/seedu/address/model/subject/Subject.java:24-50 | `Math` and `math` both construct, and the two Subjects are equal |
| Subjects.HashMathRejected | src/main/java/seedu/address/model/subject/Subject.java:24-26 | `#math` yields no Subject, only the MESSAGE_CONSTRAINTS failure |
| Subjects.Equals | src/main/java/seedu/address/model/subject/Subject.java:38-50 | `equals` holds iff the two Subjects are the same value |
| Subjects.EqualsIsEquivalence | src/main/java/seedu/address/model/subject/Subject.java:38-50 | `equals` is reflexive, symmetric and transitive |
| Subjects.ToInt32 | src/main/java/seedu/address/model/subject/Subject.java:53-55 | the result lies in the Java `int` range and is congruent to the input modulo 2^32 |
| Subjects.StringHashCode | src/main/java/seedu/address/model/subject/Subject.java:53-55 | the hash of a string lies in the `int` range; the empty string hashes to 0 |
| Subjects.HashCode | src/main/java/seedu/address/model/subject/Subject.java:53-55 | a Subject's hash lies in the `int` range |
| Subjects.HashConsistentWithEquals | src/main/java/seedu/address/model/subject/Subject.java:38-55 | equal Subjects have equal hashes |
| Subjects.ToString | src/main/java/seedu/address/model/subject/Subject.java:60-62 | the printed form is two characters longer than the name, opens with `[`, closes with `]`, and holds exactly the stored name between them |
| Subjects.ToStringInjective | src/main/java/seedu/address/model/subject/Subject.java:60-62 | Subjects that print the same are equal |
| Subjects.SubjectSet | src/test/java/seedu/address/testutil/PersonBuilder.java:75-78 | the set is built iff every name is valid; failure carries MESSAGE_CONSTRAINTS; every element is a valid Subject; the set holds the lower-cased Subject of each name and nothing else |
| Calendar.DaysInMonth | src/test/java/seedu/address/logic/parser/FilterDateCommandParserTest.java:66-74 | a month has 28 to 31 days; 29 iff February of a leap year, 28 iff February of a common year, 30 iff April, June, September or November |
| Calendar.BeforeIsStrictTotalOrder | src/test/java/seedu/address/logic/parser/FilterDateCommandParserTest.java:76-80 | calendar order is irreflexive, asymmetric, transitive and total |
| Calendar.OneYearLater | src/test/java/seedu/address/logic/parser/FilterDateCommandParserTest.java:79-80 | one year later is a real date in the next year and the same month, on the same day except that 29 February becomes 28 February, and it is after the start |
| Calendar.LeapDayClamped | src/test/java/seedu/address/logic/parser/FilterDateCommandParserTest.java:79-80 | 29 February of a leap year moves to 28 February of the next year |
| Builder.PersonBuilder.constructor | src/test/java/seedu/address/testutil/PersonBuilder.java:41-49 | a fresh builder holds the default person (the six default strings, the lesson on 15 June 2025 from 19:00 to 21:00, no subjects) and is valid |
| Builder.PersonBuilder.Copy | src/test/java/seedu/address/testutil/PersonBuilder.java:54-62 | a copied builder holds exactly the given person |
| Builder.PersonBuilder.WithName | src/test/java/seedu/address/testutil/PersonBuilder.java:67-70 | an accepted name replaces the name and nothing else; a rejected one gives Name's constraint and leaves the builder unchanged |
| Builder.PersonBuilder.WithSubjects | src/test/java/seedu/address/testutil/PersonBuilder.java:75-78 | the subject set becomes the set built from the names, other fields untouched; any invalid name gives Subject's message and no change |
| Builder.PersonBuilder.WithAddress | src/test/java/seedu/address/testutil/PersonBuilder.java:83-86 | address replaced alone, or Address's constraint and no change |
| Builder.PersonBuilder.WithPhone | src/test/java/seedu/address/testutil/PersonBuilder.java:91-94 | phone replaced alone, or Phone's constraint and no change |
| Builder.PersonBuilder.WithEmail | src/test/java/seedu/address/testutil/PersonBuilder.java:99-102 | email replaced alone, or Email's constraint and no change |
| Builder.PersonBuilder.WithNextLesson | src/test/java/seedu/address/testutil/PersonBuilder.java:108-115 | a null or empty argument makes the lesson unscheduled; any other string sets the parsed lesson, or gives NextLesson's constraint and no change when it does not parse |
| Builder.PersonBuilder.WithNextLessonAt | src/test/java/seedu/address/testutil/PersonBuilder.java:121-129 | an unscheduled current lesson stays unscheduled whatever the arguments; a scheduled one becomes exactly the given date and times; no other field changes |
| Builder.PersonBuilder.WithPayStatus | src/test/java/seedu/address/testutil/PersonBuilder.java:134-137 | pay status replaced alone, or PayStatus's constraint and no change |
| Builder.PersonBuilder.Build | src/test/java/seedu/address/testutil/PersonBuilder.java:139-141 | the built Person holds the seven fields in the order name, phone, email, address, next lesson, pay status, subjects, and is valid |
| Builder.BuildDefault | src/test/java/seedu/address/testutil/PersonBuilder.java:23-49 | a fresh builder builds a valid person with name `Amy Bee`, phone `85355255`, email `amy@gmail.com`, the default address, the 15 June 2025 19:00–21:00 lesson, empty pay status and no subjects |
| Builder.BuildCopy | src/test/java/seedu/address/testutil/PersonBuilder.java:54-62 | a builder copied from a person builds that same person |
| Builder.CopyWithSubjects | src/test/java/seedu/address/testutil/PersonBuilder.java:54-78 | copying a person and then setting subjects builds that person with only the subject set replaced; the original value is not affected |
| Builder.UnscheduledIgnoresDateAndTimes | src/test/java/seedu/address/testutil/PersonBuilder.java:108-129 | after clearing the lesson, giving a date and times still builds an unscheduled lesson |
| Builder.ScheduledTakesDateAndTimes | src/test/java/seedu/address/testutil/PersonBuilder.java:121-129 | from the scheduled default lesson, giving a date and times builds exactly that lesson and the other defaults |
| FilterDate.Test | src/test/java/seedu/address/logic/parser/FilterDateCommandParserTest.java:37-40 | the date predicate holds of a person iff the person's lesson is scheduled and falls on the predicate's date |
| FilterDate.TrimStart | src/test/java/seedu/address/logic/parser/FilterDateCommandParserTest.java:44-45 | the result is a suffix of the input; what was dropped is all whitespace; the result is empty or starts with a visible character |
| FilterDate.TrimEnd | src/test/java/seedu/address/logic/parser/FilterDateCommandParserTest.java:44-45 | the result is a prefix of the input; what was dropped is all whitespace; the result is empty or ends with a visible character |
| FilterDate.Trim | src/test/java/seedu/address/logic/parser/FilterDateCommandParserTest.java:44-45 | trimming gives the empty string iff the input is all whitespace; otherwise the result starts and ends with a visible character; the result is a slice of the input with only whitespace before and after it |
| FilterDate.TrimKeepsVisible | src/test/java/seedu/address/logic/parser/FilterDateCommandParserTest.java:44-45 | a string that starts and ends with a visible character is its own trim |
| FilterDate.TrimStartSkipsWhitespace | src/test/java/seedu/address/logic/parser/FilterDateCommandParserTest.java:44-45 | leading whitespace is removed without reading further |
| FilterDate.TrimEndSkipsWhitespace | src/test/java/seedu/address/logic/parser/FilterDateCommandParserTest.java:44-45 | trailing whitespace is removed without reading further |
| FilterDate.TrimStartKeepsTail | src/test/java/seedu/address/logic/parser/FilterDateCommandParserTest.java:44-45 | trimming the start of a string with a visible character commutes with appending a suffix |
| FilterDate.TrimIgnoresPadding | src/test/java/seedu/address/logic/parser/FilterDateCommandParserTest.java:44-45 | whitespace added on either side does not change the trimmed string |
| FilterDate.MatchShapeSpec | src/test/java/seedu/address/logic/parser/FilterDateCommandParserTest.java:57-63 | the shape matcher fails iff the string has no `d/M/yyyy` shape, otherwise reads the fields of that shape, and the fields read lie in range |
| FilterDate.ParseFilterDate | src/test/java/seedu/address/logic/parser/FilterDateCommandParserTest.java:24-81 | blank input is the command-format error and nothing else is; a visible argument without the shape is the format error, and only such an argument is; a success has the shape and filters by the date it names, a real day from today to one year after today |
| FilterDate.CheckDate | src/test/java/seedu/address/logic/parser/FilterDateCommandParserTest.java:65-81 | the date checks never give a blank or format error, and a success filters by the given date |
| FilterDate.ShapedOutcome | src/test/java/seedu/address/logic/parser/FilterDateCommandParserTest.java:65-81 | for a shaped argument naming date d: a date error iff d is no real day; a past-date error iff d is real and before today; a year error iff d is real, not past, and after one year from today; the filter by d iff d is real and in that window |
| FilterDate.FormatThenParse | src/test/java/seedu/address/logic/parser/FilterDateCommandParserTest.java:35-42 | every day in the window, written as `d/M/yyyy`, parses to the filter by that day |
| FilterDate.ParsedFilterSelectsWindow | src/test/java/seedu/address/logic/parser/FilterDateCommandParserTest.java:35-42 | a person selected by a parsed filter has a scheduled lesson on a real day from today to one year after today |
| FilterDate.PaddingIgnored | src/test/java/seedu/address/logic/parser/FilterDateCommandParserTest.java:44-45 | whitespace around any argument never changes the parse outcome |
| FilterDate.EarlyErrorsIgnoreClock | src/test/java/seedu/address/logic/parser/FilterDateCommandParserTest.java:56-74 | blank, format and calendar errors are the same whatever today is |
| FilterDate.RealDayPassesEarlyChecks | src/test/java/seedu/address/logic/parser/FilterDateCommandParserTest.java:65-81 | a shaped argument naming a real day succeeds or fails only on the date range |
| FilterDate.BlankArgsRejected | src/test/java/seedu/address/logic/parser/FilterDateCommandParserTest.java:24-33 | the empty string and a string of spaces are command-format errors |
| FilterDate.ValidArgsParsed | src/test/java/seedu/address/logic/parser/FilterDateCommandParserTest.java:36-42 | `20/6/2025` filters by 20 June 2025 whenever that day lies in the window from today |
| FilterDate.PaddedArgsParsed | src/test/java/seedu/address/logic/parser/FilterDateCommandParserTest.java:42-45 | the argument padded with spaces, a newline and a tab parses as the bare argument does |
| FilterDate.DashesRejected | src/test/java/seedu/address/logic/parser/FilterDateCommandParserTest.java:59 | `15-04-2026` is a format error |
| FilterDate.TwoDigitYearRejected | src/test/java/seedu/address/logic/parser/FilterDateCommandParserTest.java:62 | `15/4/26` is a format error, not a past-date error |
| FilterDate.ThirtyFirstFebruaryRejected | src/test/java/seedu/address/logic/parser/FilterDateCommandParserTest.java:68 | `31/2/2026` is a date error |
| FilterDate.MonthFourteenRejected | src/test/java/seedu/address/logic/parser/FilterDateCommandParserTest.java:71 | `15/14/2026` is a date error, not a format error |
| FilterDate.LeapDayOfCommonYearRejected | src/test/java/seedu/address/logic/parser/FilterDateCommandParserTest.java:74 | `29/2/2026` is a date error |
| FilterDate.PastDateRejected | src/test/java/seedu/address/logic/parser/FilterDateCommandParserTest.java:77 | `15/4/2021` is a past-date error once today is later than that day |
| FilterDate.FarFutureRejected | src/test/java/seedu/address/logic/parser/FilterDateCommandParserTest.java:80 | `15/4/2030` is a year error while it lies more than a year after today |
| Storage.CheckField | src/test/java/seedu/address/storage/JsonAdaptedPersonTest.java:46-62 | a field check reports a missing field iff the field is null; it succeeds iff the field is present and accepted, returning the stored string; otherwise it reports the type's constraint |
| Storage.CheckSubjects | src/test/java/seedu/address/storage/JsonAdaptedPersonTest.java:136-144 | the subject list converts iff every name is valid, to the set of its Subjects; otherwise it is Subject's message |
| Storage.ToModelType | src/test/java/seedu/address/storage/JsonAdaptedPersonTest.java:40-144 | conversion succeeds iff every subject name is valid and all six fields are present and accepted; a success is a valid person holding exactly the stored strings, the parsed lesson and the subject set |
| Storage.SubjectNames | src/test/java/seedu/address/storage/JsonAdaptedPersonTest.java:36-38 | the stored subject list has one name per Subject, each naming a member of the set, and every member is named |
| Storage.FromPerson | src/test/java/seedu/address/storage/JsonAdaptedPersonTest.java:30-42 | the stored form of a person has every field present, and one subject name per Subject, each naming a member of the set, every member named |
| Storage.RoundTrip | src/test/java/seedu/address/storage/JsonAdaptedPersonTest.java:40-44 | converting the stored form of a valid person back gives that same person |
| Storage.StoredSubjectsRoundTrip | src/test/java/seedu/address/storage/JsonAdaptedPersonTest.java:36-44 | the stored names of a set of valid Subjects convert back to exactly that set |
| Storage.NullFieldReported | src/test/java/seedu/address/storage/JsonAdaptedPersonTest.java:55-134 | a null field in an otherwise acceptable record is reported as a missing field naming its type |
| Storage.MalformedFieldReported | src/test/java/seedu/address/storage/JsonAdaptedPersonTest.java:46-107 | a rejected value in an otherwise acceptable record is reported with that value type's constraint |
| Storage.InvalidSubjectRejectsRecord | src/test/java/seedu/address/storage/JsonAdaptedPersonTest.java:136-144 | one invalid subject name rejects the record with Subject's message, whatever the other fields hold |
| Storage.MissingDiffersFromMalformed | src/test/java/seedu/address/storage/JsonAdaptedPersonTest.java:51-60 | a missing-field error never equals a constraint error, and distinct fields have distinct type names |
| Storage.InvalidNameRejected | src/test/java/seedu/address/storage/JsonAdaptedPersonTest.java:46-53 | a stored valid person with name `R@chel` gives Name's constraint |
| Storage.InvalidPhoneRejected | src/test/java/seedu/address/storage/JsonAdaptedPersonTest.java:64-71 | with phone `+651234` it gives Phone's constraint |
| Storage.InvalidEmailRejected | src/test/java/seedu/address/storage/JsonAdaptedPersonTest.java:82-89 | with email `example.com` it gives Email's constraint |
| Storage.InvalidAddressRejected | src/test/java/seedu/address/storage/JsonAdaptedPersonTest.java:100-107 | with address ` ` it gives Address's constraint |
| Storage.NullFieldOfStoredPersonRejected | src/test/java/seedu/address/storage/JsonAdaptedPersonTest.java:55-134 | a stored valid person with any one of its six fields nulled gives the missing-field error naming that field's type |
| Storage.InvalidSubjectAppendedRejected | src/test/java/seedu/address/storage/JsonAdaptedPersonTest.java:136-144 | appending `#math` to a stored person's subjects rejects the record: no person results |

## Left out

- The format rules of Name, Phone, Email, Address and PayStatus, NextLesson's string parser and its `toString`: these classes are not part of this model. They are the `Rules` parameter, constrained by `Sound` only by the test samples, the builder defaults, and parse-after-print giving back the lesson.
- `TypicalPersons.BENSON` is not part of this model: the storage test lemmas hold for an arbitrary valid person.
- The source of `FilterDateCommandParser` is not part of this model. The shape (1–2 digit day and month, ASCII digits, 4-digit year) and the window follow the rules stated above. The window rejects only dates strictly after `today.plusYears(1)`; the tests fix neither that day nor the day after it.
- The clock: `LocalDate.now()` is the `today` parameter.
- Java `null` arguments to the Subject constructor and the builder (a `NullPointerException`) are not modelled. The one null the code handles on purpose, in `withNextLesson(String)`, is the `None` of an `Option`.
- `\p{Alnum}` and `toLowerCase` are modelled on ASCII only. Java's Unicode and locale-dependent behaviour, such as the Turkish dotless i, is not modelled.
- Subjects.StringHashCode: only its range and the empty string's hash are stated. The value of the hash is not, because only its agreement with equality matters.
- The `instanceof` test and the reference-equality shortcut in `equals` are not modelled. Subjects are values, so `Equals` is value equality.
- The builder's `withX` methods return `this` for chaining. The model returns an `Outcome` instead, and callers chain by sequencing calls.
- Exceptions out of the builder's `withX` calls become a `Fail` outcome that leaves the builder unchanged.
- The copy constructor's fresh `HashSet` is captured by value semantics: a `set` value cannot be aliased. So later changes to the builder never reach the copied person.
- Storage.ToModelType: the order of the checks is subjects first, then name, phone, email, address, next lesson, pay status. The tests fix only records with a single fault, and the lemmas are stated for those.
- Storage.FromPerson: the order of the stored subject list is unspecified, matching a `HashSet`'s iteration order. It is a ghost function, so is not executable.
- Message texts other than Subject's MESSAGE_CONSTRAINTS are distinct error constructors, not strings.
- JSON encoding, file storage, command dispatch, filtering of the displayed list, and the GUI: these are input/output and plumbing.
- LocalTime carries seconds and nanoseconds; lesson times are modelled at minute precision, as lessons are written.
- Whether a lesson's start precedes its end is not checked, matching the code.
