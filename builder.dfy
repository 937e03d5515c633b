/**
 * The test utility `PersonBuilder`: a mutable holder of the seven fields of
 * a Person, filled with defaults or copied from a Person, changed one field
 * at a time by the `withX` calls, and assembled by `build()`.
 */
module Builder {
  import opened Wrappers
  import opened Calendar
  import opened Subjects
  import opened People

  /** The exception a `withX` call throws: a value type's constraint, or Subject's message. */
  datatype BuildError = Constraint(kind: ValueKind) | SubjectConstraint(message: string)

  /** The person a fresh builder holds. */
  const DEFAULT_PERSON: Person := Person(
    Name(DEFAULT_NAME), Phone(DEFAULT_PHONE), Email(DEFAULT_EMAIL), Address(DEFAULT_ADDRESS),
    DEFAULT_LESSON, PayStatus(DEFAULT_PAYSTATUS), {})

  class PersonBuilder {
    const rules: Rules
    var name: Name
    var phone: Phone
    var email: Email
    var address: Address
    var nextLesson: NextLesson
    var payStatus: PayStatus
    var subjects: set<Subject>

    /** The person the builder currently describes. */
    function Current(): Person
      reads this
    {
      Person(name, phone, email, address, nextLesson, payStatus, subjects)
    }

    /** Every field holds a value its type's constructor accepts. */
    ghost predicate Valid()
      reads this
    {
      Sound(rules) && ValidPerson(rules, Current())
    }

    /** `new PersonBuilder()`: the default details. */
    constructor (rules: Rules)
      requires Sound(rules)
      ensures this.rules == rules
      ensures Valid()
      ensures Current() == DEFAULT_PERSON
    {
      this.rules := rules;
      name := Name(DEFAULT_NAME);
      phone := Phone(DEFAULT_PHONE);
      email := Email(DEFAULT_EMAIL);
      address := Address(DEFAULT_ADDRESS);
      nextLesson := rules.parseLesson(DEFAULT_NEXT_LESSON).value;
      payStatus := PayStatus(DEFAULT_PAYSTATUS);
      subjects := {};
    }

    /** `new PersonBuilder(personToCopy)`: every field of the given person (subjects by value). */
    constructor Copy(rules: Rules, personToCopy: Person)
      requires Sound(rules) && ValidPerson(rules, personToCopy)
      ensures this.rules == rules
      ensures Valid()
      ensures Current() == personToCopy
    {
      this.rules := rules;
      name := personToCopy.name;
      phone := personToCopy.phone;
      email := personToCopy.email;
      address := personToCopy.address;
      nextLesson := personToCopy.nextLesson;
      payStatus := personToCopy.payStatus;
      subjects := personToCopy.subjects;
    }

    /** `withName`: replaces the name, or throws Name's constraint and changes nothing. */
    method WithName(s: string) returns (r: Outcome<BuildError>)
      requires Valid()
      modifies this`name
      ensures Valid()
      ensures r == if rules.isValidName(s) then Pass else Fail(Constraint(NameKind))
      ensures Current() == if rules.isValidName(s) then old(Current()).(name := Name(s)) else old(Current())
    {
      if rules.isValidName(s) {
        name := Name(s);
        r := Pass;
      } else {
        r := Fail(Constraint(NameKind));
      }
    }

    /** `withSubjects`: replaces the subject set by one Subject per name, or throws and changes nothing. */
    method WithSubjects(names: seq<string>) returns (r: Outcome<BuildError>)
      requires Valid()
      modifies this`subjects
      ensures Valid()
      ensures r == if SubjectSet(names).Success? then Pass else Fail(SubjectConstraint(MESSAGE_CONSTRAINTS))
      ensures Current() == if SubjectSet(names).Success? then old(Current()).(subjects := SubjectSet(names).value)
                           else old(Current())
    {
      var parsed := SubjectSet(names);
      if parsed.Success? {
        subjects := parsed.value;
        r := Pass;
      } else {
        r := Fail(SubjectConstraint(parsed.error));
      }
    }

    /** `withAddress`: replaces the address, or throws Address's constraint and changes nothing. */
    method WithAddress(s: string) returns (r: Outcome<BuildError>)
      requires Valid()
      modifies this`address
      ensures Valid()
      ensures r == if rules.isValidAddress(s) then Pass else Fail(Constraint(AddressKind))
      ensures Current() == if rules.isValidAddress(s) then old(Current()).(address := Address(s)) else old(Current())
    {
      if rules.isValidAddress(s) {
        address := Address(s);
        r := Pass;
      } else {
        r := Fail(Constraint(AddressKind));
      }
    }

    /** `withPhone`: replaces the phone, or throws Phone's constraint and changes nothing. */
    method WithPhone(s: string) returns (r: Outcome<BuildError>)
      requires Valid()
      modifies this`phone
      ensures Valid()
      ensures r == if rules.isValidPhone(s) then Pass else Fail(Constraint(PhoneKind))
      ensures Current() == if rules.isValidPhone(s) then old(Current()).(phone := Phone(s)) else old(Current())
    {
      if rules.isValidPhone(s) {
        phone := Phone(s);
        r := Pass;
      } else {
        r := Fail(Constraint(PhoneKind));
      }
    }

    /** `withEmail`: replaces the email, or throws Email's constraint and changes nothing. */
    method WithEmail(s: string) returns (r: Outcome<BuildError>)
      requires Valid()
      modifies this`email
      ensures Valid()
      ensures r == if rules.isValidEmail(s) then Pass else Fail(Constraint(EmailKind))
      ensures Current() == if rules.isValidEmail(s) then old(Current()).(email := Email(s)) else old(Current())
    {
      if rules.isValidEmail(s) {
        email := Email(s);
        r := Pass;
      } else {
        r := Fail(Constraint(EmailKind));
      }
    }

    /**
     * `withNextLesson(String)`: a null or empty argument sets an unscheduled
     * lesson; any other string is parsed, and a string that does not parse
     * throws NextLesson's constraint and changes nothing.
     */
    method WithNextLesson(lesson: Option<string>) returns (r: Outcome<BuildError>)
      requires Valid()
      modifies this`nextLesson
      ensures Valid()
      ensures lesson.None? || lesson.value == "" ==> r == Pass && Current() == old(Current()).(nextLesson := Unscheduled)
      ensures lesson.Some? && lesson.value != "" ==>
        match rules.parseLesson(lesson.value)
        case Some(l) => r == Pass && Current() == old(Current()).(nextLesson := l)
        case None => r == Fail(Constraint(NextLessonKind)) && Current() == old(Current())
    {
      if lesson.None? || lesson.value == "" {
        nextLesson := Unscheduled;
        r := Pass;
      } else {
        var parsed := rules.parseLesson(lesson.value);
        if parsed.Some? {
          nextLesson := parsed.value;
          r := Pass;
        } else {
          r := Fail(Constraint(NextLessonKind));
        }
      }
    }

    /**
     * `withNextLesson(LocalDate, LocalTime, LocalTime)`: decides on the
     * builder's current lesson, not on its arguments. An unscheduled lesson
     * stays unscheduled; a scheduled one becomes the given date and times.
     */
    method WithNextLessonAt(date: Date, startTime: Time, endTime: Time)
      requires Valid()
      requires IsValidDate(date) && IsValidTime(startTime) && IsValidTime(endTime)
      modifies this`nextLesson
      ensures Valid()
      ensures Current() == old(Current()).(nextLesson :=
        if old(nextLesson).Unscheduled? then Unscheduled else Scheduled(date, startTime, endTime))
    {
      if nextLesson.Unscheduled? {
        nextLesson := Unscheduled;
      } else {
        nextLesson := Scheduled(date, startTime, endTime);
      }
    }

    /** `withPayStatus`: replaces the pay status, or throws PayStatus's constraint and changes nothing. */
    method WithPayStatus(s: string) returns (r: Outcome<BuildError>)
      requires Valid()
      modifies this`payStatus
      ensures Valid()
      ensures r == if rules.isValidPayStatus(s) then Pass else Fail(Constraint(PayStatusKind))
      ensures Current() == if rules.isValidPayStatus(s) then old(Current()).(payStatus := PayStatus(s)) else old(Current())
    {
      if rules.isValidPayStatus(s) {
        payStatus := PayStatus(s);
        r := Pass;
      } else {
        r := Fail(Constraint(PayStatusKind));
      }
    }

    /** `build()`: a valid Person of the seven fields, in constructor order. */
    method Build() returns (p: Person)
      requires Valid()
      ensures ValidPerson(rules, p)
      ensures p == Person(name, phone, email, address, nextLesson, payStatus, subjects)
    {
      p := Person(name, phone, email, address, nextLesson, payStatus, subjects);
    }
  }

  /** A fresh builder builds the default person: the listed defaults, no subjects. */
  method BuildDefault(rules: Rules) returns (p: Person)
    requires Sound(rules)
    ensures ValidPerson(rules, p)
    ensures p.name == Name("Amy Bee") && p.phone == Phone("85355255") && p.email == Email("amy@gmail.com")
    ensures p.address == Address("123, Jurong West Ave 6, #08-111")
    ensures p.nextLesson == Scheduled(Date(2025, 6, 15), Time(19, 0), Time(21, 0))
    ensures p.payStatus == PayStatus("") && p.subjects == {}
  {
    var b := new PersonBuilder(rules);
    p := b.Build();
  }

  /** A builder copied from a person builds that same person. */
  method BuildCopy(rules: Rules, original: Person) returns (p: Person)
    requires Sound(rules) && ValidPerson(rules, original)
    ensures p == original
  {
    var b := new PersonBuilder.Copy(rules, original);
    p := b.Build();
  }

  /**
   * Copying a person and then replacing the builder's subjects changes only
   * the built person's subjects; the original keeps its own set.
   */
  method CopyWithSubjects(rules: Rules, original: Person, names: seq<string>) returns (p: Person)
    requires Sound(rules) && ValidPerson(rules, original)
    requires forall i :: 0 <= i < |names| ==> IsValidSubjectName(names[i])
    ensures p == original.(subjects := SubjectSet(names).value)
    ensures forall i :: 0 <= i < |names| ==> Subject(ToLower(names[i])) in p.subjects
  {
    var b := new PersonBuilder.Copy(rules, original);
    var _ := b.WithSubjects(names);
    p := b.Build();
  }

  /** Clearing the lesson and then giving a date and times leaves the lesson unscheduled. */
  method UnscheduledIgnoresDateAndTimes(rules: Rules, date: Date, startTime: Time, endTime: Time) returns (p: Person)
    requires Sound(rules)
    requires IsValidDate(date) && IsValidTime(startTime) && IsValidTime(endTime)
    ensures p == DEFAULT_PERSON.(nextLesson := Unscheduled)
  {
    var b := new PersonBuilder(rules);
    var _ := b.WithNextLesson(None);
    b.WithNextLessonAt(date, startTime, endTime);
    p := b.Build();
  }

  /** On a scheduled lesson, giving a date and times schedules exactly those. */
  method ScheduledTakesDateAndTimes(rules: Rules, date: Date, startTime: Time, endTime: Time) returns (p: Person)
    requires Sound(rules)
    requires IsValidDate(date) && IsValidTime(startTime) && IsValidTime(endTime)
    ensures p == DEFAULT_PERSON.(nextLesson := Scheduled(date, startTime, endTime))
  {
    var b := new PersonBuilder(rules);
    b.WithNextLessonAt(date, startTime, endTime);
    p := b.Build();
  }
}
