/**
 * `JsonAdaptedPerson`: the stored form of a person, every field a string
 * (a JSON null where absent) and the subjects a list of names, with its
 * conversion back to a Person (`toModelType`) and from one (the
 * constructor taking a Person).
 */
module Storage {
  import opened Wrappers
  import opened Subjects
  import opened People

  datatype JsonAdaptedPerson = JsonAdaptedPerson(
    name: Option<string>,
    phone: Option<string>,
    email: Option<string>,
    address: Option<string>,
    nextLesson: Option<string>,
    payStatus: Option<string>,
    subjects: seq<string>)

  /** The six string-valued fields of the stored form. */
  datatype Field = NameField | PhoneField | EmailField | AddressField | NextLessonField | PayStatusField

  /** The simple class name of the field's type, as the missing-field message names it. */
  function TypeName(f: Field): string {
    match f
    case NameField => "Name"
    case PhoneField => "Phone"
    case EmailField => "Email"
    case AddressField => "Address"
    case NextLessonField => "NextLesson"
    case PayStatusField => "PayStatus"
  }

  /** The value type a field is converted to. */
  function KindOf(f: Field): ValueKind {
    match f
    case NameField => NameKind
    case PhoneField => PhoneKind
    case EmailField => EmailKind
    case AddressField => AddressKind
    case NextLessonField => NextLessonKind
    case PayStatusField => PayStatusKind
  }

  /** The `IllegalValueException` that `toModelType` throws. */
  datatype IllegalValue =
    | MissingField(typeName: string)   // MISSING_FIELD_MESSAGE_FORMAT filled with the type's simple name
    | Malformed(kind: ValueKind)       // the MESSAGE_CONSTRAINTS of that value type
    | InvalidSubject(message: string)  // a subject name failed: Subject's MESSAGE_CONSTRAINTS

  function FieldOf(j: JsonAdaptedPerson, f: Field): Option<string> {
    match f
    case NameField => j.name
    case PhoneField => j.phone
    case EmailField => j.email
    case AddressField => j.address
    case NextLessonField => j.nextLesson
    case PayStatusField => j.payStatus
  }

  /** The stored form with one field replaced. */
  function WithField(j: JsonAdaptedPerson, f: Field, v: Option<string>): (r: JsonAdaptedPerson)
    ensures FieldOf(r, f) == v && r.subjects == j.subjects
    ensures forall g :: g != f ==> FieldOf(r, g) == FieldOf(j, g)
  {
    match f
    case NameField => j.(name := v)
    case PhoneField => j.(phone := v)
    case EmailField => j.(email := v)
    case AddressField => j.(address := v)
    case NextLessonField => j.(nextLesson := v)
    case PayStatusField => j.(payStatus := v)
  }

  /** The value type's own check on a present string. */
  predicate Accepts(rules: Rules, f: Field, v: string) {
    match f
    case NameField => rules.isValidName(v)
    case PhoneField => rules.isValidPhone(v)
    case EmailField => rules.isValidEmail(v)
    case AddressField => rules.isValidAddress(v)
    case NextLessonField => rules.parseLesson(v).Some?
    case PayStatusField => rules.isValidPayStatus(v)
  }

  /** A field that is present and that its value type accepts. */
  predicate Acceptable(rules: Rules, j: JsonAdaptedPerson, f: Field) {
    FieldOf(j, f).Some? && Accepts(rules, f, FieldOf(j, f).value)
  }

  /** One field: missing if null, malformed if its type rejects it, else its string. */
  function CheckField(rules: Rules, j: JsonAdaptedPerson, f: Field): (r: Result<string, IllegalValue>)
    ensures FieldOf(j, f).None? <==> r == Failure(MissingField(TypeName(f)))
    ensures r.Success? <==> Acceptable(rules, j, f)
    ensures r.Success? ==> Some(r.value) == FieldOf(j, f)
    ensures r.Failure? && FieldOf(j, f).Some? ==> r.error == Malformed(KindOf(f))
  {
    match FieldOf(j, f)
    case None => Failure(MissingField(TypeName(f)))
    case Some(v) => if Accepts(rules, f, v) then Success(v) else Failure(Malformed(KindOf(f)))
  }

  /** The subject list: a set of Subjects, or the whole record rejected. */
  function CheckSubjects(names: seq<string>): (r: Result<set<Subject>, IllegalValue>)
    ensures r.Success? <==> forall i :: 0 <= i < |names| ==> IsValidSubjectName(names[i])
    ensures r.Failure? ==> r.error == InvalidSubject(MESSAGE_CONSTRAINTS)
    ensures r.Success? ==> r == Success(SubjectSet(names).value)
  {
    match SubjectSet(names)
    case Failure(message) => Failure(InvalidSubject(message))
    case Success(subjects) => Success(subjects)
  }

  /**
   * `toModelType`: the subjects first, then the six fields in declaration
   * order; the first failure is the one reported.
   */
  function ToModelType(rules: Rules, j: JsonAdaptedPerson): (r: Result<Person, IllegalValue>)
    ensures r.Success? <==>
      (forall i :: 0 <= i < |j.subjects| ==> IsValidSubjectName(j.subjects[i]))
      && forall f :: Acceptable(rules, j, f)
    ensures Sound(rules) && r.Success? ==> ValidPerson(rules, r.value)
    ensures r.Success? ==>
      && Some(r.value.name.fullName) == j.name
      && Some(r.value.phone.value) == j.phone
      && Some(r.value.email.value) == j.email
      && Some(r.value.address.value) == j.address
      && j.nextLesson.Some? && rules.parseLesson(j.nextLesson.value) == Some(r.value.nextLesson)
      && Some(r.value.payStatus.value) == j.payStatus
      && r.value.subjects == SubjectSet(j.subjects).value
  {
    if CheckSubjects(j.subjects).Failure? then Failure(CheckSubjects(j.subjects).error)
    else if !Acceptable(rules, j, NameField) then Failure(CheckField(rules, j, NameField).error)
    else if !Acceptable(rules, j, PhoneField) then Failure(CheckField(rules, j, PhoneField).error)
    else if !Acceptable(rules, j, EmailField) then Failure(CheckField(rules, j, EmailField).error)
    else if !Acceptable(rules, j, AddressField) then Failure(CheckField(rules, j, AddressField).error)
    else if !Acceptable(rules, j, NextLessonField) then Failure(CheckField(rules, j, NextLessonField).error)
    else if !Acceptable(rules, j, PayStatusField) then Failure(CheckField(rules, j, PayStatusField).error)
    else
      AllFieldsAcceptable(rules, j);
      Success(Person(Name(j.name.value), Phone(j.phone.value), Email(j.email.value), Address(j.address.value),
                     rules.parseLesson(j.nextLesson.value).value, PayStatus(j.payStatus.value),
                     CheckSubjects(j.subjects).value))
  }

  /** Each of the six fields acceptable, one by one, is every field acceptable. */
  lemma AllFieldsAcceptable(rules: Rules, j: JsonAdaptedPerson)
    requires Acceptable(rules, j, NameField) && Acceptable(rules, j, PhoneField)
    requires Acceptable(rules, j, EmailField) && Acceptable(rules, j, AddressField)
    requires Acceptable(rules, j, NextLessonField) && Acceptable(rules, j, PayStatusField)
    ensures forall f :: Acceptable(rules, j, f)
  {
    forall f ensures Acceptable(rules, j, f) {
      match f
      case NameField => case PhoneField => case EmailField =>
      case AddressField => case NextLessonField => case PayStatusField =>
    }
  }

  /** The names of a set of Subjects, in some order (that of the set's iteration). */
  ghost function SubjectNames(subjects: set<Subject>): (names: seq<string>)
    ensures |names| == |subjects|
    ensures forall i :: 0 <= i < |names| ==> Subject(names[i]) in subjects
    ensures forall s :: s in subjects ==> s.subjectName in names
    decreases |subjects|
  {
    if subjects == {} then []
    else
      var s :| s in subjects;
      [s.subjectName] + SubjectNames(subjects - {s})
  }

  /** `new JsonAdaptedPerson(source)`: every field's string form, the lesson printed by NextLesson. */
  ghost function FromPerson(rules: Rules, p: Person): (r: JsonAdaptedPerson)
    ensures forall f :: FieldOf(r, f).Some?
    ensures |r.subjects| == |p.subjects|
    ensures forall i :: 0 <= i < |r.subjects| ==> Subject(r.subjects[i]) in p.subjects
    ensures forall s :: s in p.subjects ==> s.subjectName in r.subjects
  {
    JsonAdaptedPerson(
      Some(p.name.fullName), Some(p.phone.value), Some(p.email.value), Some(p.address.value),
      Some(rules.lessonToString(p.nextLesson)), Some(p.payStatus.value), SubjectNames(p.subjects))
  }

  /** Storing a valid person and converting it back gives the same person. */
  lemma RoundTrip(rules: Rules, p: Person)
    requires Sound(rules) && ValidPerson(rules, p)
    ensures ToModelType(rules, FromPerson(rules, p)) == Success(p)
  {
    var j := FromPerson(rules, p);
    StoredSubjectsRoundTrip(p.subjects);
    assert rules.parseLesson(rules.lessonToString(p.nextLesson)) == Some(p.nextLesson);
    AllFieldsAcceptable(rules, j);
  }

  /** The names of a set of valid Subjects convert back to that same set. */
  lemma StoredSubjectsRoundTrip(subjects: set<Subject>)
    requires forall s :: s in subjects ==> s.Valid()
    ensures CheckSubjects(SubjectNames(subjects)) == Success(subjects)
  {
    var names := SubjectNames(subjects);
    StoredNamesNormal(subjects);
    var back := SubjectSet(names).value;
    assert back == subjects by {
      forall s | s in back ensures s in subjects {
        var i :| 0 <= i < |names| && s == Subject(ToLower(names[i]));
      }
      forall s | s in subjects ensures s in back {
        var i :| 0 <= i < |names| && names[i] == s.subjectName;
        assert Subject(ToLower(names[i])) in back;
      }
    }
  }

  /** The stored names of valid Subjects are valid and already lower-case. */
  lemma StoredNamesNormal(subjects: set<Subject>)
    requires forall s :: s in subjects ==> s.Valid()
    ensures var names := SubjectNames(subjects);
      forall i :: 0 <= i < |names| ==> IsValidSubjectName(names[i]) && ToLower(names[i]) == names[i]
  {
    var names := SubjectNames(subjects);
    forall i | 0 <= i < |names| ensures IsValidSubjectName(names[i]) && ToLower(names[i]) == names[i] {
      assert Subject(names[i]) in subjects;
    }
  }

  /** The other five fields are present and accepted. */
  predicate OthersAcceptable(rules: Rules, j: JsonAdaptedPerson, f: Field) {
    forall g :: g != f ==> Acceptable(rules, j, g)
  }

  /** A null field of an otherwise valid record is reported as missing, naming its type. */
  lemma NullFieldReported(rules: Rules, j: JsonAdaptedPerson, f: Field)
    requires forall i :: 0 <= i < |j.subjects| ==> IsValidSubjectName(j.subjects[i])
    requires OthersAcceptable(rules, j, f) && FieldOf(j, f).None?
    ensures ToModelType(rules, j) == Failure(MissingField(TypeName(f)))
  {
    FieldsBefore(rules, j, f);
  }

  /** A rejected value in an otherwise valid record is reported with its type's constraint message. */
  lemma MalformedFieldReported(rules: Rules, j: JsonAdaptedPerson, f: Field)
    requires forall i :: 0 <= i < |j.subjects| ==> IsValidSubjectName(j.subjects[i])
    requires OthersAcceptable(rules, j, f) && FieldOf(j, f).Some? && !Accepts(rules, f, FieldOf(j, f).value)
    ensures ToModelType(rules, j) == Failure(Malformed(KindOf(f)))
  {
    FieldsBefore(rules, j, f);
  }

  /** When only field f can fail, toModelType fails exactly as CheckField does on f. */
  lemma FieldsBefore(rules: Rules, j: JsonAdaptedPerson, f: Field)
    requires forall i :: 0 <= i < |j.subjects| ==> IsValidSubjectName(j.subjects[i])
    requires OthersAcceptable(rules, j, f) && !Acceptable(rules, j, f)
    ensures ToModelType(rules, j) == Failure(CheckField(rules, j, f).error)
  {
    assert Acceptable(rules, j, NameField) || f == NameField;
    assert Acceptable(rules, j, PhoneField) || f == PhoneField;
    assert Acceptable(rules, j, EmailField) || f == EmailField;
    assert Acceptable(rules, j, AddressField) || f == AddressField;
    assert Acceptable(rules, j, NextLessonField) || f == NextLessonField;
    assert Acceptable(rules, j, PayStatusField) || f == PayStatusField;
  }

  /** One invalid subject name rejects the whole record, whatever the other fields hold. */
  lemma InvalidSubjectRejectsRecord(rules: Rules, j: JsonAdaptedPerson, i: int)
    requires 0 <= i < |j.subjects| && !IsValidSubjectName(j.subjects[i])
    ensures ToModelType(rules, j) == Failure(InvalidSubject(MESSAGE_CONSTRAINTS))
  {
  }

  /** A missing field and a malformed one are told apart by their messages. */
  lemma MissingDiffersFromMalformed(f: Field, g: Field)
    ensures MissingField(TypeName(f)) != Malformed(KindOf(g))
    ensures TypeName(f) == TypeName(g) ==> f == g
  {
  }

  // ---------------------------------------------- the adapter's test cases

  /** A valid person's stored form with the name replaced by `R@chel` fails with Name's constraint. */
  lemma InvalidNameRejected(rules: Rules, benson: Person)
    requires Sound(rules) && ValidPerson(rules, benson)
    ensures ToModelType(rules, WithField(FromPerson(rules, benson), NameField, Some("R@chel"))) == Failure(Malformed(NameKind))
  {
    SingleFault(rules, benson, NameField, Some("R@chel"));
  }

  /** ... the phone by `+651234`: Phone's constraint. */
  lemma InvalidPhoneRejected(rules: Rules, benson: Person)
    requires Sound(rules) && ValidPerson(rules, benson)
    ensures ToModelType(rules, WithField(FromPerson(rules, benson), PhoneField, Some("+651234"))) == Failure(Malformed(PhoneKind))
  {
    SingleFault(rules, benson, PhoneField, Some("+651234"));
  }

  /** ... the email by `example.com`: Email's constraint. */
  lemma InvalidEmailRejected(rules: Rules, benson: Person)
    requires Sound(rules) && ValidPerson(rules, benson)
    ensures ToModelType(rules, WithField(FromPerson(rules, benson), EmailField, Some("example.com"))) == Failure(Malformed(EmailKind))
  {
    SingleFault(rules, benson, EmailField, Some("example.com"));
  }

  /** ... the address by a single space: Address's constraint. */
  lemma InvalidAddressRejected(rules: Rules, benson: Person)
    requires Sound(rules) && ValidPerson(rules, benson)
    ensures ToModelType(rules, WithField(FromPerson(rules, benson), AddressField, Some(" "))) == Failure(Malformed(AddressKind))
  {
    SingleFault(rules, benson, AddressField, Some(" "));
  }

  /** Any one field of a valid person's stored form set to null is reported missing, by type name. */
  lemma NullFieldOfStoredPersonRejected(rules: Rules, benson: Person, f: Field)
    requires Sound(rules) && ValidPerson(rules, benson)
    ensures ToModelType(rules, WithField(FromPerson(rules, benson), f, None)) == Failure(MissingField(TypeName(f)))
  {
    SingleFault(rules, benson, f, None);
  }

  /** Appending `#math` to a valid person's subject list rejects the record; no person results. */
  lemma InvalidSubjectAppendedRejected(rules: Rules, benson: Person)
    ensures var j := FromPerson(rules, benson);
      ToModelType(rules, j.(subjects := j.subjects + ["#math"])) == Failure(InvalidSubject(MESSAGE_CONSTRAINTS))
  {
    var j := FromPerson(rules, benson);
    var names := j.subjects + ["#math"];
    assert names[|names| - 1] == "#math";
    assert !IsAlnum("#math"[0]);
    InvalidSubjectRejectsRecord(rules, j.(subjects := names), |names| - 1);
  }

  /** A valid person's stored form with one field replaced: only that field can fail. */
  lemma SingleFault(rules: Rules, p: Person, f: Field, v: Option<string>)
    requires Sound(rules) && ValidPerson(rules, p)
    ensures var j := WithField(FromPerson(rules, p), f, v);
      && (forall i :: 0 <= i < |j.subjects| ==> IsValidSubjectName(j.subjects[i]))
      && OthersAcceptable(rules, j, f)
      && (v.Some? && !Accepts(rules, f, v.value) ==> ToModelType(rules, j) == Failure(Malformed(KindOf(f))))
      && (v.None? ==> ToModelType(rules, j) == Failure(MissingField(TypeName(f))))
  {
    var stored := FromPerson(rules, p);
    RoundTrip(rules, p);
    var j := WithField(stored, f, v);
    assert forall g :: g != f ==> Acceptable(rules, j, g) by {
      forall g | g != f ensures Acceptable(rules, j, g) {
        assert Acceptable(rules, stored, g);
      }
    }
    if v.Some? && !Accepts(rules, f, v.value) { MalformedFieldReported(rules, j, f); }
    if v.None? { NullFieldReported(rules, j, f); }
  }
}
