/**
 * The person record and the value types it is built from. The format rules
 * of Name, Phone, Email, Address and PayStatus and the text form of
 * NextLesson are not part of this model: they enter as a `Rules` record,
 * constrained only by what the builder and storage code rely on.
 */
module People {
  import opened Wrappers
  import opened Calendar
  import opened Subjects

  datatype Name = Name(fullName: string)
  datatype Phone = Phone(value: string)
  datatype Email = Email(value: string)
  datatype Address = Address(value: string)
  datatype PayStatus = PayStatus(value: string)

  /** The next lesson: none scheduled, or a date with a start and an end time. */
  datatype NextLesson = Unscheduled | Scheduled(date: Date, start: Time, end: Time)

  /** What every NextLesson value holds: a real date and real times of day. */
  predicate WellFormedLesson(l: NextLesson) {
    l.Scheduled? ==> IsValidDate(l.date) && IsValidTime(l.start) && IsValidTime(l.end)
  }

  datatype Person = Person(
    name: Name,
    phone: Phone,
    email: Email,
    address: Address,
    nextLesson: NextLesson,
    payStatus: PayStatus,
    subjects: set<Subject>)

  /** The value types whose constraint message a failed construction carries. */
  datatype ValueKind = NameKind | PhoneKind | EmailKind | AddressKind | NextLessonKind | PayStatusKind

  /**
   * The format rules of the value types: `isValidX` for each string-valued
   * type, and NextLesson's string constructor (None where it throws) and
   * `toString`.
   */
  datatype Rules = Rules(
    isValidName: string -> bool,
    isValidPhone: string -> bool,
    isValidEmail: string -> bool,
    isValidAddress: string -> bool,
    isValidPayStatus: string -> bool,
    parseLesson: string -> Option<NextLesson>,
    lessonToString: NextLesson -> string)

  const DEFAULT_NAME: string := "Amy Bee"
  const DEFAULT_PHONE: string := "85355255"
  const DEFAULT_EMAIL: string := "amy@gmail.com"
  const DEFAULT_ADDRESS: string := "123, Jurong West Ave 6, #08-111"
  const DEFAULT_NEXT_LESSON: string := "15/06/2025 1900-2100"
  const DEFAULT_PAYSTATUS: string := ""

  /** The lesson DEFAULT_NEXT_LESSON denotes in the `dd/MM/yyyy HHmm-HHmm` layout. */
  const DEFAULT_LESSON: NextLesson := Scheduled(Date(2025, 6, 15), Time(19, 0), Time(21, 0))

  /**
   * What is known of the rules: the invalid samples of the storage tests are
   * rejected, the builder defaults are accepted, every parsed lesson is well
   * formed, and parsing a lesson's printed form gives the lesson back.
   */
  ghost predicate Sound(r: Rules) {
    && !r.isValidName("R@chel")
    && !r.isValidPhone("+651234")
    && !r.isValidAddress(" ")
    && !r.isValidEmail("example.com")
    && r.isValidName(DEFAULT_NAME)
    && r.isValidPhone(DEFAULT_PHONE)
    && r.isValidEmail(DEFAULT_EMAIL)
    && r.isValidAddress(DEFAULT_ADDRESS)
    && r.isValidPayStatus(DEFAULT_PAYSTATUS)
    && r.parseLesson(DEFAULT_NEXT_LESSON) == Some(DEFAULT_LESSON)
    && (forall s :: r.parseLesson(s).Some? ==> WellFormedLesson(r.parseLesson(s).value))
    && (forall l :: WellFormedLesson(l) ==> r.parseLesson(r.lessonToString(l)) == Some(l))
  }

  /** A person every field of which could have been constructed under the rules. */
  ghost predicate ValidPerson(r: Rules, p: Person) {
    && r.isValidName(p.name.fullName)
    && r.isValidPhone(p.phone.value)
    && r.isValidEmail(p.email.value)
    && r.isValidAddress(p.address.value)
    && WellFormedLesson(p.nextLesson)
    && r.isValidPayStatus(p.payStatus.value)
    && (forall s :: s in p.subjects ==> s.Valid())
  }
}
