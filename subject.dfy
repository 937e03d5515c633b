/**
 * The `Subject` value type: a subject taught to a student. A name is
 * accepted only when it is a non-empty run of ASCII letters and digits
 * (the regular expression `\p{Alnum}+`), and the stored form is lower-cased.
 */
module Subjects {
  import opened Wrappers

  /** The constraint message carried by the failure for an invalid name. */
  const MESSAGE_CONSTRAINTS: string :=
    "Subject names should be alphanumeric. \n"
    + "To add multiple subjects, specify 's/' before each subject separately. \n"
    + "Example: s/math s/chemistry s/physics"

  /** `\p{Alnum}` of Java's regular expressions: the ASCII class [a-zA-Z0-9]. */
  predicate IsAlnum(c: char) {
    ('a' <= c <= 'z') || ('A' <= c <= 'Z') || ('0' <= c <= '9')
  }

  predicate IsUpper(c: char) { 'A' <= c <= 'Z' }

  /** One character of `String.toLowerCase`, restricted to ASCII. */
  function LowerChar(c: char): (r: char)
    ensures IsUpper(c) ==> r as int == c as int + 32 && 'a' <= r <= 'z'
    ensures !IsUpper(c) ==> r == c
  {
    if IsUpper(c) then (c as int + 32) as char else c
  }

  /** `String.toLowerCase` on ASCII text: every character lowered, nothing else. */
  function ToLower(s: string): (r: string)
    ensures |r| == |s|
    ensures forall i :: 0 <= i < |s| ==> r[i] == LowerChar(s[i])
  {
    if s == [] then [] else [LowerChar(s[0])] + ToLower(s[1..])
  }

  /** `isValidSubjectName`: the whole string matches `\p{Alnum}+`. */
  predicate IsValidSubjectName(test: string) {
    |test| > 0 && forall i :: 0 <= i < |test| ==> IsAlnum(test[i])
  }

  /** A subject; `subjectName` is the stored, lower-cased form. */
  datatype Subject = Subject(subjectName: string) {
    /** What every constructed Subject guarantees: a valid, already lower-case name. */
    predicate Valid() {
      IsValidSubjectName(subjectName) && ToLower(subjectName) == subjectName
    }
  }

  /**
   * The constructor `new Subject(name)`: fails with MESSAGE_CONSTRAINTS when
   * the name is invalid, and otherwise stores the lower-cased name.
   */
  function NewSubject(name: string): (r: Result<Subject, string>)
    ensures r.Success? <==> IsValidSubjectName(name)
    ensures r.Failure? ==> r.error == MESSAGE_CONSTRAINTS
    ensures r.Success? ==> r.value.Valid()
    ensures r.Success? ==> r.value.subjectName == ToLower(name)
  {
    if IsValidSubjectName(name) then
      LowerCaseKeepsValid(name);
      LowerCaseIdempotent(name);
      Success(Subject(ToLower(name)))
    else
      Failure(MESSAGE_CONSTRAINTS)
  }

  /** Lower-casing keeps a valid name valid. */
  lemma LowerCaseKeepsValid(s: string)
    requires IsValidSubjectName(s)
    ensures IsValidSubjectName(ToLower(s))
  {
  }

  /** Lower-casing is idempotent. */
  lemma LowerCaseIdempotent(s: string)
    ensures ToLower(ToLower(s)) == ToLower(s)
  {
    var once := ToLower(s);
    assert forall i :: 0 <= i < |s| ==> ToLower(once)[i] == once[i];
  }

  /** Normalisation is idempotent: rebuilding a Subject from its stored name gives the same Subject. */
  lemma NewSubjectIdempotent(name: string)
    requires IsValidSubjectName(name)
    ensures NewSubject(NewSubject(name).value.subjectName) == NewSubject(name)
  {
    LowerCaseIdempotent(name);
  }

  /** Two names give equal Subjects exactly when their lower-cased forms agree. */
  lemma NewSubjectEqualIffLowerEqual(a: string, b: string)
    requires IsValidSubjectName(a) && IsValidSubjectName(b)
    ensures NewSubject(a) == NewSubject(b) <==> ToLower(a) == ToLower(b)
  {
  }

  /** `"Math"` and `"math"` name the same Subject. */
  lemma MathEqualsLowerMath()
    ensures NewSubject("Math").Success? && NewSubject("math").Success?
    ensures Equals(NewSubject("Math").value, NewSubject("math").value)
  {
    assert ToLower("Math") == "math";
    assert ToLower("math") == "math";
  }

  /** An invalid name yields no Subject, and the failure carries MESSAGE_CONSTRAINTS. */
  lemma HashMathRejected()
    ensures NewSubject("#math") == Failure(MESSAGE_CONSTRAINTS)
  {
    assert !IsAlnum("#math"[0]);
  }

  /** `equals`: Subjects are equal when their stored names are. */
  function Equals(a: Subject, b: Subject): (r: bool)
    ensures r <==> a == b
  {
    a.subjectName == b.subjectName
  }

  /** `equals` is an equivalence relation. */
  lemma EqualsIsEquivalence(a: Subject, b: Subject, c: Subject)
    ensures Equals(a, a)
    ensures Equals(a, b) ==> Equals(b, a)
    ensures Equals(a, b) && Equals(b, c) ==> Equals(a, c)
  {
  }

  const TWO_TO_32: int := 0x1_0000_0000
  const TWO_TO_31: int := 0x8000_0000

  /** Reduces an integer to a Java `int` (two's-complement wrap-around). */
  function ToInt32(x: int): (r: int)
    ensures -TWO_TO_31 <= r < TWO_TO_31
    ensures (x - r) % TWO_TO_32 == 0
  {
    var m := x % TWO_TO_32;
    if m < TWO_TO_31 then m else m - TWO_TO_32
  }

  /** Java's `String.hashCode`: h = 31 * h + c over the characters, in `int` arithmetic. */
  function StringHashCode(s: string): (r: int)
    ensures -TWO_TO_31 <= r < TWO_TO_31
    ensures s == [] ==> r == 0
  {
    if s == [] then 0 else ToInt32(31 * StringHashCode(s[..|s| - 1]) + s[|s| - 1] as int)
  }

  /** `hashCode`: the hash of the stored name. */
  function HashCode(s: Subject): (r: int)
    ensures -TWO_TO_31 <= r < TWO_TO_31
  {
    StringHashCode(s.subjectName)
  }

  /** Equal Subjects have equal hashes. */
  lemma HashConsistentWithEquals(a: Subject, b: Subject)
    requires Equals(a, b)
    ensures HashCode(a) == HashCode(b)
  {
  }

  /** `toString`: the stored name in square brackets. */
  function ToString(s: Subject): (r: string)
    ensures |r| == |s.subjectName| + 2
    ensures r[0] == '[' && r[|r| - 1] == ']'
    ensures r[1..|r| - 1] == s.subjectName
  {
    "[" + s.subjectName + "]"
  }

  /** Distinct Subjects print differently, so the printed form identifies the Subject. */
  lemma ToStringInjective(a: Subject, b: Subject)
    requires ToString(a) == ToString(b)
    ensures a == b
  {
    var r := ToString(a);
    assert a.subjectName == r[1..|r| - 1] == b.subjectName;
  }

  /**
   * `SampleDataUtil.getSubjectSet`: a Subject for every name, collected into a
   * set. Any invalid name makes the whole call fail with MESSAGE_CONSTRAINTS.
   */
  function SubjectSet(names: seq<string>): (r: Result<set<Subject>, string>)
    ensures r.Success? <==> forall i :: 0 <= i < |names| ==> IsValidSubjectName(names[i])
    ensures r.Failure? ==> r.error == MESSAGE_CONSTRAINTS
    ensures r.Success? ==> forall s :: s in r.value ==> s.Valid()
    ensures r.Success? ==> forall i :: 0 <= i < |names| ==> Subject(ToLower(names[i])) in r.value
    ensures r.Success? ==> forall s :: s in r.value ==> exists i :: 0 <= i < |names| && s == Subject(ToLower(names[i]))
  {
    if names == [] then Success({})
    else
      match NewSubject(names[0])
      case Failure(e) => Failure(e)
      case Success(first) =>
        match SubjectSet(names[1..])
        case Failure(e) => Failure(e)
        case Success(rest) =>
          ConsSet(names, first, rest);
          Success({first} + rest)
  }

  /** The set for a list is the head's Subject added to the set for its tail. */
  lemma ConsSet(names: seq<string>, first: Subject, rest: set<Subject>)
    requires names != [] && first == Subject(ToLower(names[0])) && first.Valid()
    requires forall s :: s in rest ==> s.Valid()
    requires forall i :: 0 <= i < |names[1..]| ==> Subject(ToLower(names[1..][i])) in rest
    requires forall s :: s in rest ==> exists i :: 0 <= i < |names[1..]| && s == Subject(ToLower(names[1..][i]))
    ensures forall s :: s in {first} + rest ==> s.Valid()
    ensures forall i :: 0 <= i < |names| ==> Subject(ToLower(names[i])) in {first} + rest
    ensures forall s :: s in {first} + rest ==> exists i :: 0 <= i < |names| && s == Subject(ToLower(names[i]))
  {
    forall i | 1 <= i < |names| ensures Subject(ToLower(names[i])) in rest {
      assert names[1..][i - 1] == names[i];
    }
    forall s | s in rest ensures exists i :: 0 <= i < |names| && s == Subject(ToLower(names[i])) {
      var j :| 0 <= j < |names[1..]| && s == Subject(ToLower(names[1..][j]));
      assert names[1..][j] == names[j + 1];
    }
  }
}
