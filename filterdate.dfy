/**
 * Parsing the argument of the date-filter command into a predicate that
 * selects the persons whose next lesson falls on that date. The checks run
 * in a fixed order and the first that fails is reported: blank input, the
 * `d/M/yyyy` shape, calendar validity, a date in the past, a date more than
 * one year ahead. The current date is a parameter.
 */
module FilterDate {
  import opened Wrappers
  import opened Calendar
  import opened People

  /** The parse failures, one per message constant. */
  datatype ParseError =
    | InvalidCommandFormat  // MESSAGE_INVALID_COMMAND_FORMAT filled with the command's usage
    | InvalidFormat         // MESSAGE_INVALID_FORMAT
    | InvalidDate           // MESSAGE_INVALID_DATE
    | InvalidPastDate       // MESSAGE_INVALID_PAST_DATE
    | InvalidYear           // MESSAGE_INVALID_YEAR

  /** `NextLessonEqualsDatePredicate`: fixed by one date. */
  datatype NextLessonEqualsDatePredicate = NextLessonEqualsDatePredicate(date: Date)

  /** `FilterDateCommand`: a filter by one predicate. */
  datatype FilterDateCommand = FilterDateCommand(pred: NextLessonEqualsDatePredicate)

  /** The predicate holds of a person whose lesson is scheduled on its date. */
  predicate Test(pred: NextLessonEqualsDatePredicate, p: Person) {
    p.nextLesson.Scheduled? && p.nextLesson.date == pred.date
  }

  // ---------------------------------------------------------------- trimming

  /** What `String.trim` removes: every character up to U+0020. */
  predicate IsWhitespace(c: char) { c <= ' ' }

  predicate AllWhitespace(s: string) {
    forall i :: 0 <= i < |s| ==> IsWhitespace(s[i])
  }

  function TrimStart(s: string): (r: string)
    ensures |r| <= |s| && r == s[|s| - |r|..]
    ensures AllWhitespace(s[..|s| - |r|])
    ensures r == [] || !IsWhitespace(r[0])
  {
    if s != [] && IsWhitespace(s[0]) then TrimStart(s[1..]) else s
  }

  function TrimEnd(s: string): (r: string)
    ensures |r| <= |s| && r == s[..|r|]
    ensures AllWhitespace(s[|r|..])
    ensures r == [] || !IsWhitespace(r[|r| - 1])
  {
    if s != [] && IsWhitespace(s[|s| - 1]) then TrimEnd(s[..|s| - 1]) else s
  }

  /** r occurs in s with nothing but whitespace before and after it. */
  predicate PaddedSlice(s: string, r: string) {
    exists i :: 0 <= i <= |s| - |r| && r == s[i..i + |r|]
                && AllWhitespace(s[..i]) && AllWhitespace(s[i + |r|..])
  }

  /** `String.trim`: the input without its leading and trailing whitespace. */
  function Trim(s: string): (r: string)
    ensures r == [] <==> AllWhitespace(s)
    ensures r != [] ==> !IsWhitespace(r[0]) && !IsWhitespace(r[|r| - 1])
    ensures PaddedSlice(s, r)
  {
    var t := TrimStart(s);
    var r := TrimEnd(t);
    TrimParts(s, t, r);
    r
  }

  /**
   * Cutting whitespace off the front of s, giving t, and then off the back
   * of t, giving r: r is a slice of s with only whitespace around it, and r
   * is empty exactly when s is all whitespace.
   */
  lemma TrimParts(s: string, t: string, r: string)
    requires |t| <= |s| && t == s[|s| - |t|..] && AllWhitespace(s[..|s| - |t|])
    requires |r| <= |t| && r == t[..|r|] && AllWhitespace(t[|r|..])
    requires r == [] || !IsWhitespace(r[0])
    ensures r == [] <==> AllWhitespace(s)
    ensures PaddedSlice(s, r)
  {
    var i := |s| - |t|;
    assert s[i + |r|..] == t[|r|..];
    assert r == s[i..i + |r|];
    if r == [] {
      assert s == s[..i] + s[i..];
    } else {
      assert s[i] == r[0];
    }
  }

  /** A string that starts and ends with a visible character trims to itself. */
  lemma TrimKeepsVisible(s: string)
    requires s != [] && !IsWhitespace(s[0]) && !IsWhitespace(s[|s| - 1])
    ensures Trim(s) == s
  {
  }

  lemma {:induction false} TrimStartSkipsWhitespace(pre: string, s: string)
    requires AllWhitespace(pre)
    ensures TrimStart(pre + s) == TrimStart(s)
  {
    if pre != [] {
      assert (pre + s)[1..] == pre[1..] + s;
      TrimStartSkipsWhitespace(pre[1..], s);
    } else {
      assert pre + s == s;
    }
  }

  lemma {:induction false} TrimEndSkipsWhitespace(s: string, post: string)
    requires AllWhitespace(post)
    ensures TrimEnd(s + post) == TrimEnd(s)
  {
    if post != [] {
      assert (s + post)[..|s + post| - 1] == s + post[..|post| - 1];
      TrimEndSkipsWhitespace(s, post[..|post| - 1]);
    } else {
      assert s + post == s;
    }
  }

  lemma {:induction false} TrimStartKeepsTail(s: string, post: string)
    requires !AllWhitespace(s)
    ensures TrimStart(s + post) == TrimStart(s) + post
  {
    if IsWhitespace(s[0]) {
      assert (s + post)[1..] == s[1..] + post;
      TrimStartKeepsTail(s[1..], post);
    }
  }

  /** Whitespace around the argument does not change what it trims to. */
  lemma TrimIgnoresPadding(pre: string, s: string, post: string)
    requires AllWhitespace(pre) && AllWhitespace(post)
    ensures Trim(pre + s + post) == Trim(s)
  {
    var sp := s + post;
    assert pre + s + post == pre + sp;
    TrimStartSkipsWhitespace(pre, sp);
    if AllWhitespace(s) {
      assert AllWhitespace(sp);
      WhitespaceTrimsAway(sp);
      WhitespaceTrimsAway(s);
    } else {
      TrimStartKeepsTail(s, post);
      TrimEndSkipsWhitespace(TrimStart(s), post);
    }
  }

  lemma {:induction false} WhitespaceTrimsAway(s: string)
    requires AllWhitespace(s)
    ensures TrimStart(s) == []
  {
    if s != [] {
      assert IsWhitespace(s[0]);
      WhitespaceTrimsAway(s[1..]);
    }
  }

  // ------------------------------------------------------------ date shape

  predicate IsDigit(c: char) { '0' <= c <= '9' }

  predicate AllDigits(s: string) {
    forall i :: 0 <= i < |s| ==> IsDigit(s[i])
  }

  /** The number a run of decimal digits denotes. */
  function DigitsValue(s: string): (n: nat)
    requires AllDigits(s)
  {
    if s == [] then 0 else DigitsValue(s[..|s| - 1]) * 10 + (s[|s| - 1] as int - '0' as int)
  }

  lemma {:induction false} DigitsValueBound(s: string)
    requires AllDigits(s)
    ensures |s| == 1 ==> DigitsValue(s) < 10
    ensures |s| == 2 ==> DigitsValue(s) < 100
    ensures |s| == 4 ==> DigitsValue(s) < 10000
  {
    if s != [] {
      DigitsValueBound(s[..|s| - 1]);
      if |s| == 4 { DigitsValueBound3(s[..3]); }
    }
  }

  lemma DigitsValueBound3(s: string)
    requires AllDigits(s) && |s| == 3
    ensures DigitsValue(s) < 1000
  {
    DigitsValueBound(s[..2]);
  }

  /**
   * The layout `d/M/yyyy` with `dl` day digits and `ml` month digits: one
   * or two digits, a slash, one or two digits, a slash, exactly four digits.
   */
  predicate ShapeAt(s: string, dl: nat, ml: nat) {
    && 1 <= dl <= 2 && 1 <= ml <= 2
    && |s| == dl + ml + 6
    && AllDigits(s[..dl]) && s[dl] == '/'
    && AllDigits(s[dl + 1..dl + 1 + ml]) && s[dl + 1 + ml] == '/'
    && AllDigits(s[dl + ml + 2..])
  }

  predicate HasDateShape(s: string) {
    exists dl: nat, ml: nat :: 1 <= dl <= 2 && 1 <= ml <= 2 && ShapeAt(s, dl, ml)
  }

  /** The date the fields of a shaped string name, valid or not. */
  function Fields(s: string, dl: nat, ml: nat): Date
    requires ShapeAt(s, dl, ml)
  {
    Date(DigitsValue(s[dl + ml + 2..]), DigitsValue(s[dl + 1..dl + 1 + ml]), DigitsValue(s[..dl]))
  }

  /** A string has the shape in at most one way, since digits are not slashes. */
  lemma ShapeUnique(s: string, dl: nat, ml: nat, dl': nat, ml': nat)
    requires ShapeAt(s, dl, ml) && ShapeAt(s, dl', ml')
    ensures dl == dl' && ml == ml'
  {
  }

  /** Matching the shape: the date its fields name, or None when it does not fit. */
  function MatchShape(s: string): Option<Date> {
    if ShapeAt(s, 1, 1) then Some(Fields(s, 1, 1))
    else if ShapeAt(s, 1, 2) then Some(Fields(s, 1, 2))
    else if ShapeAt(s, 2, 1) then Some(Fields(s, 2, 1))
    else if ShapeAt(s, 2, 2) then Some(Fields(s, 2, 2))
    else None
  }

  /** MatchShape finds the shape exactly when there is one, and reads its fields. */
  lemma MatchShapeSpec(s: string)
    ensures MatchShape(s).None? <==> !HasDateShape(s)
    ensures forall dl: nat, ml: nat :: ShapeAt(s, dl, ml) ==> MatchShape(s) == Some(Fields(s, dl, ml))
    ensures MatchShape(s).Some? ==> var d := MatchShape(s).value;
      0 <= d.year < 10000 && 0 <= d.month < 100 && 0 <= d.day < 100
  {
    forall dl: nat, ml: nat | ShapeAt(s, dl, ml) ensures MatchShape(s) == Some(Fields(s, dl, ml)) {
      MatchShapeFinds(s, dl, ml);
    }
    if MatchShape(s).Some? {
      var dl: nat, ml: nat :| ShapeAt(s, dl, ml);
      FieldsInRange(s, dl, ml);
    }
  }

  /** The one shape a string has is the one MatchShape tries and reads. */
  lemma MatchShapeFinds(s: string, dl: nat, ml: nat)
    requires ShapeAt(s, dl, ml)
    ensures MatchShape(s) == Some(Fields(s, dl, ml))
  {
  }

  /** The fields of a shaped string have at most two, two and four digits. */
  lemma FieldsInRange(s: string, dl: nat, ml: nat)
    requires ShapeAt(s, dl, ml)
    ensures var d := Fields(s, dl, ml); 0 <= d.year < 10000 && 0 <= d.month < 100 && 0 <= d.day < 100
  {
    DigitsValueBound(s[..dl]);
    DigitsValueBound(s[dl + 1..dl + 1 + ml]);
    DigitsValueBound(s[dl + ml + 2..]);
  }

  // ---------------------------------------------------------------- parsing

  /**
   * `FilterDateCommandParser.parse`, with `today` for the clock. Blank input
   * is a command-format error, a string of the wrong shape a format error,
   * a shaped string that names no real day a date error; a real day before
   * today is a past-date error and one after `today.plusYears(1)` a year
   * error. Otherwise the command filters by that day.
   */
  function ParseFilterDate(args: string, today: Date): (r: Result<FilterDateCommand, ParseError>)
    requires IsValidDate(today)
    ensures r == Failure(InvalidCommandFormat) <==> AllWhitespace(args)
    ensures r == Failure(InvalidFormat) <==> !AllWhitespace(args) && !HasDateShape(Trim(args))
    ensures r.Success? ==> HasDateShape(Trim(args))
    ensures r.Success? ==>
      forall dl: nat, ml: nat :: ShapeAt(Trim(args), dl, ml) ==> r.value.pred.date == Fields(Trim(args), dl, ml)
    ensures r.Success? ==> var d := r.value.pred.date;
      IsValidDate(d) && !Before(d, today) && !Before(OneYearLater(today), d)
  {
    var trimmed := Trim(args);
    MatchShapeSpec(trimmed);
    if trimmed == [] then Failure(InvalidCommandFormat)
    else
      match MatchShape(trimmed)
      case None => Failure(InvalidFormat)
      case Some(d) => CheckDate(d, today)
  }

  /** The checks on the date a shaped argument names: calendar validity, then the range from today. */
  function CheckDate(d: Date, today: Date): (r: Result<FilterDateCommand, ParseError>)
    requires IsValidDate(today)
    ensures r != Failure(InvalidCommandFormat) && r != Failure(InvalidFormat)
    ensures r.Success? ==> r.value.pred.date == d
  {
    if !IsValidDate(d) then Failure(InvalidDate)
    else if Before(d, today) then Failure(InvalidPastDate)
    else if Before(OneYearLater(today), d) then Failure(InvalidYear)
    else Success(FilterDateCommand(NextLessonEqualsDatePredicate(d)))
  }

  // ------------------------------------------------------------- formatting

  function DigitChar(n: int): (c: char)
    requires 0 <= n < 10
    ensures IsDigit(c) && c as int - '0' as int == n
  {
    ('0' as int + n) as char
  }

  /** Pattern letter `d` or `M`: the number in as few digits as it takes. */
  function NatToDigits(n: nat): (r: string)
    ensures AllDigits(r) && DigitsValue(r) == n
    ensures n < 10 ==> |r| == 1
    ensures 10 <= n < 100 ==> |r| == 2
    ensures 100 <= n < 1000 ==> |r| == 3
    ensures 1000 <= n < 10000 ==> |r| == 4
  {
    if n < 10 then [DigitChar(n)]
    else
      var prefix := NatToDigits(n / 10);
      var r := prefix + [DigitChar(n % 10)];
      assert r[..|r| - 1] == prefix;
      r
  }

  predicate AllZeros(z: string) {
    forall i :: 0 <= i < |z| ==> z[i] == '0'
  }

  /** Leading zeros do not change the value of a digit string. */
  lemma {:induction false} LeadingZeros(z: string, x: string)
    requires AllZeros(z) && AllDigits(x)
    ensures AllDigits(z + x) && DigitsValue(z + x) == DigitsValue(x)
  {
    if x == [] {
      assert z + x == z;
      ZerosValue(z);
    } else {
      var x' := x[..|x| - 1];
      assert (z + x)[..|z + x| - 1] == z + x';
      LeadingZeros(z, x');
    }
  }

  lemma {:induction false} ZerosValue(z: string)
    requires AllZeros(z)
    ensures AllDigits(z) && DigitsValue(z) == 0
  {
    if z != [] { ZerosValue(z[..|z| - 1]); }
  }

  /** Pattern letters `yyyy`: the year in four digits, zero-padded. */
  function FourDigits(n: nat): (r: string)
    requires n < 10000
    ensures |r| == 4 && AllDigits(r) && DigitsValue(r) == n
  {
    var digits := NatToDigits(n);
    var zeros := if n < 10 then "000" else if n < 100 then "00" else if n < 1000 then "0" else "";
    LeadingZeros(zeros, digits);
    zeros + digits
  }

  /** Day, month and year written as `d/M/yyyy`, whether or not they name a real day. */
  function FormatFields(day: nat, month: nat, year: nat): string
    requires day < 100 && month < 100 && year < 10000
  {
    NatToDigits(day) + "/" + NatToDigits(month) + "/" + FourDigits(year)
  }

  /** Digit runs of the right lengths joined by slashes have the shape. */
  lemma ShapeOfParts(ds: string, ms: string, ys: string)
    requires AllDigits(ds) && AllDigits(ms) && AllDigits(ys)
    requires 1 <= |ds| <= 2 && 1 <= |ms| <= 2 && |ys| == 4
    ensures var s := ds + "/" + ms + "/" + ys;
      && ShapeAt(s, |ds|, |ms|)
      && s[..|ds|] == ds && s[|ds| + 1..|ds| + 1 + |ms|] == ms && s[|ds| + |ms| + 2..] == ys
  {
  }

  /** ... and read back as those runs. */
  lemma FieldsOfParts(ds: string, ms: string, ys: string)
    requires AllDigits(ds) && AllDigits(ms) && AllDigits(ys)
    requires 1 <= |ds| <= 2 && 1 <= |ms| <= 2 && |ys| == 4
    ensures ShapeAt(ds + "/" + ms + "/" + ys, |ds|, |ms|)
    ensures Fields(ds + "/" + ms + "/" + ys, |ds|, |ms|) == Date(DigitsValue(ys), DigitsValue(ms), DigitsValue(ds))
  {
    ShapeOfParts(ds, ms, ys);
  }

  /** Written fields have the shape and read back as the same fields. */
  lemma FormatFieldsMatches(day: nat, month: nat, year: nat)
    requires 1 <= day < 100 && 1 <= month < 100 && year < 10000
    ensures Trim(FormatFields(day, month, year)) == FormatFields(day, month, year)
    ensures MatchShape(FormatFields(day, month, year)) == Some(Date(year, month, day))
  {
    var ds, ms, ys := NatToDigits(day), NatToDigits(month), FourDigits(year);
    var s := FormatFields(day, month, year);
    FieldsOfParts(ds, ms, ys);
    MatchShapeSpec(s);
    assert s[0] == ds[0] && s[|s| - 1] == ys[3];
    TrimKeepsVisible(s);
  }

  /** A date written in the `d/M/yyyy` layout the parser reads. */
  function FormatDate(d: Date): (r: string)
    requires IsValidDate(d) && 0 <= d.year < 10000
  {
    FormatFields(d.day, d.month, d.year)
  }

  /**
   * Round trip: every real day from today to one year ahead, written as
   * `d/M/yyyy`, parses to the filter by that day.
   */
  lemma FormatThenParse(d: Date, today: Date)
    requires IsValidDate(today) && IsValidDate(d) && 0 <= d.year < 10000
    requires !Before(d, today) && !Before(OneYearLater(today), d)
    ensures ParseFilterDate(FormatDate(d), today) == Success(FilterDateCommand(NextLessonEqualsDatePredicate(d)))
  {
    FormatFieldsMatches(d.day, d.month, d.year);
  }

  /** A parsed filter selects only persons whose lesson lies in the window from today. */
  lemma ParsedFilterSelectsWindow(args: string, today: Date, p: Person)
    requires IsValidDate(today)
    requires ParseFilterDate(args, today).Success?
    requires Test(ParseFilterDate(args, today).value.pred, p)
    ensures p.nextLesson.Scheduled?
    ensures IsValidDate(p.nextLesson.date)
    ensures !Before(p.nextLesson.date, today) && !Before(OneYearLater(today), p.nextLesson.date)
  {
  }

  /** Whitespace around the argument never changes the outcome. */
  lemma PaddingIgnored(pre: string, args: string, post: string, today: Date)
    requires IsValidDate(today) && AllWhitespace(pre) && AllWhitespace(post)
    ensures ParseFilterDate(pre + args + post, today) == ParseFilterDate(args, today)
  {
    TrimIgnoresPadding(pre, args, post);
  }

  /**
   * The checks before the date-range checks do not read the clock: a blank,
   * format or calendar error is the same whatever today is.
   */
  lemma EarlyErrorsIgnoreClock(args: string, today: Date, other: Date)
    requires IsValidDate(today) && IsValidDate(other)
    requires ParseFilterDate(args, today) in {Failure(InvalidCommandFormat), Failure(InvalidFormat), Failure(InvalidDate)}
    ensures ParseFilterDate(args, other) == ParseFilterDate(args, today)
  {
  }

  /**
   * For an argument of the right shape, naming the date d, exactly one
   * outcome applies: a date error iff d is no real day, a past-date error iff
   * it is a real day before today, a year error iff it is a real day after
   * one year from today, and the filter by d otherwise.
   */
  lemma ShapedOutcome(args: string, today: Date, dl: nat, ml: nat)
    requires IsValidDate(today) && ShapeAt(Trim(args), dl, ml)
    ensures var d := Fields(Trim(args), dl, ml); var r := ParseFilterDate(args, today);
      && (r == Failure(InvalidDate) <==> !IsValidDate(d))
      && (r == Failure(InvalidPastDate) <==> IsValidDate(d) && Before(d, today))
      && (r == Failure(InvalidYear) <==> IsValidDate(d) && !Before(d, today) && Before(OneYearLater(today), d))
      && (r == Success(FilterDateCommand(NextLessonEqualsDatePredicate(d))) <==>
            IsValidDate(d) && !Before(d, today) && !Before(OneYearLater(today), d))
  {
    MatchShapeSpec(Trim(args));
  }

  /** A shaped string that names a real day is a success or a range error, never an earlier one. */
  lemma RealDayPassesEarlyChecks(args: string, today: Date)
    requires IsValidDate(today) && MatchShape(Trim(args)).Some?
    requires IsValidDate(MatchShape(Trim(args)).value)
    ensures ParseFilterDate(args, today).Success?
      || ParseFilterDate(args, today) in {Failure(InvalidPastDate), Failure(InvalidYear)}
  {
    MatchShapeSpec(Trim(args));
  }

  // ------------------------------------------------ the parser's test cases

  /** Empty or space-only input is a command-format error. */
  lemma BlankArgsRejected(today: Date)
    requires IsValidDate(today)
    ensures ParseFilterDate("", today) == Failure(InvalidCommandFormat)
    ensures ParseFilterDate("     ", today) == Failure(InvalidCommandFormat)
  {
    assert forall i :: 0 <= i < 5 ==> "     "[i] == ' ';
  }

  /** `20/6/2025` filters by 20 June 2025 while that day is in the window. */
  lemma ValidArgsParsed(today: Date)
    requires IsValidDate(today)
    requires !Before(Date(2025, 6, 20), today) && !Before(OneYearLater(today), Date(2025, 6, 20))
    ensures ParseFilterDate("20/6/2025", today) == Success(FilterDateCommand(NextLessonEqualsDatePredicate(Date(2025, 6, 20))))
  {
    ParseWritten(20, 6, 2025, "20/6/2025", today);
  }

  /** Spaces, a newline and a tab around `20/6/2025` give the same command. */
  lemma PaddedArgsParsed(today: Date)
    requires IsValidDate(today)
    ensures ParseFilterDate(" \n 20/6/2025  \t", today) == ParseFilterDate("20/6/2025", today)
  {
    assert " \n 20/6/2025  \t" == " \n " + "20/6/2025" + "  \t";
    PaddingIgnored(" \n ", "20/6/2025", "  \t", today);
  }

  /** A wrong separator is a format error, whatever the date. */
  lemma DashesRejected(today: Date)
    requires IsValidDate(today)
    ensures ParseFilterDate("15-04-2026", today) == Failure(InvalidFormat)
  {
    Shapeless("15-04-2026", today);
  }

  /** A two-digit year is a format error even when the year, read as is, lies in the past. */
  lemma TwoDigitYearRejected(today: Date)
    requires IsValidDate(today)
    ensures ParseFilterDate("15/4/26", today) == Failure(InvalidFormat)
  {
    Shapeless("15/4/26", today);
  }

  /** 31 February 2026 is a date error, whatever today is. */
  lemma ThirtyFirstFebruaryRejected(today: Date)
    requires IsValidDate(today)
    ensures ParseFilterDate("31/2/2026", today) == Failure(InvalidDate)
  {
    ParseWritten(31, 2, 2026, "31/2/2026", today);
  }

  /** Month 14 is a date error, not a format error. */
  lemma MonthFourteenRejected(today: Date)
    requires IsValidDate(today)
    ensures ParseFilterDate("15/14/2026", today) == Failure(InvalidDate)
  {
    ParseWritten(15, 14, 2026, "15/14/2026", today);
  }

  /** 29 February of the common year 2026 is a date error. */
  lemma LeapDayOfCommonYearRejected(today: Date)
    requires IsValidDate(today)
    ensures ParseFilterDate("29/2/2026", today) == Failure(InvalidDate)
  {
    ParseWritten(29, 2, 2026, "29/2/2026", today);
  }

  /** 15 April 2021 is a past-date error once today is later. */
  lemma PastDateRejected(today: Date)
    requires IsValidDate(today) && Before(Date(2021, 4, 15), today)
    ensures ParseFilterDate("15/4/2021", today) == Failure(InvalidPastDate)
  {
    ParseWritten(15, 4, 2021, "15/4/2021", today);
  }

  /** 15 April 2030 is a year error while it lies more than a year after today. */
  lemma FarFutureRejected(today: Date)
    requires IsValidDate(today) && Before(OneYearLater(today), Date(2030, 4, 15))
    ensures ParseFilterDate("15/4/2030", today) == Failure(InvalidYear)
  {
    ParseWritten(15, 4, 2030, "15/4/2030", today);
    BeforeIsStrictTotalOrder(Date(2030, 4, 15), today, OneYearLater(today));
  }

  /** A visible string without the shape is a format error. */
  lemma Shapeless(s: string, today: Date)
    requires IsValidDate(today)
    requires s != [] && !IsWhitespace(s[0]) && !IsWhitespace(s[|s| - 1])
    requires forall dl: nat, ml: nat :: !ShapeAt(s, dl, ml)
    ensures ParseFilterDate(s, today) == Failure(InvalidFormat)
  {
    TrimKeepsVisible(s);
  }

  /** A literal that is the written form of some fields parses as those fields checked against today. */
  lemma ParseWritten(day: nat, month: nat, year: nat, s: string, today: Date)
    requires IsValidDate(today)
    requires 1 <= day < 100 && 1 <= month < 100 && year < 10000
    requires s == FormatFields(day, month, year)
    ensures ParseFilterDate(s, today) == CheckDate(Date(year, month, day), today)
  {
    FormatFieldsMatches(day, month, year);
  }
}
