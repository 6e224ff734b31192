/**
  The dates answers carry: the IMF-fixdate form of section 5.6.7 of RFC 9110 printed and read back, the ISO day, and
  the conditional request of section 13.1.3 that compares them.
 */
module HttpDate {
  import opened Bytes
  import opened Results
  import opened Decimal
  import opened Calendar

  const WEEKDAYS: seq<string> := ["Sun", "Mon", "Tue", "Wed", "Thu", "Fri", "Sat"]
  const MONTHS: seq<string> :=
    ["Jan", "Feb", "Mar", "Apr", "May", "Jun", "Jul", "Aug", "Sep", "Oct", "Nov", "Dec"]

  // ---- printing

  /** The year, month and day of a time, which is never before 1970. */
  lemma CivilSince1970(days: nat)
    ensures Civil(days).year >= 1970
  {
    hide Civil;
    CivilStarts();
    if days > 0 { CivilOrdered(0, days); }
  }

  function Day(days: nat): (d: Date)
    ensures Valid(d) && d.year >= 1970 && 1 <= d.month <= 12 && 1 <= d.day <= 31
  {
    CivilValid(days);
    CivilSince1970(days);
    Civil(days)
  }

  function Clock(rest: nat): string {
    Padded(rest / 3600, 2) + ":" + Padded(rest % 3600 / 60, 2) + ":" + Padded(rest % 60, 2)
  }

  /** `http_date`, of a time's whole seconds since 1970. */
  function Print(secs: nat): string {
    var days, rest := secs / 86_400, secs % 86_400;
    var d := Day(days);
    WEEKDAYS[(days + 4) % 7] + "," + " " + Padded(d.day, 2) + " " + MONTHS[d.month - 1] + " " + Padded(d.year, 4) + " "
    + Clock(rest) + " " + "GMT"
  }

  /** `iso_date`. */
  function PrintIso(secs: nat): string {
    var d := Day(secs / 86_400);
    Padded(d.year, 4) + "-" + Padded(d.month, 2) + "-" + Padded(d.day, 2)
  }

  // ---- reading

  predicate NoSpace(s: string) {
    forall i :: 0 <= i < |s| ==> !IsWhitespace(s[i])
  }

  function WordLength(s: string): (n: nat)
    ensures n <= |s|
    ensures NoSpace(s[..n]) && (n < |s| ==> IsWhitespace(s[n]))
  {
    if s == [] || IsWhitespace(s[0]) then 0
    else
      var n := WordLength(s[1..]);
      assert s[..n + 1] == [s[0]] + s[1..][..n];
      n + 1
  }

  /** `split_whitespace`. */
  function Words(s: string): seq<string> {
    if s == [] then []
    else if IsWhitespace(s[0]) then Words(s[1..])
    else [s[..WordLength(s)]] + Words(s[WordLength(s)..])
  }

  function MarkAt(s: string, mark: char): (n: nat)
    ensures n <= |s|
    ensures (forall i :: 0 <= i < n ==> s[i] != mark) && (n < |s| ==> s[n] == mark)
  {
    if s == [] || s[0] == mark then 0 else 1 + MarkAt(s[1..], mark)
  }

  /** `split(mark)`. */
  function Pieces(s: string, mark: char): seq<string> {
    var n := MarkAt(s, mark);
    if n == |s| then [s] else [s[..n]] + Pieces(s[n + 1..], mark)
  }

  function IndexOf(names: seq<string>, name: string): Option<nat> {
    if names == [] then None
    else if names[0] == name then Some(0)
    else match IndexOf(names[1..], name)
         case None => None
         case Some(i) => Some(i + 1)
  }

  /** `parse::<i64>()`: an optional sign, then digits. */
  function ParseSigned(s: string): Option<int> {
    if |s| > 0 && s[0] == '-' then
      (var body := s[1..];
       if body == [] || !AllDigits(body) || ValueOf(body) > U64_LIMIT / 2 then None
       else var n: int := ValueOf(body); Some(-n))
    else match ParseUnsigned(s, U64_LIMIT / 2)
         case None => None
         case Some(n) => Some(n)
  }

  function ParseClock(s: string): Option<nat> {
    var hms := Pieces(s, ':');
    if |hms| != 3 then None
    else
      match (ParseUnsigned(hms[0], U64_LIMIT), ParseUnsigned(hms[1], U64_LIMIT), ParseUnsigned(hms[2], U64_LIMIT))
      case (Some(h), Some(m), Some(sec)) =>
        if h > 23 || m > 59 || sec > 60 then None else Some(h * 3600 + m * 60 + sec)
      case _ => None
  }

  /** `parse_http_date`. */
  function Parse(s: string): Option<int> {
    var parts := Words(s);
    if |parts| != 6 || parts[5] != "GMT" then None
    else
      match (ParseUnsigned(parts[1], U32_LIMIT), IndexOf(MONTHS, parts[2]), ParseSigned(parts[3]), ParseClock(parts[4]))
      case (Some(day), Some(month), Some(year), Some(clock)) =>
        if !(1 <= day <= 31) || !(1970 <= year <= 9999) then None
        else Some(DaysFromCivil(year, month + 1, day) * 86_400 + clock)
      case _ => None
  }

  // ---- splitting what was joined

  lemma {:induction false} WordLengthOf(w: string, rest: string)
    requires NoSpace(w) && (rest == [] || IsWhitespace(rest[0]))
    ensures WordLength(w + rest) == |w|
  {
    if w != [] {
      WordLengthOf(w[1..], rest);
      assert (w + rest)[1..] == w[1..] + rest;
    } else {
      assert w + rest == rest;
    }
  }

  lemma WordsCons(w: string, rest: string)
    requires w != [] && NoSpace(w)
    ensures Words(w + " " + rest) == [w] + Words(rest)
    ensures Words(w) == [w]
  {
    WordLengthOf(w, " " + rest);
    WordLengthOf(w, []);
    assert w + " " + rest == w + (" " + rest) && w + [] == w;
    assert (w + (" " + rest))[..|w|] == w && (w + (" " + rest))[|w|..] == " " + rest;
    assert (" " + rest)[1..] == rest;
    assert IsWhitespace(' ');
  }

  lemma {:induction false} MarkAtOf(a: string, rest: string, mark: char)
    requires mark !in a
    ensures MarkAt(a + [mark] + rest, mark) == |a|
    ensures MarkAt(a, mark) == |a|
  {
    if a != [] {
      MarkAtOf(a[1..], rest, mark);
      assert (a + [mark] + rest)[1..] == a[1..] + [mark] + rest;
    }
  }

  lemma PiecesCons(a: string, rest: string, mark: char)
    requires mark !in a
    ensures Pieces(a + [mark] + rest, mark) == [a] + Pieces(rest, mark)
    ensures Pieces(a, mark) == [a]
  {
    MarkAtOf(a, rest, mark);
    var s := a + [mark] + rest;
    assert s[..|a|] == a && s[|a| + 1..] == rest;
  }

  lemma DigitsPlain(s: string)
    requires AllDigits(s)
    ensures NoSpace(s) && ':' !in s
  {
  }

  lemma ThreePieces(a: string, b: string, c: string)
    requires ':' !in a && ':' !in b && ':' !in c
    ensures Pieces(a + ":" + b + ":" + c, ':') == [a, b, c]
  {
    assert a + ":" + b + ":" + c == a + [':'] + (b + [':'] + c);
    assert b + ":" + c == b + [':'] + c;
    PiecesCons(a, b + ":" + c, ':');
    PiecesCons(b, c, ':');
    PiecesCons(c, "", ':');
  }

  /** A clock is read back as the seconds it shows. */
  lemma ClockRoundTrip(rest: nat)
    requires rest < 86_400
    ensures ParseClock(Clock(rest)) == Some(rest)
    ensures NoSpace(Clock(rest)) && Clock(rest) != []
  {
    hide Padded, ParseUnsigned, Pieces;
    var h, m, sec := rest / 3600, rest % 3600 / 60, rest % 60;
    DigitsPlain(Padded(h, 2));
    DigitsPlain(Padded(m, 2));
    DigitsPlain(Padded(sec, 2));
    ThreePieces(Padded(h, 2), Padded(m, 2), Padded(sec, 2));
    ParsePadded(h, 2, U64_LIMIT);
    ParsePadded(m, 2, U64_LIMIT);
    ParsePadded(sec, 2, U64_LIMIT);
    assert rest == h * 3600 + m * 60 + sec;
  }

  // ---- the round trip

  lemma MonthNames(i: nat)
    requires i < 12
    ensures IndexOf(MONTHS, MONTHS[i]) == Some(i)
  {
    hide IndexOf;
    Distinct(i);
    IndexOfAt(MONTHS, i);
  }

  lemma MonthPlain(i: nat)
    requires i < 12
    ensures NoSpace(MONTHS[i]) && MONTHS[i] != []
  {
  }

  lemma Distinct(i: nat)
    requires i < 12
    ensures forall j :: 0 <= j < i ==> MONTHS[j] != MONTHS[i]
  {
    forall j | 0 <= j < i ensures MONTHS[j] != MONTHS[i] {
      assert MONTHS[j][0] != MONTHS[i][0] || MONTHS[j][1] != MONTHS[i][1] || MONTHS[j][2] != MONTHS[i][2];
    }
  }

  lemma {:induction false} IndexOfAt(names: seq<string>, i: nat)
    requires i < |names| && forall j :: 0 <= j < i ==> names[j] != names[i]
    ensures IndexOf(names, names[i]) == Some(i)
  {
    if i > 0 {
      assert names[0] != names[i];
      forall j | 0 <= j < i - 1 ensures names[1..][j] != names[1..][i - 1] { assert names[j + 1] != names[i]; }
      IndexOfAt(names[1..], i - 1);
    }
  }

  lemma ThreeWords(a: string, b: string, c: string, rest: string)
    requires a != [] && b != [] && c != []
    requires NoSpace(a) && NoSpace(b) && NoSpace(c)
    ensures Words(a + " " + b + " " + c + " " + rest) == [a, b, c] + Words(rest)
  {
    hide Words, NoSpace;
    assert a + " " + b + " " + c + " " + rest == a + " " + (b + " " + (c + " " + rest));
    WordsCons(a, b + " " + (c + " " + rest));
    WordsCons(b, c + " " + rest);
    WordsCons(c, rest);
  }

  lemma SixWords(a: string, b: string, c: string, d: string, e: string, f: string)
    requires a != [] && b != [] && c != [] && d != [] && e != [] && f != []
    requires NoSpace(a) && NoSpace(b) && NoSpace(c) && NoSpace(d) && NoSpace(e) && NoSpace(f)
    ensures Words(a + " " + b + " " + c + " " + d + " " + e + " " + f) == [a, b, c, d, e, f]
  {
    hide Words, NoSpace;
    Regrouped(a + " " + b + " " + c, d, e, f);
    ThreeWords(a, b, c, d + " " + e + " " + f);
    LastWords(d, e, f);
  }

  lemma Regrouped(x: string, d: string, e: string, f: string)
    ensures x + " " + d + " " + e + " " + f == x + " " + (d + " " + e + " " + f)
  {
    assert x + " " + d + " " + e == x + " " + (d + " " + e);
    assert x + " " + (d + " " + e) + " " == x + " " + (d + " " + e + " ");
  }

  lemma LastWords(d: string, e: string, f: string)
    requires d != [] && e != [] && f != [] && NoSpace(d) && NoSpace(e) && NoSpace(f)
    ensures Words(d + " " + e + " " + f) == [d, e, f]
  {
    hide Words, NoSpace;
    assert d + " " + e + " " + f == d + " " + (e + " " + f);
    WordsCons(d, e + " " + f);
    WordsCons(e, f);
    WordsCons(f, "");
  }

  lemma WeekdayPlain(i: nat)
    requires i < 7
    ensures NoSpace(WEEKDAYS[i] + ",")
  {
  }

  lemma YearRead(year: nat)
    ensures year < U64_LIMIT / 2 ==> ParseSigned(Padded(year, 4)) == Some(year)
    ensures year >= U64_LIMIT / 2 ==> ParseSigned(Padded(year, 4)) == None
  {
    ParsePadded(year, 4, U64_LIMIT / 2);
    assert IsDigit(Padded(year, 4)[0]);
  }

  lemma PrintedWords(secs: nat)
    ensures var days, rest := secs / 86_400, secs % 86_400;
            var d := Day(days);
            Words(Print(secs)) == [WEEKDAYS[(days + 4) % 7] + ",", Padded(d.day, 2), MONTHS[d.month - 1],
                                   Padded(d.year, 4), Clock(rest), "GMT"]
  {
    hide Words, NoSpace, Padded, Clock, Day;
    var days, rest := secs / 86_400, secs % 86_400;
    var d := Day(days);
    WeekdayPlain((days + 4) % 7);
    MonthPlain(d.month - 1);
    DigitsPlain(Padded(d.day, 2));
    DigitsPlain(Padded(d.year, 4));
    ClockRoundTrip(rest);
    GmtPlain();
    SixWords(WEEKDAYS[(days + 4) % 7] + ",", Padded(d.day, 2), MONTHS[d.month - 1], Padded(d.year, 4),
             Clock(rest), "GMT");
  }

  lemma GmtPlain()
    ensures NoSpace("GMT")
  {
  }

  function Following(name: string): string {
    if name == "Sun" then "Mon" else if name == "Mon" then "Tue" else if name == "Tue" then "Wed"
    else if name == "Wed" then "Thu" else if name == "Thu" then "Fri" else if name == "Fri" then "Sat" else "Sun"
  }

  /** 1 January 1970 was a Thursday. */
  function NameOf(days: nat): string {
    if days == 0 then "Thu" else Following(NameOf(days - 1))
  }

  lemma FollowingNamed(i: nat)
    requires i < 7
    ensures Following(WEEKDAYS[i]) == WEEKDAYS[(i + 1) % 7]
  {
    var name := WEEKDAYS[i];
    assert name[0] == ['S', 'M', 'T', 'W', 'T', 'F', 'S'][i] && name[1] == ['u', 'o', 'u', 'e', 'h', 'r', 'a'][i];
  }

  lemma {:induction false} DayNamed(days: nat)
    ensures WEEKDAYS[(days + 4) % 7] == NameOf(days)
  {
    hide Following;
    if days > 0 {
      DayNamed(days - 1);
      FollowingNamed((days + 3) % 7);
      assert ((days + 3) % 7 + 1) % 7 == (days + 4) % 7;
    }
  }

  /** The name printed is the day's own. */
  lemma DayPrinted(secs: nat)
    ensures |Print(secs)| > 3 && Print(secs)[..3] == NameOf(secs / 86_400)
  {
    hide Padded, Clock, Day, NameOf;
    var days, rest := secs / 86_400, secs % 86_400;
    var d := Day(days);
    DayNamed(days);
    var name := WEEKDAYS[(days + 4) % 7];
    assert |name| == 3 by { NameLength((days + 4) % 7); }
    assert Print(secs)[..|name|] == name;
  }

  lemma NameLength(i: nat)
    requires i < 7
    ensures |WEEKDAYS[i]| == 3
  {
  }

  // ---- the form

  function MonthName(month: int): string {
    if month == 1 then "Jan" else if month == 2 then "Feb" else if month == 3 then "Mar" else if month == 4 then "Apr"
    else if month == 5 then "May" else if month == 6 then "Jun" else if month == 7 then "Jul"
    else if month == 8 then "Aug" else if month == 9 then "Sep" else if month == 10 then "Oct"
    else if month == 11 then "Nov" else "Dec"
  }

  function Two(n: nat): string
    requires n < 100
  {
    [DigitOf(n / 10), DigitOf(n % 10)]
  }

  lemma TwoPadded(n: nat)
    requires n < 100
    ensures Padded(n, 2) == Two(n)
  {
    if n < 10 { assert Zeros(1) == "0"; } else { assert Digits(n) == Digits(n / 10) + [DigitOf(n % 10)]; }
  }

  lemma FourPadded(n: nat)
    requires 1000 <= n < 10_000
    ensures Padded(n, 4) == Two(n / 100) + Two(n % 100)
  {
    var h := n / 100;
    assert Digits(h) == Digits(h / 10) + [DigitOf(h % 10)] == [DigitOf(h / 10), DigitOf(h % 10)];
    assert n / 10 / 10 == h && n / 10 % 10 == n % 100 / 10 && n % 10 == n % 100 % 10;
    assert Digits(n / 10) == Digits(h) + [DigitOf(n / 10 % 10)];
    assert Digits(n) == Digits(n / 10) + [DigitOf(n % 10)];
  }

  lemma MonthNamed(month: int)
    requires 1 <= month <= 12
    ensures MONTHS[month - 1] == MonthName(month)
  {
  }

  lemma SameText(a: string, b: string, c: string, d: string, e: string)
    ensures a + "," + " " + b + " " + c + " " + d + " " + e + " " + "GMT"
         == a + ", " + b + " " + c + " " + d + " " + e + " GMT"
  {
    assert a + "," + " " == a + ", ";
    var s := a + ", " + b + " " + c + " " + d + " " + e;
    assert s + " " + "GMT" == s + " GMT";
  }

  lemma ClockForm(rest: nat)
    requires rest < 86_400
    ensures Clock(rest) == Two(rest / 3600) + ":" + Two(rest % 3600 / 60) + ":" + Two(rest % 60)
  {
    hide Padded, Two;
    TwoPadded(rest / 3600);
    TwoPadded(rest % 3600 / 60);
    TwoPadded(rest % 60);
  }

  /** Through the year 9999 the text is the fixed form: weekday, day, month name, year and clock, each in its place. */
  lemma FixdateForm(secs: nat)
    requires secs <= LAST_SECOND
    ensures var d, rest := Day(secs / 86_400), secs % 86_400;
            && d.year < 10_000
            && Print(secs) == NameOf(secs / 86_400) + ", " + Two(d.day) + " " + MonthName(d.month) + " "
                              + (Two(d.year / 100) + Two(d.year % 100)) + " "
                              + (Two(rest / 3600) + ":" + Two(rest % 3600 / 60) + ":" + Two(rest % 60)) + " GMT"
  {
    hide Padded, Two, Day, NameOf, MonthName, Civil, Clock;
    var days, rest := secs / 86_400, secs % 86_400;
    var d := Day(days);
    YearsToFourDigits(secs);
    DayNamed(days);
    MonthNamed(d.month);
    TwoPadded(d.day);
    FourPadded(d.year);
    ClockForm(rest);
    SameText(NameOf(days), Two(d.day), MonthName(d.month), Two(d.year / 100) + Two(d.year % 100), Clock(rest));
  }

  /** The ISO day likewise. */
  lemma IsoForm(secs: nat)
    requires secs <= LAST_SECOND
    ensures var d := Day(secs / 86_400);
            && d.year < 10_000
            && PrintIso(secs) == Two(d.year / 100) + Two(d.year % 100) + "-" + Two(d.month) + "-" + Two(d.day)
  {
    hide Padded, Two, Day, Civil;
    var d := Day(secs / 86_400);
    YearsToFourDigits(secs);
    FourPadded(d.year);
    TwoPadded(d.month);
    TwoPadded(d.day);
  }

  /** What is printed is read back as the same second through the year 9999, and not at all from the year 10000 on. */
  lemma DateRoundTrip(secs: nat)
    ensures Parse(Print(secs)) == if Day(secs / 86_400).year <= 9999 then Some(secs) else None
  {
    hide Words, Print, Padded, Clock, ParseClock, ParseUnsigned, ParseSigned, IndexOf, DaysFromCivil;
    var days, rest := secs / 86_400, secs % 86_400;
    var d := Day(days);
    PrintedWords(secs);
    ParsePadded(d.day, 2, U32_LIMIT);
    MonthNames(d.month - 1);
    YearRead(d.year);
    ClockRoundTrip(rest);
    CivilValid(days);
    assert d == Civil(days);
  }

  /** The last second of the year 9999. */
  const LAST_SECOND := 253_402_300_799

  lemma YearsToFourDigits(secs: nat)
    ensures Day(secs / 86_400).year <= 9999 <==> secs <= LAST_SECOND
  {
    hide Civil;
    var days := secs / 86_400;
    TenThousand();
    if days < 2_932_897 {
      CivilOrdered(days, 2_932_897);
      assert !Before(Date(10_000, 1, 1), Date(9999, 12, 31));
      EndOfYear(days);
    } else if days > 2_932_897 {
      CivilOrdered(2_932_897, days);
    }
  }

  lemma TenThousand()
    ensures Civil(2_932_897) == Date(10_000, 1, 1)
  {
    hide Civil;
    CivilInverse(Date(10_000, 1, 1));
    assert 9999 / 400 == 24 && 9999 % 400 == 399;
    assert DaysFromCivil(10_000, 1, 1) == 2_932_897;
  }

  /** A date before the first of January is in an earlier year. */
  lemma EndOfYear(days: int)
    requires Before(Civil(days), Date(10_000, 1, 1))
    ensures Civil(days).year <= 9999
  {
    hide Civil;
    CivilValid(days);
  }

  /** The first second of the year 10000 is printed, and not read back. */
  lemma TenThousandUnread()
    ensures Parse(Print(LAST_SECOND + 1)) == None
  {
    hide Parse, Print;
    DateRoundTrip(LAST_SECOND + 1);
    YearsToFourDigits(LAST_SECOND + 1);
  }

  // ---- the ISO day

  /** Text order. */
  predicate TextBefore(a: string, b: string) {
    if a == [] then b != []
    else b != [] && (a[0] < b[0] || (a[0] == b[0] && TextBefore(a[1..], b[1..])))
  }

  lemma {:induction false} TextBeforeConcat(a: string, b: string, r: string, t: string)
    requires |a| == |b|
    ensures TextBefore(a, b) ==> TextBefore(a + r, b + t)
    ensures a == b ==> (TextBefore(a + r, b + t) <==> TextBefore(r, t))
  {
    if a != [] {
      TextBeforeConcat(a[1..], b[1..], r, t);
      assert (a + r)[1..] == a[1..] + r && (b + t)[1..] == b[1..] + t;
    } else {
      assert a + r == r && b + t == t;
    }
  }

  lemma Tens(p: nat, d: nat, q: nat, e: nat)
    requires 10 * p + d == 10 * q + e && d < 10 && e < 10
    ensures p == q && d == e
  {
  }

  lemma SameDigit(c: char, d: char)
    requires IsDigit(c) && IsDigit(d) && DigitValue(c) == DigitValue(d)
    ensures c == d
  {
  }

  lemma {:induction false} SameValue(a: string, b: string)
    requires |a| == |b| && AllDigits(a) && AllDigits(b) && ValueOf(a) == ValueOf(b)
    ensures a == b
  {
    if a != [] {
      var n := |a| - 1;
      Tens(ValueOf(a[..n]), DigitValue(a[n]), ValueOf(b[..n]), DigitValue(b[n]));
      SameDigit(a[n], b[n]);
      hide ValueOf, AllDigits, DigitValue;
      SameValue(a[..n], b[..n]);
      assert a == a[..n] + [a[n]] && b == b[..n] + [b[n]];
    }
  }

  /** Digits of the same width stand in text order as their numbers do. */
  lemma {:induction false} DigitsOrdered(a: string, b: string)
    requires |a| == |b| && AllDigits(a) && AllDigits(b) && ValueOf(a) < ValueOf(b)
    ensures TextBefore(a, b)
  {
    var a', b' := a[..|a| - 1], b[..|b| - 1];
    var x, y := [a[|a| - 1]], [b[|b| - 1]];
    assert a == a' + x && b == b' + y;
    TextBeforeConcat(a', b', x, y);
    if ValueOf(a') < ValueOf(b') {
      DigitsOrdered(a', b');
    } else {
      SameValue(a', b');
    }
  }

  lemma PaddedWidth(n: nat, width: nat)
    requires width > 0 && n < Pow10(width)
    ensures |Padded(n, width)| == width
  {
    DigitsLength(n, width);
  }

  lemma PaddedOrdered(a: nat, b: nat, width: nat)
    requires width > 0 && a < b < Pow10(width)
    ensures |Padded(a, width)| == |Padded(b, width)| == width
    ensures TextBefore(Padded(a, width), Padded(b, width))
  {
    PaddedWidth(a, width);
    PaddedWidth(b, width);
    PaddedValue(a, width);
    PaddedValue(b, width);
    DigitsOrdered(Padded(a, width), Padded(b, width));
  }

  lemma Widths()
    ensures Pow10(2) == 100 && Pow10(4) == 10_000
  {
    assert Pow10(2) == 10 * Pow10(1) && Pow10(4) == 10 * Pow10(3) == 100 * Pow10(2);
  }

  /** An earlier date is earlier as text. */
  lemma DatesOrdered(a: Date, b: Date)
    requires Valid(a) && Valid(b) && Before(a, b) && 0 <= a.year && b.year <= 9999
    ensures TextBefore(Padded(a.year, 4) + "-" + Padded(a.month, 2) + "-" + Padded(a.day, 2),
                       Padded(b.year, 4) + "-" + Padded(b.month, 2) + "-" + Padded(b.day, 2))
  {
    hide Padded, TextBefore, Pow10;
    Widths();
    var ay, am, ad := Padded(a.year, 4), Padded(a.month, 2), Padded(a.day, 2);
    var y, m, d := Padded(b.year, 4), Padded(b.month, 2), Padded(b.day, 2);
    PaddedWidth(a.year, 4);
    PaddedWidth(b.year, 4);
    PaddedWidth(a.month, 2);
    PaddedWidth(b.month, 2);
    assert ay + "-" + am + "-" + ad == ay + ("-" + am + "-" + ad);
    assert y + "-" + m + "-" + d == y + ("-" + m + "-" + d);
    TextBeforeConcat(ay, y, "-" + am + "-" + ad, "-" + m + "-" + d);
    if a.year < b.year {
      PaddedOrdered(a.year, b.year, 4);
    } else {
      assert "-" + am + "-" + ad == ("-" + am) + ("-" + ad) && "-" + m + "-" + d == ("-" + m) + ("-" + d);
      TextBeforeConcat("-" + am, "-" + m, "-" + ad, "-" + d);
      TextBeforeConcat("-", "-", am, m);
      if a.month < b.month {
        PaddedOrdered(a.month, b.month, 2);
      } else {
        TextBeforeConcat("-", "-", ad, d);
        PaddedOrdered(a.day, b.day, 2);
      }
    }
  }

  /** The ISO days of two times stand in text order exactly as their days do, through the year 9999. */
  lemma IsoOrdered(a: nat, b: nat)
    requires a <= LAST_SECOND && b <= LAST_SECOND
    ensures TextBefore(PrintIso(a), PrintIso(b)) <==> a / 86_400 < b / 86_400
  {
    hide TextBefore, Padded, Civil;
    YearsToFourDigits(a);
    YearsToFourDigits(b);
    var x, y := a / 86_400, b / 86_400;
    if x < y {
      CivilOrdered(x, y);
      DatesOrdered(Day(x), Day(y));
    } else if y < x {
      CivilOrdered(y, x);
      DatesOrdered(Day(y), Day(x));
      NotBoth(PrintIso(a), PrintIso(b));
    } else {
      NotBoth(PrintIso(a), PrintIso(b));
    }
  }

  lemma {:induction false} NotBoth(a: string, b: string)
    ensures !(TextBefore(a, b) && TextBefore(b, a))
  {
    if a != [] && b != [] { NotBoth(a[1..], b[1..]); }
  }
}
