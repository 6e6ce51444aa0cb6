/**
 The script's one date format, "%d-%m-%Y": `strftime` writes it and
 `strptime` reads it back. Holiday lookup, the progress marker and the
 sort key of delivered results all go through this text.
 */
module DateText {
  import opened Wrappers
  import opened Calendar

  predicate IsDigit(c: char) {
    '0' <= c <= '9'
  }

  function DigitValue(c: char): int
    requires IsDigit(c)
  {
    c as int - '0' as int
  }

  /**
   `ZeroAt(k)` is the k-th of the 67 non-ASCII digit zeros of Unicode 15.0,
   in code point order: each starts a run of ten code points holding the
   digits 0 to 9. With '0'..'9' these runs make up the category Nd.
   */
  const ZeroCount: nat := 67

  function ZeroAt(k: nat): int
    requires k < ZeroCount
  {
    if k == 0 then 0x660 else
    if k == 1 then 0x6F0 else
    if k == 2 then 0x7C0 else
    if k == 3 then 0x966 else
    if k == 4 then 0x9E6 else
    if k == 5 then 0xA66 else
    if k == 6 then 0xAE6 else
    if k == 7 then 0xB66 else
    if k == 8 then 0xBE6 else
    if k == 9 then 0xC66 else
    if k == 10 then 0xCE6 else
    if k == 11 then 0xD66 else
    if k == 12 then 0xDE6 else
    if k == 13 then 0xE50 else
    if k == 14 then 0xED0 else
    if k == 15 then 0xF20 else
    if k == 16 then 0x1040 else
    if k == 17 then 0x1090 else
    if k == 18 then 0x17E0 else
    if k == 19 then 0x1810 else
    if k == 20 then 0x1946 else
    if k == 21 then 0x19D0 else
    if k == 22 then 0x1A80 else
    if k == 23 then 0x1A90 else
    if k == 24 then 0x1B50 else
    if k == 25 then 0x1BB0 else
    if k == 26 then 0x1C40 else
    if k == 27 then 0x1C50 else
    if k == 28 then 0xA620 else
    if k == 29 then 0xA8D0 else
    if k == 30 then 0xA900 else
    if k == 31 then 0xA9D0 else
    if k == 32 then 0xA9F0 else
    if k == 33 then 0xAA50 else
    if k == 34 then 0xABF0 else
    if k == 35 then 0xFF10 else
    if k == 36 then 0x104A0 else
    if k == 37 then 0x10D30 else
    if k == 38 then 0x11066 else
    if k == 39 then 0x110F0 else
    if k == 40 then 0x11136 else
    if k == 41 then 0x111D0 else
    if k == 42 then 0x112F0 else
    if k == 43 then 0x11450 else
    if k == 44 then 0x114D0 else
    if k == 45 then 0x11650 else
    if k == 46 then 0x116C0 else
    if k == 47 then 0x11730 else
    if k == 48 then 0x118E0 else
    if k == 49 then 0x11950 else
    if k == 50 then 0x11C50 else
    if k == 51 then 0x11D50 else
    if k == 52 then 0x11DA0 else
    if k == 53 then 0x11F50 else
    if k == 54 then 0x16A60 else
    if k == 55 then 0x16AC0 else
    if k == 56 then 0x16B50 else
    if k == 57 then 0x1D7CE else
    if k == 58 then 0x1D7D8 else
    if k == 59 then 0x1D7E2 else
    if k == 60 then 0x1D7EC else
    if k == 61 then 0x1D7F6 else
    if k == 62 then 0x1E140 else
    if k == 63 then 0x1E2F0 else
    if k == 64 then 0x1E4F0 else
    if k == 65 then 0x1E950 else
    0x1FBF0
  }

  /** The value of `c` when it lies in the run of the `k`-th zero or a later one. */
  function DecimalFrom(c: char, k: nat): (r: Option<int>)
    requires k <= ZeroCount
    ensures r.Some? ==> 0 <= r.value < 10
    decreases ZeroCount - k
  {
    if k == ZeroCount then None
    else if ZeroAt(k) <= c as int < ZeroAt(k) + 10 then Some(c as int - ZeroAt(k))
    else DecimalFrom(c, k + 1)
  }

  /**
   The digit value of a character that a str pattern's `\d` matches and that
   `int()` accepts: any Unicode decimal digit, the ASCII ones included.
   */
  function Decimal(c: char): (r: Option<int>)
    ensures r.Some? ==> 0 <= r.value < 10
    ensures IsDigit(c) ==> r == Some(DigitValue(c))
  {
    if IsDigit(c) then Some(DigitValue(c)) else DecimalFrom(c, 0)
  }

  function DigitChar(n: int): (c: char)
    requires 0 <= n < 10
    ensures IsDigit(c) && DigitValue(c) == n
  {
    ('0' as int + n) as char
  }

  /** `%d` and `%m` output: two digits, zero-padded. */
  function Pad2(n: int): string
    requires 0 <= n < 100
  {
    [DigitChar(n / 10), DigitChar(n % 10)]
  }

  /** `%Y` output: four digits, zero-padded. */
  function Pad4(n: int): string
    requires 0 <= n < 10000
  {
    Pad2(n / 100) + Pad2(n % 100)
  }

  /** `strftime("%d-%m-%Y")`. */
  function FormatDate(d: Date): (s: string)
    ensures |s| == 10 && s[2] == '-' && s[5] == '-'
    ensures forall k :: 0 <= k < 10 && k != 2 && k != 5 ==> IsDigit(s[k])
  {
    Pad2(d.day) + "-" + Pad2(d.month) + "-" + Pad4(d.year)
  }

  /** The index of the first '-' in `s`, or `|s|` when there is none. */
  function FirstDash(s: string): (i: nat)
    ensures i <= |s|
    ensures i < |s| ==> s[i] == '-'
    ensures forall k :: 0 <= k < i ==> s[k] != '-'
  {
    if s == [] || s[0] == '-' then 0 else 1 + FirstDash(s[1..])
  }

  /**
   `strptime`'s `%d`, "3[01]|[12]\d|0[1-9]|[1-9]| [1-9]", read by `int()`:
   only the `\d` position takes any decimal digit, the others ASCII ones.
   */
  function DayField(t: string): (r: Option<int>)
    ensures r.Some? ==> 1 <= r.value <= 31
  {
    if |t| == 2 && t[0] == '3' && (t[1] == '0' || t[1] == '1') then Some(30 + DigitValue(t[1]))
    else if |t| == 2 && (t[0] == '1' || t[0] == '2') && Decimal(t[1]).Some? then
      Some(10 * DigitValue(t[0]) + Decimal(t[1]).value)
    else if |t| == 2 && (t[0] == '0' || t[0] == ' ') && '1' <= t[1] <= '9' then Some(DigitValue(t[1]))
    else if |t| == 1 && '1' <= t[0] <= '9' then Some(DigitValue(t[0]))
    else None
  }

  /** `strptime`'s `%m`: "1[0-2]|0[1-9]|[1-9]". */
  function MonthField(t: string): (r: Option<int>)
    ensures r.Some? ==> 1 <= r.value <= 12
  {
    if |t| == 2 && IsDigit(t[0]) && IsDigit(t[1]) then
      var v := 10 * DigitValue(t[0]) + DigitValue(t[1]);
      if 1 <= v <= 12 then Some(v) else None
    else if |t| == 1 && '1' <= t[0] <= '9' then Some(DigitValue(t[0]))
    else None
  }

  /** `strptime`'s `%Y`, "\d\d\d\d": four decimal digits of any script, read by `int()`. */
  function YearField(t: string): (r: Option<int>)
    ensures r.Some? ==> 0 <= r.value <= 9999
  {
    if |t| == 4 && Decimal(t[0]).Some? && Decimal(t[1]).Some? && Decimal(t[2]).Some? && Decimal(t[3]).Some? then
      Some(1000 * Decimal(t[0]).value + 100 * Decimal(t[1]).value + 10 * Decimal(t[2]).value + Decimal(t[3]).value)
    else None
  }

  /**
   `strptime(s, "%d-%m-%Y")`, None where Python raises ValueError: the text
   is not a day field, a dash, a month field, a dash and a year field, or the
   year is 0, or the day does not exist in that month.
   */
  function ParseDate(s: string): Option<Date> {
    var i := FirstDash(s);
    if i == |s| then None
    else
      var rest := s[i + 1..];
      var j := FirstDash(rest);
      if j == |rest| then None
      else
        match (DayField(s[..i]), MonthField(rest[..j]), YearField(rest[j + 1..]))
        case (Some(dd), Some(mm), Some(yy)) =>
          if 1 <= yy && dd <= DaysInMonth(yy, mm) then Some(CivilDate(yy, mm, dd)) else None
        case _ => None
  }

  lemma DashAt(s: string, i: nat)
    requires i < |s| && s[i] == '-'
    requires forall k :: 0 <= k < i ==> s[k] != '-'
    ensures FirstDash(s) == i
  {
    if i > 0 {
      DashAt(s[1..], i - 1);
    }
  }

  lemma DayFieldPad2(n: int)
    requires 1 <= n <= 31
    ensures DayField(Pad2(n)) == Some(n)
  {
  }

  lemma MonthFieldPad2(n: int)
    requires 1 <= n <= 12
    ensures MonthField(Pad2(n)) == Some(n)
  {
  }

  lemma YearFieldPad4(n: int)
    requires 0 <= n < 10000
    ensures YearField(Pad4(n)) == Some(n)
  {
    var hi, lo := n / 100, n % 100;
    assert n == 100 * hi + lo;
    var t := Pad4(n);
    assert DigitValue(t[0]) == hi / 10 && DigitValue(t[1]) == hi % 10;
    assert DigitValue(t[2]) == lo / 10 && DigitValue(t[3]) == lo % 10;
    assert hi == 10 * (hi / 10) + hi % 10 && lo == 10 * (lo / 10) + lo % 10;
  }

  /** U+0660, U+0662 and U+0665 are the Arabic-Indic digits 0, 2 and 5. */
  lemma ArabicIndicDigits()
    ensures Decimal('\U{660}') == Some(0) && Decimal('\U{662}') == Some(2) && Decimal('\U{665}') == Some(5)
  {
    assert ZeroAt(0) == 0x660;
  }

  /** `%Y` reads the Arabic-Indic digits of 2025 as the year 2025. */
  lemma ArabicIndicYear()
    ensures YearField("\U{662}\U{660}\U{662}\U{665}") == Some(2025)
  {
    ArabicIndicDigits();
  }

  /** `[12]\d` takes the Arabic-Indic 5 after a '1'; `3[01]` takes no Arabic-Indic 0 after a '3'. */
  lemma ArabicIndicDay()
    ensures DayField("1\U{665}") == Some(15)
    ensures DayField("3\U{660}") == None
  {
    ArabicIndicDigits();
  }

  /** A day field, a dash, a month field, a dash and a year field parse as the date the three fields give. */
  lemma ParseFields(d: string, m: string, y: string)
    requires |d| == 2 && |m| == 2 && d[0] != '-' && d[1] != '-' && m[0] != '-' && m[1] != '-'
    ensures ParseDate(d + "-" + m + "-" + y)
            == match (DayField(d), MonthField(m), YearField(y))
               case (Some(dd), Some(mm), Some(yy)) =>
                 if 1 <= yy && dd <= DaysInMonth(yy, mm) then Some(CivilDate(yy, mm, dd)) else None
               case _ => None
  {
    var s := d + "-" + m + "-" + y;
    DashAt(s, 2);
    var rest := s[3..];
    assert rest == m + "-" + y;
    DashAt(rest, 2);
    assert s[..2] == d && rest[..2] == m && rest[3..] == y;
  }

  /** The marker text "01-01-" followed by the Arabic-Indic digits of 2025 loads as 1 January 2025. */
  lemma ArabicIndicMarker()
    ensures ParseDate("01-01-\U{662}\U{660}\U{662}\U{665}") == Some(CivilDate(2025, 1, 1))
  {
    ParseFields("01", "01", "\U{662}\U{660}\U{662}\U{665}");
    assert "01" + "-" + "01" + "-" + "\U{662}\U{660}\U{662}\U{665}" == "01-01-\U{662}\U{660}\U{662}\U{665}";
    DayFieldPad2(1);
    MonthFieldPad2(1);
    ArabicIndicYear();
  }

  /** Reading back what was written gives the same date. */
  lemma ParseFormat(d: Date)
    ensures ParseDate(FormatDate(d)) == Some(d)
  {
    var s := FormatDate(d);
    DashAt(s, 2);
    var rest := s[3..];
    DashAt(rest, 2);
    assert s[..2] == Pad2(d.day);
    assert rest[..2] == Pad2(d.month);
    assert rest[3..] == Pad4(d.year);
    DayFieldPad2(d.day);
    MonthFieldPad2(d.month);
    YearFieldPad4(d.year);
  }

  /** Different dates are written differently. */
  lemma FormatInjective(a: Date, b: Date)
    requires FormatDate(a) == FormatDate(b)
    ensures a == b
  {
    ParseFormat(a);
    ParseFormat(b);
  }
}
