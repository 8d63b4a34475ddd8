/** The `Date` header handling shared by both back ends: the header is read with Python's
    `datetime.strptime(raw, '%a, %d %b %Y %H:%M:%S %z')` (the date-time layout of RFC 5322
    section 3.3) and written back as `strftime('%d %b %Y')`; a header the parse rejects is kept
    as it came.

    The parse follows CPython's `_strptime` in the C locale: every blank of the format matches
    one or more whitespace characters, names match without regard to case, each numeric field is
    the run of digits found there, and the whole header must be used up. */
module MailDate {
  import opened Wrappers
  import opened Text
  import opened Seqs

  const DayNames: seq<string> := ["Mon", "Tue", "Wed", "Thu", "Fri", "Sat", "Sun"]
  const MonthNames: seq<string> := ["Jan", "Feb", "Mar", "Apr", "May", "Jun", "Jul", "Aug", "Sep", "Oct", "Nov", "Dec"]

  /** The names as the parser's pattern holds them: lower-cased, matched without regard to case. */
  const DayKeys: seq<string> := ["mon", "tue", "wed", "thu", "fri", "sat", "sun"]
  const MonthKeys: seq<string> := ["jan", "feb", "mar", "apr", "may", "jun", "jul", "aug", "sep", "oct", "nov", "dec"]

  /** A parsed header. `weekday` indexes `DayNames`; the weekday is read but never checked
      against the date. `zone` is the text the `%z` directive accepted. */
  datatype Stamp = Stamp(weekday: nat, day: int, month: int, year: int, hour: int, minute: int, second: int, zone: string)

  /** A number read from the front of a text, and the text after it. */
  datatype Piece = Piece(value: nat, rest: string)

  // ---------------------------------------------------------------------------------------
  // Digits

  predicate IsDigit(c: char)
  {
    '0' <= c <= '9'
  }

  predicate AllDigits(s: string)
  {
    forall i :: 0 <= i < |s| ==> IsDigit(s[i])
  }

  /** The decimal value of a run of digits. */
  function Value(s: string): nat
    requires AllDigits(s)
  {
    if s == [] then 0 else 10 * Value(s[..|s| - 1]) + (s[|s| - 1] as int - '0' as int)
  }

  function Digit(d: nat): (c: char)
    requires d < 10
    ensures IsDigit(c) && c as int - '0' as int == d
  {
    ('0' as int + d) as char
  }

  /** `%02d`. */
  function Pad2(n: nat): (r: string)
    requires n < 100
    ensures |r| == 2 && AllDigits(r) && Value(r) == n
  {
    var r := [Digit(n / 10), Digit(n % 10)];
    assert r[..1] == [r[0]] && r[..1][..0] == [];
    assert Value(r[..1]) == n / 10;
    r
  }

  /** `%04d`. */
  function Pad4(n: nat): (r: string)
    requires n < 10000
    ensures |r| == 4 && AllDigits(r) && Value(r) == n
  {
    var r := Pad2(n / 100) + Pad2(n % 100);
    assert r[..3] == Pad2(n / 100) + [r[2]] && r[..2] == Pad2(n / 100);
    assert Value(r[..3]) == 10 * Value(r[..2]) + (r[2] as int - '0' as int);
    r
  }

  /** The length of the run of digits that starts the text. */
  function DigitRun(s: string): (n: nat)
    ensures n <= |s| && AllDigits(s[..n]) && (n < |s| ==> !IsDigit(s[n]))
  {
    if s != [] && IsDigit(s[0]) then
      var n := 1 + DigitRun(s[1..]);
      assert s[..n] == [s[0]] + s[1..][..n - 1];
      n
    else 0
  }

  // ---------------------------------------------------------------------------------------
  // The pieces of the format

  /** The index of the first of the lower-cased `keys` equal to `s` up to case. */
  function NameAt(keys: seq<string>, s: string): (r: Option<nat>)
    ensures r.Some? ==> r.value < |keys| && keys[r.value] == Lower(s)
  {
    if keys == [] then None
    else if keys[0] == Lower(s) then Some(0)
    else match NameAt(keys[1..], s) {
      case None => None
      case Some(i) => Some(i + 1)
    }
  }

  /** A literal character of the format. */
  function Expect(s: string, c: char): (r: Option<string>)
    ensures r.Some? <==> s != [] && s[0] == c
    ensures r.Some? ==> r.value == s[1..]
  {
    if s != [] && s[0] == c then Some(s[1..]) else None
  }

  /** A blank of the format: one or more whitespace characters, as many as there are. */
  function Gap(s: string): (r: Option<string>)
    ensures r.Some? <==> s != [] && IsSpace(s[0])
    ensures r.Some? ==> r.value == TrimStart(s)
  {
    var t := TrimStart(s);
    if |t| < |s| then Some(t) else None
  }

  /** `%d`, `%H`, `%M` or `%S`: one or two digits whose value lies in `lo..hi`. */
  function Field(s: string, lo: nat, hi: nat): (r: Option<Piece>)
    ensures r.Some? ==> lo <= r.value.value <= hi && 1 <= |s| - |r.value.rest| <= 2 &&
                        r.value.rest == s[|s| - |r.value.rest|..]
  {
    var n := DigitRun(s);
    if 1 <= n <= 2 && lo <= Value(s[..n]) <= hi then Some(Piece(Value(s[..n]), s[n..])) else None
  }

  /** `%Y`: exactly four digits, and `datetime` refuses the year 0. */
  function YearField(s: string): (r: Option<Piece>)
    ensures r.Some? ==> 1 <= r.value.value <= 9999 && |s| >= 4 && r.value.rest == s[4..]
  {
    var n := DigitRun(s);
    if n == 4 && Value(s[..4]) >= 1 then
      assert Value(s[..4]) < 10000 by { DigitsBound(s[..4]); }
      Some(Piece(Value(s[..4]), s[4..]))
    else None
  }

  lemma {:induction false} DigitsBound(s: string)
    requires AllDigits(s)
    ensures Value(s) < Power10(|s|)
  {
    if s != [] {
      assert AllDigits(s[..|s| - 1]);
      DigitsBound(s[..|s| - 1]);
    }
  }

  function Power10(n: nat): nat
  {
    if n == 0 then 1 else 10 * Power10(n - 1)
  }

  /** Two digits from `00` to `59`. */
  predicate Sexagesimal(s: string)
  {
    |s| == 2 && '0' <= s[0] <= '5' && IsDigit(s[1])
  }

  /** What follows the hours of a numeric offset: minutes, then optionally seconds, then
      optionally a fraction of one to six digits, every colon present or every colon absent. */
  predicate ZoneAfterHours(t: string, sep: string)
  {
    var k := |sep|;
    |t| >= k + 2 && t[..k] == sep && Sexagesimal(t[k..k + 2]) &&
    var u := t[k + 2..];
    u == [] ||
    (|u| >= k + 2 && u[..k] == sep && Sexagesimal(u[k..k + 2]) &&
     var f := u[k + 2..];
     f == [] || (f[0] == '.' && 1 <= |f| - 1 <= 6 && AllDigits(f[1..])))
  }

  /** What `%z` accepts and `datetime` then keeps: `Z` (in capitals only), or a sign, two
      digits of hours and the rest; the offset must stay below 24 hours, so the hours below 24. */
  predicate ValidZone(z: string)
  {
    z == "Z" ||
    (|z| >= 3 && (z[0] == '+' || z[0] == '-') && IsDigit(z[1]) && IsDigit(z[2]) &&
     Value(z[1..3]) <= 23 && (ZoneAfterHours(z[3..], ":") || ZoneAfterHours(z[3..], "")))
  }

  function DaysIn(month: int, year: int): int
  {
    if month == 2 then (if (year % 4 == 0 && year % 100 != 0) || year % 400 == 0 then 29 else 28)
    else if month == 4 || month == 6 || month == 9 || month == 11 then 30
    else 31
  }

  /** The stamps `datetime` can hold and the format can describe. */
  predicate ValidStamp(st: Stamp)
  {
    st.weekday < 7 && 1 <= st.month <= 12 && 1 <= st.year <= 9999 &&
    1 <= st.day <= DaysIn(st.month, st.year) &&
    0 <= st.hour <= 23 && 0 <= st.minute <= 59 && 0 <= st.second <= 59 && ValidZone(st.zone)
  }

  // ---------------------------------------------------------------------------------------
  // Parse and reformat

  /** The hours, minutes, seconds and offset are ones `datetime` accepts. */
  predicate ValidClock(st: Stamp)
  {
    0 <= st.hour <= 23 && 0 <= st.minute <= 59 && 0 <= st.second <= 59 && ValidZone(st.zone)
  }

  /** `datetime.strptime(s, '%a, %d %b %Y %H:%M:%S %z')`; `None` where Python raises
      `ValueError`. The work is split at the blanks of the format. */
  function ParseStamp(s: string): (r: Option<Stamp>)
    ensures r.Some? ==> ValidStamp(r.value)
  {
    if |s| < 3 then None else
    var w :- NameAt(DayKeys, s[..3]);
    AfterWeekday(w, s[3..])
  }

  /** `, %d ` and what follows. */
  function AfterWeekday(w: nat, t: string): (r: Option<Stamp>)
    ensures r.Some? ==> r.value.weekday == w && 1 <= r.value.month <= 12 && 1 <= r.value.year <= 9999 &&
                        1 <= r.value.day <= DaysIn(r.value.month, r.value.year) && ValidClock(r.value)
  {
    var afterComma :- Expect(t, ',');
    var atDay :- Gap(afterComma);
    var d :- Field(atDay, 1, 31);
    var atMonth :- Gap(d.rest);
    AfterDay(w, d.value, atMonth)
  }

  /** `%b` and what follows. */
  function AfterDay(w: nat, d: int, t: string): (r: Option<Stamp>)
    ensures r.Some? ==> r.value.weekday == w && r.value.day == d && 1 <= r.value.month <= 12 &&
                        1 <= r.value.year <= 9999 && d <= DaysIn(r.value.month, r.value.year) && ValidClock(r.value)
  {
    if |t| < 3 then None else
    var m :- NameAt(MonthKeys, t[..3]);
    AfterMonth(w, d, m + 1, t[3..])
  }

  /** ` %Y ` and what follows. */
  function AfterMonth(w: nat, d: int, m: int, t: string): (r: Option<Stamp>)
    ensures r.Some? ==> r.value.weekday == w && r.value.day == d && r.value.month == m &&
                        1 <= r.value.year <= 9999 && d <= DaysIn(m, r.value.year) && ValidClock(r.value)
  {
    var atYear :- Gap(t);
    var y :- YearField(atYear);
    var atHour :- Gap(y.rest);
    AfterYear(w, d, m, y.value, atHour)
  }

  /** `%H:%M:%S %z`, which must use up the header, and the check of the calendar date. */
  function AfterYear(w: nat, d: int, m: int, y: int, t: string): (r: Option<Stamp>)
    ensures r.Some? ==> r.value.weekday == w && r.value.day == d && r.value.month == m &&
                        r.value.year == y && d <= DaysIn(m, y) && ValidClock(r.value)
  {
    var h :- Field(t, 0, 23);
    var atMinute :- Expect(h.rest, ':');
    var mi :- Field(atMinute, 0, 59);
    var atSecond :- Expect(mi.rest, ':');
    var sec :- Field(atSecond, 0, 59);
    var zone :- Gap(sec.rest);
    if ValidZone(zone) && d <= DaysIn(m, y) then
      Some(Stamp(w, d, m, y, h.value, mi.value, sec.value, zone))
    else None
  }

  /** `strftime('%d %b %Y')`. */
  function Short(st: Stamp): string
    requires ValidStamp(st)
  {
    Pad2(st.day) + " " + MonthNames[st.month - 1] + " " + Pad4(st.year)
  }

  /** The reformatted `Date` header: the short form when the parse succeeds, else the header. */
  function Reformat(raw: string): string
  {
    match ParseStamp(raw) {
      case None => raw
      case Some(st) => Short(st)
    }
  }

  /** A header the parse rejects is returned as it came; one it accepts becomes the eleven
      characters `DD Mon YYYY` of its stamp. */
  lemma ReformatCases(raw: string)
    ensures ParseStamp(raw).None? ==> Reformat(raw) == raw
    ensures ParseStamp(raw).Some? ==>
              var st := ParseStamp(raw).value;
              var r := Reformat(raw);
              ValidStamp(st) && r == Short(st) && |r| == 11 && Value(r[..2]) == st.day &&
              r[3..6] == MonthNames[st.month - 1] && Value(r[7..]) == st.year
  {
    if ParseStamp(raw).Some? {
      ShortReadsBack(ParseStamp(raw).value);
    }
  }

  /** The short form reads back as the day, month and year of the stamp. */
  lemma ShortReadsBack(st: Stamp)
    requires ValidStamp(st)
    ensures var r := Short(st);
            |r| == 11 && AllDigits(r[..2]) && Value(r[..2]) == st.day && r[2] == ' ' &&
            r[3..6] == MonthNames[st.month - 1] && r[6] == ' ' &&
            AllDigits(r[7..]) && Value(r[7..]) == st.year
  {
    OwnMonthName(st.month - 1);
    ShortPieces(Pad2(st.day), MonthNames[st.month - 1], Pad4(st.year));
  }

  lemma ShortPieces(d: string, name: string, y: string)
    requires |d| == 2 && |name| == 3 && |y| == 4
    ensures var r := d + " " + name + " " + y;
            |r| == 11 && r[..2] == d && r[2] == ' ' && r[3..6] == name && r[6] == ' ' && r[7..] == y
  {
  }

  // ---------------------------------------------------------------------------------------
  // Headers written in the layout

  /** `%H:%M:%S %z` written for the stamp, followed by `trailer`. */
  function ClockText(st: Stamp, trailer: string): string
    requires ValidStamp(st)
  {
    Pad2(st.hour) + (":" + (Pad2(st.minute) + (":" + (Pad2(st.second) + (" " + (st.zone + trailer))))))
  }

  /** `%b %Y ` written for the stamp, then its clock. */
  function MonthText(st: Stamp, trailer: string): string
    requires ValidStamp(st)
  {
    MonthNames[st.month - 1] + (" " + (Pad4(st.year) + (" " + ClockText(st, trailer))))
  }

  /** A `Date` header in the layout, followed by `trailer` (a comment such as ` (PDT)`, or
      nothing). */
  function DateText(st: Stamp, trailer: string): string
    requires ValidStamp(st)
  {
    DayNames[st.weekday] + (", " + (Pad2(st.day) + (" " + MonthText(st, trailer))))
  }

  lemma Lower3(s: string)
    requires |s| == 3
    ensures Lower(s) == [LowerChar(s[0]), LowerChar(s[1]), LowerChar(s[2])]
  {
    assert s[1..][1..] == [s[2]] && s[1..][1..][1..] == [];
    assert Lower(s[1..][1..]) == [LowerChar(s[2])];
    assert Lower(s[1..]) == [LowerChar(s[1]), LowerChar(s[2])];
  }

  /** The first key equal to `s` up to case is the one at `i` when no earlier key repeats it. */
  lemma {:induction false} NameAtUnique(keys: seq<string>, s: string, i: nat)
    requires i < |keys| && keys[i] == Lower(s) && forall j :: 0 <= j < i ==> keys[j] != keys[i]
    ensures NameAt(keys, s) == Some(i)
  {
    if i > 0 {
      assert keys[0] != Lower(s);
      assert forall j :: 0 <= j < i - 1 ==> keys[1..][j] == keys[j + 1];
      NameAtUnique(keys[1..], s, i - 1);
    }
  }

  /** Each weekday name is three letters, and matches its own key only. */
  lemma OwnDayName(w: nat)
    requires w < 7
    ensures |DayNames[w]| == 3
    ensures NameAt(DayKeys, DayNames[w]) == Some(w)
  {
    Lower3(DayNames[w]);
    assert Lower(DayNames[w]) == DayKeys[w];
    NameAtUnique(DayKeys, DayNames[w], w);
  }

  /** Each month name is three letters starting with a capital, and matches its own key only. */
  lemma OwnMonthName(m: nat)
    requires m < 12
    ensures |MonthNames[m]| == 3 && 'A' <= MonthNames[m][0] <= 'Z'
    ensures NameAt(MonthKeys, MonthNames[m]) == Some(m)
  {
    Lower3(MonthNames[m]);
    assert Lower(MonthNames[m]) == MonthKeys[m];
    NameAtUnique(MonthKeys, MonthNames[m], m);
  }

  lemma GapOne(x: string)
    requires x != [] && !IsSpace(x[0])
    ensures Gap(" " + x) == Some(x)
  {
    assert (" " + x)[1..] == x;
  }

  /** Two digits followed by a non-digit are read as their value. */
  lemma FieldOfDigits(ds: string, x: string, lo: nat, hi: nat)
    requires |ds| == 2 && AllDigits(ds) && lo <= Value(ds) <= hi
    requires x != [] && !IsDigit(x[0])
    ensures Field(ds + x, lo, hi) == Some(Piece(Value(ds), x))
  {
    var s := ds + x;
    assert s[..2] == ds && s[2..] == x;
    assert DigitRun(s[2..]) == 0;
    assert DigitRun(s[1..]) == 1 by { assert s[1..][1..] == s[2..]; }
  }

  /** Four digits followed by a non-digit are read as a year, unless they are all zero. */
  lemma YearOfDigits(ys: string, x: string)
    requires |ys| == 4 && AllDigits(ys) && 1 <= Value(ys)
    requires x != [] && !IsDigit(x[0])
    ensures YearField(ys + x) == Some(Piece(Value(ys), x))
  {
    var s := ys + x;
    assert s[..4] == ys && s[4..] == x;
    assert DigitRun(s[4..]) == 0;
    assert DigitRun(s[3..]) == 1 by { assert s[3..][1..] == s[4..]; }
    assert DigitRun(s[2..]) == 2 by { assert s[2..][1..] == s[3..]; }
    assert DigitRun(s[1..]) == 3 by { assert s[1..][1..] == s[2..]; }
  }

  /** Every character of an accepted offset is a digit, a sign, a colon, a point or `Z`. */
  lemma ZoneHasNoSpace(z: string)
    requires ValidZone(z)
    ensures forall i :: 0 <= i < |z| ==> !IsSpace(z[i])
  {
    if z != "Z" {
      var t := z[3..];
      forall i | 3 <= i < |z| ensures !IsSpace(z[i]) {
        assert z[i] == t[i - 3];
        AfterHoursHasNoSpace(t, if ZoneAfterHours(t, ":") then ":" else "", i - 3);
      }
    }
  }

  lemma AfterHoursHasNoSpace(t: string, sep: string, i: int)
    requires ZoneAfterHours(t, sep) && (sep == ":" || sep == "") && 0 <= i < |t|
    ensures !IsSpace(t[i])
  {
    var k := |sep|;
    var u := t[k + 2..];
    if i >= k + 2 {
      assert t[i] == u[i - k - 2];
      var j := i - k - 2;
      if j >= k + 2 {
        var f := u[k + 2..];
        assert u[j] == f[j - k - 2];
      } else if j >= k {
        assert u[j] == u[k..k + 2][j - k];
      } else {
        assert u[j] == u[..k][j];
      }
    } else if i >= k {
      assert t[i] == t[k..k + 2][i - k];
    } else {
      assert t[i] == t[..k][i];
    }
  }

  /** `%H:%M:%S %z` read from the clock text leaves the offset followed by the trailer. */
  lemma ClockStage(st: Stamp, trailer: string)
    requires ValidStamp(st)
    ensures AfterYear(st.weekday, st.day, st.month, st.year, ClockText(st, trailer)) ==
            if ValidZone(st.zone + trailer) then Some(st.(zone := st.zone + trailer)) else None
  {
    var z := st.zone + trailer;
    assert z != [] && !IsSpace(z[0]) by { ZoneHasNoSpace(st.zone); assert z[0] == st.zone[0]; }
    var s5 := " " + z;
    var s4 := Pad2(st.second) + s5;
    var s3 := ":" + s4;
    var s2 := Pad2(st.minute) + s3;
    var s1 := ":" + s2;
    assert ClockText(st, trailer) == Pad2(st.hour) + s1;
    FieldOfDigits(Pad2(st.hour), s1, 0, 23);
    FieldOfDigits(Pad2(st.minute), s3, 0, 59);
    FieldOfDigits(Pad2(st.second), s5, 0, 59);
    GapOne(z);
  }

  /** `%b %Y ` read from a month name, a year and a blank leaves the clock that follows. */
  lemma MonthStage(w: nat, d: int, m: int, t: string)
    requires 1 <= m <= 12 && |t| >= 3 && NameAt(MonthKeys, t[..3]) == Some(m - 1)
    ensures AfterDay(w, d, t) == AfterMonth(w, d, m, t[3..])
  {
  }
  lemma YearStage(w: nat, d: int, m: int, ys: string, c: string)
    requires |ys| == 4 && AllDigits(ys) && 1 <= Value(ys)
    requires c != [] && !IsSpace(c[0])
    ensures AfterMonth(w, d, m, " " + (ys + (" " + c))) == AfterYear(w, d, m, Value(ys), c)
  {
    var s2 := " " + c;
    GapOne(ys + s2);
    YearOfDigits(ys, s2);
    GapOne(c);
  }
  lemma DayStage(w: nat, ds: string, t: string)
    requires |ds| == 2 && AllDigits(ds) && 1 <= Value(ds) <= 31
    requires t != [] && !IsSpace(t[0])
    ensures AfterWeekday(w, ", " + (ds + (" " + t))) == AfterDay(w, Value(ds), t)
  {
    var s1 := ds + (" " + t);
    assert (", " + s1)[1..] == " " + s1;
    GapOne(s1);
    FieldOfDigits(ds, " " + t, 1, 31);
    GapOne(t);
  }

  /** `%a` read from a weekday name leaves the rest. */
  lemma WeekdayStage(w: nat, s: string)
    requires |s| >= 3 && NameAt(DayKeys, s[..3]) == Some(w)
    ensures ParseStamp(s) == AfterWeekday(w, s[3..])
  {
  }

  /** The weekday and day of a header in the layout are read, leaving the month text. */
  lemma HeadStages(st: Stamp, trailer: string)
    requires ValidStamp(st)
    ensures ParseStamp(DateText(st, trailer)) == AfterDay(st.weekday, st.day, MonthText(st, trailer))
  {
    var t := MonthText(st, trailer);
    var name := DayNames[st.weekday];
    var ds := Pad2(st.day);
    assert DateText(st, trailer) == name + (", " + (ds + (" " + t)));
    OwnDayName(st.weekday);
    OwnMonthName(st.month - 1);
    assert !IsSpace(t[0]) by {
      assert t[0] == MonthNames[st.month - 1][0];
      assert 'A' <= t[0] <= 'Z';
    }
    assert DaysIn(st.month, st.year) <= 31;
    WeekdayDayText(st.weekday, name, ds, t);
  }

  /** A weekday name, a comma, a blank, two digits and a blank are read, leaving the rest. */
  lemma WeekdayDayText(w: nat, name: string, ds: string, t: string)
    requires |name| == 3 && NameAt(DayKeys, name) == Some(w)
    requires |ds| == 2 && AllDigits(ds) && 1 <= Value(ds) <= 31
    requires t != [] && !IsSpace(t[0])
    ensures ParseStamp(name + (", " + (ds + (" " + t)))) == AfterDay(w, Value(ds), t)
  {
    var rest := ", " + (ds + (" " + t));
    Halves(name, rest);
    WeekdayStage(w, name + rest);
    DayStage(w, ds, t);
  }

  /** The month and year of a header in the layout are read, leaving the clock text. */
  lemma MiddleStages(st: Stamp, trailer: string)
    requires ValidStamp(st)
    ensures AfterDay(st.weekday, st.day, MonthText(st, trailer)) ==
            AfterYear(st.weekday, st.day, st.month, st.year, ClockText(st, trailer))
  {
    var c := ClockText(st, trailer);
    var name := MonthNames[st.month - 1];
    var ys := Pad4(st.year);
    assert MonthText(st, trailer) == name + (" " + (ys + (" " + c)));
    assert IsDigit(c[0]) by { assert c[0] == Pad2(st.hour)[0]; }
    OwnMonthName(st.month - 1);
    MonthYearText(st.weekday, st.day, st.month, name, ys, c);
  }

  /** A month name, a blank, four digits and a blank are read, leaving the rest. */
  lemma MonthYearText(w: nat, d: int, m: int, name: string, ys: string, c: string)
    requires 1 <= m <= 12 && |name| == 3 && NameAt(MonthKeys, name) == Some(m - 1)
    requires |ys| == 4 && AllDigits(ys) && 1 <= Value(ys)
    requires c != [] && IsDigit(c[0])
    ensures AfterDay(w, d, name + (" " + (ys + (" " + c)))) == AfterYear(w, d, m, Value(ys), c)
  {
    var rest := " " + (ys + (" " + c));
    Halves(name, rest);
    MonthStage(w, d, m, name + rest);
    YearStage(w, d, m, ys, c);
  }

  /** Reading a header written in the layout gives back the stamp, except that the offset read is
      the offset written followed by the trailer. */
  lemma ParseDateText(st: Stamp, trailer: string)
    requires ValidStamp(st)
    ensures ParseStamp(DateText(st, trailer)) ==
            if ValidZone(st.zone + trailer) then Some(st.(zone := st.zone + trailer)) else None
  {
    HeadStages(st, trailer);
    MiddleStages(st, trailer);
    ClockStage(st, trailer);
  }

  /** The layout reads back as the stamp it was written from. */
  lemma ParseLayout(st: Stamp)
    requires ValidStamp(st)
    ensures ParseStamp(DateText(st, "")) == Some(st)
    ensures Reformat(DateText(st, "")) == Short(st)
  {
    ParseDateText(st, "");
    assert st.zone + "" == st.zone;
  }

  /** A header with a trailing comment, such as `... -0700 (PDT)`, fails the parse and is kept
      as it came. */
  lemma CommentKeepsHeader(st: Stamp, trailer: string)
    requires ValidStamp(st) && trailer != [] && IsSpace(trailer[0])
    ensures ParseStamp(DateText(st, trailer)).None?
    ensures Reformat(DateText(st, trailer)) == DateText(st, trailer)
  {
    ParseDateText(st, trailer);
    var z := st.zone + trailer;
    assert z[|st.zone|] == trailer[0];
    if ValidZone(z) {
      ZoneHasNoSpace(z);
      assert false;
    }
  }

  /** The stamp of `Fri, 18 Oct 2024 10:20:30 -0700`. */
  function ExampleStamp(): (st: Stamp)
    ensures ValidStamp(st)
  {
    assert Value("07") == 7 by { assert "07"[..1] == "0"; }
    assert ZoneAfterHours("00", "") by { assert "00"[..0] == "" && "00"[0..2] == "00"; }
    assert ValidZone("-0700") by { assert "-0700"[1..3] == "07" && "-0700"[3..] == "00"; }
    Stamp(4, 18, 10, 2024, 10, 20, 30, "-0700")
  }

  /** That header becomes `18 Oct 2024`, while the same header followed by ` (PDT)` is passed
      through. */
  lemma ReformatExample(st: Stamp)
    requires st == ExampleStamp()
    ensures Reformat(DateText(st, "")) == "18 Oct 2024"
    ensures Reformat(DateText(st, " (PDT)")) == DateText(st, " (PDT)")
  {
    ParseLayout(st);
    CommentKeepsHeader(st, " (PDT)");
    ExampleShort();
  }

  lemma ExampleShort()
    ensures Short(ExampleStamp()) == "18 Oct 2024"
  {
    assert Pad2(18) == "18" && Pad4(2024) == "2024";
    assert MonthNames[9] == "Oct";
  }
}
