/**
 * The `data-datetime` attribute of a slot element, "M/D/YYYY h:MM:SS AM", read the way
 * `datetime.strptime(s.strip(), "%m/%d/%Y %I:%M:%S %p")` reads it, and the extraction loop
 * that skips missing attributes and unparseable strings.
 */
module SlotParse {
  import opened Wrappers
  import opened Text
  import opened Clock

  /** A slot as extraction yields it: its date and its 24-hour time ("%H:%M:%S"). */
  datatype Slot = Slot(date: int, time: Time)

  /** A number read from the head of a string, and the text after it. */
  datatype Token = Token(value: nat, rest: string)

  /** Between `minLen` and `maxLen` leading digits (a directive's `\d` alternatives). */
  function Number(s: string, minLen: nat, maxLen: nat): Option<Token> {
    var n := DigitRun(s);
    if minLen <= n <= maxLen then Some(Token(ParseNat(s[..n]), s[n..])) else None
  }

  /** `%d` also accepts a space followed by one non-zero digit. */
  function Day(s: string): Option<Token> {
    if |s| >= 2 && s[0] == ' ' && IsDigit(s[1]) && s[1] != '0' then Some(Token(DigitValue(s[1]), s[2..]))
    else Number(s, 1, 2)
  }

  function Expect(s: string, c: char): Option<string> {
    if s != [] && s[0] == c then Some(s[1..]) else None
  }

  /** A space in the format matches one or more whitespace characters. */
  function Spaces(s: string): Option<string> {
    var r := TrimStart(s, IsPySpace);
    if |r| < |s| then Some(r) else None
  }

  /** `%p` in the C locale, matched case-insensitively and required to end the string. */
  function Meridiem(s: string): Option<bool> {
    if Lower(s) == "am" then Some(false) else if Lower(s) == "pm" then Some(true) else None
  }

  /** "M/D/YYYY" at the head of a string: month, day and year fields, and the rest. */
  datatype DateFields = DateFields(month: nat, day: nat, year: nat, rest: string)

  /** "h:MM:SS" at the head of a string. */
  datatype ClockFields = ClockFields(hour: nat, minute: nat, second: nat, rest: string)

  function MatchDate(s: string): Option<DateFields> {
    var month :- Number(s, 1, 2);
    var s1 :- Expect(month.rest, '/');
    var day :- Day(s1);
    var s2 :- Expect(day.rest, '/');
    var year :- Number(s2, 4, 4);
    Some(DateFields(month.value, day.value, year.value, year.rest))
  }

  function MatchClock(s: string): Option<ClockFields> {
    var hour :- Number(s, 1, 2);
    var s1 :- Expect(hour.rest, ':');
    var minute :- Number(s1, 1, 2);
    var s2 :- Expect(minute.rest, ':');
    var second :- Number(s2, 1, 2);
    Some(ClockFields(hour.value, minute.value, second.value, second.rest))
  }

  /** " h:MM:SS AM" after the year: the clock fields and whether the time is PM. */
  datatype TailFields = TailFields(clock: ClockFields, pm: bool)

  function MatchTail(s: string): Option<TailFields> {
    var s1 :- Spaces(s);
    var clock :- MatchClock(s1);
    var s2 :- Spaces(clock.rest);
    var pm :- Meridiem(s2);
    Some(TailFields(clock, pm))
  }

  /**
   * The parse of one attribute. The pattern bounds each field (month 1-12, day 1-31, hour
   * 1-12, minute at most 59, second at most 61); building the datetime then rejects year 0,
   * days past the month's end and seconds 60 and 61.
   */
  function ParseDataDatetime(raw: string): Option<Slot> {
    var date :- MatchDate(Trim(raw, IsPySpace));
    var tail :- MatchTail(date.rest);
    Build(date, tail)
  }

  /**
   * Whatever form an accepted attribute takes (padded, two blanks, lower-case "pm"), it gives
   * a real calendar date and a 24-hour time of day.
   */
  lemma ParseAccepted(raw: string)
    ensures ParseDataDatetime(raw).Some? ==>
      && ValidTime(ParseDataDatetime(raw).value.time)
      && exists y: nat, m: nat, d: nat :: ValidDate(y, m, d) && ParseDataDatetime(raw).value.date == Ordinal(y, m, d)
  {
    var p := ParseDataDatetime(raw);
    if p.Some? {
      ParseIsBuild(raw);
      var date, tail :| p == Build(date, tail);
      BuildAccepted(date, tail);
    }
  }

  /** An accepted attribute is the datetime built from the fields it matched. */
  lemma ParseIsBuild(raw: string)
    requires ParseDataDatetime(raw).Some?
    ensures exists date, tail :: ParseDataDatetime(raw) == Build(date, tail)
  {
    var date := MatchDate(Trim(raw, IsPySpace));
    assert date.Some?;
    var tail := MatchTail(date.value.rest);
    assert tail.Some?;
    assert ParseDataDatetime(raw) == Build(date.value, tail.value);
  }

  /** A built datetime is a real date and a 24-hour time. */
  lemma BuildAccepted(date: DateFields, tail: TailFields)
    ensures Build(date, tail).Some? ==>
      && ValidTime(Build(date, tail).value.time)
      && exists y: nat, m: nat, d: nat :: ValidDate(y, m, d) && Build(date, tail).value.date == Ordinal(y, m, d)
  {
    if Build(date, tail).Some? {
      assert ValidDate(date.year, date.month, date.day);
    }
  }

  /** The matched fields as a datetime, if the pattern's bounds and the calendar allow them. */
  function Build(date: DateFields, tail: TailFields): Option<Slot> {
    var clock := tail.clock;
    if 1 <= date.month <= 12 && 1 <= date.day <= 31 && 1 <= clock.hour <= 12
      && clock.minute <= 59 && clock.second <= 61
      && ValidDate(date.year, date.month, date.day) && clock.second <= 59
    then Some(Slot(Ordinal(date.year, date.month, date.day), Time(To24(clock.hour, tail.pm), clock.minute, clock.second)))
    else None
  }

  /** The attribute as the booking site writes it, e.g. "4/22/2026 2:15:00 PM". */
  function RenderDataDatetime(y: nat, m: nat, d: nat, t: Time): string {
    NatToString(m) + ("/" + (NatToString(d) + ("/" + (NatToString(y) + (" " + RenderClock(t))))))
  }

  /** The clock part of a rendered attribute, "h:MM:SS AM". */
  function RenderClock(t: Time): string {
    NatToString(Hour12(t.hour)) + (":" + (PadStart2(NatToString(t.minute)) + (":" +
      (PadStart2(NatToString(t.second)) + (" " + Period(t.hour))))))
  }

  lemma NumberBefore(x: string, sep: char, rest: string, minLen: nat, maxLen: nat)
    requires AllDigits(x) && !IsDigit(sep) && minLen <= |x| <= maxLen
    ensures Number(x + ([sep] + rest), minLen, maxLen) == Some(Token(ParseNat(x), [sep] + rest))
  {
    var s := x + ([sep] + rest);
    assert s == x + [sep] + rest;
    DigitRunBeforeSeparator(x, sep, rest);
    assert DigitRun(s) == |x|;
    assert s[..|x|] == x && s[|x|..] == [sep] + rest;
  }

  lemma SpacesBefore(rest: string)
    requires rest != [] && !IsPySpace(rest[0])
    ensures Spaces(" " + rest) == Some(rest)
  {
    assert (" " + rest)[1..] == rest;
  }

  lemma TwoDigitField(n: nat)
    requires n < 60
    ensures var f := PadStart2(NatToString(n)); |f| == 2 && AllDigits(f) && ParseNat(f) == n
  {
    NatToStringTwoDigits(n);
    ParsePadStart2(n);
  }

  /** A number written out and followed by a non-digit reads back as that number. */
  lemma NumberOfNat(n: nat, sep: char, rest: string, minLen: nat, maxLen: nat)
    requires !IsDigit(sep) && minLen <= |NatToString(n)| <= maxLen
    ensures Number(NatToString(n) + ([sep] + rest), minLen, maxLen) == Some(Token(n, [sep] + rest))
  {
    ParseNatToString(n);
    NumberBefore(NatToString(n), sep, rest, minLen, maxLen);
  }

  lemma MatchDateRendered(m: nat, d: nat, y: nat, rest: string)
    requires m < 100 && d < 100 && 1000 <= y <= 9999
    requires rest != [] && !IsDigit(rest[0])
    ensures MatchDate(NatToString(m) + ("/" + (NatToString(d) + ("/" + (NatToString(y) + rest)))))
      == Some(DateFields(m, d, y, rest))
  {
    var r2 := NatToString(y) + rest;
    var r0 := NatToString(d) + ("/" + r2);
    MonthField(m, r0);
    DayField(d, r2);
    YearField(y, rest);
    MatchDateOf(NatToString(m) + ("/" + r0), Token(m, "/" + r0), r0, Token(d, "/" + r2), r2, Token(y, rest));
  }

  lemma MonthField(m: nat, r0: string)
    requires m < 100
    ensures Number(NatToString(m) + ("/" + r0), 1, 2) == Some(Token(m, "/" + r0))
    ensures Expect("/" + r0, '/') == Some(r0)
  {
    NatToStringTwoDigits(m);
    NumberOfNat(m, '/', r0, 1, 2);
    ExpectHead('/', r0);
  }

  lemma DayField(d: nat, r2: string)
    requires d < 100
    ensures Day(NatToString(d) + ("/" + r2)) == Some(Token(d, "/" + r2))
    ensures Expect("/" + r2, '/') == Some(r2)
  {
    NatToStringTwoDigits(d);
    NumberOfNat(d, '/', r2, 1, 2);
    DayOfDigits(NatToString(d), "/" + r2);
    ExpectHead('/', r2);
  }

  lemma YearField(y: nat, rest: string)
    requires 1000 <= y <= 9999
    requires rest != [] && !IsDigit(rest[0])
    ensures Number(NatToString(y) + rest, 4, 4) == Some(Token(y, rest))
  {
    NatToStringFourDigits(y);
    assert rest == [rest[0]] + rest[1..];
    NumberOfNat(y, rest[0], rest[1..], 4, 4);
  }

  lemma ExpectHead(c: char, s: string)
    ensures Expect([c] + s, c) == Some(s)
  {
    assert ([c] + s)[1..] == s;
  }

  /** A day field that starts with a digit is read as a plain number. */
  lemma DayOfDigits(x: string, rest: string)
    requires x != [] && AllDigits(x)
    ensures Day(x + rest) == Number(x + rest, 1, 2)
  {
    assert (x + rest)[0] == x[0];
  }

  /** The date matches when its five parts match one after the other. */
  lemma MatchDateOf(s: string, month: Token, s1: string, day: Token, s2: string, year: Token)
    requires Number(s, 1, 2) == Some(month) && Expect(month.rest, '/') == Some(s1)
    requires Day(s1) == Some(day) && Expect(day.rest, '/') == Some(s2)
    requires Number(s2, 4, 4) == Some(year)
    ensures MatchDate(s) == Some(DateFields(month.value, day.value, year.value, year.rest))
  {
  }

  lemma MatchClockRendered(t: Time, rest: string)
    requires ValidTime(t)
    requires rest != [] && !IsDigit(rest[0])
    ensures MatchClock(NatToString(Hour12(t.hour)) + (":" + (PadStart2(NatToString(t.minute)) + (":" +
      (PadStart2(NatToString(t.second)) + rest)))))
      == Some(ClockFields(Hour12(t.hour), t.minute, t.second, rest))
  {
    var r2 := PadStart2(NatToString(t.second)) + rest;
    var r0 := PadStart2(NatToString(t.minute)) + (":" + r2);
    HourField(Hour12(t.hour), r0);
    MinuteField(t.minute, r2);
    SecondField(t.second, rest);
    MatchClockOf(NatToString(Hour12(t.hour)) + (":" + r0), Token(Hour12(t.hour), ":" + r0), r0,
                 Token(t.minute, ":" + r2), r2, Token(t.second, rest));
  }

  lemma HourField(h: nat, r0: string)
    requires 1 <= h <= 12
    ensures Number(NatToString(h) + (":" + r0), 1, 2) == Some(Token(h, ":" + r0))
    ensures Expect(":" + r0, ':') == Some(r0)
  {
    NatToStringTwoDigits(h);
    NumberOfNat(h, ':', r0, 1, 2);
    ExpectHead(':', r0);
  }

  lemma MinuteField(n: nat, r2: string)
    requires n < 60
    ensures Number(PadStart2(NatToString(n)) + (":" + r2), 1, 2) == Some(Token(n, ":" + r2))
    ensures Expect(":" + r2, ':') == Some(r2)
  {
    TwoDigitField(n);
    NumberBefore(PadStart2(NatToString(n)), ':', r2, 1, 2);
    ExpectHead(':', r2);
  }

  lemma SecondField(n: nat, rest: string)
    requires n < 60
    requires rest != [] && !IsDigit(rest[0])
    ensures Number(PadStart2(NatToString(n)) + rest, 1, 2) == Some(Token(n, rest))
  {
    TwoDigitField(n);
    assert rest == [rest[0]] + rest[1..];
    NumberBefore(PadStart2(NatToString(n)), rest[0], rest[1..], 1, 2);
  }

  /** The clock matches when its five parts match one after the other. */
  lemma MatchClockOf(s: string, hour: Token, s1: string, minute: Token, s2: string, second: Token)
    requires Number(s, 1, 2) == Some(hour) && Expect(hour.rest, ':') == Some(s1)
    requires Number(s1, 1, 2) == Some(minute) && Expect(minute.rest, ':') == Some(s2)
    requires Number(s2, 1, 2) == Some(second)
    ensures MatchClock(s) == Some(ClockFields(hour.value, minute.value, second.value, second.rest))
  {
  }

  lemma RenderedShape(y: nat, m: nat, d: nat, t: Time)
    ensures Trim(RenderDataDatetime(y, m, d, t), IsPySpace) == RenderDataDatetime(y, m, d, t)
  {
    var s := RenderDataDatetime(y, m, d, t);
    assert s[0] == NatToString(m)[0];
    assert s[|s| - 1] == 'M';
    TrimUnpadded(s, IsPySpace);
  }

  lemma MeridiemOfPeriod(h: nat)
    ensures Meridiem(Period(h)) == Some(IsAfternoon(h))
    ensures Period(h) != [] && !IsPySpace(Period(h)[0])
  {
  }

  lemma MatchTailRendered(t: Time)
    requires ValidTime(t)
    ensures MatchTail(" " + RenderClock(t))
      == Some(TailFields(ClockFields(Hour12(t.hour), t.minute, t.second, " " + Period(t.hour)), IsAfternoon(t.hour)))
  {
    var p := Period(t.hour);
    var clockText := RenderClock(t);
    RenderClockHead(t);
    SpacesBefore(clockText);
    MeridiemOfPeriod(t.hour);
    MatchClockRendered(t, " " + p);
    SpacesBefore(p);
    MatchTailOf(" " + clockText, clockText, ClockFields(Hour12(t.hour), t.minute, t.second, " " + p), p, IsAfternoon(t.hour));
  }

  /** The clock part starts with the hour's first digit. */
  lemma RenderClockHead(t: Time)
    ensures RenderClock(t) != [] && IsDigit(RenderClock(t)[0]) && !IsPySpace(RenderClock(t)[0])
  {
    NatToStringTwoDigits(Hour12(t.hour));
    assert RenderClock(t)[0] == NatToString(Hour12(t.hour))[0];
  }

  /** The tail matches when its four parts match one after the other. */
  lemma MatchTailOf(s: string, s1: string, clock: ClockFields, s2: string, pm: bool)
    requires Spaces(s) == Some(s1) && MatchClock(s1) == Some(clock)
    requires Spaces(clock.rest) == Some(s2) && Meridiem(s2) == Some(pm)
    ensures MatchTail(s) == Some(TailFields(clock, pm))
  {
  }

  /**
   * An attribute written as the site writes it, with a four-digit year and any one- or
   * two-digit month and day, parses exactly when it names a real date, and then to that
   * date's ordinal and to the time written (12 AM reads as hour 0, 12 PM as 12).
   */
  lemma {:induction false} ParseRendered(y: nat, m: nat, d: nat, t: Time)
    requires m < 100 && d < 100 && 1000 <= y <= 9999 && ValidTime(t)
    ensures ParseDataDatetime(RenderDataDatetime(y, m, d, t))
      == if ValidDate(y, m, d) then Some(Slot(Ordinal(y, m, d), t)) else None
  {
    var s := RenderDataDatetime(y, m, d, t);
    var date := DateFields(m, d, y, " " + RenderClock(t));
    var tail := TailFields(ClockFields(Hour12(t.hour), t.minute, t.second, " " + Period(t.hour)), IsAfternoon(t.hour));
    RenderedShape(y, m, d, t);
    MatchDateRendered(m, d, y, " " + RenderClock(t));
    assert MatchDate(Trim(s, IsPySpace)) == Some(date);
    MatchTailRendered(t);
    assert ParseDataDatetime(s) == Build(date, tail);
    To24OfHour12(t.hour);
  }

  lemma DigitsExamples()
    ensures NatToString(2026) == "2026" && NatToString(22) == "22" && NatToString(30) == "30"
  {
    assert NatToString(20) == "20";
    assert NatToString(202) == "202";
  }

  lemma RenderClockExample()
    ensures RenderClock(Time(14, 15, 0)) == "2:15:00 PM"
  {
    assert PadStart2(NatToString(15)) == "15";
    assert PadStart2(NatToString(0)) == "00";
  }

  lemma RenderExample()
    ensures RenderDataDatetime(2026, 4, 22, Time(14, 15, 0)) == "4/22/2026 2:15:00 PM"
  {
    DigitsExamples();
    RenderClockExample();
    assert NatToString(4) == "4";
    RenderParts(2026, 4, 22, Time(14, 15, 0), "4", "22", "2026", "2:15:00 PM");
    Joined();
  }

  lemma RenderInvalidExample()
    ensures RenderDataDatetime(2026, 2, 30, Time(14, 15, 0)) == "2/30/2026 2:15:00 PM"
  {
    DigitsExamples();
    RenderClockExample();
    assert NatToString(2) == "2" && NatToString(30) == "30";
    RenderParts(2026, 2, 30, Time(14, 15, 0), "2", "30", "2026", "2:15:00 PM");
    Joined();
  }

  /** The rendering is its fields' texts joined by the separators. */
  lemma RenderParts(y: nat, m: nat, d: nat, t: Time, ms: string, ds: string, ys: string, cs: string)
    requires NatToString(m) == ms && NatToString(d) == ds && NatToString(y) == ys && RenderClock(t) == cs
    ensures RenderDataDatetime(y, m, d, t) == ms + ("/" + (ds + ("/" + (ys + (" " + cs)))))
  {
  }

  lemma Joined()
    ensures "4" + ("/" + ("22" + ("/" + ("2026" + (" " + "2:15:00 PM"))))) == "4/22/2026 2:15:00 PM"
    ensures "2" + ("/" + ("30" + ("/" + ("2026" + (" " + "2:15:00 PM"))))) == "2/30/2026 2:15:00 PM"
  {
  }

  /** The site's own example. */
  lemma ParseSiteExample()
    ensures ParseDataDatetime("4/22/2026 2:15:00 PM") == Some(Slot(Ordinal(2026, 4, 22), Time(14, 15, 0)))
  {
    RenderExample();
    ParseRendered(2026, 4, 22, Time(14, 15, 0));
  }

  /** A date that does not exist is rejected. */
  lemma ParseInvalidExample()
    ensures ParseDataDatetime("2/30/2026 2:15:00 PM").None?
  {
    RenderInvalidExample();
    ParseRendered(2026, 2, 30, Time(14, 15, 0));
  }

  // ---------------------------------------------------------------------------------------
  // Extraction
  // ---------------------------------------------------------------------------------------

  /** Slots read so far, and the raw strings a warning was printed for. */
  datatype Extraction = Extraction(slots: seq<Slot>, unparsed: seq<string>)

  /** Missing and empty attributes are skipped silently; the rest parse or are reported. */
  function Extract(attrs: seq<Option<string>>): Extraction
    decreases |attrs|
  {
    if attrs == [] then Extraction([], [])
    else
      var e := Extract(attrs[..|attrs| - 1]);
      var a := attrs[|attrs| - 1];
      if a.None? || a.value == "" then e
      else match ParseDataDatetime(a.value)
        case Some(slot) => Extraction(e.slots + [slot], e.unparsed)
        case None => Extraction(e.slots, e.unparsed + [a.value])
  }

  function CountPresent(attrs: seq<Option<string>>): nat
    decreases |attrs|
  {
    if attrs == [] then 0
    else CountPresent(attrs[..|attrs| - 1]) + (if attrs[|attrs| - 1].Some? && attrs[|attrs| - 1].value != "" then 1 else 0)
  }

  /** Each present attribute yields a slot or a warning, never both and never neither. */
  lemma {:induction false} ExtractAccounts(attrs: seq<Option<string>>)
    ensures |Extract(attrs).slots| + |Extract(attrs).unparsed| == CountPresent(attrs)
    decreases |attrs|
  {
    if attrs != [] {
      ExtractAccounts(attrs[..|attrs| - 1]);
    }
  }

  /** A failure does not abort extraction: the later attributes are read as if on their own. */
  lemma {:induction false} ExtractAppend(a: seq<Option<string>>, b: seq<Option<string>>)
    ensures Extract(a + b).slots == Extract(a).slots + Extract(b).slots
    ensures Extract(a + b).unparsed == Extract(a).unparsed + Extract(b).unparsed
    decreases |b|
  {
    if b == [] {
      assert a + b == a;
    } else {
      var b', x := b[..|b| - 1], b[|b| - 1];
      assert (a + b)[..|a + b| - 1] == a + b';
      assert (a + b)[|a + b| - 1] == x;
      ExtractAppend(a, b');
      var ea, eb', eb := Extract(a), Extract(b'), Extract(b);
      if x.Some? && x.value != "" {
        match ParseDataDatetime(x.value)
        case Some(slot) =>
          assert ea.slots + eb'.slots + [slot] == ea.slots + (eb'.slots + [slot]);
        case None =>
          assert ea.unparsed + eb'.unparsed + [x.value] == ea.unparsed + (eb'.unparsed + [x.value]);
      }
    }
  }

  /** The extraction of one more attribute. */
  lemma ExtractNext(attrs: seq<Option<string>>, i: nat)
    requires i < |attrs|
    ensures var e, a := Extract(attrs[..i]), attrs[i];
      Extract(attrs[..i + 1]) ==
        if a.None? || a.value == "" then e
        else if ParseDataDatetime(a.value).Some? then Extraction(e.slots + [ParseDataDatetime(a.value).value], e.unparsed)
        else Extraction(e.slots, e.unparsed + [a.value])
  {
    var prefix := attrs[..i + 1];
    assert prefix[..i] == attrs[..i] && prefix[i] == attrs[i];
  }

  /** `extract_slots`: read every attribute in page order. */
  method ExtractSlots(attrs: seq<Option<string>>) returns (slots: seq<Slot>, unparsed: seq<string>)
    ensures Extraction(slots, unparsed) == Extract(attrs)
  {
    slots, unparsed := [], [];
    var i := 0;
    while i < |attrs|
      invariant 0 <= i <= |attrs|
      invariant Extraction(slots, unparsed) == Extract(attrs[..i])
    {
      ExtractNext(attrs, i);
      var dtStr := attrs[i];
      if dtStr.Some? && dtStr.value != "" {
        var parsed := ParseDataDatetime(dtStr.value);
        if parsed.Some? {
          slots := slots + [parsed.value];
        } else {
          unparsed := unparsed + [dtStr.value];
        }
      }
      i := i + 1;
    }
    assert attrs[..|attrs|] == attrs;
  }
}
