/** Instants as the strings the controller stores: the UTC form of RFC 3339 (sections 5.1 and
    5.6) with whole seconds, and SQLite's `datetime` form. Instants are seconds from
    0000-01-01T00:00:00Z. */
module Timestamps {
  import opened Options
  import opened Lexicographic
  import opened Calendar
  import opened Decimal
  import Rotation

  // ----- printing -----

  const YEARS := 10000

  /** The instants whose year has four digits. */
  predicate InRange(secs: int) {
    secs >= 0 && Civil(secs / Rotation.DAY_SECONDS).year < YEARS
  }

  function DatePart(day: nat): string {
    var d := Civil(day);
    Joined(Field(d.year, 4), Field(d.month, 2), Field(d.day, 2), "-")
  }

  function TimePart(secs: nat): string {
    Joined(Field(secs / 3600, 2), Field(secs / 60 % 60, 2), Field(secs % 60, 2), ":")
  }

  /** `Format(time.RFC3339)` of an instant in UTC. */
  function Format(secs: int): string
    requires InRange(secs)
  {
    DatePart(secs / Rotation.DAY_SECONDS) + ("T" + (TimePart(secs % Rotation.DAY_SECONDS) + "Z"))
  }

  /** SQLite's `datetime(...)`. */
  function SqliteDatetime(secs: int): string
    requires InRange(secs)
  {
    DatePart(secs / Rotation.DAY_SECONDS) + (" " + TimePart(secs % Rotation.DAY_SECONDS))
  }

  /** The days of the years 0000 to 9999. */
  lemma InRangeIff(secs: int)
    ensures InRange(secs) <==> 0 <= secs < 3652425 * 86400
  {
    DaysBeforeYearIs(10000);
    if secs >= 0 {
      BeforeYearIff(secs / Rotation.DAY_SECONDS, 10000);
    }
  }

  lemma InRangeYear(secs: int)
    requires InRange(secs)
    ensures var d := Civil(secs / Rotation.DAY_SECONDS);
            IsDate(d) && d.year < YEARS && DayNumber(d) == secs / Rotation.DAY_SECONDS
  {
    CivilIsDate(secs / Rotation.DAY_SECONDS);
  }

  /** Field by field, lesser triples print as lesser fields. */
  lemma FieldsOrder(a: nat, b: nat, c: nat, x: nat, y: nat, z: nat, w: nat, v: nat)
    requires a < x < Pow10(w) || (a == x && b < y < Pow10(v)) || (a == x && b == y && c < z < Pow10(v))
    ensures
      || LexLess(Field(a, w), Field(x, w))
      || (a == x && LexLess(Field(b, v), Field(y, v)))
      || (a == x && b == y && LexLess(Field(c, v), Field(z, v)))
  {
    if a < x {
      FieldOrder(a, x, w);
    } else if b < y {
      FieldOrder(b, y, v);
    } else {
      FieldOrder(c, z, v);
    }
  }

  lemma DatePartOrder(x: nat, y: nat)
    requires x < y && Civil(x).year < YEARS && Civil(y).year < YEARS
    ensures LexLess(DatePart(x), DatePart(y))
  {
    CivilIsDate(x);
    CivilIsDate(y);
    var d, e := Civil(x), Civil(y);
    if !DateLess(d, e) {
      if d != e {
        DateOrder(e, d);
      }
      assert false;
    }
    assert Pow10(4) == 10000 && Pow10(2) == 100;
    FieldsOrder(d.year, d.month, d.day, e.year, e.month, e.day, 4, 2);
    JoinedOrder(Field(d.year, 4), Field(d.month, 2), Field(d.day, 2),
                Field(e.year, 4), Field(e.month, 2), Field(e.day, 2), "-");
  }

  lemma ClockOrder(x: nat, y: nat)
    requires x < y
    ensures x / 3600 == x / 60 / 60 && y / 3600 == y / 60 / 60
    ensures
      || x / 3600 < y / 3600
      || (x / 3600 == y / 3600 && x / 60 % 60 < y / 60 % 60)
      || (x / 3600 == y / 3600 && x / 60 % 60 == y / 60 % 60 && x % 60 < y % 60)
  {
  }

  lemma TimePartOrder(x: nat, y: nat)
    requires x < y < Rotation.DAY_SECONDS
    ensures LexLess(TimePart(x), TimePart(y))
  {
    ClockOrder(x, y);
    assert Pow10(2) == 100;
    FieldsOrder(x / 3600, x / 60 % 60, x % 60, y / 3600, y / 60 % 60, y % 60, 2, 2);
    JoinedOrder(Field(x / 3600, 2), Field(x / 60 % 60, 2), Field(x % 60, 2),
                Field(y / 3600, 2), Field(y / 60 % 60, 2), Field(y % 60, 2), ":");
  }

  /** SQLite's form differs from the other in the separator and the missing zone alone. */
  lemma SqliteForm(secs: int)
    requires InRange(secs)
    ensures SqliteDatetime(secs) + "Z" == Format(secs)[10 := ' ']
  {
    var day, clock := DatePart(secs / Rotation.DAY_SECONDS), TimePart(secs % Rotation.DAY_SECONDS);
    assert |day| == 10 && Format(secs) == day + ("T" + (clock + "Z"));
    assert SqliteDatetime(secs) + "Z" == day + (" " + (clock + "Z"));
  }

  /** Earlier instants print as lesser strings. */
  lemma FormatOrder(x: int, y: int)
    requires InRange(x) && InRange(y) && x < y
    ensures LexLess(Format(x), Format(y))
  {
    InRangeYear(x);
    InRangeYear(y);
    var d, e := x / Rotation.DAY_SECONDS, y / Rotation.DAY_SECONDS;
    var s, t := x % Rotation.DAY_SECONDS, y % Rotation.DAY_SECONDS;
    LexConcat(DatePart(d), "T" + (TimePart(s) + "Z"), DatePart(e), "T" + (TimePart(t) + "Z"));
    if d < e {
      DatePartOrder(d, e);
    } else {
      TimePartOrder(s, t);
      LexSame("T", TimePart(s) + "Z", TimePart(t) + "Z");
      LexConcat(TimePart(s), "Z", TimePart(t), "Z");
    }
  }

  /** The string order is the time order, and no two seconds print alike (section 5.1 of
      RFC 3339). */
  lemma StringOrderIsTimeOrder(x: int, y: int)
    requires InRange(x) && InRange(y)
    ensures LexLess(Format(x), Format(y)) <==> x < y
    ensures Format(x) == Format(y) <==> x == y
  {
    Irreflexive(Format(x));
    if x < y {
      FormatOrder(x, y);
    } else if y < x {
      FormatOrder(y, x);
      Asymmetric(Format(y), Format(x));
    }
  }

  // ----- parsing -----

  /** The shape `NNNN-NN-NNTNN:NN:NNZ`. */
  predicate Shaped(s: string) {
    && |s| == 20
    && s[4] == '-' && s[7] == '-' && s[10] == 'T' && s[13] == ':' && s[16] == ':' && s[19] == 'Z'
    && AllDigits(s[..4]) && AllDigits(s[5..7]) && AllDigits(s[8..10])
    && AllDigits(s[11..13]) && AllDigits(s[14..16]) && AllDigits(s[17..19])
  }

  function Assemble(d: Date, hour: nat, minute: nat, second: nat): Option<int>
  {
    if IsDate(d) && hour < 24 && minute < 60 && second < 60
    then Some(DayNumber(d) * Rotation.DAY_SECONDS + hour * 3600 + minute * 60 + second)
    else None
  }

  /** `time.Parse(time.RFC3339, s)` on the strings of the form `Format` prints; every other
      string the controller stores in the column is the empty one, on which parsing fails. */
  function Parse(s: string): Option<int> {
    if !Shaped(s) then None
    else
      Assemble(Date(Value(s[..4]), Value(s[5..7]), Value(s[8..10])),
               Value(s[11..13]), Value(s[14..16]), Value(s[17..19]))
  }

  /** The six fields of a stamp, joined as `Format` joins them. */
  function Layout(y: string, m: string, d: string, h: string, i: string, s: string): string {
    Joined(y, m, d, "-") + ("T" + (Joined(h, i, s, ":") + "Z"))
  }

  lemma LayoutReads(y: string, m: string, d: string, h: string, i: string, s: string)
    requires |y| == 4 && |m| == |d| == |h| == |i| == |s| == 2
    ensures var t := Layout(y, m, d, h, i, s);
            && |t| == 20 && t[..4] == y && t[5..7] == m && t[8..10] == d && t[11..13] == h && t[14..16] == i && t[17..19] == s
            && t[4] == '-' && t[7] == '-' && t[10] == 'T' && t[13] == ':' && t[16] == ':' && t[19] == 'Z'
  {
  }

  lemma ShapedIsLayout(t: string)
    requires Shaped(t)
    ensures t == Layout(t[..4], t[5..7], t[8..10], t[11..13], t[14..16], t[17..19])
  {
    LayoutReads(t[..4], t[5..7], t[8..10], t[11..13], t[14..16], t[17..19]);
  }

  /** A time of day is its hours, minutes and seconds. */
  lemma ClockReads(secs: nat)
    requires secs < Rotation.DAY_SECONDS
    ensures secs / 3600 < 24 && secs / 60 % 60 < 60 && secs % 60 < 60
    ensures secs / 3600 * 3600 + secs / 60 % 60 * 60 + secs % 60 == secs
  {
    assert secs / 3600 == secs / 60 / 60;
  }

  lemma ParseLayout(y: string, m: string, d: string, h: string, i: string, s: string)
    requires |y| == 4 && |m| == |d| == |h| == |i| == |s| == 2
    requires AllDigits(y) && AllDigits(m) && AllDigits(d) && AllDigits(h) && AllDigits(i) && AllDigits(s)
    ensures Parse(Layout(y, m, d, h, i, s)) ==
            Assemble(Date(Value(y), Value(m), Value(d)), Value(h), Value(i), Value(s))
  {
    LayoutReads(y, m, d, h, i, s);
  }

  function LayoutOf(d: Date, h: nat, i: nat, s: nat): string {
    Layout(Field(d.year, 4), Field(d.month, 2), Field(d.day, 2), Field(h, 2), Field(i, 2), Field(s, 2))
  }

  lemma TwoDigits(n: nat)
    requires n < 100
    ensures AllDigits(Field(n, 2)) && Value(Field(n, 2)) == n
  {
    assert Pow10(2) == 100;
    FieldReads(n, 2);
  }

  lemma ParseLayoutOf(d: Date, h: nat, i: nat, s: nat)
    requires d.year < YEARS && Assemble(d, h, i, s).Some?
    ensures Parse(LayoutOf(d, h, i, s)) == Assemble(d, h, i, s)
  {
    assert Pow10(4) == 10000;
    FieldReads(d.year, 4);
    TwoDigits(d.month);
    TwoDigits(d.day);
    TwoDigits(h);
    TwoDigits(i);
    TwoDigits(s);
    ParseLayout(Field(d.year, 4), Field(d.month, 2), Field(d.day, 2), Field(h, 2), Field(i, 2), Field(s, 2));
  }

  /** An instant is put together again from its date and its time of day. */
  lemma AssembleParts(x: int)
    requires InRange(x)
    ensures var d, secs := Civil(x / Rotation.DAY_SECONDS), x % Rotation.DAY_SECONDS;
            IsDate(d) && d.year < YEARS && Assemble(d, secs / 3600, secs / 60 % 60, secs % 60) == Some(x)
  {
    InRangeYear(x);
    ClockReads(x % Rotation.DAY_SECONDS);
  }

  /** Parsing a printed instant gives the instant back. */
  lemma ParseFormat(x: int)
    requires InRange(x)
    ensures Parse(Format(x)) == Some(x)
  {
    var d, secs := Civil(x / Rotation.DAY_SECONDS), x % Rotation.DAY_SECONDS;
    AssembleParts(x);
    ParseLayoutOf(d, secs / 3600, secs / 60 % 60, secs % 60);
    assert Format(x) == LayoutOf(d, secs / 3600, secs / 60 % 60, secs % 60);
  }

  lemma ClockPrints(h: nat, i: nat, s: nat)
    requires h < 24 && i < 60 && s < 60
    ensures var secs := h * 3600 + i * 60 + s;
            secs < Rotation.DAY_SECONDS && secs / 3600 == h && secs / 60 % 60 == i && secs % 60 == s
  {
  }

  lemma DaySplits(day: nat, secs: nat)
    requires secs < Rotation.DAY_SECONDS
    ensures (day * Rotation.DAY_SECONDS + secs) / Rotation.DAY_SECONDS == day
    ensures (day * Rotation.DAY_SECONDS + secs) % Rotation.DAY_SECONDS == secs
  {
  }

  lemma DateInRange(d: Date, secs: nat)
    requires IsDate(d) && d.year < YEARS && secs < Rotation.DAY_SECONDS
    ensures DayNumber(d) >= 0 && InRange(DayNumber(d) * Rotation.DAY_SECONDS + secs) && Civil(DayNumber(d)) == d
  {
    NumberIsDate(d);
    DaySplits(DayNumber(d), secs);
  }

  lemma FormatAssembled(d: Date, h: nat, i: nat, s: nat, x: int)
    requires Assemble(d, h, i, s) == Some(x) && d.year < YEARS
    ensures InRange(x) && Format(x) == LayoutOf(d, h, i, s)
  {
    var secs := h * 3600 + i * 60 + s;
    ClockPrints(h, i, s);
    DateInRange(d, secs);
    DaySplits(DayNumber(d), secs);
  }

  lemma DigitsPrint()
    ensures Field(1970, 4) == "1970" && Field(2024, 4) == "2024" && Field(1, 2) == "01" && Field(2, 2) == "02"
    ensures Field(29, 2) == "29" && Field(0, 2) == "00" && Field(23, 2) == "23" && Field(59, 2) == "59" && Field(58, 2) == "58"
  {
  }

  lemma LayoutsPrint()
    ensures Layout("1970", "01", "01", "00", "00", "00") == "1970-01-01T00:00:00Z"
    ensures Layout("2024", "02", "29", "23", "59", "58") == "2024-02-29T23:59:58Z"
  {
  }

  lemma EpochIs()
    ensures Assemble(Date(1970, 1, 1), 0, 0, 0) == Some(719528 * 86400)
  {
    DayNumberIs(Date(1970, 1, 1));
  }

  lemma LeapDayIs()
    ensures Assemble(Date(2024, 2, 29), 23, 59, 58) == Some(739310 * 86400 + 86398)
  {
    DayNumberIs(Date(2024, 2, 29));
  }

  /** The first second of 1970. */
  lemma EpochPrints()
    ensures InRange(719528 * 86400) && Format(719528 * 86400) == "1970-01-01T00:00:00Z"
  {
    EpochIs();
    FormatAssembled(Date(1970, 1, 1), 0, 0, 0, 719528 * 86400);
    DigitsPrint();
    LayoutsPrint();
  }

  /** The last second but one of a leap day. */
  lemma LeapDayPrints()
    ensures InRange(739310 * 86400 + 86398) && Format(739310 * 86400 + 86398) == "2024-02-29T23:59:58Z"
  {
    LeapDayIs();
    FormatAssembled(Date(2024, 2, 29), 23, 59, 58, 739310 * 86400 + 86398);
    DigitsPrint();
    LayoutsPrint();
  }

  lemma TwoDigitsPrint(s: string)
    requires |s| == 2 && AllDigits(s)
    ensures Field(Value(s), 2) == s
  {
    FieldPrints(s);
  }

  /** A shaped string is the layout of the numbers its fields denote. */
  lemma ShapedIsLayoutOf(t: string)
    requires Shaped(t)
    ensures Value(t[..4]) < YEARS
    ensures t == LayoutOf(Date(Value(t[..4]), Value(t[5..7]), Value(t[8..10])),
                          Value(t[11..13]), Value(t[14..16]), Value(t[17..19]))
  {
    ShapedIsLayout(t);
    assert Pow10(4) == 10000;
    FieldPrints(t[..4]);
    TwoDigitsPrint(t[5..7]);
    TwoDigitsPrint(t[8..10]);
    TwoDigitsPrint(t[11..13]);
    TwoDigitsPrint(t[14..16]);
    TwoDigitsPrint(t[17..19]);
  }

  /** Parsing accepts exactly the printed instants. */
  lemma FormatParse(t: string, x: int)
    requires Parse(t) == Some(x)
    ensures InRange(x) && Format(x) == t
  {
    ShapedIsLayoutOf(t);
    FormatAssembled(Date(Value(t[..4]), Value(t[5..7]), Value(t[8..10])),
                    Value(t[11..13]), Value(t[14..16]), Value(t[17..19]), x);
  }

  // ----- the comparisons the rotation rules make on strings -----

  /** `store.Now()` at an instant in nanoseconds: the second is truncated. */
  function Now(t: int): string
    requires InRange(Rotation.Secs(t))
  {
    Format(Rotation.Secs(t))
  }

  /** A stored instant reads back as the second it fell in. */
  lemma NowReads(t: int)
    requires InRange(Rotation.Secs(t))
    ensures Parse(Now(t)) == Some(t / 1_000_000_000)
  {
    ParseFormat(Rotation.Secs(t));
  }

  /** The order of stored instants: never against the order of the instants, equal exactly within
      one second, and strict from one second on. */
  lemma NowOrder(t: int, u: int)
    requires InRange(Rotation.Secs(t)) && InRange(Rotation.Secs(u))
    ensures t <= u ==> !LexLess(Now(u), Now(t))
    ensures Now(t) == Now(u) <==> t / 1_000_000_000 == u / 1_000_000_000
    ensures t + 1_000_000_000 <= u ==> LexLess(Now(t), Now(u))
  {
    StringOrderIsTimeOrder(Rotation.Secs(t), Rotation.Secs(u));
    StringOrderIsTimeOrder(Rotation.Secs(u), Rotation.Secs(t));
  }

  /** The cooldown gate as written: a non-empty stored string that parses and lies ahead. */
  predicate CooldownBlocks(stored: string, now: int) {
    stored != "" && match Parse(stored) case Some(until) => Rotation.BeforeStamp(now, until) case None => false
  }

  /** The gate on the stored string is the gate on the truncated instant. */
  lemma CooldownOnStrings(until: int, now: int)
    requires InRange(until)
    ensures CooldownBlocks(Format(until), now) <==> now < until * 1_000_000_000
  {
    ParseFormat(until);
  }

  /** A stored string blocks exactly if it is the print of an instant ahead of the clock: an empty or
      unreadable one does not. */
  lemma BlocksIff(stored: string, now: int)
    ensures CooldownBlocks(stored, now) <==>
            exists until :: InRange(until) && stored == Format(until) && now < until * 1_000_000_000
  {
    match Parse(stored)
    case Some(until) =>
      FormatParse(stored, until);
      forall other | InRange(other) && stored == Format(other) ensures other == until {
        ParseFormat(other);
      }
    case None =>
      forall other | InRange(other) ensures stored != Format(other) {
        ParseFormat(other);
      }
  }

  /** The cap query's `started_at >= ?` on strings, against the start of the UTC day, is the
      comparison of instants; and that start prints as midnight of the same date. */
  lemma CapQueryOnStrings(started: int, now: int)
    requires InRange(started) && InRange(now)
    ensures InRange(Rotation.StartOfDay(now))
    ensures !LexLess(Format(started), Format(Rotation.StartOfDay(now))) <==> now / 86400 * 86400 <= started
    ensures Format(Rotation.StartOfDay(now)) == DatePart(Rotation.DayOf(now)) + "T00:00:00Z"
  {
    var start := Rotation.StartOfDay(now);
    assert start / Rotation.DAY_SECONDS == now / Rotation.DAY_SECONDS && start % Rotation.DAY_SECONDS == 0;
    StringOrderIsTimeOrder(started, start);
    assert Field(0, 2) == "00";
  }

  // ----- the due filter -----

  /** `checked_at > datetime(...)`: a `T`-separated stamp against a space-separated one. */
  predicate LaterStamp(checked: int, cutoff: int)
    requires InRange(cutoff) && InRange(checked)
  {
    LexLess(SqliteDatetime(cutoff), Format(checked))
  }

  /** A `T`-separated stamp is greater than a space-separated one exactly when its date is not
      earlier: on equal dates the separators decide. */
  lemma MixedOrder(cutoff: int, checked: int)
    requires InRange(cutoff) && InRange(checked)
    ensures LaterStamp(checked, cutoff) <==> cutoff / 86400 <= checked / 86400
  {
    InRangeYear(cutoff);
    InRangeYear(checked);
    var d, e := Rotation.DayOf(cutoff), Rotation.DayOf(checked);
    var s, t := TimePart(cutoff % Rotation.DAY_SECONDS), TimePart(checked % Rotation.DAY_SECONDS) + "Z";
    LexConcat(DatePart(d), " " + s, DatePart(e), "T" + t);
    Irreflexive(DatePart(d));
    if d < e {
      DatePartOrder(d, e);
    } else if e < d {
      DatePartOrder(e, d);
      Asymmetric(DatePart(e), DatePart(d));
    }
  }
}
