/** Whole-second UTC timestamps and the XML-RPC date layout `%Y%m%dT%H:%M:%S`.

    `Format` interprets a strftime-style layout (the directives `%Y %m %d %H %M %S`,
    every other character taken literally) and `Parse` reads text back through the
    same layout; both are driven by the layout string, so the facts proved about
    `XML_RPC_DATE_FORMAT` follow from the layout itself. */
module DateTimes {
  import opened Wrappers

  /** The date layout of the `dateTime.iso8601` wire type: no time zone, no fractional seconds. */
  const XML_RPC_DATE_FORMAT: string := "%Y%m%dT%H:%M:%S"

  /** A calendar instant at whole-second precision. */
  datatype Timestamp = Timestamp(year: nat, month: nat, day: nat, hour: nat, minute: nat, second: nat)

  predicate IsLeapYear(y: nat) {
    y % 4 == 0 && (y % 100 != 0 || y % 400 == 0)
  }

  function DaysInMonth(y: nat, m: nat): nat {
    if m == 2 then (if IsLeapYear(y) then 29 else 28)
    else if m == 4 || m == 6 || m == 9 || m == 11 then 30
    else 31
  }

  /** A real date and time of day with a four-digit year. */
  predicate Valid(t: Timestamp) {
    && t.year <= 9999
    && 1 <= t.month <= 12
    && 1 <= t.day <= DaysInMonth(t.year, t.month)
    && t.hour < 24 && t.minute < 60 && t.second < 60
  }

  /** What a `DateTime<Utc>` rounded to whole seconds can hold (within four-digit years). */
  type DateTime = t: Timestamp | Valid(t) witness Timestamp(1970, 1, 1, 0, 0, 0)

  /** The calendar fields a layout directive can name. */
  datatype Field = Year | Month | Day | Hour | Minute | Second

  function Directive(c: char): Option<Field> {
    match c
    case 'Y' => Some(Year)
    case 'm' => Some(Month)
    case 'd' => Some(Day)
    case 'H' => Some(Hour)
    case 'M' => Some(Minute)
    case 'S' => Some(Second)
    case _ => None
  }

  /** Zero-padded width of a field's text. */
  function Width(f: Field): nat {
    if f == Year then 4 else 2
  }

  function FieldOf(t: Timestamp, f: Field): nat {
    match f
    case Year => t.year
    case Month => t.month
    case Day => t.day
    case Hour => t.hour
    case Minute => t.minute
    case Second => t.second
  }

  function Pow10(w: nat): nat {
    if w == 0 then 1 else 10 * Pow10(w - 1)
  }

  predicate IsDigit(c: char) {
    '0' <= c <= '9'
  }

  function DigitChar(d: nat): (c: char)
    requires d < 10
    ensures IsDigit(c) && DigitValue(c) == d
  {
    ('0' as int + d) as char
  }

  function DigitValue(c: char): nat
    requires IsDigit(c)
  {
    (c as int - '0' as int) as nat
  }

  /** The last `w` decimal digits of `n`, zero-padded to exactly `w` characters. */
  function Digits(n: nat, w: nat): (s: string)
    ensures |s| == w
    ensures forall i :: 0 <= i < w ==> IsDigit(s[i])
  {
    if w == 0 then "" else Digits(n / 10, w - 1) + [DigitChar(n % 10)]
  }

  /** The number a run of decimal digits spells, or None if a character is not a digit. */
  function ReadDigits(s: string): Option<nat> {
    if |s| == 0 then Some(0)
    else if !IsDigit(s[|s| - 1]) then None
    else match ReadDigits(s[..|s| - 1])
      case None => None
      case Some(m) => Some(10 * m + DigitValue(s[|s| - 1]))
  }

  /** Is a field directive `%c` at position `i` of `fmt`? */
  predicate DirectiveAt(fmt: string, i: nat) {
    i + 2 <= |fmt| && fmt[i] == '%' && Directive(fmt[i + 1]).Some?
  }

  /** Text of `t` laid out by `fmt` from position `i` on. */
  function FormatFrom(fmt: string, i: nat, t: Timestamp): string
    requires i <= |fmt|
    decreases |fmt| - i
  {
    if i == |fmt| then ""
    else if DirectiveAt(fmt, i) then
      var f := Directive(fmt[i + 1]).value;
      Digits(FieldOf(t, f), Width(f)) + FormatFrom(fmt, i + 2, t)
    else [fmt[i]] + FormatFrom(fmt, i + 1, t)
  }

  /** Text of `t` laid out by `fmt`. */
  function Format(fmt: string, t: Timestamp): string {
    FormatFrom(fmt, 0, t)
  }

  /** The fields `fmt` names from position `i` on. */
  ghost function FieldsFrom(fmt: string, i: nat): set<Field>
    requires i <= |fmt|
    decreases |fmt| - i
  {
    if i == |fmt| then {}
    else if DirectiveAt(fmt, i) then {Directive(fmt[i + 1]).value} + FieldsFrom(fmt, i + 2)
    else FieldsFrom(fmt, i + 1)
  }

  /** Reads `s` through `fmt` from position `i` on, adding each field read to `acc`; a
      field read twice with different values, a literal that does not match, or text
      left over is a failure. */
  function ScanFrom(fmt: string, i: nat, s: string, acc: map<Field, nat>): Option<map<Field, nat>>
    requires i <= |fmt|
    decreases |fmt| - i
  {
    if i == |fmt| then (if |s| == 0 then Some(acc) else None)
    else if DirectiveAt(fmt, i) then
      var f := Directive(fmt[i + 1]).value;
      var w := Width(f);
      if |s| < w then None
      else match ReadDigits(s[..w])
        case None => None
        case Some(n) =>
          if f in acc && acc[f] != n then None else ScanFrom(fmt, i + 2, s[w..], acc[f := n])
    else if 0 < |s| && s[0] == fmt[i] then ScanFrom(fmt, i + 1, s[1..], acc)
    else None
  }

  /** The timestamp `s` spells under `fmt`: every field must be present and form a real date. */
  function Parse(fmt: string, s: string): Option<DateTime> {
    match ScanFrom(fmt, 0, s, map[])
    case None => None
    case Some(m) =>
      if Year in m && Month in m && Day in m && Hour in m && Minute in m && Second in m then
        var t := Timestamp(m[Year], m[Month], m[Day], m[Hour], m[Minute], m[Second]);
        if Valid(t) then Some(t) else None
      else None
  }

  lemma {:induction false} ReadDigitsOfDigits(n: nat, w: nat)
    requires n < Pow10(w)
    ensures ReadDigits(Digits(n, w)) == Some(n)
  {
    if w > 0 {
      var s := Digits(n, w);
      assert s[..w - 1] == Digits(n / 10, w - 1);
      assert n / 10 < Pow10(w - 1);
      ReadDigitsOfDigits(n / 10, w - 1);
      assert 10 * (n / 10) + n % 10 == n;
    }
  }

  lemma FieldBound(t: Timestamp, f: Field)
    requires Valid(t)
    ensures FieldOf(t, f) < Pow10(Width(f))
  {
    assert Pow10(2) == 100;
    assert Pow10(4) == 10000;
  }

  /** Reading a layout's own output recovers every field it names, and nothing else. */
  lemma {:induction false} ScanFormat(fmt: string, i: nat, t: Timestamp, acc: map<Field, nat>)
    requires i <= |fmt|
    requires Valid(t)
    requires forall f :: f in acc ==> acc[f] == FieldOf(t, f)
    ensures ScanFrom(fmt, i, FormatFrom(fmt, i, t), acc).Some?
    ensures ScanFrom(fmt, i, FormatFrom(fmt, i, t), acc).value.Keys == acc.Keys + FieldsFrom(fmt, i)
    ensures forall f :: f in ScanFrom(fmt, i, FormatFrom(fmt, i, t), acc).value ==>
      ScanFrom(fmt, i, FormatFrom(fmt, i, t), acc).value[f] == FieldOf(t, f)
    decreases |fmt| - i
  {
    if i == |fmt| {
    } else if DirectiveAt(fmt, i) {
      var f := Directive(fmt[i + 1]).value;
      var w := Width(f);
      var d := Digits(FieldOf(t, f), w);
      var s := FormatFrom(fmt, i, t);
      assert s == d + FormatFrom(fmt, i + 2, t);
      assert s[..w] == d;
      assert s[w..] == FormatFrom(fmt, i + 2, t);
      FieldBound(t, f);
      ReadDigitsOfDigits(FieldOf(t, f), w);
      ScanFormat(fmt, i + 2, t, acc[f := FieldOf(t, f)]);
    } else {
      var s := FormatFrom(fmt, i, t);
      assert s[0] == fmt[i] && s[1..] == FormatFrom(fmt, i + 1, t);
      ScanFormat(fmt, i + 1, t, acc);
    }
  }

  /** The XML-RPC layout names all six fields, and lays them out as
      `YYYYMMDD`, `T`, `HH:MM:SS`: seventeen characters. */
  lemma DateFormatLayout(t: Timestamp)
    ensures FieldsFrom(XML_RPC_DATE_FORMAT, 0) == {Year, Month, Day, Hour, Minute, Second}
    ensures Format(XML_RPC_DATE_FORMAT, t) ==
      Digits(t.year, 4) + (Digits(t.month, 2) + (Digits(t.day, 2) + ("T"
      + (Digits(t.hour, 2) + (":" + (Digits(t.minute, 2) + (":" + Digits(t.second, 2))))))))
    ensures |Format(XML_RPC_DATE_FORMAT, t)| == 17
  {
    var f := XML_RPC_DATE_FORMAT;
    assert |f| == 15;
    assert DirectiveAt(f, 0) && DirectiveAt(f, 2) && DirectiveAt(f, 4) && !DirectiveAt(f, 6);
    assert DirectiveAt(f, 7) && !DirectiveAt(f, 9) && DirectiveAt(f, 10) && !DirectiveAt(f, 12);
    assert DirectiveAt(f, 13);
    assert FieldsFrom(f, 13) == {Second};
    assert FieldsFrom(f, 10) == {Minute, Second};
    assert FieldsFrom(f, 7) == {Hour, Minute, Second};
    assert FieldsFrom(f, 4) == {Day, Hour, Minute, Second};
    assert FieldsFrom(f, 2) == {Month, Day, Hour, Minute, Second};
    var sec := FormatFrom(f, 13, t);
    assert sec == Digits(t.second, 2);
    var min := FormatFrom(f, 10, t);
    assert min == Digits(t.minute, 2) + (":" + sec);
    var hour := FormatFrom(f, 7, t);
    assert hour == Digits(t.hour, 2) + (":" + min);
    var day := FormatFrom(f, 4, t);
    assert day == Digits(t.day, 2) + ("T" + hour);
    var month := FormatFrom(f, 2, t);
    assert month == Digits(t.month, 2) + day;
  }

  /** A whole-second timestamp survives formatting and parsing with the XML-RPC layout. */
  lemma DateRoundTrip(t: DateTime)
    ensures Parse(XML_RPC_DATE_FORMAT, Format(XML_RPC_DATE_FORMAT, t)) == Some(t)
  {
    ScanFormat(XML_RPC_DATE_FORMAT, 0, t, map[]);
    DateFormatLayout(t);
  }
}
