/**
  Reading an activity's `start_date` with the format `%Y-%m-%dT%H:%M:%SZ`
  the way Python's `datetime.strptime` does, and writing a date-time the way
  `datetime.isoformat()` does for a UTC value without microseconds.

  `strptime` turns the format into a case-insensitive regular expression in
  which each directive is an ordered list of alternatives (`%m` is
  `1[0-2]|0[1-9]|[1-9]`, so a month may have one digit), requires the match
  to cover the whole string, and then lets the `datetime` constructor reject
  out-of-range values (year 0, the 31st of a 30-day month, second 60 or 61).
  Every directive is followed by a literal that is not a digit or a space,
  so in each field only one alternative can lead to a match, and the parser
  below decides it by looking at the separator that follows.
*/
module Timestamp {
  import opened Wrappers
  import opened CivilTime

  /** The six directives of `%Y-%m-%dT%H:%M:%SZ`. */
  datatype Directive = Year | Month | Day | Hour | Minute | Second

  predicate IsDigit(c: char) {
    '0' <= c <= '9'
  }

  /** `tok` is matched by one of the directive's alternatives. */
  predicate Matches(d: Directive, tok: string) {
    match d
    case Year =>   // \d\d\d\d
      |tok| == 4 && IsDigit(tok[0]) && IsDigit(tok[1]) && IsDigit(tok[2]) && IsDigit(tok[3])
    case Month =>  // 1[0-2]|0[1-9]|[1-9]
      (|tok| == 2 && ((tok[0] == '1' && '0' <= tok[1] <= '2') || (tok[0] == '0' && '1' <= tok[1] <= '9'))) ||
      (|tok| == 1 && '1' <= tok[0] <= '9')
    case Day =>    // 3[01]|[12]\d|0[1-9]|[1-9]| [1-9]
      (|tok| == 2 && ((tok[0] == '3' && '0' <= tok[1] <= '1') || ('1' <= tok[0] <= '2' && IsDigit(tok[1])) ||
                      ((tok[0] == '0' || tok[0] == ' ') && '1' <= tok[1] <= '9'))) ||
      (|tok| == 1 && '1' <= tok[0] <= '9')
    case Hour =>   // 2[0-3]|[0-1]\d|\d
      (|tok| == 2 && ((tok[0] == '2' && '0' <= tok[1] <= '3') || ('0' <= tok[0] <= '1' && IsDigit(tok[1])))) ||
      (|tok| == 1 && IsDigit(tok[0]))
    case Minute => // [0-5]\d|\d
      (|tok| == 2 && '0' <= tok[0] <= '5' && IsDigit(tok[1])) || (|tok| == 1 && IsDigit(tok[0]))
    case Second => // 6[0-1]|[0-5]\d|\d
      (|tok| == 2 && ((tok[0] == '6' && '0' <= tok[1] <= '1') || ('0' <= tok[0] <= '5' && IsDigit(tok[1])))) ||
      (|tok| == 1 && IsDigit(tok[0]))
  }

  /** A literal of the format matched case-insensitively. */
  predicate SameLetter(c: char, lit: char) {
    c == lit || ('A' <= lit <= 'Z' && c as int == lit as int + 32)
  }

  function DigitValue(c: char): int {
    if IsDigit(c) then c as int - '0' as int else 0
  }

  /** The decimal value of a token; the leading space `%d` allows counts as zero. */
  function Decimal(s: string): int {
    if s == [] then 0 else Decimal(s[..|s| - 1]) * 10 + DigitValue(s[|s| - 1])
  }

  /**
    Reads one directive's field at the front of `s` followed by the literal
    `lit`, and returns the field's value and what follows the literal.
  */
  function Field(s: string, d: Directive, lit: char): Option<(int, string)> {
    if |s| > 4 && Matches(d, s[..4]) && SameLetter(s[4], lit) then Some((Decimal(s[..4]), s[5..]))
    else if |s| > 2 && Matches(d, s[..2]) && SameLetter(s[2], lit) then Some((Decimal(s[..2]), s[3..]))
    else if |s| > 1 && Matches(d, s[..1]) && SameLetter(s[1], lit) then Some((Decimal(s[..1]), s[2..]))
    else None
  }

  /**
    `datetime.strptime(s, "%Y-%m-%dT%H:%M:%SZ")`: None where Python raises
    ValueError (no match, unconverted data left over, or a value the
    `datetime` constructor refuses).
  */
  function ParseStartDate(s: string): (r: Option<DateTime>)
    ensures r.Some? ==> Valid(r.value)
  {
    var y :- Field(s, Year, '-');
    var m :- Field(y.1, Month, '-');
    var d :- Field(m.1, Day, 'T');
    var h :- Field(d.1, Hour, ':');
    var mi :- Field(h.1, Minute, ':');
    var sec :- Field(mi.1, Second, 'Z');
    var t := DateTime(Date(y.0, m.0, d.0), h.0, mi.0, sec.0);
    if sec.1 == [] && Valid(t) then Some(t) else None
  }

  function DigitChar(n: int): char
    requires 0 <= n < 10
  {
    ('0' as int + n) as char
  }

  /** `n` as two decimal digits, `%02d`. */
  function Pad2(n: int): string
    requires 0 <= n < 100
  {
    [DigitChar(n / 10), DigitChar(n % 10)]
  }

  /** `n` as four decimal digits, `%04d`. */
  function Pad4(n: int): string
    requires 0 <= n < 10000
  {
    [DigitChar(n / 1000), DigitChar(n / 100 % 10), DigitChar(n / 10 % 10), DigitChar(n % 10)]
  }

  /** The text of a date-time without its UTC designator: `YYYY-MM-DDTHH:MM:SS`. */
  function DateTimeText(t: DateTime): string
    requires Valid(t)
  {
    Pad4(t.date.year) + "-" + Pad2(t.date.month) + "-" + Pad2(t.date.day) + "T" +
    Pad2(t.hour) + ":" + Pad2(t.minute) + ":" + Pad2(t.second)
  }

  /** `datetime.isoformat()` of a UTC date-time with no microseconds. */
  function FormatIso(t: DateTime): string
    requires Valid(t)
  {
    DateTimeText(t) + "+00:00"
  }

  /** `t` written in the zero-padded form of `%Y-%m-%dT%H:%M:%SZ`. */
  function FormatZulu(t: DateTime): string
    requires Valid(t)
  {
    DateTimeText(t) + "Z"
  }

  lemma Decimal2(a: char, b: char)
    ensures Decimal([a, b]) == DigitValue(a) * 10 + DigitValue(b)
  {
    assert [a][..0] == [];
    assert Decimal([a]) == DigitValue(a);
    assert [a, b][..1] == [a];
  }

  lemma Decimal4(a: char, b: char, c: char, e: char)
    ensures Decimal([a, b, c, e]) == ((DigitValue(a) * 10 + DigitValue(b)) * 10 + DigitValue(c)) * 10 + DigitValue(e)
  {
    assert [a, b, c, e][..3] == [a, b, c];
    assert [a, b, c][..2] == [a, b];
    assert Decimal([a, b, c]) == Decimal([a, b]) * 10 + DigitValue(c);
    Decimal2(a, b);
  }

  lemma DecimalPad4(n: int)
    requires 0 <= n < 10000
    ensures Decimal(Pad4(n)) == n
  {
    var p := Pad4(n);
    Decimal4(p[0], p[1], p[2], p[3]);
    assert DigitValue(p[0]) == n / 1000;
    assert DigitValue(p[1]) == n / 100 % 10;
    assert DigitValue(p[2]) == n / 10 % 10;
    assert DigitValue(p[3]) == n % 10;
    assert (n / 1000 * 10 + n / 100 % 10) == n / 100;
    assert n / 100 * 10 + n / 10 % 10 == n / 10;
  }

  /** The zero-padded text of an in-range field is matched by its directive. */
  lemma PaddedField(d: Directive, n: int, lit: char, rest: string)
    requires d != Year
    requires d == Month ==> 1 <= n <= 12
    requires d == Day ==> 1 <= n <= 31
    requires d == Hour ==> 0 <= n < 24
    requires d == Minute || d == Second ==> 0 <= n < 60
    ensures Field(Pad2(n) + [lit] + rest, d, lit) == Some((n, rest))
  {
    var s := Pad2(n) + [lit] + rest;
    assert s[..2] == Pad2(n);
    assert s[2] == lit;
    assert s[3..] == rest;
    Decimal2(Pad2(n)[0], Pad2(n)[1]);
  }

  lemma PaddedYear(n: int, rest: string)
    requires 0 <= n < 10000
    ensures Field(Pad4(n) + "-" + rest, Year, '-') == Some((n, rest))
  {
    var s := Pad4(n) + "-" + rest;
    assert s[..4] == Pad4(n);
    assert s[4] == '-';
    assert s[5..] == rest;
    DecimalPad4(n);
  }

  /** Reading the zero-padded text of a date-time gives the date-time back. */
  lemma {:induction false} ParseFormatZulu(t: DateTime)
    requires Valid(t)
    ensures ParseStartDate(FormatZulu(t)) == Some(t)
  {
    var r6 := "Z";
    var r5 := Pad2(t.minute) + ":" + (Pad2(t.second) + r6);
    var r4 := Pad2(t.hour) + ":" + r5;
    var r3 := Pad2(t.date.day) + "T" + r4;
    var r2 := Pad2(t.date.month) + "-" + r3;
    assert FormatZulu(t) == Pad4(t.date.year) + "-" + r2;
    PaddedYear(t.date.year, r2);
    PaddedField(Month, t.date.month, '-', r3);
    PaddedField(Day, t.date.day, 'T', r4);
    PaddedField(Hour, t.hour, ':', r5);
    PaddedField(Minute, t.minute, ':', Pad2(t.second) + r6);
    PaddedField(Second, t.second, 'Z', []);
    assert Pad2(t.second) + r6 == Pad2(t.second) + ['Z'] + [];
  }

  /** `strptime` refuses unconverted data: nothing may follow the `Z`. */
  lemma {:induction false} TrailingTextRejected(t: DateTime, rest: string)
    requires Valid(t) && rest != []
    ensures ParseStartDate(FormatZulu(t) + rest) == None
  {
    var r6 := "Z" + rest;
    var r5 := Pad2(t.minute) + ":" + (Pad2(t.second) + r6);
    var r4 := Pad2(t.hour) + ":" + r5;
    var r3 := Pad2(t.date.day) + "T" + r4;
    var r2 := Pad2(t.date.month) + "-" + r3;
    assert FormatZulu(t) + rest == Pad4(t.date.year) + "-" + r2;
    PaddedYear(t.date.year, r2);
    PaddedField(Month, t.date.month, '-', r3);
    PaddedField(Day, t.date.day, 'T', r4);
    PaddedField(Hour, t.hour, ':', r5);
    PaddedField(Minute, t.minute, ':', Pad2(t.second) + r6);
    PaddedField(Second, t.second, 'Z', rest);
    assert Pad2(t.second) + r6 == Pad2(t.second) + ['Z'] + rest;
  }

  /** One field step consumes the year and its literal, or one or two characters and the literal. */
  lemma FieldLength(s: string, d: Directive, lit: char)
    requires Field(s, d, lit).Some?
    ensures var rest := Field(s, d, lit).value.1;
            (d == Year ==> |s| == |rest| + 5) && (d != Year ==> |rest| + 2 <= |s| <= |rest| + 3)
  {
  }

  lemma DigitCharValue(c: char)
    requires IsDigit(c)
    ensures 0 <= DigitValue(c) < 10 && DigitChar(DigitValue(c)) == c
  {
  }

  /** The decimal digits of a number below 10000 written with four digits. */
  lemma FourDigits(a: int, b: int, c: int, e: int)
    requires 0 <= a < 10 && 0 <= b < 10 && 0 <= c < 10 && 0 <= e < 10
    ensures var n := ((a * 10 + b) * 10 + c) * 10 + e;
            0 <= n < 10000 && n / 1000 == a && n / 100 % 10 == b && n / 10 % 10 == c && n % 10 == e
  {
    var n := ((a * 10 + b) * 10 + c) * 10 + e;
    assert n == (a * 10 + b) * 100 + (c * 10 + e);
    assert n == a * 1000 + ((b * 10 + c) * 10 + e);
    assert n / 10 == (a * 10 + b) * 10 + c;
    assert n / 100 == a * 10 + b;
    assert n / 1000 == a;
  }

  /** A two-character token of anything but the year, without the day's leading space, is the padded text of its value. */
  lemma TwoDigitToken(d: Directive, tok: string)
    requires d != Year && |tok| == 2 && Matches(d, tok) && tok[0] != ' '
    ensures 0 <= Decimal(tok) < 100 && Pad2(Decimal(tok)) == tok
  {
    assert IsDigit(tok[0]) && IsDigit(tok[1]);
    DigitCharValue(tok[0]);
    DigitCharValue(tok[1]);
    var a, b := DigitValue(tok[0]), DigitValue(tok[1]);
    Decimal2(tok[0], tok[1]);
    assert tok == [tok[0], tok[1]];
    assert Decimal(tok) == a * 10 + b;
    assert (a * 10 + b) / 10 == a && (a * 10 + b) % 10 == b;
  }

  /** A year token is the padded text of its value. */
  lemma FourDigitToken(tok: string)
    requires Matches(Year, tok)
    ensures 0 <= Decimal(tok) < 10000 && Pad4(Decimal(tok)) == tok
  {
    DigitCharValue(tok[0]);
    DigitCharValue(tok[1]);
    DigitCharValue(tok[2]);
    DigitCharValue(tok[3]);
    assert tok == [tok[0], tok[1], tok[2], tok[3]];
    Decimal4(tok[0], tok[1], tok[2], tok[3]);
    FourDigits(DigitValue(tok[0]), DigitValue(tok[1]), DigitValue(tok[2]), DigitValue(tok[3]));
  }

  /**
    A field step that consumed a two-character token without a leading
    space: the text is the field's padded value, the literal, and the rest.
  */
  lemma TwoDigitField(s: string, d: Directive, lit: char)
    requires d != Year && Field(s, d, lit).Some? && |s| == |Field(s, d, lit).value.1| + 3
    requires s[0] != ' ' && ('A' <= lit <= 'Z' ==> s[2] == lit)
    ensures var f := Field(s, d, lit).value;
            0 <= f.0 < 100 && s == Pad2(f.0) + [lit] + f.1
  {
    TwoDigitToken(d, s[..2]);
    assert s == s[..2] + [s[2]] + s[3..];
  }

  /** A year step: the text is the padded year, a dash, and the rest. */
  lemma YearField(s: string)
    requires Field(s, Year, '-').Some?
    ensures var f := Field(s, Year, '-').value;
            0 <= f.0 < 10000 && s == Pad4(f.0) + "-" + f.1
  {
    FourDigitToken(s[..4]);
    assert s == s[..4] + [s[4]] + s[5..];
  }

  /** The zero-padded text of `t` put together field by field. */
  lemma ZuluPieces(t: DateTime, s: string, r2: string, r3: string, r4: string, r5: string, r6: string)
    requires Valid(t)
    requires s == Pad4(t.date.year) + "-" + r2 && r2 == Pad2(t.date.month) + "-" + r3
    requires r3 == Pad2(t.date.day) + "T" + r4 && r4 == Pad2(t.hour) + ":" + r5
    requires r5 == Pad2(t.minute) + ":" + r6 && r6 == Pad2(t.second) + "Z" + []
    ensures s == FormatZulu(t)
  {
  }

  /** The layout of the fixed format: 20 characters, upper-case `T` and `Z`, no space before the day. */
  predicate ZuluShape(s: string) {
    |s| == 20 && s[8] != ' ' && s[10] == 'T' && s[19] == 'Z'
  }

  /** In an accepted 20-character text every field after the year took two characters. */
  lemma ParsedLengths(s: string)
    requires ParseStartDate(s).Some? && |s| == 20
    ensures Field(s, Year, '-').Some? &&
            var y := Field(s, Year, '-').value;
            Field(y.1, Month, '-').Some? &&
            var m := Field(y.1, Month, '-').value;
            Field(m.1, Day, 'T').Some? &&
            var d := Field(m.1, Day, 'T').value;
            Field(d.1, Hour, ':').Some? &&
            var h := Field(d.1, Hour, ':').value;
            Field(h.1, Minute, ':').Some? &&
            var mi := Field(h.1, Minute, ':').value;
            Field(mi.1, Second, 'Z').Some? &&
            |y.1| == 15 && |m.1| == 12 && |d.1| == 9 && |h.1| == 6 && |mi.1| == 3
  {
    var y := Field(s, Year, '-').value;
    var m := Field(y.1, Month, '-').value;
    var d := Field(m.1, Day, 'T').value;
    var h := Field(d.1, Hour, ':').value;
    var mi := Field(h.1, Minute, ':').value;
    assert Field(mi.1, Second, 'Z').value.1 == [];
    FieldLength(s, Year, '-');
    FieldLength(y.1, Month, '-');
    FieldLength(m.1, Day, 'T');
    FieldLength(d.1, Hour, ':');
    FieldLength(h.1, Minute, ':');
    FieldLength(mi.1, Second, 'Z');
  }

  /**
    The converse of ParseFormatZulu: a 20-character text that is accepted,
    with an upper-case `T` and `Z` and no space before the day, is exactly
    the zero-padded text of the date-time it yields.
  */
  lemma ParsedIsFormatZulu(s: string, t: DateTime)
    requires ParseStartDate(s) == Some(t) && ZuluShape(s)
    ensures Valid(t) && s == FormatZulu(t)
  {
    var y := Field(s, Year, '-').value;
    var m := Field(y.1, Month, '-').value;
    var d := Field(m.1, Day, 'T').value;
    var h := Field(d.1, Hour, ':').value;
    var mi := Field(h.1, Minute, ':').value;
    var sec := Field(mi.1, Second, 'Z').value;
    assert t == DateTime(Date(y.0, m.0, d.0), h.0, mi.0, sec.0);
    ParsedLengths(s);
    YearField(s);
    assert y.1 == s[5..];
    assert y.1[0] == s[5];
    TwoDigitField(y.1, Month, '-');
    assert m.1 == y.1[3..];
    assert m.1[0] == s[8] && m.1[2] == s[10];
    TwoDigitField(m.1, Day, 'T');
    assert d.1 == m.1[3..];
    TwoDigitField(d.1, Hour, ':');
    TwoDigitField(h.1, Minute, ':');
    assert mi.1 == h.1[3..] && h.1 == d.1[3..];
    assert mi.1[2] == s[19];
    TwoDigitField(mi.1, Second, 'Z');
    ZuluPieces(t, s, y.1, m.1, d.1, h.1, mi.1);
  }

  /** The zero-padded text has the fixed layout. */
  lemma FormatZuluShape(t: DateTime)
    requires Valid(t)
    ensures ZuluShape(FormatZulu(t))
  {
    assert FormatZulu(t)[8] == DigitChar(t.date.day / 10);
  }

  /**
    For texts laid out as the fixed format, parsing and zero-padded writing
    are inverse: `s` parses to `t` iff `s` is the text of the valid `t`.
  */
  lemma FixedFormatExact(s: string, t: DateTime)
    ensures (ParseStartDate(s) == Some(t) && ZuluShape(s)) <==> (Valid(t) && s == FormatZulu(t))
  {
    if ParseStartDate(s) == Some(t) && ZuluShape(s) {
      ParsedIsFormatZulu(s, t);
    }
    if Valid(t) && s == FormatZulu(t) {
      ParseFormatZulu(t);
      FormatZuluShape(t);
    }
  }

  /**
    The isoformat text is the zero-padded input form with the trailing `Z`
    replaced by `+00:00`.
  */
  lemma FormatIsoReplacesZulu(t: DateTime)
    requires Valid(t)
    ensures |FormatZulu(t)| == 20 && FormatZulu(t)[19] == 'Z'
    ensures FormatIso(t) == FormatZulu(t)[..19] + "+00:00"
  {
    assert FormatZulu(t)[..19] == DateTimeText(t);
  }

  lemma ParseExamples()
    ensures ParseStartDate("2023-11-27T00:00:00Z") == Some(DateTime(Date(2023, 11, 27), 0, 0, 0))
    ensures ParseStartDate("not-a-date") == None
  {
    var t := DateTime(Date(2023, 11, 27), 0, 0, 0);
    assert FormatZulu(t) == "2023-11-27T00:00:00Z";
    ParseFormatZulu(t);
  }
}
