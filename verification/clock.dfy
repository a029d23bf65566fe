/** Times of day as the availability settings keep them: "HH:MM" text,
    read back with `strptime("%H:%M")` and written with `strftime("%H:%M")`. */
module Clock {
  import opened Options

  predicate IsDigit(c: char)
  {
    '0' <= c <= '9'
  }

  function DigitValue(c: char): (n: nat)
    requires IsDigit(c)
    ensures n < 10
  {
    c as int - '0' as int
  }

  function DigitChar(n: nat): (c: char)
    requires n < 10
    ensures IsDigit(c) && DigitValue(c) == n
  {
    (n + '0' as int) as char
  }

  /** A `datetime.time` cut down to what "%H:%M" carries. */
  datatype Time = Time(hour: nat, minute: nat)

  predicate ValidTime(t: Time)
  {
    t.hour < 24 && t.minute < 60
  }

  /** `t.strftime("%H:%M")`: both fields as two zero-padded decimal digits. */
  function Format(t: Time): (s: string)
    requires ValidTime(t)
    ensures |s| == 5 && s[2] == ':'
    ensures IsDigit(s[0]) && IsDigit(s[1]) && IsDigit(s[3]) && IsDigit(s[4])
    ensures 10 * DigitValue(s[0]) + DigitValue(s[1]) == t.hour
    ensures 10 * DigitValue(s[3]) + DigitValue(s[4]) == t.minute
  {
    [DigitChar(t.hour / 10), DigitChar(t.hour % 10), ':', DigitChar(t.minute / 10), DigitChar(t.minute % 10)]
  }

  /** The `%H` directive of `strptime`: it tries "2[0-3]", then "[0-1]digit",
      then a single digit, and yields the hour with the number of characters
      it consumed. */
  function ScanHour(s: string): (r: Option<(nat, nat)>)
    ensures r.Some? ==> r.value.0 < 24 && 1 <= r.value.1 <= 2 && r.value.1 <= |s|
    ensures r.Some? && r.value.1 == 2 ==> IsDigit(s[0]) && IsDigit(s[1]) && r.value.0 == 10 * DigitValue(s[0]) + DigitValue(s[1])
    ensures r.Some? && r.value.1 == 1 ==> IsDigit(s[0]) && r.value.0 == DigitValue(s[0])
    ensures r.None? <==> s == [] || !IsDigit(s[0])
  {
    if |s| >= 2 && ((s[0] == '2' && '0' <= s[1] <= '3') || ((s[0] == '0' || s[0] == '1') && IsDigit(s[1]))) then
      Some((10 * DigitValue(s[0]) + DigitValue(s[1]), 2))
    else if |s| >= 1 && IsDigit(s[0]) then
      Some((DigitValue(s[0]), 1))
    else
      None
  }

  /** The `%M` directive of `strptime`: "[0-5]digit", then a single digit. */
  function ScanMinute(s: string): (r: Option<(nat, nat)>)
    ensures r.Some? ==> r.value.0 < 60 && 1 <= r.value.1 <= 2 && r.value.1 <= |s|
    ensures r.Some? && r.value.1 == 2 ==> IsDigit(s[0]) && IsDigit(s[1]) && r.value.0 == 10 * DigitValue(s[0]) + DigitValue(s[1])
    ensures r.Some? && r.value.1 == 1 ==> IsDigit(s[0]) && r.value.0 == DigitValue(s[0])
    ensures r.None? <==> s == [] || !IsDigit(s[0])
  {
    if |s| >= 2 && '0' <= s[0] <= '5' && IsDigit(s[1]) then
      Some((10 * DigitValue(s[0]) + DigitValue(s[1]), 2))
    else if |s| >= 1 && IsDigit(s[0]) then
      Some((DigitValue(s[0]), 1))
    else
      None
  }

  /** `datetime.strptime(s, "%H:%M").time()`, with None for the ValueError it
      raises when the pattern does not match or text is left over. */
  function Parse(s: string): (r: Option<Time>)
    ensures r.Some? ==> ValidTime(r.value)
    ensures r.Some? ==> 3 <= |s| <= 5 && ':' in s
  {
    match ScanHour(s)
    case None => None
    case Some((h, n)) =>
      if n < |s| && s[n] == ':' then
        match ScanMinute(s[n + 1..])
        case None => None
        case Some((m, k)) => if n + 1 + k == |s| then Some(Time(h, m)) else None
      else
        None
  }

  /** `f` spells `v` as one decimal digit, or as two whose value is below
      `bound`. */
  predicate FieldSpells(f: string, v: nat, bound: nat)
  {
    || (|f| == 1 && IsDigit(f[0]) && DigitValue(f[0]) == v)
    || (|f| == 2 && IsDigit(f[0]) && IsDigit(f[1]) && 10 * DigitValue(f[0]) + DigitValue(f[1]) == v && v < bound)
  }

  /** The strings "%H:%M" reads as `t`, described without the scanner: an
      hour field of one digit or two below 24, a colon, and a minute field of
      one digit or two below 60, with nothing else around them. */
  ghost predicate Spells(s: string, t: Time)
  {
    exists n :: 1 <= n <= 2 && n < |s| && s[n] == ':' && FieldSpells(s[..n], t.hour, 24) && FieldSpells(s[n + 1..], t.minute, 60)
  }

  /** `Parse` accepts exactly the strings of that description, with the value
      they spell. */
  lemma ParseIff(s: string, t: Time)
    ensures Parse(s) == Some(t) <==> Spells(s, t)
  {
    if Parse(s) == Some(t) {
      var n := ScanHour(s).value.1;
      assert FieldSpells(s[..n], t.hour, 24);
      assert FieldSpells(s[n + 1..], t.minute, 60);
    }
    if Spells(s, t) {
      var n :| 1 <= n <= 2 && n < |s| && s[n] == ':' && FieldSpells(s[..n], t.hour, 24) && FieldSpells(s[n + 1..], t.minute, 60);
      assert s[..n][0] == s[0];
      if n == 2 {
        assert s[..n][1] == s[1];
      }
      assert ScanHour(s) == Some((t.hour, n));
      var rest := s[n + 1..];
      assert ScanMinute(rest) == Some((t.minute, |rest|));
    }
  }

  /** What `strftime` writes, `strptime` reads back as the same time. */
  lemma ParseFormat(t: Time)
    requires ValidTime(t)
    ensures Parse(Format(t)) == Some(t)
  {
    var s := Format(t);
    assert ScanHour(s) == Some((t.hour, 2));
    assert s[3..] == s[3..5];
    assert ScanMinute(s[3..]) == Some((t.minute, 2));
  }

  /** A five-character "HH:MM" string that `strptime` accepts is written back
      by `strftime` character for character. */
  lemma FormatParse(s: string)
    requires |s| == 5 && Parse(s).Some?
    ensures Format(Parse(s).value) == s
  {
    var t := Parse(s).value;
    var n := ScanHour(s).value.1;
    var k := ScanMinute(s[n + 1..]).value.1;
    assert n == 2 && k == 2;
    var f := Format(t);
    assert f[0] == s[0] && f[1] == s[1] && f[2] == s[2] && f[3] == s[3] && f[4] == s[4];
  }

  /** The canonical text of a time is the one five-character string that
      parses to it. */
  lemma FormatIff(t: Time, s: string)
    requires ValidTime(t)
    ensures Format(t) == s <==> |s| == 5 && Parse(s) == Some(t)
  {
    ParseFormat(t);
    if |s| == 5 && Parse(s) == Some(t) {
      FormatParse(s);
    }
  }

  /** `strptime` also accepts one-digit fields, which `strftime` then pads:
      "9:5" reads as 09:05. Hours past 23 and minutes past 59 are refused. */
  lemma ParseShortForms()
    ensures Parse("9:5") == Some(Time(9, 5))
    ensures Parse("24:00") == None
    ensures Parse("09:60") == None
    ensures Parse("9:05") == Some(Time(9, 5))
  {
    assert "9:5"[2..] == "5";
    assert "9:05"[2..] == "05";
    assert "24:00"[0] == '2' && "24:00"[1] == '4';
    assert "09:60"[3..] == "60";
  }
}
