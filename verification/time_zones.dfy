/**
 * The month of an instant in a birth time zone, as LocalDateTime.ofInstant followed by
 * the "MMM" pattern computes it in SummaryData.updateBirthMonths.
 *
 * A zone identifier is resolved as ZoneId.of resolves it: identifiers of at most one
 * character or starting with '+' or '-' are fixed offsets (ZoneOffset.of), "UTC", "GMT"
 * and "UT" optionally followed by an offset are fixed offsets too, and everything else
 * names a region of the time-zone database.  The database is not part of this model: it
 * is the parameter `rules`, which gives the offset in force at an epoch second, or None
 * for an identifier it does not know (ZoneRulesException).
 */
module TimeZones {
  import opened Wrappers
  import Calendar

  /** Largest offset ZoneOffset accepts: 18 hours, in seconds. */
  const MaxOffsetSeconds := 18 * 3600

  /** For a region id and an epoch second, the offset in seconds the tz database gives, or None. */
  type ZoneRules = (string, int) -> Option<int>

  datatype Zone = Fixed(offsetSeconds: int) | Region(id: string)

  predicate IsDigit(c: char) {
    '0' <= c <= '9'
  }

  /** ZoneOffset.parseNumber: the two decimal digits at pos and pos + 1, optionally preceded by ':'. */
  function TwoDigits(s: string, pos: int, afterColon: bool): (r: Option<int>)
    requires 1 <= pos && pos + 1 < |s|
    ensures r.Some? ==> 0 <= r.value <= 99
  {
    if afterColon && s[pos - 1] != ':' then None
    else if !IsDigit(s[pos]) || !IsDigit(s[pos + 1]) then None
    else Some((s[pos] as int - '0' as int) * 10 + (s[pos + 1] as int - '0' as int))
  }

  /** ZoneOffset.ofHoursMinutesSeconds for unsigned fields: the range checks, then the total. */
  function Total(negative: bool, h: Option<int>, m: Option<int>, s: Option<int>): (r: Option<int>)
    ensures r.Some? ==> -MaxOffsetSeconds <= r.value <= MaxOffsetSeconds
  {
    if h.None? || m.None? || s.None? then None
    else if !(0 <= h.value <= 18 && 0 <= m.value <= 59 && 0 <= s.value <= 59) then None
    else if h.value == 18 && (m.value != 0 || s.value != 0) then None
    else
      var t := h.value * 3600 + m.value * 60 + s.value;
      Some(if negative then -t else t)
  }

  /**
   * ZoneOffset.of: "Z", or a sign followed by one of the layouts h, hh, hhmm, hh:mm,
   * hhmmss, hh:mm:ss, at most 18:00 in magnitude.  None is the DateTimeException.
   */
  function ParseOffset(id: string): (r: Option<int>)
    ensures r.Some? ==> -MaxOffsetSeconds <= r.value <= MaxOffsetSeconds
  {
    if id == "Z" then Some(0)
    else if |id| == 2 then ParseSigned([id[0], '0', id[1]])
    else ParseSigned(id)
  }

  /** The signed layouts of ZoneOffset.of, selected by length as ZoneOffset.of selects them. */
  function ParseSigned(id: string): (r: Option<int>)
    ensures r.Some? ==> -MaxOffsetSeconds <= r.value <= MaxOffsetSeconds
  {
    if |id| !in {3, 5, 6, 7, 9} || (id[0] != '+' && id[0] != '-') then None
    else
      var neg := id[0] == '-';
      var zero := Some(0);
      if |id| == 3 then Total(neg, TwoDigits(id, 1, false), zero, zero)
      else if |id| == 5 then Total(neg, TwoDigits(id, 1, false), TwoDigits(id, 3, false), zero)
      else if |id| == 6 then Total(neg, TwoDigits(id, 1, false), TwoDigits(id, 4, true), zero)
      else if |id| == 7 then Total(neg, TwoDigits(id, 1, false), TwoDigits(id, 3, false), TwoDigits(id, 5, false))
      else Total(neg, TwoDigits(id, 1, false), TwoDigits(id, 4, true), TwoDigits(id, 7, true))
  }

  function Digits2(n: int): string
    requires 0 <= n <= 99
  {
    [(n / 10 + '0' as int) as char, (n % 10 + '0' as int) as char]
  }

  /** Hours, minutes and seconds of a magnitude of at most 18 hours, as ZoneOffset splits it. */
  lemma SplitMagnitude(a: int)
    requires 0 <= a <= MaxOffsetSeconds
    ensures 0 <= a / 3600 <= 18 && 0 <= a / 60 % 60 <= 59 && 0 <= a % 60 <= 59
    ensures a / 3600 == 18 ==> a / 60 % 60 == 0 && a % 60 == 0
    ensures a == a / 3600 * 3600 + a / 60 % 60 * 60 + a % 60
  {
    var h, r := a / 3600, a % 3600;
    assert a == 3600 * h + r && 0 <= r < 3600;
    assert a / 60 == 60 * h + r / 60;
    assert a / 60 % 60 == r / 60;
    assert a % 60 == r % 60;
  }

  /** The id written from a sign and three fields: +hh:mm, or +hh:mm:ss when the seconds are not zero. */
  function FormatFields(negative: bool, h: int, m: int, s: int): (id: string)
    requires 0 <= h <= 99 && 0 <= m <= 99 && 0 <= s <= 99
    ensures |id| == (if s == 0 then 6 else 9)
  {
    [if negative then '-' else '+'] + Digits2(h) + ":" + Digits2(m)
      + (if s == 0 then "" else ":" + Digits2(s))
  }

  /** ZoneOffset.getId: "Z" for zero, otherwise +hh:mm, with :ss appended when the seconds are not zero. */
  function FormatOffset(total: int): (id: string)
    requires -MaxOffsetSeconds <= total <= MaxOffsetSeconds
    ensures id == "Z" || |id| == 6 || |id| == 9
  {
    if total == 0 then "Z"
    else
      var a := if total < 0 then -total else total;
      SplitMagnitude(a);
      FormatFields(total < 0, a / 3600, a / 60 % 60, a % 60)
  }

  lemma ParseFormatFields(negative: bool, h: int, m: int, s: int)
    requires 0 <= h <= 18 && 0 <= m <= 59 && 0 <= s <= 59
    requires h == 18 ==> m == 0 && s == 0
    ensures var t := h * 3600 + m * 60 + s;
      ParseSigned(FormatFields(negative, h, m, s)) == Some(if negative then -t else t)
  {
    var id := FormatFields(negative, h, m, s);
    var hs, ms := Digits2(h), Digits2(m);
    assert id[0] == if negative then '-' else '+';
    assert id[1] == hs[0] && id[2] == hs[1] && id[3] == ':' && id[4] == ms[0] && id[5] == ms[1];
    assert TwoDigits(id, 1, false) == Some(h);
    assert TwoDigits(id, 4, true) == Some(m);
    if s != 0 {
      var ss := Digits2(s);
      assert id[6] == ':' && id[7] == ss[0] && id[8] == ss[1];
      assert TwoDigits(id, 7, true) == Some(s);
    }
  }

  /** Every offset ZoneOffset can hold is read back from its own id. */
  lemma ParseFormatOffset(total: int)
    requires -MaxOffsetSeconds <= total <= MaxOffsetSeconds
    ensures ParseOffset(FormatOffset(total)) == Some(total)
  {
    if total != 0 {
      var a := if total < 0 then -total else total;
      SplitMagnitude(a);
      ParseFormatFields(total < 0, a / 3600, a / 60 % 60, a % 60);
    }
  }

  predicate StartsWith(s: string, prefix: string) {
    |prefix| <= |s| && s[..|prefix|] == prefix
  }

  /** ZoneId.ofWithPrefix: "UTC", "GMT" or "UT" alone is offset zero; followed by a sign, the rest is an offset. */
  function WithPrefix(id: string, n: nat): (r: Option<Zone>)
    requires n <= |id|
  {
    if |id| == n then Some(Fixed(0))
    else if id[n] != '+' && id[n] != '-' then Some(Region(id))
    else
      var o := ParseOffset(id[n..]);
      if o.None? then None else Some(Fixed(o.value))
  }

  /** ZoneId.of: which kind of zone an identifier names; None is the DateTimeException. */
  function ZoneOf(id: string): (r: Option<Zone>)
    ensures r.Some? && r.value.Fixed? ==> -MaxOffsetSeconds <= r.value.offsetSeconds <= MaxOffsetSeconds
    ensures r.Some? && r.value.Region? ==> r.value.id == id && |id| >= 2 && id[0] != '+' && id[0] != '-'
  {
    if |id| <= 1 || id[0] == '+' || id[0] == '-' then
      var o := ParseOffset(id);
      if o.None? then None else Some(Fixed(o.value))
    else if StartsWith(id, "UTC") || StartsWith(id, "GMT") then WithPrefix(id, 3)
    else if StartsWith(id, "UT") then WithPrefix(id, 2)
    else Some(Region(id))
  }

  /** Instant.ofEpochMilli: the epoch second of an instant given in milliseconds, rounded towards minus infinity. */
  function EpochSecond(epochMilli: int): (s: int)
    ensures 1000 * s <= epochMilli < 1000 * s + 1000
  {
    epochMilli / 1000
  }

  /** LocalDateTime.ofInstant: the local date of an instant under an offset, by floor division into days. */
  function LocalDate(epochMilli: int, offsetSeconds: int): (d: Calendar.Date)
    ensures Calendar.ValidDate(d)
    ensures var local := EpochSecond(epochMilli) + offsetSeconds;
      86400 * Calendar.EpochDay(d) <= local < 86400 * Calendar.EpochDay(d) + 86400
  {
    Calendar.FromEpochDay((EpochSecond(epochMilli) + offsetSeconds) / 86400)
  }

  /** The offset in force for zone id at the instant, or None when ZoneId.of fails. */
  function OffsetAt(id: string, epochMilli: int, rules: ZoneRules): (r: Option<int>)
    ensures ZoneOf(id).None? ==> r.None?
    ensures ZoneOf(id).Some? && ZoneOf(id).value.Fixed? ==> r == Some(ZoneOf(id).value.offsetSeconds)
    ensures ZoneOf(id).Some? && ZoneOf(id).value.Region? ==> r == rules(id, EpochSecond(epochMilli))
  {
    match ZoneOf(id)
    case None => None
    case Some(Fixed(o)) => Some(o)
    case Some(Region(name)) => rules(name, EpochSecond(epochMilli))
  }

  /** The birth month, 1 to 12, of an instant in a zone; None when the zone cannot be resolved. */
  function BirthMonth(id: string, epochMilli: int, rules: ZoneRules): (r: Option<int>)
    ensures r.Some? <==> OffsetAt(id, epochMilli, rules).Some?
    ensures r.Some? ==> 1 <= r.value <= 12
    ensures r.Some? ==> r.value == LocalDate(epochMilli, OffsetAt(id, epochMilli, rules).value).month
  {
    var o := OffsetAt(id, epochMilli, rules);
    if o.None? then None else Some(LocalDate(epochMilli, o.value).month)
  }

  lemma MinusOneHourParses()
    ensures ZoneOf("-01:00") == Some(Fixed(-3600))
  {
    ParseFormatFields(true, 1, 0, 0);
    assert FormatFields(true, 1, 0, 0) == "-01:00";
  }

  /** Every instant of the first hour after the epoch, seen from an hour west of Greenwich, falls on 31 December 1969. */
  lemma FirstHourAtMinusOneHour(epochMilli: int)
    requires 0 <= epochMilli < 3600000
    ensures LocalDate(epochMilli, -3600) == Calendar.Date(1969, 12, 31)
  {
    var local := EpochSecond(epochMilli) - 3600;
    assert -3600 <= local < 0;
    assert local / 86400 == -1;
    Calendar.DayBeforeEpoch();
  }

  /** So a birth in that hour in zone "-01:00" counts for December, whatever the region rules. */
  lemma FirstHourAtMinusOneHourIsDecember(epochMilli: int, rules: ZoneRules)
    requires 0 <= epochMilli < 3600000
    ensures BirthMonth("-01:00", epochMilli, rules) == Some(12)
  {
    MinusOneHourParses();
    FirstHourAtMinusOneHour(epochMilli);
  }
}
