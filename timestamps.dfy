/** Capture-time resolution from EXIF tags: the adapter's own `fromisoformat`
    (a choice among three `strptime` layouts), the cleaning of EXIF text
    tags, the combination of DateTimeOriginal with OffsetTimeOriginal, and
    the running "earliest timestamp" step that renders its result with
    `datetime.isoformat()`.  Dates are integer fields and UTC offsets are
    integer microseconds east of UTC; nothing here uses floating point. */
module Timestamps {
  import opened PyValues
  import opened Text

  const MicrosPerSecond: int := 1000000
  const MicrosPerDay: int := 86400 * 1000000
  /** Widths of the zero-padded year and microsecond fields. */
  const YearDigits: nat := 4
  const MicroDigits: nat := 6

  /** A `datetime.datetime`; `offset` is None for a naive value. */
  datatype DateTime = DateTime(
    year: int, month: int, day: int,
    hour: int, minute: int, second: int, micro: int,
    offset: Option<int>)

  predicate IsLeap(year: int)
  {
    year % 4 == 0 && (year % 100 != 0 || year % 400 == 0)
  }

  function DaysInMonth(year: int, month: int): (n: int)
    requires 1 <= month <= 12
    ensures 28 <= n <= 31
  {
    if month == 2 then (if IsLeap(year) then 29 else 28)
    else if month == 4 || month == 6 || month == 9 || month == 11 then 30
    else 31
  }

  /** The ranges `datetime` and `timezone` enforce when a value is built. */
  predicate Valid(dt: DateTime)
  {
    && 1 <= dt.year <= 9999
    && 1 <= dt.month <= 12
    && 1 <= dt.day <= DaysInMonth(dt.year, dt.month)
    && 0 <= dt.hour < 24 && 0 <= dt.minute < 60 && 0 <= dt.second < 60
    && 0 <= dt.micro < MicrosPerSecond
    && (dt.offset.Some? ==> -MicrosPerDay < dt.offset.value < MicrosPerDay)
  }

  // ---------------------------------------------------------------------
  // Layout selection

  datatype BaseLayout =
    | TLayout      // %Y-%m-%dT%H:%M:%S
    | DashLayout   // %Y-%m-%d %H:%M:%S
    | ColonLayout  // %Y:%m:%d %H:%M:%S

  /** A `strptime` format: the base layout, then optionally `.%f`, then
      optionally `%z`. */
  datatype Layout = Layout(base: BaseLayout, fraction: bool, zone: bool)

  /** The format `fromisoformat` hands to `strptime`, chosen from the
      characters the text contains. */
  function SelectLayout(ts: string): (l: Layout)
    ensures l.base == TLayout <==> 'T' in ts
    ensures l.base == DashLayout <==> 'T' !in ts && '-' in ts
    ensures l.fraction <==> '.' in ts
    ensures l.zone <==> '+' in ts || RFind(ts, '-') > RFind(ts, ':')
  {
    var base := if 'T' in ts then TLayout else if '-' in ts then DashLayout else ColonLayout;
    Layout(base, '.' in ts, '+' in ts || RFind(ts, '-') > RFind(ts, ':'))
  }

  // ---------------------------------------------------------------------
  // strptime, one directive at a time.  Each field parser follows the
  // alternatives of the directive's regular expression in order and returns
  // the value with the text after it.  Every directive is followed by a
  // literal that cannot start with a digit (or by the end of the pattern),
  // so the first alternative that matches is the one the regular-expression
  // engine keeps.

  /** A parsed field and the text after it. */
  type Step = Option<(int, string)>

  function TwoDigitValue(a: char, b: char): int
    requires IsDigit(a) && IsDigit(b)
  {
    10 * DigitValue(a) + DigitValue(b)
  }

  /** `%Y`: four digits. */
  function YearField(s: string): Step
  {
    if |s| >= 4 && AllDigits(s[..4]) then Some((DigitsValue(s[..4]), s[4..])) else None
  }

  /** `%m`: `1[0-2]|0[1-9]|[1-9]`. */
  function MonthField(s: string): Step
  {
    if |s| >= 2 && s[0] == '1' && '0' <= s[1] <= '2' then Some((10 + DigitValue(s[1]), s[2..]))
    else if |s| >= 2 && s[0] == '0' && '1' <= s[1] <= '9' then Some((DigitValue(s[1]), s[2..]))
    else if |s| >= 1 && '1' <= s[0] <= '9' then Some((DigitValue(s[0]), s[1..]))
    else None
  }

  /** `%d`: `3[01]|[12]\d|0[1-9]|[1-9]| [1-9]`. */
  function DayField(s: string): Step
  {
    if |s| >= 2 && s[0] == '3' && '0' <= s[1] <= '1' then Some((30 + DigitValue(s[1]), s[2..]))
    else if |s| >= 2 && '1' <= s[0] <= '2' && IsDigit(s[1]) then Some((TwoDigitValue(s[0], s[1]), s[2..]))
    else if |s| >= 2 && s[0] == '0' && '1' <= s[1] <= '9' then Some((DigitValue(s[1]), s[2..]))
    else if |s| >= 1 && '1' <= s[0] <= '9' then Some((DigitValue(s[0]), s[1..]))
    else if |s| >= 2 && s[0] == ' ' && '1' <= s[1] <= '9' then Some((DigitValue(s[1]), s[2..]))
    else None
  }

  /** `%H`: `2[0-3]|[0-1]\d|\d`. */
  function HourField(s: string): Step
  {
    if |s| >= 2 && s[0] == '2' && '0' <= s[1] <= '3' then Some((20 + DigitValue(s[1]), s[2..]))
    else if |s| >= 2 && '0' <= s[0] <= '1' && IsDigit(s[1]) then Some((TwoDigitValue(s[0], s[1]), s[2..]))
    else if |s| >= 1 && IsDigit(s[0]) then Some((DigitValue(s[0]), s[1..]))
    else None
  }

  /** `%M`: `[0-5]\d|\d`. */
  function MinuteField(s: string): Step
  {
    if |s| >= 2 && '0' <= s[0] <= '5' && IsDigit(s[1]) then Some((TwoDigitValue(s[0], s[1]), s[2..]))
    else if |s| >= 1 && IsDigit(s[0]) then Some((DigitValue(s[0]), s[1..]))
    else None
  }

  /** `%S`: `6[0-1]|[0-5]\d|\d` (61 is accepted here and refused later by
      `datetime`). */
  function SecondField(s: string): Step
  {
    if |s| >= 2 && s[0] == '6' && '0' <= s[1] <= '1' then Some((60 + DigitValue(s[1]), s[2..]))
    else if |s| >= 2 && '0' <= s[0] <= '5' && IsDigit(s[1]) then Some((TwoDigitValue(s[0], s[1]), s[2..]))
    else if |s| >= 1 && IsDigit(s[0]) then Some((DigitValue(s[0]), s[1..]))
    else None
  }

  /** The number of leading digits of `s`, at most `limit` (a greedy `\d{1,limit}`). */
  function DigitRun(s: string, limit: nat): (n: nat)
    ensures n <= limit && n <= |s| && AllDigits(s[..n])
  {
    if limit == 0 || s == [] || !IsDigit(s[0]) then 0
    else
      var n := 1 + DigitRun(s[1..], limit - 1);
      assert s[..n] == [s[0]] + s[1..][..n - 1];
      n
  }

  /** A fraction of 1 to 6 digits as microseconds (`"5"` is 500000). */
  function FractionValue(digits: string): int
    requires AllDigits(digits) && |digits| <= 6
  {
    DigitsValue(digits) * Pow10(6 - |digits|)
  }

  /** `%f`: `[0-9]{1,6}`, right-padded with zeros to microseconds. */
  function FractionField(s: string): Step
  {
    var n := DigitRun(s, 6);
    if n == 0 then None else Some((FractionValue(s[..n]), s[n..]))
  }

  /** `%z`: `Z`, or a sign, two hour digits, an optional colon, two minute
      digits `[0-5]\d` and an optional seconds group (optional colon, two
      digits `[0-5]\d`, optional `.` and 1-6 digits).  The value is the offset
      in microseconds east of UTC.  A seconds group whose use of the colon
      differs from the hours' is refused, as `strptime` refuses it. */
  function ZoneField(s: string): Step
  {
    if s != [] && s[0] == 'Z' then Some((0, s[1..]))
    else if |s| >= 3 && (s[0] == '+' || s[0] == '-') && IsDigit(s[1]) && IsDigit(s[2]) then
      var sign := if s[0] == '-' then -1 else 1;
      var hours := TwoDigitValue(s[1], s[2]);
      var colon1 := |s| >= 4 && s[3] == ':';
      var s2 := if colon1 then s[4..] else s[3..];
      if |s2| >= 2 && '0' <= s2[0] <= '5' && IsDigit(s2[1]) then
        var minutes := TwoDigitValue(s2[0], s2[1]);
        var s3 := s2[2..];
        var colon2 := s3 != [] && s3[0] == ':';
        var s4 := if colon2 then s3[1..] else s3;
        if |s4| >= 2 && '0' <= s4[0] <= '5' && IsDigit(s4[1]) then
          var seconds := TwoDigitValue(s4[0], s4[1]);
          var s5 := s4[2..];
          var n := if s5 != [] && s5[0] == '.' then DigitRun(s5[1..], 6) else 0;
          var fraction := if n == 0 then 0 else FractionValue(s5[1..][..n]);
          var rest := if n == 0 then s5 else s5[1 + n..];
          if colon1 != colon2 then None
          else Some((sign * ((hours * 3600 + minutes * 60 + seconds) * MicrosPerSecond + fraction), rest))
        else Some((sign * (hours * 3600 + minutes * 60) * MicrosPerSecond, s3))
      else None
    else None
  }

  /** A literal character of the format. */
  function Literal(s: string, c: char): Option<string>
  {
    if s != [] && s[0] == c then Some(s[1..]) else None
  }

  /** What separates date from time: a `T` (the pattern is compiled ignoring
      case, so `t` too) or, for a space in the format, `\s+`. */
  function DateTimeSeparator(s: string, base: BaseLayout): Option<string>
  {
    if base == TLayout then
      (if s != [] && (s[0] == 'T' || s[0] == 't') then Some(s[1..]) else None)
    else if s != [] && IsSpace(s[0]) then Some(LStrip(s))
    else None
  }

  function DateSeparator(base: BaseLayout): char
  {
    if base == ColonLayout then ':' else '-'
  }

  /** `%Y<sep>%m<sep>%d`. */
  function DatePart(s: string, sep: char): Option<(int, int, int, string)>
  {
    var y := YearField(s);
    if y.None? then None else
    var r1 := Literal(y.value.1, sep);
    if r1.None? then None else
    var m := MonthField(r1.value);
    if m.None? then None else
    var r2 := Literal(m.value.1, sep);
    if r2.None? then None else
    var d := DayField(r2.value);
    if d.None? then None else
    Some((y.value.0, m.value.0, d.value.0, d.value.1))
  }

  /** `%H:%M:%S`. */
  function TimePart(s: string): Option<(int, int, int, string)>
  {
    var h := HourField(s);
    if h.None? then None else
    var r1 := Literal(h.value.1, ':');
    if r1.None? then None else
    var m := MinuteField(r1.value);
    if m.None? then None else
    var r2 := Literal(m.value.1, ':');
    if r2.None? then None else
    var sec := SecondField(r2.value);
    if sec.None? then None else
    Some((h.value.0, m.value.0, sec.value.0, sec.value.1))
  }

  /** The optional `.%f` and `%z` after the seconds; the whole text must be
      used up ("unconverted data remains" otherwise). */
  function Tail(s: string, layout: Layout): Option<(int, Option<int>)>
  {
    var f := if !layout.fraction then Some((0, s))
             else if s != [] && s[0] == '.' then FractionField(s[1..])
             else None;
    if f.None? then None
    else if layout.zone then
      var z := ZoneField(f.value.1);
      if z.Some? && z.value.1 == [] then Some((f.value.0, Some(z.value.0))) else None
    else if f.value.1 == [] then Some((f.value.0, None))
    else None
  }

  /** `datetime.strptime(ts, format)`, with None for the ValueError it raises
      when the text does not match or names an impossible date. */
  function ParseWith(ts: string, layout: Layout): (r: Option<DateTime>)
    ensures r.Some? ==> Valid(r.value)
    ensures r.Some? ==> (r.value.offset.Some? <==> layout.zone)
  {
    var date := DatePart(ts, DateSeparator(layout.base));
    if date.None? then None else
    var s1 := DateTimeSeparator(date.value.3, layout.base);
    if s1.None? then None else
    var time := TimePart(s1.value);
    if time.None? then None else
    var tail := Tail(time.value.3, layout);
    if tail.None? then None else
    var dt := DateTime(date.value.0, date.value.1, date.value.2,
                       time.value.0, time.value.1, time.value.2,
                       tail.value.0, tail.value.1);
    if Valid(dt) then Some(dt) else None
  }

  /** The adapter's `fromisoformat`: None for a missing or empty text, else
      `strptime` with the selected layout, any failure turned into None. */
  function FromIsoFormat(ts: Option<string>): (r: Option<DateTime>)
    ensures ts.None? || ts == Some("") ==> r.None?
    ensures r.Some? ==> Valid(r.value)
    ensures r.Some? ==> (r.value.offset.Some? <==> SelectLayout(ts.value).zone)
  {
    if ts.None? || ts.value == "" then None else ParseWith(ts.value, SelectLayout(ts.value))
  }

  // ---------------------------------------------------------------------
  // datetime.isoformat()

  /** `"%02d" % v`. */
  function Two(v: int): (s: string)
    requires 0 <= v < 100
    ensures |s| == 2 && IsDigit(s[0]) && IsDigit(s[1]) && TwoDigitValue(s[0], s[1]) == v
  {
    [DigitChar(v / 10), DigitChar(v % 10)]
  }

  function DateText(year: int, month: int, day: int): string
    requires 0 <= year < 10000 && 0 <= month < 100 && 0 <= day < 100
  {
    FixedDigits(year, YearDigits) + ("-" + (Two(month) + ("-" + Two(day))))
  }

  function TimeText(hour: int, minute: int, second: int): string
    requires 0 <= hour < 100 && 0 <= minute < 100 && 0 <= second < 100
  {
    Two(hour) + (":" + (Two(minute) + (":" + Two(second))))
  }

  function MicroText(micro: int): string
    requires 0 <= micro < MicrosPerSecond
  {
    if micro == 0 then "" else "." + FixedDigits(micro, MicroDigits)
  }

  /** `+HH:MM`, then `:SS` when seconds or microseconds are present, then
      `.ffffff` when microseconds are; the sign is `-` for negative offsets,
      which are rendered by their magnitude. */
  function OffsetText(offset: Option<int>): string
    requires offset.Some? ==> -MicrosPerDay < offset.value < MicrosPerDay
  {
    if offset.None? then ""
    else if offset.value < 0 then "-" + OffsetBody(-offset.value)
    else "+" + OffsetBody(offset.value)
  }

  /** The magnitude part of a rendered offset. */
  function OffsetBody(a: int): string
    requires 0 <= a < MicrosPerDay
  {
    var secs := a / MicrosPerSecond;
    var us := a % MicrosPerSecond;
    Two(secs / 3600) + (":" + (Two(secs % 3600 / 60)
      + ((if secs % 60 != 0 || us != 0 then ":" + Two(secs % 60) else "")
      + (if us != 0 then "." + FixedDigits(us, MicroDigits) else ""))))
  }

  /** `dt.isoformat()`. */
  function IsoFormat(dt: DateTime): string
    requires Valid(dt)
  {
    DateText(dt.year, dt.month, dt.day) + ("T" + (TimeText(dt.hour, dt.minute, dt.second)
      + (MicroText(dt.micro) + OffsetText(dt.offset))))
  }

  // ---------------------------------------------------------------------
  // Comparison

  /** Days since 0001-01-01 plus one (`date.toordinal()`). */
  function Ordinal(year: int, month: int, day: int): int
    requires year >= 1 && 1 <= month <= 12
  {
    var y := year - 1;
    y * 365 + y / 4 - y / 100 + y / 400 + DaysBeforeMonth(year, month) + day
  }

  function DaysBeforeMonth(year: int, month: int): int
    requires 1 <= month <= 12
    decreases month
  {
    if month == 1 then 0 else DaysBeforeMonth(year, month - 1) + DaysInMonth(year, month - 1)
  }

  /** The wall-clock reading in microseconds. */
  function LocalMicros(dt: DateTime): int
    requires Valid(dt)
  {
    ((((Ordinal(dt.year, dt.month, dt.day) * 24 + dt.hour) * 60 + dt.minute) * 60 + dt.second)
      * MicrosPerSecond + dt.micro)
  }

  /** The instant a value denotes: its reading moved to UTC when it is aware. */
  function Instant(dt: DateTime): int
    requires Valid(dt)
  {
    LocalMicros(dt) - (if dt.offset.Some? then dt.offset.value else 0)
  }

  /** `a < b`: a TypeError when one is naive and the other aware, otherwise
      an order on instants (equal offsets make it the order on readings). */
  function Before(a: DateTime, b: DateTime): (r: Outcome<bool>)
    requires Valid(a) && Valid(b)
    ensures r.Raised? <==> a.offset.Some? != b.offset.Some?
    ensures r.Raised? ==> r.exc == TypeError
    ensures r.Done? ==> (r.value <==> Instant(a) < Instant(b))
    ensures a.offset == b.offset ==> (r == Done(true) <==> LocalMicros(a) < LocalMicros(b))
  {
    if a.offset.Some? != b.offset.Some? then Raised(TypeError)
    else Done(Instant(a) < Instant(b))
  }

  // ---------------------------------------------------------------------
  // EXIF tags

  /** DateTimeOriginal. */
  const ExifOriginalTimestamp: int := 36867
  /** The general offset tag as the adapter names it (OffsetTime is 36880). */
  const ExifTimestampOffset: int := 36881
  /** OffsetTimeOriginal. */
  const ExifOriginalTimestampOffset: int := 36881

  /** A decoded EXIF tag value. */
  datatype TagValue =
    | TagText(text: string)          // a str
    | TagBytes(utf8: Option<string>) // bytes with their UTF-8 decoding; None when not valid UTF-8
    | TagOther(truthy: bool)         // any other value: it has no `strip`

  predicate TagTruthy(v: TagValue)
  {
    match v
    case TagText(t) => t != ""
    case TagBytes(u) => u != Some("")
    case TagOther(b) => b
  }

  /** The emptiness test of `convert_and_clean_tag` on a stripped value:
      with `:` removed, `+:` removed (a no-op by then), `-` removed and
      whitespace stripped, is anything left? */
  predicate HasContent(s: string)
  {
    Strip(RemoveChar(RemovePair(RemoveChar(s, ':'), '+', ':'), '-')) != ""
  }

  /** `convert_and_clean_tag`: None for a falsy value or one with nothing
      but colons, dashes and whitespace, else the stripped text.  A value
      with no `strip` raises AttributeError; bytes that are not UTF-8 raise
      UnicodeDecodeError. */
  function ConvertAndCleanTag(v: TagValue): (r: Outcome<Option<string>>)
    ensures !TagTruthy(v) ==> r == Done(None)
    ensures r.Raised? <==> TagTruthy(v) && (v.TagOther? || v == TagBytes(None))
    ensures v.TagText? ==> r.Done?
    ensures r.Done? && r.value.Some? ==> r.value.value != "" && Strip(RemoveChar(RemoveChar(r.value.value, ':'), '-')) != ""
    ensures v.TagText? && TagTruthy(v) ==>
      r.value == (if Strip(RemoveChar(RemoveChar(Strip(v.text), ':'), '-')) == "" then None else Some(Strip(v.text)))
  {
    if !TagTruthy(v) then Done(None)
    else match v
      case TagOther(_) => Raised(AttributeError)
      case TagBytes(u) => if u.None? then Raised(UnicodeDecodeError) else Done(Cleaned(Strip(u.value)))
      case TagText(t) => Done(Cleaned(Strip(t)))
  }

  function Cleaned(s: string): (r: Option<string>)
    ensures r == (if Strip(RemoveChar(RemoveChar(s, ':'), '-')) == "" then None else Some(s))
  {
    assert RemovePair(RemoveChar(s, ':'), '+', ':') == RemoveChar(s, ':');
    if s != "" && !HasContent(s) then None
    else if s == "" then None
    else Some(s)
  }

  /** `exif_tags_to_timestamp`: nothing without a usable DateTimeOriginal;
      otherwise that text, with the offset tag's text appended minus its
      colons when there is one, through `fromisoformat`.  Exceptions from
      cleaning a tag propagate. */
  function ExifTagsToTimestamp(tags: map<int, TagValue>): (r: Outcome<Option<DateTime>>)
    ensures ExifOriginalTimestamp !in tags ==> r == Done(None)
    ensures r.Done? && r.value.Some? ==> Valid(r.value.value)
    ensures ExifOriginalTimestamp in tags && ConvertAndCleanTag(tags[ExifOriginalTimestamp]).Done? ==>
      var stamp := ConvertAndCleanTag(tags[ExifOriginalTimestamp]).value;
      var offset := if ExifOriginalTimestampOffset in tags then ConvertAndCleanTag(tags[ExifOriginalTimestampOffset]) else Done(None);
      && (stamp.None? ==> r == Done(None))
      && (stamp.Some? && offset == Done(None) ==> r == Done(FromIsoFormat(stamp)))
      && (stamp.Some? && offset.Done? && offset.value.Some? ==>
            r == Done(FromIsoFormat(Some(stamp.value + RemoveChar(offset.value.value, ':')))))
      && (stamp.Some? && offset.Raised? ==> r.Raised?)
  {
    var stamp := if ExifOriginalTimestamp in tags then ConvertAndCleanTag(tags[ExifOriginalTimestamp]) else Done(None);
    if stamp.Raised? then Raised(stamp.exc)
    else if stamp.value.None? then Done(None)
    else
      var first := if ExifOriginalTimestampOffset in tags then ConvertAndCleanTag(tags[ExifOriginalTimestampOffset]) else Done(None);
      if first.Raised? then Raised(first.exc)
      else
        var offset := if first.value.None? && ExifTimestampOffset in tags then ConvertAndCleanTag(tags[ExifTimestampOffset]) else first;
        match offset
        case Raised(e) => Raised(e)
        case Done(o) =>
          if o.None? then Done(FromIsoFormat(stamp.value))
          else Done(FromIsoFormat(Some(stamp.value.value + RemoveChar(o.value, ':'))))
  }

  /** What `piexif.load` gave for a file: it raised (unreadable, not a JPEG or
      TIFF), or a tag dictionary with or without an "Exif" block. */
  datatype ExifLoad = LoadFails | Loaded(exif: Option<map<int, TagValue>>)

  /** The timestamp a file offers, or the exception reading it raises. */
  function FileStamp(load: ExifLoad): (r: Outcome<Option<DateTime>>)
    ensures r.Done? && r.value.Some? ==> Valid(r.value.value)
  {
    match load
    case LoadFails => Raised(OSError)
    case Loaded(exif) => if exif.None? then Done(None) else ExifTagsToTimestamp(exif.value)
  }

  /** The timestamp a file contributes, None when it offers none or raises. */
  function Contribution(load: ExifLoad): (r: Option<DateTime>)
    ensures r.Some? ==> Valid(r.value)
  {
    var f := FileStamp(load);
    if f.Done? then f.value else None
  }

  /** The `try` block of `get_first_timestamp`: the file's timestamp replaces
      the running one when there is none yet or it is strictly earlier; a
      failure, including comparing naive with aware, keeps the running one. */
  function Earlier(first: Option<DateTime>, load: ExifLoad): (r: Option<DateTime>)
    requires first.Some? ==> Valid(first.value)
    ensures r.Some? ==> Valid(r.value)
    ensures r.Some? ==> r == first || r == Contribution(load)
    ensures first.None? ==> r == Contribution(load)
    ensures first.Some? ==> r.Some? && (r == first || Before(r.value, first.value) == Done(true))
  {
    var c := FileStamp(load);
    if c.Raised? || c.value.None? then first
    else if first.None? then c.value
    else
      var b := Before(c.value.value, first.value);
      if b == Done(true) then c.value else first
  }

  /** `get_first_timestamp(file, timestamp)`: the earlier of the parsed
      argument and the file's EXIF timestamp, rendered by `isoformat`, or
      the argument itself when neither yields a datetime. */
  function GetFirstTimestamp(load: ExifLoad, timestamp: Option<string>): (r: Option<string>)
    ensures FromIsoFormat(timestamp).None? && Contribution(load).None? ==> r == timestamp
  {
    var e := Earlier(FromIsoFormat(timestamp), load);
    if e.Some? then Some(IsoFormat(e.value)) else timestamp
  }

  /** The running value after visiting the files in order, each step feeding
      the previous result back into `get_first_timestamp`. */
  function RunningTimestamp(loads: seq<ExifLoad>, start: Option<string>): Option<string>
  {
    if loads == [] then start
    else GetFirstTimestamp(loads[|loads| - 1], RunningTimestamp(loads[..|loads| - 1], start))
  }

  // ---------------------------------------------------------------------
  // Each directive reads back what isoformat writes for it

  lemma YearFieldReads(y: int, rest: string)
    requires 0 <= y < 10000
    ensures YearField(FixedDigits(y, YearDigits) + rest) == Some((y, rest))
  {
    var s := FixedDigits(y, YearDigits) + rest;
    assert s[..4] == FixedDigits(y, YearDigits);
    assert s[4..] == rest;
    assert Pow10(4) == 10000;
    FixedDigitsRoundTrip(y, YearDigits);
  }

  lemma MonthFieldReads(m: int, rest: string)
    requires 1 <= m <= 12
    ensures MonthField(Two(m) + rest) == Some((m, rest))
  {
    var s := Two(m) + rest;
    assert s[2..] == rest;
  }

  lemma DayFieldReads(d: int, rest: string)
    requires 1 <= d <= 31
    ensures DayField(Two(d) + rest) == Some((d, rest))
  {
    var s := Two(d) + rest;
    assert s[2..] == rest;
  }

  lemma HourFieldReads(h: int, rest: string)
    requires 0 <= h < 24
    ensures HourField(Two(h) + rest) == Some((h, rest))
  {
    var s := Two(h) + rest;
    assert s[2..] == rest;
  }

  lemma MinuteFieldReads(m: int, rest: string)
    requires 0 <= m < 60
    ensures MinuteField(Two(m) + rest) == Some((m, rest))
  {
    var s := Two(m) + rest;
    assert s[2..] == rest;
  }

  lemma SecondFieldReads(sec: int, rest: string)
    requires 0 <= sec < 60
    ensures SecondField(Two(sec) + rest) == Some((sec, rest))
  {
    var s := Two(sec) + rest;
    assert s[2..] == rest;
  }

  lemma {:induction false} DigitRunOfDigits(s: string, k: nat)
    requires k <= |s| && AllDigits(s[..k])
    ensures DigitRun(s, k) == k
  {
    if k > 0 {
      assert IsDigit(s[..k][0]);
      assert s[1..][..k - 1] == s[..k][1..];
      DigitRunOfDigits(s[1..], k - 1);
    }
  }

  lemma FractionFieldReads(u: int, rest: string)
    requires 0 <= u < MicrosPerSecond
    ensures FractionField(FixedDigits(u, MicroDigits) + rest) == Some((u, rest))
  {
    var s := FixedDigits(u, MicroDigits) + rest;
    assert s[..6] == FixedDigits(u, MicroDigits);
    assert s[6..] == rest;
    DigitRunOfDigits(s, 6);
    assert Pow10(6) == MicrosPerSecond;
    FixedDigitsRoundTrip(u, MicroDigits);
  }

  /** A non-negative whole-second offset reads back from its rendering. */
  lemma ZoneFieldReads(off: int)
    requires 0 <= off < MicrosPerDay && off % MicrosPerSecond == 0
    ensures ZoneField(OffsetText(Some(off))) == Some((off, []))
  {
    var secs := off / MicrosPerSecond;
    var h, m, sec := secs / 3600, secs % 3600 / 60, secs % 60;
    assert (h * 3600 + m * 60 + sec) * MicrosPerSecond == off;
    if sec != 0 {
      assert OffsetText(Some(off)) == "+" + (Two(h) + (":" + (Two(m) + (":" + Two(sec)))));
      ZoneWithSecondsReads(h, m, sec);
    } else {
      assert OffsetText(Some(off)) == "+" + (Two(h) + (":" + Two(m)));
      ZoneWithoutSecondsReads(h, m);
    }
  }

  lemma ZoneWithoutSecondsReads(h: int, m: int)
    requires 0 <= h < 100 && 0 <= m < 60
    ensures ZoneField("+" + (Two(h) + (":" + Two(m)))) == Some(((h * 3600 + m * 60) * MicrosPerSecond, []))
  {
    var s := "+" + (Two(h) + (":" + Two(m)));
    assert s[4..] == Two(m);
  }

  lemma ZoneWithSecondsReads(h: int, m: int, sec: int)
    requires 0 <= h < 100 && 0 <= m < 60 && 0 < sec < 60
    ensures ZoneField("+" + (Two(h) + (":" + (Two(m) + (":" + Two(sec))))))
         == Some(((h * 3600 + m * 60 + sec) * MicrosPerSecond, []))
  {
    var s := "+" + (Two(h) + (":" + (Two(m) + (":" + Two(sec)))));
    assert s[4..] == Two(m) + (":" + Two(sec));
    assert s[4..][2..] == ":" + Two(sec);
    assert s[4..][2..][1..] == Two(sec);
    assert Two(sec)[2..] == [];
  }

  lemma DatePartReads(year: int, month: int, day: int, rest: string)
    requires 1 <= year <= 9999 && 1 <= month <= 12 && 1 <= day <= 31
    ensures DatePart(DateText(year, month, day) + rest, '-') == Some((year, month, day, rest))
  {
    var d := Two(day) + rest;
    var m := Two(month) + ("-" + d);
    var y := FixedDigits(year, YearDigits) + ("-" + m);
    assert DateText(year, month, day) + rest == y;
    YearFieldReads(year, "-" + m);
    MonthFieldReads(month, "-" + d);
    DayFieldReads(day, rest);
  }

  lemma TimePartReads(hour: int, minute: int, second: int, rest: string)
    requires 0 <= hour < 24 && 0 <= minute < 60 && 0 <= second < 60
    ensures TimePart(TimeText(hour, minute, second) + rest) == Some((hour, minute, second, rest))
  {
    var sec := Two(second) + rest;
    var m := Two(minute) + (":" + sec);
    var h := Two(hour) + (":" + m);
    assert TimeText(hour, minute, second) + rest == h;
    HourFieldReads(hour, ":" + m);
    MinuteFieldReads(minute, ":" + sec);
    SecondFieldReads(second, rest);
  }

  // ---------------------------------------------------------------------
  // Which characters a rendering contains, hence the layout it selects

  lemma DigitsLack(s: string, c: char)
    requires AllDigits(s) && !IsDigit(c)
    ensures c !in s
  {
  }

  lemma DateTextLacks(year: int, month: int, day: int, c: char)
    requires 0 <= year < 10000 && 0 <= month < 100 && 0 <= day < 100
    requires !IsDigit(c) && c != '-'
    ensures c !in DateText(year, month, day)
  {
    DigitsLack(FixedDigits(year, YearDigits), c);
  }

  lemma TimeTextLacks(hour: int, minute: int, second: int, c: char)
    requires 0 <= hour < 100 && 0 <= minute < 100 && 0 <= second < 100
    requires !IsDigit(c) && c != ':'
    ensures c !in TimeText(hour, minute, second)
  {
  }

  lemma MicroTextLacks(micro: int, c: char)
    requires 0 <= micro < MicrosPerSecond
    requires !IsDigit(c) && c != '.'
    ensures c !in MicroText(micro)
  {
    if micro != 0 {
      DigitsLack(FixedDigits(micro, MicroDigits), c);
    }
  }

  /** The body of a rendered offset holds digits, colons and, for a
      sub-second offset only, a dot; it always holds a colon. */
  lemma OffsetBodyChars(a: int)
    requires 0 <= a < MicrosPerDay
    ensures '+' !in OffsetBody(a) && '-' !in OffsetBody(a) && ':' in OffsetBody(a)
  {
    var secs := a / MicrosPerSecond;
    var us := a % MicrosPerSecond;
    var tail := (if secs % 60 != 0 || us != 0 then ":" + Two(secs % 60) else "")
      + (if us != 0 then "." + FixedDigits(us, MicroDigits) else "");
    assert OffsetBody(a) == Two(secs / 3600) + (":" + (Two(secs % 3600 / 60) + tail));
    if us != 0 {
      DigitsLack(FixedDigits(us, MicroDigits), '+');
      DigitsLack(FixedDigits(us, MicroDigits), '-');
    }
    assert OffsetBody(a)[2] == ':';
  }

  lemma WholeOffsetBodyLacksDot(a: int)
    requires 0 <= a < MicrosPerDay && a % MicrosPerSecond == 0
    ensures '.' !in OffsetBody(a)
  {
  }

  /** A text whose last `-` lies in a part before its last `:`, and which
      has no `+`, is parsed without `%z`. */
  lemma NoZoneSelected(p: string, x: string)
    requires '+' !in p && '+' !in x && '-' !in x && ':' in x
    ensures !SelectLayout(p + x).zone
  {
    RFindAppend(p, x, '-');
    RFindAppend(p, x, ':');
  }

  lemma NegativeOffsetHidesZone(p: string, b: string)
    requires '+' !in p && '+' !in b && '-' !in b && ':' in b
    ensures !SelectLayout(p + ("-" + b)).zone
  {
    var o := "-" + b;
    RFindAppend(p, o, '-');
    RFindAppend(p, o, ':');
    RFindAppend("-", b, '-');
    RFindAppend("-", b, ':');
  }

  /** The rendering up to the offset. */
  function IsoPrefix(dt: DateTime): string
    requires Valid(dt)
  {
    DateText(dt.year, dt.month, dt.day) + ("T" + (TimeText(dt.hour, dt.minute, dt.second) + MicroText(dt.micro)))
  }

  lemma IsoShape(dt: DateTime)
    requires Valid(dt)
    ensures IsoFormat(dt) == IsoPrefix(dt) + OffsetText(dt.offset)
    ensures 'T' in IsoPrefix(dt)
  {
    var date := DateText(dt.year, dt.month, dt.day);
    var time := TimeText(dt.hour, dt.minute, dt.second);
    var micro := MicroText(dt.micro);
    var offset := OffsetText(dt.offset);
    AppendAssoc(time, micro, offset);
    AppendAssoc("T", time + micro, offset);
    AppendAssoc(date, "T" + (time + micro), offset);
    assert |date| == 10;
    assert IsoPrefix(dt)[10] == 'T';
  }

  /** `isoformat` output always selects the `T` layout, and selects `%z`
      exactly when the value carries a non-negative offset: a negative
      offset's `-` comes before its own `:`. */
  lemma IsoLayout(dt: DateTime)
    requires Valid(dt)
    ensures SelectLayout(IsoFormat(dt)).base == TLayout
    ensures SelectLayout(IsoFormat(dt)).zone <==> dt.offset.Some? && dt.offset.value >= 0
  {
    IsoShape(dt);
    IsoPrefixChars(dt);
    OffsetSelectsZone(IsoPrefix(dt), dt.offset);
  }

  /** After a prefix with a `T` that selects no `%z` on its own, a rendered
      offset selects `%z` exactly when it is non-negative. */
  lemma OffsetSelectsZone(p: string, offset: Option<int>)
    requires offset.Some? ==> -MicrosPerDay < offset.value < MicrosPerDay
    requires 'T' in p && '+' !in p && !SelectLayout(p).zone
    ensures SelectLayout(p + OffsetText(offset)).base == TLayout
    ensures SelectLayout(p + OffsetText(offset)).zone <==> offset.Some? && offset.value >= 0
  {
    if offset.None? {
      assert p + OffsetText(offset) == p;
    } else if offset.value < 0 {
      var a := -offset.value;
      assert offset == Some(-a);
      NegativeOffsetText(a);
      NegativeOffsetHidesZone(p, OffsetBody(a));
    } else {
      PositiveOffsetShowsZone(p, offset.value);
    }
  }

  lemma PositiveOffsetShowsZone(p: string, off: int)
    requires 0 <= off < MicrosPerDay
    ensures SelectLayout(p + OffsetText(Some(off))).zone
  {
    assert (p + OffsetText(Some(off)))[|p|] == '+';
  }

  /** An offset of `-a` renders as `-` and a body of digits, colons and dots. */
  lemma NegativeOffsetText(a: int)
    requires 0 < a < MicrosPerDay
    ensures OffsetText(Some(-a)) == "-" + OffsetBody(a)
    ensures '+' !in OffsetBody(a) && '-' !in OffsetBody(a) && ':' in OffsetBody(a)
  {
    OffsetBodyChars(a);
  }

  /** The rendering before the offset has no `+`, and on its own selects no `%z`. */
  lemma IsoPrefixChars(dt: DateTime)
    requires Valid(dt)
    ensures '+' !in IsoPrefix(dt) && !SelectLayout(IsoPrefix(dt)).zone
  {
    var d := DateText(dt.year, dt.month, dt.day);
    var t := TimeText(dt.hour, dt.minute, dt.second);
    var m := MicroText(dt.micro);
    DateTextLacks(dt.year, dt.month, dt.day, '+');
    TimeTextLacks(dt.hour, dt.minute, dt.second, '+');
    MicroTextLacks(dt.micro, '+');
    TimeTextLacks(dt.hour, dt.minute, dt.second, '-');
    MicroTextLacks(dt.micro, '-');
    var x := "T" + (t + m);
    assert x[3] == ':';
    NoZoneSelected(d, x);
  }

  /** Without a sub-second offset, `isoformat` output has a dot exactly when
      it has microseconds. */
  lemma IsoFraction(dt: DateTime)
    requires Renderable(dt)
    ensures SelectLayout(IsoFormat(dt)).fraction <==> dt.micro != 0
  {
    DateTextLacks(dt.year, dt.month, dt.day, '.');
    TimeTextLacks(dt.hour, dt.minute, dt.second, '.');
    OffsetTextLacksDot(dt.offset);
    MicroTextDot(dt.micro);
    DotOnlyIn(DateText(dt.year, dt.month, dt.day), TimeText(dt.hour, dt.minute, dt.second),
              MicroText(dt.micro), OffsetText(dt.offset));
  }

  lemma DotOnlyIn(d: string, t: string, m: string, o: string)
    requires '.' !in d && '.' !in t && '.' !in o
    ensures '.' in d + ("T" + (t + (m + o))) <==> '.' in m
  {
  }

  lemma MicroTextDot(micro: int)
    requires 0 <= micro < MicrosPerSecond
    ensures '.' in MicroText(micro) <==> micro != 0
  {
    if micro != 0 {
      assert MicroText(micro)[0] == '.';
    }
  }

  lemma OffsetTextLacksDot(offset: Option<int>)
    requires offset.Some? ==> 0 <= offset.value < MicrosPerDay && offset.value % MicrosPerSecond == 0
    ensures '.' !in OffsetText(offset)
  {
    if offset.Some? {
      WholeOffsetBodyLacksDot(offset.value);
    }
  }

  // ---------------------------------------------------------------------
  // Round trip

  /** The values whose `isoformat` output `fromisoformat` reads back: naive
      ones, and aware ones with a non-negative offset of whole seconds. */
  predicate Renderable(dt: DateTime)
  {
    Valid(dt) && (dt.offset.Some? ==> dt.offset.value >= 0 && dt.offset.value % MicrosPerSecond == 0)
  }

  lemma TailReads(dt: DateTime)
    requires Renderable(dt)
    ensures Tail(MicroText(dt.micro) + OffsetText(dt.offset), Layout(TLayout, dt.micro != 0, dt.offset.Some?))
         == Some((dt.micro, dt.offset))
  {
    var o := OffsetText(dt.offset);
    if dt.offset.Some? {
      ZoneFieldReads(dt.offset.value);
    }
    if dt.micro == 0 {
      assert MicroText(dt.micro) + o == o;
    } else {
      var x := MicroText(dt.micro) + o;
      assert x[1..] == FixedDigits(dt.micro, MicroDigits) + o;
      FractionFieldReads(dt.micro, o);
    }
  }

  /** Date, separator and time of an `isoformat` rendering read back under
      the `T` layout, leaving the microseconds and offset text. */
  lemma DateAndTimeRead(dt: DateTime, layout: Layout)
    requires Valid(dt) && layout.base == TLayout
    ensures var s := IsoFormat(dt);
      var rest := MicroText(dt.micro) + OffsetText(dt.offset);
      && DatePart(s, DateSeparator(layout.base)) == Some((dt.year, dt.month, dt.day, "T" + (TimeText(dt.hour, dt.minute, dt.second) + rest)))
      && DateTimeSeparator("T" + (TimeText(dt.hour, dt.minute, dt.second) + rest), layout.base) == Some(TimeText(dt.hour, dt.minute, dt.second) + rest)
      && TimePart(TimeText(dt.hour, dt.minute, dt.second) + rest) == Some((dt.hour, dt.minute, dt.second, rest))
  {
    var rest := MicroText(dt.micro) + OffsetText(dt.offset);
    var t := TimeText(dt.hour, dt.minute, dt.second) + rest;
    DatePartReads(dt.year, dt.month, dt.day, "T" + t);
    assert ("T" + t)[1..] == t;
    TimePartReads(dt.hour, dt.minute, dt.second, rest);
  }

  /** `fromisoformat(dt.isoformat())` gives `dt` back for naive values and
      for non-negative whole-second offsets, so the running timestamp
      survives being passed from one file to the next as text. */
  lemma IsoRoundTrip(dt: DateTime)
    requires Renderable(dt)
    ensures FromIsoFormat(Some(IsoFormat(dt))) == Some(dt)
  {
    var s := IsoFormat(dt);
    IsoLayout(dt);
    IsoFraction(dt);
    var layout := SelectLayout(s);
    assert layout == Layout(TLayout, dt.micro != 0, dt.offset.Some?);
    DateAndTimeRead(dt, layout);
    TailReads(dt);
  }

  /** A value with a negative offset renders to text that `fromisoformat`
      refuses: the text has no `+` and its last `-` precedes its last `:`,
      so `%z` is not requested and the offset is left unconverted. */
  lemma NegativeOffsetNotReparsed(dt: DateTime)
    requires Valid(dt) && dt.offset.Some? && dt.offset.value < 0
    ensures FromIsoFormat(Some(IsoFormat(dt))) == None
  {
    var s := IsoFormat(dt);
    IsoLayout(dt);
    var layout := SelectLayout(s);
    DateAndTimeRead(dt, layout);
    var a := -dt.offset.value;
    assert dt.offset == Some(-a);
    NegativeOffsetText(a);
    TailRefusesNegative(dt.micro, "-" + OffsetBody(a), layout);
  }

  /** Without `%z`, text left after the fraction that starts with `-` (a
      rendered negative offset) is refused. */
  lemma TailRefusesNegative(micro: int, o: string, layout: Layout)
    requires 0 <= micro < MicrosPerSecond && o != [] && o[0] == '-' && !layout.zone
    ensures Tail(MicroText(micro) + o, layout) == None
  {
    var x := MicroText(micro) + o;
    if layout.fraction {
      if micro != 0 {
        assert x[0] == '.';
        assert x[1..] == FixedDigits(micro, MicroDigits) + o;
        FractionFieldReads(micro, o);
      } else {
        assert x == o;
      }
    } else {
      assert x != [];
    }
  }

  // ---------------------------------------------------------------------
  // EXIF quirks

  /** A colon-style stamp (`YYYY:MM:DD ...`) with an offset containing `-`
      selects the dash layout, because the test for `-` comes before the
      colon layout is considered, and so never parses. */
  lemma ColonStampNegativeOffsetFails(stamp: string, offset: string)
    requires |stamp| >= 5 && stamp[4] == ':'
    requires 'T' !in stamp && 'T' !in offset && '-' in offset
    ensures FromIsoFormat(Some(stamp + RemoveChar(offset, ':'))) == None
  {
    var s := stamp + RemoveChar(offset, ':');
    assert '-' in RemoveChar(offset, ':');
    assert SelectLayout(s).base == DashLayout;
    assert s[4..][0] == ':';
  }

  /** The same at the level of the EXIF tags: such a file yields no timestamp. */
  lemma ExifColonStampNegativeOffset(tags: map<int, TagValue>, stamp: string, offset: string)
    requires ExifOriginalTimestamp in tags && ConvertAndCleanTag(tags[ExifOriginalTimestamp]) == Done(Some(stamp))
    requires ExifOriginalTimestampOffset in tags && ConvertAndCleanTag(tags[ExifOriginalTimestampOffset]) == Done(Some(offset))
    requires |stamp| >= 5 && stamp[4] == ':'
    requires 'T' !in stamp && 'T' !in offset && '-' in offset
    ensures ExifTagsToTimestamp(tags) == Done(None)
  {
    ColonStampNegativeOffsetFails(stamp, offset);
  }

  // ---------------------------------------------------------------------
  // get_first_timestamp

  /** The result is never later than the parsed argument: it reads back as
      either that value or one strictly before it. */
  lemma FirstTimestampNeverLater(load: ExifLoad, timestamp: Option<string>)
    requires FromIsoFormat(timestamp).Some? && Renderable(FromIsoFormat(timestamp).value)
    requires Contribution(load).Some? ==> Renderable(Contribution(load).value)
    ensures var t := FromIsoFormat(timestamp).value;
      var r := FromIsoFormat(GetFirstTimestamp(load, timestamp));
      r.Some? && Instant(r.value) <= Instant(t)
  {
    var e := Earlier(FromIsoFormat(timestamp), load);
    IsoRoundTrip(e.value);
  }

  /** A file that cannot be read, has no EXIF block or yields no timestamp
      leaves the running value as it was, only normalised by `isoformat`. */
  lemma UnusableFileKeepsRunning(load: ExifLoad, timestamp: Option<string>)
    requires Contribution(load).None?
    ensures GetFirstTimestamp(load, timestamp)
         == if FromIsoFormat(timestamp).Some? then Some(IsoFormat(FromIsoFormat(timestamp).value)) else timestamp
  {
  }

  /** Comparing a naive with an aware datetime raises TypeError, which the
      `try` swallows: the file is skipped. */
  lemma MixedAwarenessSkipsFile(load: ExifLoad, timestamp: Option<string>)
    requires FromIsoFormat(timestamp).Some? && Contribution(load).Some?
    requires FromIsoFormat(timestamp).value.offset.Some? != Contribution(load).value.offset.Some?
    ensures GetFirstTimestamp(load, timestamp) == Some(IsoFormat(FromIsoFormat(timestamp).value))
  {
  }

  /** One step of the running fold, on datetimes: whichever of the running
      value and the file's contribution survives is the earlier of the two
      and reads back through `isoformat`. */
  lemma EarlierStep(m: Option<DateTime>, load: ExifLoad)
    requires m.Some? ==> Renderable(m.value)
    requires Contribution(load).Some? ==> Renderable(Contribution(load).value)
    requires m.Some? && Contribution(load).Some? ==> m.value.offset.Some? == Contribution(load).value.offset.Some?
    ensures var e := Earlier(m, load); var c := Contribution(load);
      && (e.None? <==> m.None? && c.None?)
      && (e.Some? ==> (e == m || e == c) && FromIsoFormat(Some(IsoFormat(e.value))) == e)
      && (e.Some? && m.Some? ==> Instant(e.value) <= Instant(m.value))
      && (e.Some? && c.Some? ==> Instant(e.value) <= Instant(c.value))
  {
    var e := Earlier(m, load);
    if e.Some? {
      IsoRoundTrip(e.value);
    }
  }

  /** The timestamp each file contributes, in order. */
  function Contributions(loads: seq<ExifLoad>): (cs: seq<Option<DateTime>>)
    ensures |cs| == |loads|
    ensures forall i :: 0 <= i < |loads| ==> cs[i] == Contribution(loads[i])
  {
    seq(|loads|, i requires 0 <= i < |loads| => Contribution(loads[i]))
  }

  /** Every present entry renders faithfully and has the given awareness. */
  ghost predicate AllRenderable(cs: seq<Option<DateTime>>, aware: bool)
  {
    forall i :: 0 <= i < |cs| && cs[i].Some? ==> Renderable(cs[i].value) && cs[i].value.offset.Some? == aware
  }

  /** `r` is absent exactly when no entry is present, and otherwise is one
      of the entries and no later than any of them. */

  ghost predicate EarliestAmong(r: Option<DateTime>, cs: seq<Option<DateTime>>)
    requires forall i :: 0 <= i < |cs| && cs[i].Some? ==> Valid(cs[i].value)
  {
    && (r.None? <==> forall i :: 0 <= i < |cs| ==> cs[i].None?)
    && (r.Some? ==>
          && (exists i :: 0 <= i < |cs| && cs[i] == r)
          && (forall i :: 0 <= i < |cs| && cs[i].Some? ==> Instant(r.value) <= Instant(cs[i].value)))
  }

  /** Over a sequence of files whose timestamps are all naive or all aware
      (and render faithfully), the running value starting from nothing ends
      as nothing exactly when no file has a timestamp, and otherwise reads
      back as the earliest file timestamp. */
  lemma {:induction false} RunningTimestampIsEarliest(loads: seq<ExifLoad>, aware: bool)
    requires AllRenderable(Contributions(loads), aware)
    ensures var r := RunningTimestamp(loads, None);
      && (r.Some? ==> FromIsoFormat(r).Some?)
      && EarliestAmong(FromIsoFormat(r), Contributions(loads))
  {
    if loads == [] {
      assert FromIsoFormat(None) == None;
    } else {
      var n := |loads| - 1;
      var cs := Contributions(loads);
      assert Contributions(loads[..n]) == cs[..n];
      assert cs[n] == Contribution(loads[n]);
      assert AllRenderable(cs[..n], aware) by {
        forall i | 0 <= i < n && cs[..n][i].Some?
          ensures Renderable(cs[..n][i].value) && cs[..n][i].value.offset.Some? == aware
        {
          assert cs[..n][i] == cs[i];
        }
      }
      var prev := RunningTimestamp(loads[..n], None);
      assert RunningTimestamp(loads, None) == GetFirstTimestamp(loads[n], prev);
      RunningTimestampIsEarliest(loads[..n], aware);
      FoldStep(cs, prev, loads[n], aware);
    }
  }

  /** The inductive step of `RunningTimestampIsEarliest`. */
  lemma FoldStep(cs: seq<Option<DateTime>>, prev: Option<string>, load: ExifLoad, aware: bool)
    requires |cs| > 0 && cs[|cs| - 1] == Contribution(load)
    requires AllRenderable(cs, aware)
    requires prev.Some? ==> FromIsoFormat(prev).Some?
    requires EarliestAmong(FromIsoFormat(prev), cs[..|cs| - 1])
    ensures var r := GetFirstTimestamp(load, prev);
      && (r.Some? ==> FromIsoFormat(r).Some?)
      && EarliestAmong(FromIsoFormat(r), cs)
  {
    var n := |cs| - 1;
    var m := FromIsoFormat(prev);
    if m.Some? {
      var k :| 0 <= k < n && cs[..n][k] == m;
      assert cs[k] == m;
    }
    RunningStep(load, prev);
    EarlierStep(m, load);
    EarliestExtends(m, Earlier(m, load), cs);
  }

  /** One step of the running fold, on strings: the new running value reads
      back as whichever of the old value and the file's stamp survives. */
  lemma RunningStep(load: ExifLoad, prev: Option<string>)
    requires prev.Some? ==> FromIsoFormat(prev).Some?
    requires FromIsoFormat(prev).Some? ==> Renderable(FromIsoFormat(prev).value)
    requires Contribution(load).Some? ==> Renderable(Contribution(load).value)
    ensures var r := GetFirstTimestamp(load, prev);
      && (r.Some? ==> FromIsoFormat(r).Some?)
      && FromIsoFormat(r) == Earlier(FromIsoFormat(prev), load)
  {
    var e := Earlier(FromIsoFormat(prev), load);
    if e.Some? {
      IsoRoundTrip(e.value);
    } else {
      assert prev == None;
    }
  }

  /** Bookkeeping for the inductive step: the earliest of the first entries
      combined with the last one is the earliest of all of them. */
  lemma EarliestExtends(m: Option<DateTime>, e: Option<DateTime>, cs: seq<Option<DateTime>>)
    requires |cs| > 0
    requires forall i :: 0 <= i < |cs| && cs[i].Some? ==> Valid(cs[i].value)
    requires m.Some? ==> Valid(m.value)
    requires e.Some? ==> Valid(e.value)
    requires EarliestAmong(m, cs[..|cs| - 1])
    requires var c := cs[|cs| - 1];
      && (e.None? <==> m.None? && c.None?)
      && (e.Some? ==> e == m || e == c)
      && (e.Some? && m.Some? ==> Instant(e.value) <= Instant(m.value))
      && (e.Some? && c.Some? ==> Instant(e.value) <= Instant(c.value))
    ensures EarliestAmong(e, cs)
  {
    var n := |cs| - 1;
    assert forall i :: 0 <= i < n ==> cs[..n][i] == cs[i];
    if e == m && m.Some? {
      assert m in cs[..n];
    }
  }
}
