/**
 * Genealogical dates: the printer, the parser, and exactly which dates survive being printed and parsed.
 * The grammar is the one of the GEDCOM 5.5.1 standard, chapter 2, "Primitive Elements of the
 * Lineage-Linked Form" (DATE_VALUE, DATE_CALENDAR_ESCAPE).
 */
module GenDates {
  import opened Base
  import opened Text

  datatype Qualifier = Unset | Exact | About | Calculated | Estimated | Before | Afterwards | Between | From | Interpreted

  /** A point in a calendar, as far as it is known. */
  datatype Day = Day(year: Option<int64>, month: Option<int64>, day: Option<int64>)

  const NO_DAY := Day(None, None, None)

  datatype GenDate = GenDate(raw: string, qualifier: Qualifier, first: Day, second: Day, calendar: string, interpretedFrom: string)

  const EMPTY := GenDate("", Unset, NO_DAY, NO_DAY, "", "")

  const GREGORIAN := "DGREGORIAN"
  const JULIAN := "DJULIAN"
  const HEBREW := "DHEBREW"
  const FRENCH := "DFRENCH R"

  predicate IsCalendarToken(token: string)
  {
    token == GREGORIAN || token == JULIAN || token == HEBREW || token == FRENCH
  }

  const MONTHS := ["JAN", "FEB", "MAR", "APR", "MAY", "JUN", "JUL", "AUG", "SEP", "OCT", "NOV", "DEC"]
  const HEBREW_MONTHS := ["TSH", "CSH", "KSL", "TVT", "SHV", "ADR", "ADS", "NSN", "IYR", "SVN", "TMZ", "AAV", "ELL"]
  const FRENCH_MONTHS := ["VEND", "BRUM", "FRIM", "NIVO", "PLUV", "VENT", "GERM", "FLOR", "PRAI", "MESS", "THER", "FRUC", "COMP"]

  /** The month codes of a calendar; month n is the n-th of them. */
  function MonthsFor(calendar: string): (codes: seq<string>)
  {
    if calendar == HEBREW then HEBREW_MONTHS else if calendar == FRENCH then FRENCH_MONTHS else MONTHS
  }

  function Find(codes: seq<string>, w: string): (k: int)
    ensures -1 <= k < |codes|
    ensures k >= 0 ==> codes[k] == w
  {
    if codes == [] then -1
    else if codes[|codes| - 1] == w then |codes| - 1
    else Find(codes[..|codes| - 1], w)
  }

  /** The number of the month a code stands for. */
  function MonthNumber(calendar: string, w: string): Option<int64>
    requires |MonthsFor(calendar)| < MAX_INT
  {
    var k := Find(MonthsFor(calendar), w);
    if k < 0 then None else Some(k + 1)
  }

  function MonthCode(calendar: string, m: int): Option<string>
  {
    if 1 <= m <= |MonthsFor(calendar)| then Some(MonthsFor(calendar)[m - 1]) else None
  }

  // --- Parsing ---

  /** What the parser reads from the words of a simple date: year; month year; day month year. */
  function ReadWords(words: seq<string>, calendar: string): Day
  {
    if |words| == 1 then Day(Atoi(words[0]), None, None)
    else if |words| == 2 then
      var m := MonthNumber(calendar, words[0]);
      if m.None? then NO_DAY else Day(Atoi(words[1]), m, None)
    else if |words| == 3 then Day(Atoi(words[2]), MonthNumber(calendar, words[1]), Atoi(words[0]))
    else NO_DAY
  }

  function ReadSimple(s: string, calendar: string): Day
  {
    ReadWords(Fields(TrimSpace(s)), calendar)
  }

  method ParseSimpleDate(s: string, calendar: string) returns (d: Day)
    ensures d == ReadSimple(s, calendar)
  {
    d := NO_DAY;
    var parts := Fields(TrimSpace(s));
    if |parts| == 1 {
      var y := Atoi(parts[0]);
      if y.Some? {
        d := d.(year := y);
      }
    } else if |parts| == 2 {
      var m := MonthNumber(calendar, parts[0]);
      if m.Some? {
        d := d.(month := m);
        var y := Atoi(parts[1]);
        if y.Some? {
          d := d.(year := y);
        }
      }
    } else if |parts| == 3 {
      var n := Atoi(parts[0]);
      if n.Some? {
        d := d.(day := n);
      }
      var m := MonthNumber(calendar, parts[1]);
      if m.Some? {
        d := d.(month := m);
      }
      var y := Atoi(parts[2]);
      if y.Some? {
        d := d.(year := y);
      }
    }
  }

  /** The first calendar escape, when its token is known, and the rest with its white space normalised. */
  function ExtractCalendarEscape(s: string): (r: Option<(string, string)>)
    ensures r.Some? ==> IsCalendarToken(r.value.0) && |r.value.1| < |s|
  {
    var open := Cut(s, "@#");
    if open.None? then None
    else
      var close := Cut(open.value.1, "@");
      if close.None? || !IsCalendarToken(close.value.0) then None
      else
        var remainder := open.value.0 + " " + close.value.1;
        RejoinShorter(remainder);
        Some((close.value.0, Join(Fields(remainder))))
  }

  /** The qualifier keywords in the order they are tried; each counts only with a space behind it. */
  const QUALIFIERS := [
    ("ABT", About), ("ABOUT", About), ("CAL", Calculated), ("EST", Estimated), ("BEF", Before), ("BEFORE", Before),
    ("AFT", Afterwards), ("AFTER", Afterwards), ("BET", Between), ("FROM", From)]

  /** The qualifier of the first keyword that opens the text, and what follows it. */
  function TakeQualifier(table: seq<(string, Qualifier)>, work: string): (Qualifier, string)
  {
    if table == [] then (Exact, work)
    else if table[0].0 + " " <= work then (table[0].1, work[|table[0].0| + 1..])
    else TakeQualifier(table[1..], work)
  }

  function SeparatorOf(q: Qualifier): Option<string>
  {
    if q == Between then Some(" AND ") else if q == From then Some(" TO ") else None
  }

  function ReadInterpreted(s: string, calendar: string): GenDate
    requires |s| >= 4
  {
    var rest := TrimSpace(s[4..]);
    var split := Cut(rest, "(");
    if split.None? then GenDate(s, Interpreted, ReadSimple(ToUpper(rest), calendar), NO_DAY, calendar, "")
    else GenDate(s, Interpreted, ReadSimple(ToUpper(TrimSpace(split.value.0)), calendar), NO_DAY, calendar,
                 UpToLast(split.value.1, ')'))
  }

  /** What the parser reads once the calendar is known. */
  function ReadQualified(s: string, calendar: string, q: Qualifier, body: string): GenDate
  {
    var split := if SeparatorOf(q).Some? then Cut(body, SeparatorOf(q).value) else None;
    if split.Some? then
      GenDate(s, q, ReadSimple(TrimSpace(split.value.0), calendar), ReadSimple(TrimSpace(split.value.1), calendar), calendar, "")
    else GenDate(s, q, ReadSimple(body, calendar), NO_DAY, calendar, "")
  }

  function CalendarAndWork(upper: string): (string, string)
  {
    var escape := ExtractCalendarEscape(upper);
    if escape.Some? then escape.value else (GREGORIAN, upper)
  }

  function Read(text: string): GenDate
  {
    var s := TrimSpace(text);
    if s == "" then EMPTY
    else
      var (calendar, work) := CalendarAndWork(ToUpper(s));
      if "INT " <= work then
        assert |work| <= |s|;
        ReadInterpreted(s, calendar)
      else
        var (q, body) := TakeQualifier(QUALIFIERS, work);
        ReadQualified(s, calendar, q, body)
  }

  method ParseInterpretedGenDate(s: string, base: GenDate) returns (gd: GenDate)
    requires |s| >= 4 && base.first == base.second == NO_DAY && base.raw == s && base.interpretedFrom == ""
    ensures gd == ReadInterpreted(s, base.calendar)
  {
    gd := base.(qualifier := Interpreted);
    var rest := TrimSpace(s[4..]);
    var datePart := rest;
    var start := Cut(rest, "(");
    if start.Some? {
      datePart := TrimSpace(start.value.0);
      gd := gd.(interpretedFrom := UpToLast(start.value.1, ')'));
    }
    var d := ParseSimpleDate(ToUpper(datePart), gd.calendar);
    gd := gd.(first := d);
  }

  /** The table-driven lookup: the first keyword that opens the text. */
  method StripQualifier(work: string) returns (q: Qualifier, body: string)
    ensures (q, body) == TakeQualifier(QUALIFIERS, work)
  {
    q, body := Exact, work;
    var i := 0;
    while i < |QUALIFIERS|
      invariant 0 <= i <= |QUALIFIERS|
      invariant q == Exact && body == work && TakeQualifier(QUALIFIERS[i..], work) == TakeQualifier(QUALIFIERS, work)
    {
      if QUALIFIERS[i].0 + " " <= work {
        return QUALIFIERS[i].1, work[|QUALIFIERS[i].0| + 1..];
      }
      assert QUALIFIERS[i..][1..] == QUALIFIERS[i + 1..];
      i := i + 1;
    }
  }

  method ParseGenDate(text: string) returns (gd: GenDate)
    ensures gd == Read(text)
  {
    hide Cut, TrimSpace, ToUpper, ExtractCalendarEscape, ReadSimple, ReadInterpreted, MonthsFor, Fields, TakeQualifier;
    var s := TrimSpace(text);
    if s == "" {
      return EMPTY;
    }
    gd := GenDate(s, Exact, NO_DAY, NO_DAY, GREGORIAN, "");
    var work := ToUpper(s);
    var escape := ExtractCalendarEscape(work);
    if escape.Some? {
      gd := gd.(calendar := escape.value.0);
      work := escape.value.1;
    }
    if "INT " <= work {
      gd := ParseInterpretedGenDate(s, gd);
      return;
    }
    var q;
    q, work := StripQualifier(work);
    gd := gd.(qualifier := q);
    if gd.qualifier == Between {
      var parts := Cut(work, " AND ");
      if parts.Some? {
        var first := ParseSimpleDate(TrimSpace(parts.value.0), gd.calendar);
        var second := ParseSimpleDate(TrimSpace(parts.value.1), gd.calendar);
        gd := gd.(first := first, second := second);
        return;
      }
    }
    if gd.qualifier == From {
      var parts := Cut(work, " TO ");
      if parts.Some? {
        var first := ParseSimpleDate(TrimSpace(parts.value.0), gd.calendar);
        var second := ParseSimpleDate(TrimSpace(parts.value.1), gd.calendar);
        gd := gd.(first := first, second := second);
        return;
      }
    }
    var first := ParseSimpleDate(work, gd.calendar);
    gd := gd.(first := first);
  }

  // --- Printing ---

  /** The words of a simple date; a month the calendar lacks is left out. */
  function DateWords(calendar: string, d: Day): seq<string>
    requires d.year.Some?
  {
    (if d.day.Some? then [Itoa(d.day.value)] else [])
    + (if d.month.Some? && MonthCode(calendar, d.month.value).Some? then [MonthCode(calendar, d.month.value).value] else [])
    + [Itoa(d.year.value)]
  }

  function Simple(calendar: string, d: Day): string
  {
    if d.year.None? then "" else Join(DateWords(calendar, d))
  }

  method FormatSimpleDate(calendar: string, d: Day) returns (text: string)
    ensures text == Simple(calendar, d)
  {
    if d.year.None? {
      return "";
    }
    var parts: seq<string> := [];
    if d.day.Some? {
      parts := parts + [Itoa(d.day.value)];
    }
    if d.month.Some? {
      var code := MonthCode(calendar, d.month.value);
      if code.Some? {
        parts := parts + [code.value];
      }
    }
    parts := parts + [Itoa(d.year.value)];
    assert parts == DateWords(calendar, d);
    text := Join(parts);
  }

  function CalendarEscape(calendar: string): string
  {
    if calendar == "" || calendar == GREGORIAN then "" else "@#" + calendar + "@ "
  }

  /** The keyword a printed qualifier opens with, as words. */
  function Keyword(q: Qualifier): seq<string>
  {
    match q
    case About => ["ABT"]
    case Calculated => ["CAL"]
    case Estimated => ["EST"]
    case Before => ["BEF"]
    case Afterwards => ["AFT"]
    case Between => ["BET"]
    case From => ["FROM"]
    case _ => []
  }

  function Opening(q: Qualifier): string
  {
    if Keyword(q) == [] then "" else Keyword(q)[0] + " "
  }

  function Print(g: GenDate): string
  {
    var date := CalendarEscape(g.calendar) + Simple(g.calendar, g.first);
    if g.first.year.None? then ""
    else if SeparatorOf(g.qualifier).Some? then
      Opening(g.qualifier) + date + SeparatorOf(g.qualifier).value + Simple(g.calendar, g.second)
    else if g.qualifier == Interpreted then
      "INT " + date + (if g.interpretedFrom != "" then " (" + g.interpretedFrom + ")" else "")
    else Opening(g.qualifier) + date
  }

  // --- Which dates survive ---

  predicate IsRange(q: Qualifier)
  {
    q == Between || q == From
  }

  function CalendarOf(g: GenDate): string
  {
    if g.calendar == "" then GREGORIAN else g.calendar
  }

  /** Equal but for the raw text and for the name of the default calendar. */
  predicate Same(a: GenDate, b: GenDate)
  {
    && a.qualifier == b.qualifier && a.first == b.first && a.second == b.second
    && a.interpretedFrom == b.interpretedFrom && CalendarOf(a) == CalendarOf(b)
  }

  /** A known year, a month the calendar has, and no day without a month. */
  predicate DayOk(calendar: string, d: Day)
  {
    && d.year.Some?
    && (d.month.Some? ==> 1 <= d.month.value <= |MonthsFor(calendar)|)
    && (d.day.Some? ==> d.month.Some?)
  }

  /** A phrase in which the parser finds no escape of another calendar. */
  predicate PhraseHarmless(phrase: string)
  {
    var escape := ExtractCalendarEscape(ToUpper(phrase));
    escape.None? || escape.value.0 == GREGORIAN
  }

  /**
   * The parser never strips the escape from an interpreted date, so in other calendars it takes the
   * escape's own words for date words: only the shapes in which they are ignored come through.
   */
  predicate InterpretedOk(g: GenDate)
  {
    if CalendarOf(g) == GREGORIAN then PhraseHarmless(g.interpretedFrom)
    else if g.calendar == FRENCH then g.first.month.None? && g.first.day.None?
    else g.first.month.Some? && g.first.day.None?
  }

  predicate WellFormed(g: GenDate)
  {
    && g.qualifier != Unset
    && DayOk(g.calendar, g.first)
    && (if IsRange(g.qualifier) then DayOk(g.calendar, g.second) else g.second == NO_DAY)
    && (if g.qualifier == Interpreted then InterpretedOk(g) else g.interpretedFrom == "")
  }
}
