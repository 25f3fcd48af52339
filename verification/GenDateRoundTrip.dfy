/** Printing a date and parsing it back: for every date, exactly when that gives the date again. */
module GenDateRoundTrip {
  import opened Base
  import opened Text
  import opened GenDates

  // --- The words of a printed date ---

  /** A plain word free of '@' that is none of the parser's keywords. */
  predicate DateWord(w: string)
  {
    PlainWord(w) && '@' !in w && w != "AND" && w != "TO" && w != "INT" && forall i :: 0 <= i < |QUALIFIERS| ==> QUALIFIERS[i].0 != w
  }

  predicate AllDateWords(words: seq<string>)
  {
    forall i :: 0 <= i < |words| ==> DateWord(words[i])
  }

  predicate Opens(w: string, a: char, b: char, c: char)
  {
    |w| >= 3 && w[0] == a && w[1] == b && w[2] == c
  }

  /** The first three letters of a keyword. */
  predicate OpensKeyword(w: string)
  {
    || Opens(w, 'A', 'B', 'T') || Opens(w, 'A', 'B', 'O') || Opens(w, 'C', 'A', 'L') || Opens(w, 'E', 'S', 'T')
    || Opens(w, 'B', 'E', 'F') || Opens(w, 'A', 'F', 'T') || Opens(w, 'B', 'E', 'T') || Opens(w, 'F', 'R', 'O')
    || Opens(w, 'A', 'N', 'D') || Opens(w, 'I', 'N', 'T')
  }

  predicate Code(w: string)
  {
    |w| >= 3 && (forall i :: 0 <= i < |w| ==> 'A' <= w[i] <= 'Z') && !OpensKeyword(w)
  }

  lemma CodeIsDateWord(w: string)
    requires Code(w)
    ensures DateWord(w)
  {
    forall i | 0 <= i < |QUALIFIERS| ensures OpensKeyword(QUALIFIERS[i].0) {
    }
    assert OpensKeyword("AND") && OpensKeyword("INT");
  }

  lemma NumberIsDateWord(n: int)
    ensures DateWord(Itoa(n))
    ensures Itoa(n)[0] == '-' || IsDigit(Itoa(n)[0])
  {
    var size: nat := if n < 0 then -n else n;
    DigitsRead(size);
    var w := Itoa(n);
    assert forall i :: 0 <= i < |w| ==> w[i] == '-' || IsDigit(w[i]);
    forall i | 0 <= i < |QUALIFIERS| ensures QUALIFIERS[i].0 != w {
      assert 'A' <= QUALIFIERS[i].0[0] <= 'Z';
    }
    assert "AND"[0] == 'A' && "TO"[0] == 'T' && "INT"[0] == 'I';
  }

  lemma GregorianCodes()
    ensures forall i :: 0 <= i < |MONTHS| ==> Code(MONTHS[i])
  {
  }

  lemma HebrewCodes()
    ensures forall i :: 0 <= i < |HEBREW_MONTHS| ==> Code(HEBREW_MONTHS[i])
  {
  }

  lemma FrenchCodes()
    ensures forall i :: 0 <= i < |FRENCH_MONTHS| ==> Code(FRENCH_MONTHS[i])
  {
  }

  lemma MonthsAreCodes(calendar: string)
    ensures forall i :: 0 <= i < |MonthsFor(calendar)| ==> Code(MonthsFor(calendar)[i])
  {
    hide Code;
    GregorianCodes();
    HebrewCodes();
    FrenchCodes();
  }

  /** Two codes of one calendar differ in one of their first four letters. */
  predicate Differ(a: string, b: string)
  {
    |a| >= 3 && |b| >= 3 && (a[0] != b[0] || a[1] != b[1] || a[2] != b[2] || (|a| == 4 && |b| == 4 && a[3] != b[3]))
  }

  lemma GregorianDiffer()
    ensures forall i, j :: 0 <= i < j < |MONTHS| ==> Differ(MONTHS[i], MONTHS[j])
  {
  }

  lemma HebrewDiffer()
    ensures forall i, j :: 0 <= i < j < |HEBREW_MONTHS| ==> Differ(HEBREW_MONTHS[i], HEBREW_MONTHS[j])
  {
  }

  lemma FrenchDiffer()
    ensures forall i, j :: 0 <= i < j < |FRENCH_MONTHS| ==> Differ(FRENCH_MONTHS[i], FRENCH_MONTHS[j])
  {
  }

  lemma MonthsDiffer(calendar: string)
    ensures forall i, j :: 0 <= i < j < |MonthsFor(calendar)| ==> Differ(MonthsFor(calendar)[i], MonthsFor(calendar)[j])
  {
    hide Differ;
    GregorianDiffer();
    HebrewDiffer();
    FrenchDiffer();
  }

  lemma {:induction false} FindAt(codes: seq<string>, i: nat)
    requires i < |codes| && forall i, j :: 0 <= i < j < |codes| ==> Differ(codes[i], codes[j])
    ensures Find(codes, codes[i]) == i
  {
    if i < |codes| - 1 {
      assert Differ(codes[i], codes[|codes| - 1]);
      FindAt(codes[..|codes| - 1], i);
    }
  }

  /** The tables are inverse to each other. */
  lemma {:induction false} MonthThereAndBack(calendar: string, m: int)
    requires 1 <= m <= |MonthsFor(calendar)|
    ensures MonthNumber(calendar, MonthCode(calendar, m).value) == Some(m)
    ensures Atoi(MonthCode(calendar, m).value) == None
  {
    hide MonthsFor;
    MonthsDiffer(calendar);
    FindAt(MonthsFor(calendar), m - 1);
    MonthsAreCodes(calendar);
    var code := MonthCode(calendar, m).value;
    assert Code(code) && 'A' <= code[0] <= 'Z';
    NotANumber(code);
  }

  /** The month codes of the GEDCOM calendars and their numbers. */
  lemma MonthTable()
    ensures MonthNumber(GREGORIAN, "JAN") == Some(1) && MonthNumber(GREGORIAN, "FEB") == Some(2) && MonthNumber(GREGORIAN, "MAR") == Some(3)
    ensures MonthNumber(GREGORIAN, "APR") == Some(4) && MonthNumber(GREGORIAN, "MAY") == Some(5) && MonthNumber(GREGORIAN, "JUN") == Some(6)
    ensures MonthNumber(GREGORIAN, "JUL") == Some(7) && MonthNumber(GREGORIAN, "AUG") == Some(8) && MonthNumber(GREGORIAN, "SEP") == Some(9)
    ensures MonthNumber(GREGORIAN, "OCT") == Some(10) && MonthNumber(GREGORIAN, "NOV") == Some(11) && MonthNumber(GREGORIAN, "DEC") == Some(12)
    ensures MonthNumber(HEBREW, "TSH") == Some(1) && MonthNumber(HEBREW, "CSH") == Some(2) && MonthNumber(HEBREW, "KSL") == Some(3)
    ensures MonthNumber(HEBREW, "TVT") == Some(4) && MonthNumber(HEBREW, "SHV") == Some(5) && MonthNumber(HEBREW, "ADR") == Some(6)
    ensures MonthNumber(HEBREW, "ADS") == Some(7) && MonthNumber(HEBREW, "NSN") == Some(8) && MonthNumber(HEBREW, "IYR") == Some(9)
    ensures MonthNumber(HEBREW, "SVN") == Some(10) && MonthNumber(HEBREW, "TMZ") == Some(11) && MonthNumber(HEBREW, "AAV") == Some(12)
    ensures MonthNumber(HEBREW, "ELL") == Some(13)
    ensures MonthNumber(FRENCH, "VEND") == Some(1) && MonthNumber(FRENCH, "BRUM") == Some(2) && MonthNumber(FRENCH, "FRIM") == Some(3)
    ensures MonthNumber(FRENCH, "NIVO") == Some(4) && MonthNumber(FRENCH, "PLUV") == Some(5) && MonthNumber(FRENCH, "VENT") == Some(6)
    ensures MonthNumber(FRENCH, "GERM") == Some(7) && MonthNumber(FRENCH, "FLOR") == Some(8) && MonthNumber(FRENCH, "PRAI") == Some(9)
    ensures MonthNumber(FRENCH, "MESS") == Some(10) && MonthNumber(FRENCH, "THER") == Some(11) && MonthNumber(FRENCH, "FRUC") == Some(12)
    ensures MonthNumber(FRENCH, "COMP") == Some(13)
    ensures forall w :: MonthNumber(JULIAN, w) == MonthNumber(GREGORIAN, w)
  {
    hide MonthNumber;
    forall m | 1 <= m <= 13
      ensures m <= 12 ==> MonthNumber(GREGORIAN, MONTHS[m - 1]) == Some(m)
      ensures MonthNumber(HEBREW, HEBREW_MONTHS[m - 1]) == Some(m) && MonthNumber(FRENCH, FRENCH_MONTHS[m - 1]) == Some(m)
    {
      if m <= 12 {
        MonthThereAndBack(GREGORIAN, m);
      }
      MonthThereAndBack(HEBREW, m);
      MonthThereAndBack(FRENCH, m);
    }
    forall w ensures MonthNumber(JULIAN, w) == MonthNumber(GREGORIAN, w) {
      OneTable(w);
    }
  }

  lemma OneTable(w: string)
    ensures MonthNumber(JULIAN, w) == MonthNumber(GREGORIAN, w)
  {
  }

  /** And no other word is a month's code. */
  lemma OnlyCodesAreMonths(calendar: string, w: string)
    ensures MonthNumber(calendar, w).Some? ==> MonthCode(calendar, MonthNumber(calendar, w).value) == Some(w)
  {
  }

  lemma NumberIsNoMonth(calendar: string, n: int)
    ensures MonthNumber(calendar, Itoa(n)) == None
  {
    hide MonthsFor;
    NumberIsDateWord(n);
    MonthsAreCodes(calendar);
    forall k | 0 <= k < |MonthsFor(calendar)| ensures MonthsFor(calendar)[k] != Itoa(n) {
      assert Code(MonthsFor(calendar)[k]);
    }
  }

  /** A printed day has one to three words, none of which the parser takes for anything else. */
  lemma WordsOfDate(calendar: string, d: Day)
    requires d.year.Some?
    ensures 1 <= |DateWords(calendar, d)| <= 3 && AllDateWords(DateWords(calendar, d))
  {
    hide MonthsFor, DateWord, Code;
    NumberIsDateWord(d.year.value);
    if d.day.Some? {
      NumberIsDateWord(d.day.value);
    }
    if d.month.Some? && MonthCode(calendar, d.month.value).Some? {
      MonthsAreCodes(calendar);
      CodeIsDateWord(MonthCode(calendar, d.month.value).value);
    }
  }

  /** Printed words read back as the day exactly when the day is well formed. */
  lemma WordsReadBack(calendar: string, d: Day)
    requires d.year.Some?
    ensures ReadWords(DateWords(calendar, d), calendar) == d <==> DayOk(calendar, d)
  {
    hide MonthsFor, Itoa, Atoi, MonthNumber;
    AtoiItoa(d.year.value);
    if d.day.Some? {
      AtoiItoa(d.day.value);
      NumberIsNoMonth(calendar, d.day.value);
    }
    if d.month.Some? && MonthCode(calendar, d.month.value).Some? {
      MonthThereAndBack(calendar, d.month.value);
    }
  }

  /** A separator with nothing behind it takes the year's place and the year is lost. */
  lemma DanglingSeparator(calendar: string, d: Day, k: string)
    requires d.year.Some? && (k == "AND" || k == "TO")
    ensures ReadWords(DateWords(calendar, d) + [k], calendar).year == None
  {
    hide MonthsFor, Itoa, MonthNumber;
    NotANumber(k);
    NumberIsNoMonth(calendar, d.year.value);
    WordsOfDate(calendar, d);
  }

  // --- Clean text ---

  /** Plain characters and single spaces inside, plain at both ends: what trimming and upper case leave alone. */
  predicate Clean(s: string)
  {
    s != [] && IsPlain(s[0]) && IsPlain(s[|s| - 1]) && forall i :: 0 <= i < |s| ==> IsPlain(s[i]) || s[i] == ' '
  }

  lemma CleanKeeps(s: string)
    requires Clean(s)
    ensures TrimSpace(s) == s && ToUpper(s) == s
  {
    TrimKeeps(s);
    UpperKeeps(s);
  }

  lemma CleanThenSpace(s: string)
    requires Clean(s)
    ensures TrimSpace(s + " ") == s
  {
    assert (s + " ")[0] == s[0] && TrimLeft(s + " ") == s + " ";
    assert (s + " ")[..|s|] == s;
    assert TrimRight(s) == s;
  }

  predicate Bare(w: string)
  {
    PlainWord(w) && '@' !in w
  }

  predicate AllBare(words: seq<string>)
  {
    forall i :: 0 <= i < |words| ==> Bare(words[i])
  }

  lemma JoinClean(words: seq<string>)
    requires PlainWords(words) && words != []
    ensures Clean(Join(words))
  {
    JoinShape(words);
  }

  lemma {:induction false} JoinBare(words: seq<string>)
    requires AllBare(words)
    ensures '@' !in Join(words)
  {
    if |words| > 1 {
      JoinBare(words[1..]);
      assert Bare(words[0]) && Join(words) == words[0] + " " + Join(words[1..]);
    } else if |words| == 1 {
      assert Bare(words[0]);
    }
  }

  lemma ReadJoined(words: seq<string>, calendar: string)
    requires PlainWords(words) && words != []
    ensures TrimSpace(Join(words)) == Join(words) && ReadSimple(Join(words), calendar) == ReadWords(words, calendar)
  {
    JoinClean(words);
    CleanKeeps(Join(words));
    FieldsOfJoin(words);
  }

  lemma CutAbsent(s: string, sep: string)
    requires sep != [] && sep[0] !in s
    ensures Cut(s, sep) == None
  {
    CutSkips(s, [], sep);
    assert s + [] == s;
  }

  // --- Calendar escapes ---

  predicate KnownCalendar(calendar: string)
  {
    calendar == "" || IsCalendarToken(calendar)
  }

  function Effective(calendar: string): string
  {
    if calendar == "" then GREGORIAN else calendar
  }

  lemma TokenShape(calendar: string)
    requires IsCalendarToken(calendar)
    ensures calendar != [] && '@' !in calendar
    ensures forall i :: 0 <= i < |calendar| ==> IsPlain(calendar[i]) || calendar[i] == ' '
  {
  }

  /** An escape is found and cut out wherever nothing before it has an at sign. */
  lemma {:induction false} EscapeFound(pre: string, calendar: string, post: string)
    requires IsCalendarToken(calendar) && '@' !in pre
    ensures ExtractCalendarEscape(pre + ("@#" + calendar + "@" + post)) == Some((calendar, Join(Fields(pre + " " + post))))
  {
    hide Cut, Fields, IsCalendarToken;
    TokenShape(calendar);
    var inner := calendar + "@" + post;
    assert pre + ("@#" + calendar + "@" + post) == pre + "@#" + inner;
    CutHere(pre, "@#", inner);
    CutHere(calendar, "@", post);
  }

  lemma SpacesBetween(opening: seq<string>, words: seq<string>)
    requires |opening| <= 1 && AllBare(opening) && AllBare(words)
    ensures Fields((if opening == [] then "" else opening[0] + " ") + " " + (" " + Join(words))) == opening + words
  {
    hide Fields, Join;
    var tail := Join(words);
    FieldsOfJoin(words);
    FieldsSpace(tail);
    FieldsSpace(" " + tail);
    if opening == [] {
      assert "" + " " + (" " + tail) == " " + (" " + tail);
    } else {
      assert Bare(opening[0]);
      FieldsSpace(" " + (" " + tail));
      FieldsWord(opening[0], " " + (" " + (" " + tail)));
      assert opening[0] + " " + " " + (" " + tail) == opening[0] + (" " + (" " + (" " + tail)));
      assert [opening[0]] + words == opening + words;
    }
  }

  /** The text of words that may open with a keyword and carry an escape behind it. */
  function Written(opening: seq<string>, calendar: string, words: seq<string>): string
    requires |opening| <= 1
  {
    (if opening == [] then "" else opening[0] + " ") + CalendarEscape(calendar) + Join(words)
  }

  lemma WrittenClean(opening: seq<string>, calendar: string, words: seq<string>)
    requires |opening| <= 1 && AllBare(opening) && AllBare(words) && words != [] && KnownCalendar(calendar)
    ensures Clean(Written(opening, calendar, words))
  {
    hide Join;
    assert PlainWords(words);
    JoinClean(words);
    var s, tail := Written(opening, calendar, words), Join(words);
    if calendar != "" {
      TokenShape(calendar);
    }
    if opening != [] {
      assert Bare(opening[0]);
    }
    assert s[|s| - 1] == tail[|tail| - 1];
  }

  lemma GregorianWritten(opening: seq<string>, calendar: string, words: seq<string>)
    requires |opening| <= 1 && AllBare(opening) && AllBare(words) && words != []
    requires calendar == "" || calendar == GREGORIAN
    ensures Written(opening, calendar, words) == Join(opening + words) && '@' !in Written(opening, calendar, words)
  {
    hide Join, Bare;
    var tail := Join(words);
    var pre := if opening == [] then "" else opening[0] + " ";
    assert Written(opening, calendar, words) == pre + "" + tail;
    EmptyEnds(pre);
    EmptyEnds(tail);
    if opening == [] {
      assert opening + words == words;
    } else {
      assert opening + words == [opening[0]] + words;
      JoinCons(opening[0], words);
    }
    JoinBare(opening + words);
  }

  lemma {:induction false} EscapedWritten(opening: seq<string>, calendar: string, words: seq<string>)
    requires |opening| <= 1 && AllBare(opening) && AllBare(words) && words != []
    requires IsCalendarToken(calendar) && calendar != GREGORIAN
    ensures ExtractCalendarEscape(Written(opening, calendar, words)) == Some((calendar, Join(opening + words)))
  {
    hide Join, Fields, ExtractCalendarEscape, Bare;
    var pre, tail := if opening == [] then "" else opening[0] + " ", Join(words);
    BareHasNoAt(opening);
    assert CalendarEscape(calendar) == "@#" + calendar + "@ ";
    assert pre + ("@#" + calendar + "@ ") + tail == pre + ("@#" + calendar + "@" + (" " + tail));
    EscapeFound(pre, calendar, " " + tail);
    SpacesBetween(opening, words);
  }

  /** Whatever the calendar, the parser is left with the calendar and the bare words. */
  lemma {:induction false} WorkOfWritten(opening: seq<string>, calendar: string, words: seq<string>)
    requires |opening| <= 1 && AllBare(opening) && AllBare(words) && words != [] && KnownCalendar(calendar)
    ensures CalendarAndWork(Written(opening, calendar, words)) == (Effective(calendar), Join(opening + words))
  {
    hide Cut, Fields, Join, Written, Bare, IsCalendarToken;
    if calendar == "" || calendar == GREGORIAN {
      GregorianWritten(opening, calendar, words);
      CutAbsent(Written(opening, calendar, words), "@#");
    } else {
      EscapedWritten(opening, calendar, words);
    }
  }

  lemma BareHasNoAt(opening: seq<string>)
    requires AllBare(opening)
    ensures opening != [] ==> '@' !in opening[0]
  {
  }

  // --- Qualifiers ---

  lemma {:induction false} TakeNone(table: seq<(string, Qualifier)>, words: seq<string>)
    requires PlainWords(words) && words != [] && forall i :: 0 <= i < |table| ==> PlainWord(table[i].0) && table[i].0 != words[0]
    ensures TakeQualifier(table, Join(words)) == (Exact, Join(words))
  {
    if table != [] {
      KeywordOpens(words, table[0].0);
      TakeNone(table[1..], words);
    }
  }

  lemma {:induction false} TakeAt(table: seq<(string, Qualifier)>, words: seq<string>, j: nat)
    requires PlainWords(words) && |words| > 1 && j < |table| && table[j].0 == words[0]
    requires forall i :: 0 <= i <= j ==> PlainWord(table[i].0)
    requires forall i :: 0 <= i < j ==> table[i].0 != words[0]
    ensures TakeQualifier(table, Join(words)) == (table[j].1, Join(words[1..]))
  {
    KeywordOpens(words, table[0].0);
    if j > 0 {
      TakeAt(table[1..], words, j - 1);
    }
  }

  lemma KeywordsPlain()
    ensures forall i :: 0 <= i < |QUALIFIERS| ==> Bare(QUALIFIERS[i].0)
  {
  }

  /** Where a printed qualifier stands in the table of keywords. */
  function Place(q: Qualifier): (i: nat)
    requires Keyword(q) != []
    ensures i < |QUALIFIERS|
  {
    match q
    case About => 0
    case Calculated => 2
    case Estimated => 3
    case Before => 4
    case Afterwards => 6
    case Between => 8
    case From => 9
  }

  lemma KeywordPlace(q: Qualifier)
    requires Keyword(q) != []
    ensures |Keyword(q)| == 1 && QUALIFIERS[Place(q)] == (Keyword(q)[0], q) && Keyword(q)[0] != "INT"
    ensures forall i :: 0 <= i < Place(q) ==> QUALIFIERS[i].0 != Keyword(q)[0]
  {
    var k := Keyword(q)[0];
    assert k[0] != 'I';
    forall i | 0 <= i < Place(q) ensures QUALIFIERS[i].0 != k {
      var w := QUALIFIERS[i].0;
      assert w[0] != k[0] || w[1] != k[1] || w[2] != k[2];
    }
  }

  function Settled(q: Qualifier): Qualifier
  {
    if Keyword(q) == [] then Exact else q
  }

  /** A printed date without a phrase, up to the reading of its body. */
  lemma {:induction false} ReadsWritten(q: Qualifier, calendar: string, words: seq<string>)
    requires AllBare(words) && words != [] && DateWord(words[0]) && KnownCalendar(calendar)
    ensures var s := Written(Keyword(q), calendar, words);
      TrimSpace(s) == s && Read(s) == ReadQualified(s, Effective(calendar), Settled(q), Join(words))
  {
    hide TrimSpace, ToUpper, CalendarAndWork, ReadQualified, ReadInterpreted, Bare, TakeQualifier, Written;
    var opening := Keyword(q);
    var s, all := Written(opening, calendar, words), opening + words;
    KeywordsPlain();
    AllWordsPlain(q, words);
    WrittenClean(opening, calendar, words);
    CleanKeeps(s);
    WorkOfWritten(opening, calendar, words);
    KeywordOpens(all, "INT");
    if opening == [] {
      assert all == words;
      TakeNone(QUALIFIERS, words);
    } else {
      KeywordPlace(q);
      assert all[1..] == words && all[0] == opening[0];
      TakeAt(QUALIFIERS, all, Place(q));
    }
  }

  lemma AllWordsPlain(q: Qualifier, words: seq<string>)
    requires AllBare(words) && words != [] && DateWord(words[0])
    ensures |Keyword(q)| <= 1 && AllBare(Keyword(q)) && PlainWords(Keyword(q) + words) && PlainWords(words)
    ensures forall i :: 0 <= i < |QUALIFIERS| ==> PlainWord(QUALIFIERS[i].0)
    ensures (Keyword(q) + words)[0] != "INT"
  {
    KeywordsPlain();
    if Keyword(q) != [] {
      KeywordPlace(q);
      assert Bare(Keyword(q)[0]);
    }
    forall i | 0 <= i < |Keyword(q) + words| ensures PlainWord((Keyword(q) + words)[i]) {
      if i >= |Keyword(q)| {
        assert Bare(words[i - |Keyword(q)|]);
      }
    }
  }

  lemma DateWordsAreBare(words: seq<string>)
    requires AllDateWords(words)
    ensures AllBare(words) && PlainWords(words)
  {
    forall i | 0 <= i < |words| ensures Bare(words[i]) {
      assert DateWord(words[i]);
    }
  }

  // --- The three shapes of a printed date ---

  /** A single date reads back as its words read back. */
  lemma {:induction false} ReadsSingle(g: GenDate)
    requires KnownCalendar(g.calendar) && g.first.year.Some? && !IsRange(g.qualifier) && g.qualifier != Interpreted
    ensures Read(Print(g)) == GenDate(Print(g), Settled(g.qualifier), ReadWords(DateWords(g.calendar, g.first), g.calendar),
                                      NO_DAY, Effective(g.calendar), "")
  {
    hide Read, ReadSimple, TrimSpace, ReadWords, DateWords, DateWord, CalendarEscape, Join;
    var words := DateWords(g.calendar, g.first);
    WordsOfDate(g.calendar, g.first);
    DateWordsAreBare(words);
    ReadsWritten(g.qualifier, g.calendar, words);
    PrintedSingle(g);
    ReadJoined(words, Effective(g.calendar));
    SameMonths(g.calendar, words);
  }

  lemma PrintedSingle(g: GenDate)
    requires g.first.year.Some? && !IsRange(g.qualifier) && g.qualifier != Interpreted
    ensures |Keyword(g.qualifier)| <= 1
    ensures Print(g) == Written(Keyword(g.qualifier), g.calendar, DateWords(g.calendar, g.first))
  {
    hide Join, DateWords, CalendarEscape;
    Associates(Opening(g.qualifier), CalendarEscape(g.calendar), Join(DateWords(g.calendar, g.first)));
  }

  lemma SameMonths(calendar: string, words: seq<string>)
    ensures ReadWords(words, Effective(calendar)) == ReadWords(words, calendar)
  {
  }

  function RangeWord(q: Qualifier): string
    requires IsRange(q)
  {
    if q == Between then "AND" else "TO"
  }

  lemma PrintedRange(g: GenDate)
    requires g.first.year.Some? && IsRange(g.qualifier)
    ensures |Keyword(g.qualifier)| == 1
    ensures
      var first, k := DateWords(g.calendar, g.first), RangeWord(g.qualifier);
      Print(g) == if g.second.year.Some? then
                    Written(Keyword(g.qualifier), g.calendar, first + ([k] + DateWords(g.calendar, g.second)))
                  else Written(Keyword(g.qualifier), g.calendar, first + [k]) + " "
  {
    hide Join, DateWords, CalendarEscape;
    var first, k := DateWords(g.calendar, g.first), RangeWord(g.qualifier);
    var head := Opening(g.qualifier) + CalendarEscape(g.calendar);
    NonEmptyWords(g.calendar, g.first);
    assert SeparatorOf(g.qualifier).value == " " + k + " ";
    assert Print(g) == head + Join(first) + (" " + k + " ") + Simple(g.calendar, g.second);
    if g.second.year.Some? {
      var second := DateWords(g.calendar, g.second);
      NonEmptyWords(g.calendar, g.second);
      JoinConcat(first, [k] + second);
      JoinCons(k, second);
      RangeText(head, Join(first), k, Join(second));
    } else {
      JoinConcat(first, [k]);
      JoinCons(k, []);
      assert [k] + [] == [k];
      OpenRangeText(head, Join(first), k);
    }
  }

  lemma RangeText(head: string, a: string, k: string, b: string)
    ensures head + a + (" " + k + " ") + b == head + (a + " " + (k + " " + b))
  {
  }

  lemma OpenRangeText(head: string, a: string, k: string)
    ensures head + a + (" " + k + " ") + "" == head + (a + " " + k) + " "
  {
  }

  lemma NonEmptyWords(calendar: string, d: Day)
    requires d.year.Some?
    ensures DateWords(calendar, d) != []
  {
  }

  lemma RangeWordBare(q: Qualifier)
    requires IsRange(q)
    ensures Bare(RangeWord(q)) && PlainWord(RangeWord(q)) && SeparatorOf(q) == Some(" " + RangeWord(q) + " ")
    ensures Settled(q) == q
  {
    assert " " + "AND" + " " == " AND " && " " + "TO" + " " == " TO ";
  }

  lemma NoRangeWordInside(q: Qualifier, words: seq<string>)
    requires IsRange(q) && AllDateWords(words)
    ensures RangeWord(q) !in words
  {
    forall i | 0 <= i < |words| ensures words[i] != RangeWord(q) {
      assert DateWord(words[i]);
    }
  }

  /** A range with a second date reads back as both dates' words read back. */
  lemma {:induction false} ReadsRange(g: GenDate)
    requires KnownCalendar(g.calendar) && g.first.year.Some? && IsRange(g.qualifier) && g.second.year.Some?
    ensures Read(Print(g)) == GenDate(Print(g), g.qualifier, ReadWords(DateWords(g.calendar, g.first), g.calendar),
                                      ReadWords(DateWords(g.calendar, g.second), g.calendar), Effective(g.calendar), "")
  {
    hide Read, ReadSimple, TrimSpace, ReadWords, DateWords, DateWord, CalendarEscape, Join, Written, PlainWord, Print, Cut;
    var first, second, k := DateWords(g.calendar, g.first), DateWords(g.calendar, g.second), RangeWord(g.qualifier);
    WordsOfDate(g.calendar, g.first);
    WordsOfDate(g.calendar, g.second);
    DateWordsAreBare(first);
    DateWordsAreBare(second);
    RangeWordBare(g.qualifier);
    NoRangeWordInside(g.qualifier, first);
    PrintedRange(g);
    var words := first + ([k] + second);
    assert words[0] == first[0];
    ReadsWritten(g.qualifier, g.calendar, words);
    CutWord(first, k, second);
    ReadJoined(first, Effective(g.calendar));
    ReadJoined(second, Effective(g.calendar));
    SameMonths(g.calendar, first);
    SameMonths(g.calendar, second);
  }

  /** A range without a second date loses its first year. */
  lemma {:induction false} ReadsOpenRange(g: GenDate)
    requires KnownCalendar(g.calendar) && g.first.year.Some? && IsRange(g.qualifier) && g.second.year.None?
    ensures Read(Print(g)).first.year == None
  {
    hide Read, ReadSimple, TrimSpace, ReadWords, DateWords, DateWord, CalendarEscape, Join, Written, PlainWord, Print, Cut;
    var first, k := DateWords(g.calendar, g.first), RangeWord(g.qualifier);
    WordsOfDate(g.calendar, g.first);
    DateWordsAreBare(first);
    RangeWordBare(g.qualifier);
    NoRangeWordInside(g.qualifier, first);
    PrintedRange(g);
    var words := first + [k];
    assert words[0] == first[0];
    WrittenClean(Keyword(g.qualifier), g.calendar, words) by {
      AllWordsPlain(g.qualifier, words);
    }
    CleanThenSpace(Written(Keyword(g.qualifier), g.calendar, words));
    ReadsWritten(g.qualifier, g.calendar, words);
    SameTrimmed(Print(g), Written(Keyword(g.qualifier), g.calendar, words));
    CutNothing(words, k);
    ReadJoined(words, Effective(g.calendar));
    SameMonths(g.calendar, words);
    DanglingSeparator(g.calendar, g.first, k);
  }

  lemma SameTrimmed(a: string, b: string)
    requires TrimSpace(a) == TrimSpace(b)
    ensures Read(a) == Read(b)
  {
  }

  // --- Interpreted dates ---

  function PhraseTail(phrase: string): string
  {
    if phrase != "" then " (" + phrase + ")" else ""
  }

  function InterpretedText(date: string, phrase: string): string
  {
    "INT " + (date + PhraseTail(phrase))
  }

  /** The words an escape falls apart into when it is taken for part of the date. */
  function EscapeWords(calendar: string): seq<string>
  {
    if calendar == "" || calendar == GREGORIAN then []
    else if calendar == FRENCH then ["@#DFRENCH", "R@"]
    else ["@#" + calendar + "@"]
  }

  lemma EscapeIsWords(calendar: string, words: seq<string>)
    requires KnownCalendar(calendar) && PlainWords(words) && words != []
    ensures PlainWords(EscapeWords(calendar) + words)
    ensures CalendarEscape(calendar) + Join(words) == Join(EscapeWords(calendar) + words)
  {
    var e, tail := EscapeWords(calendar), Join(words);
    hide Join;
    if e == [] {
      assert e + words == words;
      EmptyEnds(tail);
    } else if calendar == FRENCH {
      assert e + words == ["@#DFRENCH"] + (["R@"] + words);
      JoinCons("R@", words);
      JoinCons("@#DFRENCH", ["R@"] + words);
      FrenchEscape(tail);
    } else {
      JoinCons(e[0], words);
      OneWordEscape(calendar, tail);
    }
  }

  lemma FrenchEscape(tail: string)
    ensures "@#DFRENCH" + " " + ("R@" + " " + tail) == CalendarEscape(FRENCH) + tail
  {
    Associates("@#DFRENCH" + " ", "R@" + " ", tail);
    assert "@#DFRENCH" + " " + ("R@" + " ") == "@#" + FRENCH + "@ ";
    assert |FRENCH| == 9 && |GREGORIAN| == 10;
  }

  lemma OneWordEscape(calendar: string, tail: string)
    ensures "@#" + calendar + "@" + " " + tail == "@#" + calendar + "@ " + tail
  {
    Associates("@#" + calendar, "@", " ");
    assert "@" + " " == "@ ";
  }

  /** Once the calendar is settled, the date and the phrase of an interpreted date come apart again. */
  lemma {:induction false} ComesApart(date: string, phrase: string, calendar: string)
    requires Clean(date)
    ensures var s := InterpretedText(date, phrase);
      |s| >= 4
      && ReadInterpreted(s, calendar) == GenDate(s, Interpreted, ReadSimple(date, calendar), NO_DAY, calendar, phrase)
  {
    hide ReadSimple, Cut, UpToLast, TrimSpace, PhraseTail, Clean;
    var rest := date + PhraseTail(phrase);
    PrefixRest("INT ", rest);
    RestTrims(date, phrase);
    CleanKeeps(date);
    if phrase == "" {
      CutsNothing(date, phrase);
    } else {
      CutsPhrase(date, phrase);
      CleanThenSpace(date);
      UpToLastAtEnd(phrase, ')');
    }
  }

  lemma RestTrims(date: string, phrase: string)
    requires Clean(date)
    ensures TrimSpace(date + PhraseTail(phrase)) == date + PhraseTail(phrase)
  {
    hide TrimSpace;
    var rest := date + PhraseTail(phrase);
    assert rest[0] == date[0] && rest[|rest| - 1] == if phrase == "" then date[|date| - 1] else ')';
    TrimKeeps(rest);
  }

  lemma CutsNothing(date: string, phrase: string)
    requires Clean(date) && phrase == ""
    ensures Cut(date + PhraseTail(phrase), "(") == None && date + PhraseTail(phrase) == date
  {
    EmptyEnds(date);
    CutAbsent(date, "(");
  }

  lemma CutsPhrase(date: string, phrase: string)
    requires Clean(date) && phrase != ""
    ensures Cut(date + PhraseTail(phrase), "(") == Some((date + " ", phrase + ")"))
  {
    hide Cut;
    assert " (" + phrase + ")" == " " + "(" + (phrase + ")");
    assert date + (" " + "(" + (phrase + ")")) == (date + " ") + "(" + (phrase + ")");
    CutHere(date + " ", "(", phrase + ")");
  }

  lemma TextTrims(date: string, phrase: string)
    requires Clean(date)
    ensures var s := InterpretedText(date, phrase); s != "" && TrimSpace(s) == s
  {
    hide TrimSpace;
    var s, tail := InterpretedText(date, phrase), PhraseTail(phrase);
    assert s[0] == 'I';
    assert s[|s| - 1] == if phrase == "" then date[|date| - 1] else ')';
    TrimKeeps(s);
  }

  lemma TextUpper(date: string, phrase: string)
    requires Clean(date)
    ensures ToUpper(InterpretedText(date, phrase)) == "INT " + (date + ToUpper(PhraseTail(phrase)))
  {
    hide ToUpper, PhraseTail, Clean;
    CleanKeeps(date);
    UpperConcat("INT ", date + PhraseTail(phrase));
    UpperConcat(date, PhraseTail(phrase));
    UpperKeeps("INT ");
  }

  /** Text that opens with "INT" and something else still does after its white space is normalised. */
  lemma {:induction false} StillOpensWithInt(gap: string, rest: string)
    requires gap != "" && (forall i :: 0 <= i < |gap| ==> gap[i] == ' ') && rest != "" && !IsSpace(rest[0])
    ensures "INT " <= Join(Fields("INT" + (gap + rest)))
  {
    hide Join;
    FieldsWord("INT", gap + rest);
    SpacesSkipped(gap, rest);
    JoinCons("INT", Fields(rest));
    WordEnds(rest);
    assert "INT " == "INT" + " ";
  }

  lemma {:induction false} SpacesSkipped(gap: string, rest: string)
    requires forall i :: 0 <= i < |gap| ==> gap[i] == ' '
    ensures Fields(gap + rest) == Fields(rest)
  {
    if gap == "" {
      assert gap + rest == rest;
    } else {
      SpacesSkipped(gap[1..], rest);
      assert gap + rest == " " + (gap[1..] + rest);
      FieldsSpace(gap[1..] + rest);
    }
  }

  /** A character no separator uses, appended at the end, changes nothing about a cut. */
  lemma {:induction false} CutThenMore(s: string, sep: string, c: char)
    requires sep != "" && c !in sep
    ensures Cut(s + [c], sep) == match Cut(s, sep) case None => None case Some((a, b)) => Some((a, b + [c]))
  {
    var t := s + [c];
    PrefixOfLonger(s, sep, c);
    if s == "" {
      assert t[1..] == "";
    } else {
      assert t[1..] == s[1..] + [c] && t[0] == s[0];
      CutThenMore(s[1..], sep, c);
      if sep <= s {
        assert t[|sep|..] == s[|sep|..] + [c];
      }
    }
  }

  lemma PrefixOfLonger(s: string, sep: string, c: char)
    requires sep != "" && c !in sep
    ensures sep <= s + [c] <==> sep <= s
  {
    var t := s + [c];
    assert t[|s|] == c;
    if |sep| <= |s| {
      assert t[..|sep|] == s[..|sep|];
    }
  }

  /** The escape found behind text without at signs is the phrase's own, whatever closes the phrase. */
  lemma PhraseEscape(pre: string, phrase: string)
    requires '@' !in pre
    ensures
      var found, own := ExtractCalendarEscape(pre + (phrase + ")")), ExtractCalendarEscape(phrase);
      && (found.Some? <==> own.Some?)
      && (found.Some? ==> found.value.0 == own.value.0)
      && (found.Some? ==> exists more :: found.value.1 == Join(Fields(pre + more)))
  {
    hide Cut, Join, Fields, IsCalendarToken;
    CutSkips(pre, phrase + ")", "@#");
    CutThenMore(phrase, "@#", ')');
    var open := Cut(phrase, "@#");
    if open.Some? {
      var a, b := open.value.0, open.value.1;
      CutThenMore(b, "@", ')');
      var close := Cut(b, "@");
      if close.Some? && IsCalendarToken(close.value.0) {
        var more := a + " " + (close.value.1 + ")");
        assert pre + a + " " + (close.value.1 + ")") == pre + more;
      }
    }
  }

  /** The calendar the parser settles on for an interpreted date. */
  function CalendarFound(calendar: string, phrase: string): string
  {
    if calendar != "" && calendar != GREGORIAN then calendar
    else
      var escape := ExtractCalendarEscape(ToUpper(phrase));
      if escape.Some? then escape.value.0 else GREGORIAN
  }

  /** With no phrase there is no escape at all; with one, any escape found is the phrase's. */
  lemma PhraseWork(date: string, phrase: string)
    requires Clean(date) && '@' !in date
    ensures
      var (calendar, work) := CalendarAndWork("INT " + (date + ToUpper(PhraseTail(phrase))));
      calendar == CalendarFound("", phrase) && "INT " <= work
  {
    hide Cut, Fields, Join, IsCalendarToken, ExtractCalendarEscape, ToUpper, Clean, UpperChar;
    var upper := ToUpper(phrase);
    if phrase == "" {
      assert ToUpper("") == "";
      assert "INT " + (date + "") == "INT " + date;
      NoEscape("INT " + date);
      NoEscape("");
    } else {
      UpperOfTail(phrase);
      var pre := "INT " + date + " (";
      assert "INT " + (date + (" (" + upper + ")")) == pre + (upper + ")");
      PhraseEscape(pre, upper);
      PhraseWorkOpens(date, upper);
    }
  }

  lemma PhraseWorkOpens(date: string, upper: string)
    requires Clean(date) && '@' !in date
    ensures var pre := "INT " + date + " (";
      "INT " <= CalendarAndWork(pre + (upper + ")")).1
  {
    hide Cut, Fields, Join, IsCalendarToken, ExtractCalendarEscape;
    var pre := "INT " + date + " (";
    PhraseEscape(pre, upper);
    var found := ExtractCalendarEscape(pre + (upper + ")"));
    if found.Some? {
      var more :| found.value.1 == Join(Fields(pre + more));
      assert pre + more == "INT" + (" " + (date + " (" + more));
      StillOpensWithInt(" ", date + " (" + more);
    } else {
      assert pre + (upper + ")") == "INT " + (date + " (" + (upper + ")"));
    }
  }

  /** An interpreted Gregorian date: the only escape the parser can find is one in the phrase. */
  lemma {:induction false} GregorianInterpreted(date: string, phrase: string, calendar: string)
    requires Clean(date) && '@' !in date && (calendar == "" || calendar == GREGORIAN)
    ensures |InterpretedText(date, phrase)| >= 4
    ensures Read(InterpretedText(date, phrase)) == ReadInterpreted(InterpretedText(date, phrase), CalendarFound(calendar, phrase))
  {
    hide TrimSpace, ReadInterpreted, ReadQualified, CalendarAndWork, ToUpper, PhraseTail, ExtractCalendarEscape;
    TextTrims(date, phrase);
    TextUpper(date, phrase);
    PhraseWork(date, phrase);
  }

  lemma UpperOfTail(phrase: string)
    requires phrase != ""
    ensures ToUpper(PhraseTail(phrase)) == " (" + ToUpper(phrase) + ")"
  {
    UpperConcat(" (" + phrase, ")");
    UpperConcat(" (", phrase);
    UpperKeeps(" (");
    UpperKeeps(")");
  }

  lemma NoEscape(s: string)
    requires '@' !in s
    ensures ExtractCalendarEscape(s) == None
  {
    CutAbsent(s, "@#");
  }

  /** In another calendar the date's own escape comes first. */
  lemma {:induction false} EscapedInterpreted(words: seq<string>, phrase: string, calendar: string)
    requires AllBare(words) && PlainWords(words) && words != [] && IsCalendarToken(calendar) && calendar != GREGORIAN
    ensures var s := InterpretedText(CalendarEscape(calendar) + Join(words), phrase);
      |s| >= 4 && Read(s) == ReadInterpreted(s, calendar)
  {
    hide TrimSpace, ReadInterpreted, ReadQualified, CalendarAndWork, Join, ToUpper, PhraseTail, CalendarEscape;
    var date := CalendarEscape(calendar) + Join(words);
    assert "" + CalendarEscape(calendar) + Join(words) == date;
    WrittenClean([], calendar, words);
    TextTrims(date, phrase);
    TextUpper(date, phrase);
    EscapedWork(words, ToUpper(PhraseTail(phrase)), calendar);
  }

  lemma EscapedWork(words: seq<string>, tail: string, calendar: string)
    requires AllBare(words) && PlainWords(words) && words != [] && IsCalendarToken(calendar) && calendar != GREGORIAN
    ensures
      var (found, work) := CalendarAndWork("INT " + (CalendarEscape(calendar) + Join(words) + tail));
      found == calendar && "INT " <= work
  {
    hide Fields, IsCalendarToken, ExtractCalendarEscape, Join;
    var rest := Join(words) + tail;
    JoinClean(words);
    EscapeOpens(calendar, Join(words), tail);
    EscapeFound("INT ", calendar, " " + rest);
    assert "INT " + " " + (" " + rest) == "INT" + ("   " + rest);
    StillOpensWithInt("   ", rest);
  }

  lemma EscapeOpens(calendar: string, date: string, tail: string)
    requires IsCalendarToken(calendar) && calendar != GREGORIAN
    ensures "INT " + (CalendarEscape(calendar) + date + tail) == "INT " + ("@#" + calendar + "@" + (" " + (date + tail)))
  {
    assert calendar != "";
    assert "@#" + calendar + "@ " + date + tail == "@#" + calendar + "@" + (" " + (date + tail));
  }

  /** When escape and date words are read together, the day comes back only in the listed shapes. */
  lemma EscapedWordsReadBack(calendar: string, d: Day)
    requires IsCalendarToken(calendar) && calendar != GREGORIAN && d.year.Some?
    ensures ReadWords(EscapeWords(calendar) + DateWords(calendar, d), calendar) == d
      <==> DayOk(calendar, d) && d.day.None? && (calendar == FRENCH <==> d.month.None?)
  {
    hide MonthsFor, Itoa, Atoi, MonthNumber;
    AtoiItoa(d.year.value);
    NumberIsNoMonth(calendar, d.year.value);
    EscapeReadsAsNothing(calendar);
    if d.day.Some? {
      NumberIsNoMonth(calendar, d.day.value);
    }
    if d.month.Some? && MonthCode(calendar, d.month.value).Some? {
      MonthThereAndBack(calendar, d.month.value);
    }
  }

  lemma EscapeReadsAsNothing(calendar: string)
    requires IsCalendarToken(calendar) && calendar != GREGORIAN
    ensures |EscapeWords(calendar)| == if calendar == FRENCH then 2 else 1
    ensures forall i :: 0 <= i < |EscapeWords(calendar)| ==> MonthNumber(calendar, EscapeWords(calendar)[i]) == None
    ensures Atoi(EscapeWords(calendar)[0]) == None
  {
    var e := EscapeWords(calendar);
    hide MonthsFor;
    MonthsAreCodes(calendar);
    NotANumber(e[0]);
    assert e[0][0] == '@';
    forall k | 0 <= k < |MonthsFor(calendar)| ensures MonthsFor(calendar)[k] !in e {
      assert Code(MonthsFor(calendar)[k]);
    }
  }

  // --- The theorem ---

  /** The date of which nothing at all is known. */
  predicate IsEmptyDate(g: GenDate)
  {
    Same(g, EMPTY)
  }

  lemma {:induction false} InterpretedRoundTrip(g: GenDate)
    requires KnownCalendar(g.calendar) && g.first.year.Some? && g.qualifier == Interpreted
    ensures Same(Read(Print(g)), g) <==> WellFormed(g)
  {
    hide Read, ReadInterpreted, ReadSimple, ReadWords, DateWords, DateWord, Join, CalendarEscape, MonthsFor, Atoi,
         ExtractCalendarEscape, PlainWord, EscapeWords;
    var words := DateWords(g.calendar, g.first);
    var date := CalendarEscape(g.calendar) + Join(words);
    WordsOfDate(g.calendar, g.first);
    DateWordsAreBare(words);
    PrintedInterpreted(g);
    EscapeIsWords(g.calendar, words);
    JoinClean(EscapeWords(g.calendar) + words);
    var found := CalendarFound(g.calendar, g.interpretedFrom);
    ComesApart(date, g.interpretedFrom, found);
    ReadJoined(EscapeWords(g.calendar) + words, found);
    if CalendarOf(g) == GREGORIAN {
      GregorianDate(g.calendar, words);
      GregorianInterpreted(date, g.interpretedFrom, g.calendar);
      WordsReadBack(g.calendar, g.first);
      SameMonths(g.calendar, words);
    } else {
      EscapedInterpreted(words, g.interpretedFrom, g.calendar);
      EscapedWordsReadBack(g.calendar, g.first);
    }
  }

  lemma GregorianDate(calendar: string, words: seq<string>)
    requires (calendar == "" || calendar == GREGORIAN) && AllBare(words)
    ensures EscapeWords(calendar) + words == words && '@' !in CalendarEscape(calendar) + Join(words)
  {
    JoinBare(words);
    assert CalendarEscape(calendar) + Join(words) == Join(words);
  }

  lemma PrintedInterpreted(g: GenDate)
    requires g.first.year.Some? && g.qualifier == Interpreted
    ensures Print(g) == InterpretedText(CalendarEscape(g.calendar) + Join(DateWords(g.calendar, g.first)), g.interpretedFrom)
  {
    hide Join, DateWords, CalendarEscape;
    Associates("INT ", CalendarEscape(g.calendar) + Join(DateWords(g.calendar, g.first)), PhraseTail(g.interpretedFrom));
  }

  lemma {:induction false} RangeRoundTrip(g: GenDate)
    requires KnownCalendar(g.calendar) && g.first.year.Some? && IsRange(g.qualifier)
    ensures Same(Read(Print(g)), g) <==> WellFormed(g)
  {
    hide Read, Print, ReadWords, DateWords, MonthsFor;
    if g.second.year.Some? {
      ReadsRange(g);
      WordsReadBack(g.calendar, g.first);
      WordsReadBack(g.calendar, g.second);
    } else {
      ReadsOpenRange(g);
    }
  }

  /**
   * Parsing what the printer wrote gives the date back, up to the raw text and the name of the default
   * calendar, if and only if the date is empty or well formed: for every date in a known calendar.
   */
  lemma {:induction false} RoundTrip(g: GenDate)
    requires KnownCalendar(g.calendar)
    ensures Same(Read(Print(g)), g) <==> IsEmptyDate(g) || WellFormed(g)
  {
    hide ReadQualified, ReadInterpreted, ReadWords, DateWords, MonthsFor, ExtractCalendarEscape;
    if g.first.year.None? {
      assert Print(g) == "" && TrimSpace("") == "";
    } else if IsRange(g.qualifier) {
      RangeRoundTrip(g);
    } else if g.qualifier == Interpreted {
      InterpretedRoundTrip(g);
    } else {
      SingleRoundTrip(g);
    }
  }

  lemma SingleRoundTrip(g: GenDate)
    requires KnownCalendar(g.calendar) && g.first.year.Some? && !IsRange(g.qualifier) && g.qualifier != Interpreted
    ensures Same(Read(Print(g)), g) <==> WellFormed(g)
  {
    hide Read, Print, ReadWords, DateWords, MonthsFor;
    ReadsSingle(g);
    WordsReadBack(g.calendar, g.first);
  }

  /** An interpreted Julian date with a day does not come back: its year is lost. */
  lemma {:induction false} InterpretedJulianIsLost() returns (g: GenDate)
    ensures DayOk(g.calendar, g.first) && g.qualifier == Interpreted && g.calendar == JULIAN
    ensures !Same(Read(Print(g)), g)
  {
    g := GenDate("", Interpreted, Day(Some(1700), Some(1), Some(5)), NO_DAY, JULIAN, "five January");
    RoundTrip(g);
    assert |JULIAN| == 7 && |GREGORIAN| == 10 && |FRENCH| == 9;
  }
}
