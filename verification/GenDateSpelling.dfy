/**
 * What a date may be written like without being read differently: long keywords, letter case, white space,
 * and where the amount of white space does make a difference.
 */
module GenDateSpelling {
  import opened Base
  import opened Text
  import opened GenDates

  /** Read alike: equal but for the raw text. */
  predicate Alike(a: GenDate, b: GenDate)
  {
    a.(raw := "") == b.(raw := "")
  }

  /** Read alike outside an interpreted date's phrase. */
  predicate AlikeButPhrase(a: GenDate, b: GenDate)
  {
    a.qualifier == b.qualifier && a.first == b.first && a.second == b.second && a.calendar == b.calendar
  }

  // --- Words and white space ---

  predicate Blank(s: string)
  {
    forall i :: 0 <= i < |s| ==> IsSpace(s[i])
  }

  predicate Spaces(s: string)
  {
    s != "" && forall i :: 0 <= i < |s| ==> s[i] == ' '
  }

  predicate NoSpaceIn(s: string)
  {
    forall i :: 0 <= i < |s| ==> !IsSpace(s[i])
  }

  lemma {:induction false} FieldsBlank(s: string, rest: string)
    requires Blank(s)
    ensures Fields(s + rest) == Fields(rest)
  {
    if s == "" {
      assert s + rest == rest;
    } else {
      assert (s + rest)[1..] == s[1..] + rest;
      FieldsBlank(s[1..], rest);
    }
  }

  /** White space parts words: the words of both sides, whatever its amount. */
  lemma {:induction false} FieldsAcross(p: string, gap: string, q: string)
    requires gap != "" && Blank(gap)
    ensures Fields(p + gap + q) == Fields(p) + Fields(q)
    decreases |p|
  {
    hide Fields, Blank;
    if p == "" {
      assert p + gap + q == gap + q;
      FieldsBlank(gap, q);
      NoFields();
    } else if IsSpace(p[0]) {
      assert p == [p[0]] + p[1..] && p + gap + q == [p[0]] + (p[1..] + gap + q);
      SkipsSpace(p[0], p[1..]);
      SkipsSpace(p[0], p[1..] + gap + q);
      FieldsAcross(p[1..], gap, q);
    } else {
      assert IsSpace(gap[0]) by {
        StartsBlank(gap);
      }
      var w, tail := FirstOf(p);
      WordFirst(w, tail);
      WordFirst(w, tail + gap + q);
      assert p + gap + q == w + (tail + gap + q);
      FieldsAcross(tail, gap, q);
      Associates([w], Fields(tail), Fields(q));
    }
  }

  lemma StartsBlank(gap: string)
    requires gap != "" && Blank(gap)
    ensures IsSpace(gap[0])
  {
  }

  lemma NoFields()
    ensures Fields("") == []
  {
  }

  lemma SkipsSpace(c: char, s: string)
    requires IsSpace(c)
    ensures Fields([c] + s) == Fields(s)
  {
    assert ([c] + s)[1..] == s;
  }

  /** A text that starts with a word, taken apart behind it. */
  lemma FirstOf(s: string) returns (w: string, tail: string)
    requires s != "" && !IsSpace(s[0])
    ensures s == w + tail && w != "" && NoSpaceIn(w) && (tail == "" || IsSpace(tail[0]))
  {
    w, tail := s[..WordLength(s)], s[WordLength(s)..];
    WordEnds(s);
    WordHasNoSpace(s);
  }

  lemma WordFirst(w: string, tail: string)
    requires w != "" && NoSpaceIn(w) && (tail == "" || IsSpace(tail[0]))
    ensures Fields(w + tail) == [w] + Fields(tail)
  {
    WordAtFront(w, tail);
    assert (w + tail)[0] == w[0] && (w + tail)[..|w|] == w && (w + tail)[|w|..] == tail;
  }

  lemma {:induction false} WordHasNoSpace(s: string)
    ensures NoSpaceIn(s[..WordLength(s)])
  {
    if s != "" && !IsSpace(s[0]) {
      WordHasNoSpace(s[1..]);
      assert s[..WordLength(s)] == [s[0]] + s[1..][..WordLength(s[1..])];
    }
  }

  lemma {:induction false} TrimLeftFields(s: string)
    ensures Fields(TrimLeft(s)) == Fields(s)
  {
    if s != "" && IsSpace(s[0]) {
      TrimLeftFields(s[1..]);
    }
  }

  lemma {:induction false} TrimRightFields(s: string)
    ensures Fields(TrimRight(s)) == Fields(s)
  {
    if s != "" && IsSpace(s[|s| - 1]) {
      var n := |s| - 1;
      TrimRightFields(s[..n]);
      assert s == s[..n] + s[n..] + "";
      FieldsAcross(s[..n], s[n..], "");
    }
  }

  /** A simple date is read from its words alone. */
  lemma ReadsWordsAlone(s: string, calendar: string)
    ensures ReadSimple(s, calendar) == ReadWords(Fields(s), calendar)
    ensures ReadSimple(TrimSpace(s), calendar) == ReadWords(Fields(s), calendar)
  {
    TrimLeftFields(s);
    TrimRightFields(TrimLeft(s));
    TrimLeftFields(TrimSpace(s));
    TrimRightFields(TrimLeft(TrimSpace(s)));
  }

  lemma {:induction false} UpperTrimLeft(s: string)
    ensures TrimLeft(ToUpper(s)) == ToUpper(TrimLeft(s))
  {
    if s != "" {
      assert ToUpper(s)[1..] == ToUpper(s[1..]);
      UpperTrimLeft(s[1..]);
    }
  }

  lemma {:induction false} UpperTrimRight(s: string)
    ensures TrimRight(ToUpper(s)) == ToUpper(TrimRight(s))
  {
    if s != "" {
      var n := |s| - 1;
      assert ToUpper(s)[..n] == ToUpper(s[..n]);
      UpperTrimRight(s[..n]);
    }
  }

  /** The interpreted date's part before the phrase, too. */
  lemma ReadsUpperWords(s: string, calendar: string)
    ensures ReadSimple(ToUpper(TrimSpace(s)), calendar) == ReadWords(Fields(ToUpper(s)), calendar)
  {
    UpperTrimLeft(s);
    UpperTrimRight(TrimLeft(s));
    ReadsWordsAlone(ToUpper(s), calendar);
  }

  lemma {:induction false} TrimLeftAcross(p: string, rest: string)
    ensures TrimLeft(p + rest) == if Blank(p) then TrimLeft(rest) else TrimLeft(p) + rest
    ensures Blank(p) <==> TrimLeft(p) == ""
    ensures !Blank(p) ==> !IsSpace(TrimLeft(p)[0])
  {
    if p == "" {
      assert p + rest == rest;
    } else if IsSpace(p[0]) {
      assert (p + rest)[1..] == p[1..] + rest;
      TrimLeftAcross(p[1..], rest);
      assert Blank(p) <==> Blank(p[1..]);
    }
  }

  lemma {:induction false} TrimRightAcross(s: string, q: string)
    ensures TrimRight(s + q) == if Blank(q) then TrimRight(s) else s + TrimRight(q)
    ensures Blank(q) <==> TrimRight(q) == ""
    ensures !Blank(q) ==> !IsSpace(TrimRight(q)[|TrimRight(q)| - 1])
  {
    if q == "" {
      assert s + q == s;
    } else {
      hide Blank;
      BlankFrontAndEnd(q);
      assert (s + q)[|s + q| - 1] == q[|q| - 1];
      if IsSpace(q[|q| - 1]) {
        assert (s + q)[..|s + q| - 1] == s + q[..|q| - 1];
        TrimRightAcross(s, q[..|q| - 1]);
      }
    }
  }

  lemma BlankFrontAndEnd(q: string)
    requires q != ""
    ensures Blank(q) <==> Blank(q[..|q| - 1]) && IsSpace(q[|q| - 1])
  {
  }

  /** Trimming keeps a gap between what is not blank on both sides. */
  lemma {:induction false} TrimAcross(p: string, gap: string, q: string)
    requires Spaces(gap)
    ensures TrimSpace(p + gap + q)
         == if Blank(p) then TrimSpace(q) else if Blank(q) then TrimRight(TrimLeft(p)) else TrimLeft(p) + gap + TrimRight(q)
  {
    assert p + gap + q == p + (gap + q);
    TrimLeftAcross(p, gap + q);
    TrimLeftAcross(gap, q);
    if !Blank(p) {
      assert TrimLeft(p) + (gap + q) == TrimLeft(p) + gap + q;
      TrimRightAcross(TrimLeft(p) + gap, q);
      TrimRightAcross(TrimLeft(p), gap);
    }
  }

  lemma PrefixAcross(sep: string, p: string, gap: string, q: string)
    requires NoSpaceIn(sep) && Spaces(gap)
    ensures sep <= p + gap + q <==> sep <= p
  {
    var s := p + gap + q;
    assert s[..|p|] == p && s[|p|] == ' ';
    if sep <= s {
      assert forall i :: 0 <= i < |sep| ==> !IsSpace(s[i]);
    }
  }

  lemma FrontOf(p: string, gap: string, b: string)
    requires p != ""
    ensures [p[0]] + (p[1..] + gap + b) == p + gap + b
  {
  }

  /** A search for something without spaces finds it on one side of a gap or the other. */
  lemma {:induction false} CutAcross(p: string, gap: string, q: string, sep: string)
    requires sep != "" && NoSpaceIn(sep) && Spaces(gap)
    ensures Cut(p + gap + q, sep) == match Cut(p, sep)
      case Some((a, r)) => Some((a, r + gap + q))
      case None => (match Cut(q, sep) case Some((b, r)) => Some((p + gap + b, r)) case None => None)
    decreases |p|
  {
    var s := p + gap + q;
    assert !IsSpace(sep[0]);
    if p == "" {
      assert s == gap + q && Cut(p, sep) == None;
      CutSkips(gap, q, sep);
      if Cut(q, sep).Some? {
        assert p + gap + Cut(q, sep).value.0 == gap + Cut(q, sep).value.0;
      }
    } else if sep <= p {
      assert sep <= s && s[|sep|..] == p[|sep|..] + gap + q;
    } else {
      PrefixAcross(sep, p, gap, q);
      hide NoSpaceIn, Spaces;
      assert s[1..] == p[1..] + gap + q && s[0] == p[0];
      CutAcross(p[1..], gap, q, sep);
      if Cut(q, sep).Some? {
        FrontOf(p, gap, Cut(q, sep).value.0);
      }
    }
  }

  /**
   * Each part of a simple date is read by itself: the year from the last word, the month from the one before it,
   * the day from the first of three. Two words without a month are no date at all, three keep what can be read.
   */
  lemma EachPartAlone(d: string, m: string, y: string, calendar: string)
    ensures
      var full, short, year := ReadWords([d, m, y], calendar), ReadWords([m, y], calendar), ReadWords([y], calendar);
      && year == Day(Atoi(y), None, None)
      && full.year == year.year && full.day == ReadWords([d], calendar).year && full.month == MonthNumber(calendar, m)
      && (MonthNumber(calendar, m).Some? ==> short == full.(day := None))
      && (MonthNumber(calendar, m).None? ==> short == NO_DAY)
  {
  }

  /** A text without the escape of a known calendar is left as it is and read as Gregorian. */
  lemma UnknownEscapeStays(upper: string)
    requires forall a, token, b {:trigger a + "@#" + token + "@" + b} ::
      upper == a + "@#" + token + "@" + b ==> token !in {GREGORIAN, JULIAN, HEBREW, FRENCH}
    ensures CalendarAndWork(upper) == (GREGORIAN, upper)
  {
    var open := Cut(upper, "@#");
    if open.Some? && Cut(open.value.1, "@").Some? {
      var a, close := open.value.0, Cut(open.value.1, "@").value;
      assert upper == a + "@#" + (close.0 + "@" + close.1) == a + "@#" + close.0 + "@" + close.1;
    }
  }

  // --- Long and short keywords ---

  predicate Capitals(k: string)
  {
    k != "" && forall i :: 0 <= i < |k| ==> 'A' <= k[i] <= 'Z'
  }

  /** A keyword of the table: found wherever a space follows it, and no qualifier by itself. */
  ghost predicate OpensWith(k: string, q: Qualifier)
  {
    && Capitals(k) && TakeQualifier(QUALIFIERS, k) == (Exact, k)
    && (forall rest {:trigger k + " " + rest} :: TakeQualifier(QUALIFIERS, k + " " + rest) == (q, rest))
  }

  /** What is left of a date behind its keyword, once the calendar is known: nothing, or a text. */
  function BehindKeyword(u: string): (string, Option<string>)
  {
    var open := Cut(u, "@#");
    var close := if open.None? then None else Cut(open.value.1, "@");
    if close.None? || !IsCalendarToken(close.value.0) then (GREGORIAN, Some(u))
    else
      var words := Fields(open.value.0 + " " + close.value.1);
      (close.value.0, if words == [] then None else Some(Join(words)))
  }

  /** The date a keyword of this qualifier opens. */
  function Behind(q: Qualifier, t: string): GenDate
  {
    if Blank(t) then GenDate("", Exact, NO_DAY, NO_DAY, GREGORIAN, "")
    else
      var (calendar, body) := BehindKeyword(ToUpper(TrimRight(t)));
      if body.None? then GenDate("", Exact, NO_DAY, NO_DAY, calendar, "") else ReadQualified("", calendar, q, body.value)
  }

  lemma {:induction false} OneWord(k: string)
    requires Capitals(k)
    ensures Fields(k) == [k] && TrimSpace(k) == k && ToUpper(k) == k && Cut(k, "@#") == None && !Blank(k)
    ensures TrimLeft(k) == k && TrimRight(k) == k
  {
    hide WordLength;
    assert NoSpaceIn(k) && !IsSpace(k[0]) && !IsSpace(k[|k| - 1]);
    WordFirst(k, "");
    assert k + "" == k && Fields("") == [];
    CutAbsentHere(k, "@#");
    UpperKeeps(k);
  }

  lemma WorkBehind(k: string, u: string)
    requires Capitals(k)
    ensures CalendarAndWork(k + " " + u)
         == var (calendar, body) := BehindKeyword(u); (calendar, if body.None? then k else k + " " + body.value)
  {
    hide IsCalendarToken, Fields, Join, Cut, Capitals, TrimSpace, ToUpper;
    OneWord(k);
    CutAcross(k, " ", u, "@#");
    var open := Cut(u, "@#");
    if open.Some? {
      var close := Cut(open.value.1, "@");
      if close.Some? && IsCalendarToken(close.value.0) {
        var rest := open.value.0 + " " + close.value.1;
        assert k + " " + open.value.0 + " " + close.value.1 == k + " " + rest;
        FieldsAcross(k, " ", rest);
        JoinCons(k, Fields(rest));
      }
    }
  }

  lemma {:induction false} CutAbsentHere(s: string, sep: string)
    requires sep != "" && forall i :: 0 <= i < |s| ==> s[i] != sep[0]
    ensures Cut(s, sep) == None
  {
    if s != "" {
      CutAbsentHere(s[1..], sep);
    }
  }

  /** A single word that is no number is read as no date. */
  lemma NoDate(k: string, calendar: string)
    requires Capitals(k)
    ensures ReadSimple(k, calendar) == NO_DAY
  {
    ReadsWordsAlone(k, calendar);
    OneWord(k);
    NotANumber(k);
  }

  lemma KeywordAlone(k: string, q: Qualifier, s: string, calendar: string)
    requires OpensWith(k, q)
    ensures TakeQualifier(QUALIFIERS, k) == (Exact, k) && !("INT " <= k)
    ensures ReadQualified(s, calendar, Exact, k) == GenDate(s, Exact, NO_DAY, NO_DAY, calendar, "")
  {
    hide ReadSimple, TakeQualifier, QUALIFIERS;
    NoDate(k, calendar);
    assert ' ' !in k && "INT "[3] == ' ';
    assert "INT " <= k ==> ' ' in k;
  }

  /** The text as the parser takes it up. */
  lemma TextBehind(k: string, t: string)
    requires Capitals(k)
    ensures TrimSpace(k + " " + t) == if Blank(t) then k else k + " " + TrimRight(t)
    ensures ToUpper(k + " " + TrimRight(t)) == k + " " + ToUpper(TrimRight(t))
  {
    hide TrimLeft, TrimRight, TrimSpace, ToUpper, Blank, Capitals, Fields, Cut;
    OneWord(k);
    TrimAcross(k, " ", t);
    UpperGap(k, " ", TrimRight(t));
  }

  lemma ReadsBehind(k: string, q: Qualifier, t: string)
    requires OpensWith(k, q) && k != "INT"
    ensures Alike(Read(k + " " + t), Behind(q, t))
  {
    hide BehindKeyword, CalendarAndWork, QUALIFIERS, TakeQualifier, ReadSimple, MonthsFor, TrimSpace, ToUpper, Cut, ReadQualified;
    TextBehind(k, t);
    OneWord(k);
    var s := TrimSpace(k + " " + t);
    if Blank(t) {
      AloneWork(k);
      KeywordAlone(k, q, s, GREGORIAN);
    } else {
      var u := ToUpper(TrimRight(t));
      WorkBehind(k, u);
      var (calendar, body) := BehindKeyword(u);
      if body.None? {
        KeywordAlone(k, q, s, calendar);
      } else {
        NotInterpreted(k, body.value);
        RawAside(s, calendar, q, body.value);
      }
    }
  }

  /** A keyword and a space open a text behind another keyword only if the two are one. */
  lemma OpenedBySame(k: string, other: string, rest: string)
    requires Capitals(k) && Capitals(other) && other + " " <= k + " " + rest
    ensures k == other
  {
    var s, key := k + " " + rest, other + " ";
    assert s[..|k|] == k && s[|k|] == ' ' && key[|other|] == ' ' && key[..|other|] == other;
    assert forall i :: 0 <= i < |key| ==> s[i] == key[i];
    assert |k| == |other|;
  }

  lemma NotInterpreted(k: string, rest: string)
    requires Capitals(k) && k != "INT"
    ensures !("INT " <= k + " " + rest)
  {
    assert "INT" + " " == "INT ";
    if "INT " <= k + " " + rest {
      OpenedBySame(k, "INT", rest);
    }
  }

  lemma RawAside(s: string, calendar: string, q: Qualifier, body: string)
    ensures Alike(ReadQualified(s, calendar, q, body), ReadQualified("", calendar, q, body))
  {
  }

  lemma AloneWork(k: string)
    requires Capitals(k)
    ensures CalendarAndWork(k) == (GREGORIAN, k)
  {
    OneWord(k);
  }

  lemma {:induction false} TakesOwn(table: seq<(string, Qualifier)>, i: nat, rest: string)
    requires i < |table| && forall j :: 0 <= j < |table| ==> Capitals(table[j].0)
    requires forall j :: 0 <= j < i ==> table[j].0 != table[i].0
    ensures TakeQualifier(table, table[i].0 + " " + rest) == (table[i].1, rest)
  {
    var k := table[i].0;
    if i == 0 {
      PrefixRest(k + " ", rest);
    } else {
      if table[0].0 + " " <= k + " " + rest {
        OpenedBySame(k, table[0].0, rest);
      }
      TakesOwn(table[1..], i - 1, rest);
    }
  }

  lemma {:induction false} TakesNothing(table: seq<(string, Qualifier)>, k: string)
    requires Capitals(k) && forall j :: 0 <= j < |table| ==> Capitals(table[j].0)
    ensures TakeQualifier(table, k) == (Exact, k)
  {
    if table != [] {
      var key := table[0].0 + " ";
      assert key[|key| - 1] == ' ';
      assert ' ' in key && ' ' !in k;
      assert key <= k ==> ' ' in k;
      TakesNothing(table[1..], k);
    }
  }

  lemma TableShape()
    ensures forall j :: 0 <= j < |QUALIFIERS| ==> Capitals(QUALIFIERS[j].0) && QUALIFIERS[j].0 != "INT"
    ensures forall i, j :: 0 <= i < j < |QUALIFIERS| ==> QUALIFIERS[i].0 != QUALIFIERS[j].0
  {
    hide Capitals;
    forall j | 0 <= j < |QUALIFIERS| ensures Capitals(QUALIFIERS[j].0) && QUALIFIERS[j].0 != "INT" {
      KeyShape(j);
    }
    KeysDiffer();
  }

  lemma KeyShape(j: nat)
    requires j < |QUALIFIERS|
    ensures Capitals(QUALIFIERS[j].0) && QUALIFIERS[j].0 != "INT"
  {
    assert "INT"[0] == 'I';
  }

  predicate Differs(a: string, b: string)
  {
    |a| != |b| || (|a| >= 3 && (a[0] != b[0] || a[1] != b[1] || a[2] != b[2]))
  }

  lemma KeysDiffer()
    ensures forall i, j :: 0 <= i < j < |QUALIFIERS| ==> QUALIFIERS[i].0 != QUALIFIERS[j].0
  {
    assert forall i, j :: 0 <= i < j < |QUALIFIERS| ==> Differs(QUALIFIERS[i].0, QUALIFIERS[j].0);
  }

  lemma TableOpens(j: nat)
    requires j < |QUALIFIERS|
    ensures OpensWith(QUALIFIERS[j].0, QUALIFIERS[j].1)
  {
    hide QUALIFIERS, TakeQualifier;
    TableShape();
    var k := QUALIFIERS[j].0;
    TakesNothing(QUALIFIERS, k);
    forall rest ensures TakeQualifier(QUALIFIERS, k + " " + rest) == (QUALIFIERS[j].1, rest) {
      TakesOwn(QUALIFIERS, j, rest);
    }
  }

  /** The long keywords read as the short ones do, whatever follows. */
  lemma {:induction false} LongSpellings(t: string)
    ensures Alike(Read("ABOUT " + t), Read("ABT " + t))
    ensures Alike(Read("BEFORE " + t), Read("BEF " + t))
    ensures Alike(Read("AFTER " + t), Read("AFT " + t))
  {
    hide Read, Behind, OpensWith;
    ReadsAt(0, t); ReadsAt(1, t); ReadsAt(4, t); ReadsAt(5, t); ReadsAt(6, t); ReadsAt(7, t);
    assert "ABT" + " " == "ABT " && "ABOUT" + " " == "ABOUT " && "BEF" + " " == "BEF " && "BEFORE" + " " == "BEFORE ";
    assert "AFT" + " " == "AFT " && "AFTER" + " " == "AFTER ";
  }

  lemma {:induction false} ReadsAt(j: nat, t: string)
    requires j < |QUALIFIERS|
    ensures Alike(Read(QUALIFIERS[j].0 + " " + t), Behind(QUALIFIERS[j].1, t))
  {
    hide QUALIFIERS, Read, Behind, OpensWith;
    TableOpens(j);
    TableShape();
    ReadsBehind(QUALIFIERS[j].0, QUALIFIERS[j].1, t);
  }

  lemma NoEscapeBehind(t: string)
    requires '@' !in t
    ensures BehindKeyword(ToUpper(TrimRight(t))) == (GREGORIAN, Some(ToUpper(TrimRight(t))))
  {
    TrimRightInside(t);
    CutAbsentHere(ToUpper(TrimRight(t)), "@#");
  }

  lemma {:induction false} TrimRightInside(s: string)
    ensures forall c :: c in TrimRight(s) ==> c in s
  {
    if s != "" && IsSpace(s[|s| - 1]) {
      TrimRightInside(s[..|s| - 1]);
    }
  }

  lemma QualifierAt(j: nat, t: string)
    requires j < |QUALIFIERS| && !Blank(t) && '@' !in t
    ensures Read(QUALIFIERS[j].0 + " " + t).qualifier == QUALIFIERS[j].1
  {
    hide QUALIFIERS, Read, Blank, ToUpper, TrimRight, BehindKeyword, ReadSimple, Cut;
    ReadsAt(j, t);
    NoEscapeBehind(t);
  }

  /** What each keyword of the standard makes of a date. */
  lemma {:induction false} KeywordsMean(t: string)
    requires !Blank(t) && '@' !in t
    ensures Read("ABT " + t).qualifier == About && Read("CAL " + t).qualifier == Calculated
    ensures Read("EST " + t).qualifier == Estimated && Read("BEF " + t).qualifier == Before
    ensures Read("AFT " + t).qualifier == Afterwards && Read("BET " + t).qualifier == Between
    ensures Read("FROM " + t).qualifier == From
  {
    hide Read, Blank;
    QualifierAt(0, t); QualifierAt(2, t); QualifierAt(3, t); QualifierAt(4, t);
    QualifierAt(6, t); QualifierAt(8, t); QualifierAt(9, t);
    assert "ABT" + " " == "ABT " && "CAL" + " " == "CAL " && "EST" + " " == "EST " && "BEF" + " " == "BEF ";
    assert "AFT" + " " == "AFT " && "BET" + " " == "BET " && "FROM" + " " == "FROM ";
  }

  lemma {:induction false} KeywordNeedsSpace(table: seq<(string, Qualifier)>, s: string)
    requires ' ' !in s
    ensures TakeQualifier(table, s) == (Exact, s)
  {
    if table != [] {
      var key := table[0].0 + " ";
      assert key[|key| - 1] == ' ' && ' ' in key;
      assert key <= s ==> ' ' in s;
      KeywordNeedsSpace(table[1..], s);
    }
  }

  lemma NothingNew(text: string)
    ensures forall c :: c in TrimSpace(text) ==> c in text
    ensures ' ' !in text ==> ' ' !in ToUpper(text)
    ensures '@' !in text ==> '@' !in ToUpper(text)
  {
    TrimLeftInside(text);
    TrimRightInside(TrimLeft(text));
  }

  /** A keyword counts only before a plain space: a date whose words are parted by tabs has no qualifier. */
  lemma PlainSpaceNeeded(text: string)
    requires ' ' !in text && '@' !in text && TrimSpace(text) != ""
    ensures Read(text).qualifier == Exact
  {
    hide TrimSpace, ToUpper, TakeQualifier, QUALIFIERS, ReadSimple, Cut;
    NothingNew(text);
    NothingNew(TrimSpace(text));
    var upper := ToUpper(TrimSpace(text));
    CutAbsentHere(upper, "@#");
    KeywordNeedsSpace(QUALIFIERS, upper);
    assert "INT "[3] == ' ' && ("INT " <= upper ==> ' ' in upper);
  }

  /** The tokens of the calendar escapes. */
  lemma KnownTokens(token: string)
    ensures IsCalendarToken(token) <==> token in {"DGREGORIAN", "DJULIAN", "DHEBREW", "DFRENCH R"}
    ensures GREGORIAN == "DGREGORIAN" && JULIAN == "DJULIAN" && HEBREW == "DHEBREW" && FRENCH == "DFRENCH R"
  {
  }

  // --- Letter case ---

  /** The same character, or the small and the capital form of one of the 26 letters. */
  predicate SameLetter(a: char, b: char)
  {
    a == b || ('A' <= a <= 'Z' && b as int == a as int + 32) || ('A' <= b <= 'Z' && a as int == b as int + 32)
  }

  predicate SameLetters(a: string, b: string)
  {
    |a| == |b| && forall i :: 0 <= i < |a| ==> SameLetter(a[i], b[i])
  }

  lemma UpperSame(a: string, b: string)
    requires SameLetters(a, b)
    ensures ToUpper(a) == ToUpper(b)
  {
    forall i | 0 <= i < |a| ensures UpperChar(a[i]) == UpperChar(b[i]) {
      assert SameLetter(a[i], b[i]);
    }
  }

  lemma {:induction false} TrimLeftSame(a: string, b: string)
    requires SameLetters(a, b)
    ensures SameLetters(TrimLeft(a), TrimLeft(b))
  {
    if a != "" {
      assert SameLetter(a[0], b[0]);
      TrimLeftSame(a[1..], b[1..]);
    }
  }

  lemma {:induction false} TrimRightSame(a: string, b: string)
    requires SameLetters(a, b)
    ensures SameLetters(TrimRight(a), TrimRight(b))
  {
    if a != "" {
      var n := |a| - 1;
      assert SameLetter(a[n], b[n]);
      TrimRightSame(a[..n], b[..n]);
    }
  }

  lemma TrimSame(a: string, b: string)
    requires SameLetters(a, b)
    ensures SameLetters(TrimSpace(a), TrimSpace(b))
  {
    TrimLeftSame(a, b);
    TrimRightSame(TrimLeft(a), TrimLeft(b));
  }

  lemma {:induction false} CutSame(a: string, b: string)
    requires SameLetters(a, b)
    ensures match Cut(a, "(")
      case None => Cut(b, "(") == None
      case Some((x, y)) => Cut(b, "(").Some? && SameLetters(x, Cut(b, "(").value.0) && SameLetters(y, Cut(b, "(").value.1)
  {
    if a != "" {
      assert SameLetter(a[0], b[0]);
      assert "(" <= a <==> a[0] == '(';
      assert "(" <= b <==> b[0] == '(';
      CutSame(a[1..], b[1..]);
    }
  }

  lemma {:induction false} UpToLastSame(a: string, b: string)
    requires SameLetters(a, b)
    ensures SameLetters(UpToLast(a, ')'), UpToLast(b, ')'))
  {
    if a != "" {
      assert SameLetter(a[0], b[0]);
      CloseSame(a[1..], b[1..]);
      UpToLastSame(a[1..], b[1..]);
    }
  }

  lemma CloseSame(a: string, b: string)
    requires SameLetters(a, b)
    ensures ')' in a <==> ')' in b
  {
    if ')' in a {
      var i :| 0 <= i < |a| && a[i] == ')';
      assert SameLetter(a[i], b[i]);
    }
    if ')' in b {
      var i :| 0 <= i < |b| && b[i] == ')';
      assert SameLetter(a[i], b[i]);
    }
  }

  /** Letter case does not matter; in an interpreted date's phrase it is kept as written. */
  lemma {:induction false} CaseAside(a: string, b: string)
    requires SameLetters(a, b)
    ensures AlikeButPhrase(Read(a), Read(b)) && SameLetters(Read(a).interpretedFrom, Read(b).interpretedFrom)
  {
    hide TrimSpace, ToUpper, CalendarAndWork, TakeQualifier, QUALIFIERS, ReadSimple, Cut, UpToLast;
    TrimSame(a, b);
    var s, t := TrimSpace(a), TrimSpace(b);
    UpperSame(s, t);
    var (calendar, work) := CalendarAndWork(ToUpper(s));
    if s != "" && "INT " <= work {
      WorkNoLonger(ToUpper(s));
      TrimSame(s[4..], t[4..]);
      var r, u := TrimSpace(s[4..]), TrimSpace(t[4..]);
      CutSame(r, u);
      UpperSame(r, u);
      var split := Cut(r, "(");
      if split.Some? {
        var split' := Cut(u, "(");
        TrimSame(split.value.0, split'.value.0);
        UpperSame(TrimSpace(split.value.0), TrimSpace(split'.value.0));
        UpToLastSame(split.value.1, split'.value.1);
      }
    }
  }

  lemma WorkNoLonger(upper: string)
    ensures |CalendarAndWork(upper).1| <= |upper|
  {
  }

  // --- The amount of white space ---

  lemma FieldsGap(p: string, gap: string, q: string)
    requires Blank(gap) && (gap == "" ==> q == "")
    ensures Fields(p + gap + q) == Fields(p) + Fields(q)
  {
    if gap == "" {
      assert p + gap + q == p;
    } else {
      FieldsAcross(p, gap, q);
    }
  }

  /** Only the French calendar's token has a space in it. */
  lemma TokenWithSpace(a: string, gap: string, b: string)
    requires Spaces(gap) && IsCalendarToken(a + gap + b)
    ensures a == "DFRENCH" && gap == " " && b == "R"
  {
    var t := a + gap + b;
    assert t[|a|] == ' ' && t[..|a|] == a && t[|a| + |gap|..] == b;
    assert t[|a| + |gap| - 1] == gap[|gap| - 1] == ' ';
    assert t == FRENCH && |a| == 7 && |a| + |gap| - 1 == 7;
  }

  /** The gap is the one inside the first escape, and the escape is the French calendar's. */
  predicate InFrenchEscape(p: string, q: string)
  {
    Cut(p, "@#").Some? && Cut(p, "@#").value.1 == "DFRENCH" && "R@" <= q
  }

  /** The escape of a text with a gap, told without the gap. */
  function EscapeOf(p: string, q: string): Option<(string, string)>
  {
    var here := Cut(p, "@#");
    if here.Some? then
      var close := Cut(here.value.1, "@");
      if close.None? || !IsCalendarToken(close.value.0) then None
      else Some((close.value.0, Join(Fields(here.value.0 + " " + close.value.1) + Fields(q))))
    else
      var open := Cut(q, "@#");
      var close := if open.None? then None else Cut(open.value.1, "@");
      if close.None? || !IsCalendarToken(close.value.0) then None
      else Some((close.value.0, Join(Fields(p) + Fields(open.value.0 + " " + close.value.1))))
  }

  lemma EscapeAcross(p: string, gap: string, q: string)
    requires Spaces(gap) && !InFrenchEscape(p, q)
    ensures ExtractCalendarEscape(p + gap + q) == EscapeOf(p, q)
  {
    hide Cut, Fields, Join, IsCalendarToken;
    CutAcross(p, gap, q, "@#");
    var here := Cut(p, "@#");
    if here.Some? {
      OpenBefore(here.value.0, here.value.1, gap, q);
    } else if Cut(q, "@#").Some? {
      var close := Cut(Cut(q, "@#").value.1, "@");
      if close.Some? {
        var b, r := Cut(q, "@#").value.0, close.value.1;
        assert p + gap + b + " " + r == p + gap + (b + " " + r);
        FieldsAcross(p, gap, b + " " + r);
      }
    }
  }

  /** An escape that opens before the gap. */
  lemma OpenBefore(a: string, r: string, gap: string, q: string)
    requires Spaces(gap) && !(r == "DFRENCH" && "R@" <= q)
    ensures
      var close, here := Cut(r + gap + q, "@"), Cut(r, "@");
      && (close.None? || !IsCalendarToken(close.value.0) ==> here.None? || !IsCalendarToken(here.value.0))
      && (close.Some? && IsCalendarToken(close.value.0) ==>
            && here.Some? && here.value.0 == close.value.0
            && Fields(a + " " + close.value.1) == Fields(a + " " + here.value.1) + Fields(q))
  {
    hide Fields, IsCalendarToken;
    CutAcross(r, gap, q, "@");
    if Cut(r, "@").Some? {
      var rest := Cut(r, "@").value.1;
      assert a + " " + (rest + gap + q) == a + " " + rest + gap + q;
      FieldsAcross(a + " " + rest, gap, q);
    } else if Cut(q, "@").Some? {
      var b := Cut(q, "@").value.0;
      assert q == b + "@" + Cut(q, "@").value.1;
      assert "R" + "@" == "R@" && (b == "R" ==> "R@" <= q);
      if IsCalendarToken(r + gap + b) {
        TokenWithSpace(r, gap, b);
      }
    }
  }

  /** A keyword and a space open a text with a gap only within what stands before it, or up to it. */
  lemma OpensAcross(k: string, p: string, gap: string, q: string)
    requires Capitals(k) && Spaces(gap)
    ensures k + " " <= p + gap + q <==> k + " " <= p || p == k
  {
    var s, key := p + gap + q, k + " ";
    assert s[..|p|] == p && s[|p|] == ' ' && key[|k|] == ' ';
    if key <= s {
      assert forall i :: 0 <= i < |key| ==> s[i] == key[i];
      assert |p| >= |k|;
      assert |p| == |k| ==> p == s[..|p|] == key[..|k|] == k;
    }
    if p == k {
      assert forall i :: 0 <= i < |key| ==> s[i] == key[i];
    }
  }

  /** The qualifier found before a gap, and what stands between its keyword and the gap; nothing if the gap ends the keyword. */
  function TakenBefore(table: seq<(string, Qualifier)>, p: string): Option<(Qualifier, Option<string>)>
  {
    if table == [] then None
    else if table[0].0 + " " <= p then Some((table[0].1, Some(p[|table[0].0| + 1..])))
    else if p == table[0].0 then Some((table[0].1, None))
    else TakenBefore(table[1..], p)
  }

  lemma {:induction false} TakeAcross(table: seq<(string, Qualifier)>, p: string, gap: string, q: string)
    requires Spaces(gap) && forall j :: 0 <= j < |table| ==> Capitals(table[j].0)
    ensures TakeQualifier(table, p + gap + q) == match TakenBefore(table, p)
      case None => (Exact, p + gap + q)
      case Some((found, Some(inner))) => (found, inner + gap + q)
      case Some((found, None)) => (found, gap[1..] + q)
  {
    if table != [] {
      var k := table[0].0;
      OpensAcross(k, p, gap, q);
      if k + " " <= p {
        assert (p + gap + q)[|k| + 1..] == p[|k| + 1..] + gap + q;
      } else if p == k {
        assert (p + gap + q)[|k| + 1..] == gap[1..] + q;
      } else {
        TakeAcross(table[1..], p, gap, q);
      }
    }
  }

  lemma {:induction false} CutShort(s: string, sep: string)
    requires |s| < |sep|
    ensures Cut(s, sep) == None
  {
    if s != "" {
      CutShort(s[1..], sep);
    }
  }

  /** A word between spaces, sought from a gap on: it may begin with the gap's last space. */
  lemma {:induction false} CutFromGap(gap: string, q: string, k: string)
    requires Spaces(gap) && Capitals(k)
    ensures Cut(gap + q, " " + k + " ") ==
      if k + " " <= q then Some((gap[1..], q[|k| + 1..]))
      else match Cut(q, " " + k + " ") case None => None case Some((c, d)) => Some((gap + c, d))
    decreases |gap|
  {
    var s, sep := gap + q, " " + k + " ";
    assert sep == [' '] + (k + " ") && s[1..] == gap[1..] + q && s == [' '] + s[1..];
    ConsPrefix(' ', k + " ", s[1..]);
    if gap == " " {
      assert s[1..] == q;
    } else {
      LongGap(gap);
      assert s[1] == ' ' && (k + " ")[0] == k[0];
      CutFromGap(gap[1..], q, k);
      if !(k + " " <= q) && Cut(q, sep).Some? {
        Associates([' '], gap[1..], Cut(q, sep).value.0);
      }
    }
  }

  lemma LongGap(gap: string)
    requires Spaces(gap) && gap != " "
    ensures Spaces(gap[1..]) && gap == [' '] + gap[1..] && gap[1..] == [' '] + gap[1..][1..]
  {
    assert |gap| > 1;
  }

  predicate EndsWith(s: string, end: string)
  {
    |end| <= |s| && s[|s| - |end|..] == end
  }

  /** Where a word between spaces is found in a text with a gap. */
  function CutParts(p: string, gap: string, q: string, k: string): Option<(string, string)>
    requires gap != ""
  {
    var sep := " " + k + " ";
    if Cut(p, sep).Some? then Some((Cut(p, sep).value.0, Cut(p, sep).value.1 + gap + q))
    else if EndsWith(p, " " + k) then Some((p[..|p| - |k| - 1], gap[1..] + q))
    else if k + " " <= q then Some((p + gap[1..], q[|k| + 1..]))
    else match Cut(q, sep) case None => None case Some((c, d)) => Some((p + gap + c, d))
  }

  lemma {:induction false} CutWordAcross(p: string, gap: string, q: string, k: string)
    requires Spaces(gap) && Capitals(k)
    ensures Cut(p + gap + q, " " + k + " ") == CutParts(p, gap, q, k)
    decreases |p|
  {
    var s, sep := p + gap + q, " " + k + " ";
    if p == "" {
      assert s == gap + q;
      PartsOfNothing(gap, q, k);
    } else {
      hide CutParts, EndsWith;
      SeparatorAtFront(p, gap, q, k);
      if sep <= p {
        assert s[|sep|..] == p[|sep|..] + gap + q;
        PartsHere(p, gap, q, k);
      } else if p == " " + k {
        PartsAtGap(p, gap, q, k);
        assert s[|sep|..] == gap[1..] + q;
      } else {
        assert s[1..] == p[1..] + gap + q && s[0] == p[0] && p == [p[0]] + p[1..];
        CutWordAcross(p[1..], gap, q, k);
        PartsGrow(p, gap, q, k);
      }
    }
  }

  lemma PartsOfNothing(gap: string, q: string, k: string)
    requires Spaces(gap) && Capitals(k)
    ensures Cut(gap + q, " " + k + " ") == CutParts("", gap, q, k)
  {
    var p, sep := "", " " + k + " ";
    CutFromGap(gap, q, k);
    assert Cut(p, sep) == None && !EndsWith(p, " " + k);
    assert p + gap[1..] == gap[1..];
    if Cut(q, sep).Some? {
      assert p + gap + Cut(q, sep).value.0 == gap + Cut(q, sep).value.0;
    }
  }

  lemma PartsHere(p: string, gap: string, q: string, k: string)
    requires gap != "" && " " + k + " " <= p
    ensures CutParts(p, gap, q, k) == Some(("", p[|" " + k + " "|..] + gap + q))
  {
  }

  lemma PartsAtGap(p: string, gap: string, q: string, k: string)
    requires gap != "" && p == " " + k
    ensures CutParts(p, gap, q, k) == Some(("", gap[1..] + q))
  {
    CutShort(p, " " + k + " ");
    assert p[|p| - |p|..] == p;
  }

  lemma SeparatorAtFront(p: string, gap: string, q: string, k: string)
    requires Spaces(gap) && Capitals(k) && p != ""
    ensures " " + k + " " <= p + gap + q <==> " " + k + " " <= p || p == " " + k
  {
    var s, sep := p + gap + q, " " + k + " ";
    assert s[..|p|] == p && s[|p|] == ' ' && sep[..|k| + 1] == " " + k;
    if sep <= s {
      assert forall i :: 0 <= i < |sep| ==> s[i] == sep[i];
      assert forall i :: 1 <= i <= |k| ==> sep[i] == k[i - 1];
      assert |p| >= |k| + 1;
      assert |p| == |k| + 1 ==> p == s[..|p|] == sep[..|k| + 1];
    }
    if p == " " + k {
      assert forall i :: 0 <= i < |sep| ==> s[i] == sep[i];
    }
  }

  /** One more character in front of what the separator is not found at. */
  lemma PartsGrow(p: string, gap: string, q: string, k: string)
    requires gap != "" && p != "" && !(" " + k + " " <= p) && p != " " + k
    ensures CutParts(p, gap, q, k)
         == match CutParts(p[1..], gap, q, k) case None => None case Some((a, b)) => Some(([p[0]] + a, b))
  {
    var sep, end, t := " " + k + " ", " " + k, p[1..];
    assert p == [p[0]] + t;
    assert |end| <= |t| ==> t[|t| - |end|..] == p[|p| - |end|..];
    assert |end| == |p| ==> p[|p| - |end|..] == p;
    assert EndsWith(p, end) <==> EndsWith(t, end);
    if Cut(t, sep).None? {
      if EndsWith(t, end) {
        assert p[..|p| - |k| - 1] == [p[0]] + t[..|t| - |k| - 1];
      } else if k + " " <= q {
        assert p + gap[1..] == [p[0]] + (t + gap[1..]);
      } else if Cut(q, sep).Some? {
        assert p + gap + Cut(q, sep).value.0 == [p[0]] + (t + gap + Cut(q, sep).value.0);
      }
    }
  }

  lemma {:induction false} WordsAround(p: string, gap: string, q: string)
    requires Spaces(gap)
    ensures Fields(p + gap + q) == Fields(p) + Fields(q) && Fields(gap + q) == Fields(q)
    ensures Fields(p + gap[1..]) == Fields(p) && Fields(gap[1..] + q) == Fields(q)
  {
    FieldsAcross(p, gap, q);
    FieldsBlank(gap, q);
    FieldsBlank(gap[1..], q);
    assert p + gap[1..] == p + gap[1..] + "";
    FieldsGap(p, gap[1..], "");
  }

  /** The words of both halves of a range, whatever the gap. */
  lemma PartsAcross(p: string, g: string, h: string, q: string, k: string)
    requires Spaces(g) && Spaces(h) && Capitals(k)
    ensures match Cut(p + g + q, " " + k + " ")
      case None => Cut(p + h + q, " " + k + " ") == None
      case Some((a, b)) => (
        var other := Cut(p + h + q, " " + k + " ");
        other.Some? && Fields(other.value.0) == Fields(a) && Fields(other.value.1) == Fields(b))
  {
    hide Cut, Fields, EndsWith;
    CutWordAcross(p, g, q, k);
    CutWordAcross(p, h, q, k);
    WordsAround(p, g, q);
    WordsAround(p, h, q);
    var sep := " " + k + " ";
    if Cut(p, sep).Some? {
      WordsAround(Cut(p, sep).value.1, g, q);
      WordsAround(Cut(p, sep).value.1, h, q);
    } else if Cut(q, sep).Some? {
      WordsAround(p, g, Cut(q, sep).value.0);
      WordsAround(p, h, Cut(q, sep).value.0);
    }
  }

  /** The same where the gap directly follows the range's keyword, and no separator follows the gap. */
  lemma PartsBehind(g: string, h: string, q: string, k: string)
    requires Spaces(g) && Spaces(h) && Capitals(k) && !(k + " " <= q)
    ensures match Cut(g[1..] + q, " " + k + " ")
      case None => Cut(h[1..] + q, " " + k + " ") == None
      case Some((a, b)) => (
        var other := Cut(h[1..] + q, " " + k + " ");
        other.Some? && Fields(other.value.0) == Fields(a) && Fields(other.value.1) == Fields(b))
  {
    PartsBehindOne(g, q, k);
    PartsBehindOne(h, q, k);
  }

  lemma PartsBehindOne(g: string, q: string, k: string)
    requires Spaces(g) && Capitals(k) && !(k + " " <= q)
    ensures match Cut(q, " " + k + " ")
      case None => Cut(g[1..] + q, " " + k + " ") == None
      case Some((a, b)) => (
        var other := Cut(g[1..] + q, " " + k + " ");
        other.Some? && Fields(other.value.0) == Fields(a) && Fields(other.value.1) == Fields(b))
  {
    if g[1..] == "" {
      assert g[1..] + q == q;
    } else {
      CutFromGap(g[1..], q, k);
      if Cut(q, " " + k + " ").Some? {
        FieldsBlank(g[1..], Cut(q, " " + k + " ").value.0);
      }
    }
  }

  function SeparatorWord(q: Qualifier): string
  {
    if q == Between then "AND" else "TO"
  }

  lemma SeparatorIsWord(q: Qualifier)
    requires SeparatorOf(q).Some?
    ensures SeparatorOf(q).value == " " + SeparatorWord(q) + " " && Capitals(SeparatorWord(q))
  {
    assert " AND " == " " + "AND" + " " && " TO " == " " + "TO" + " ";
  }

  /** Two bodies of a date whose words, and whose halves' words where it is a range, are the same. */
  predicate SameWords(found: Qualifier, x: string, y: string)
  {
    && Fields(x) == Fields(y)
    && (SeparatorOf(found).Some? ==>
          var a, b := Cut(x, SeparatorOf(found).value), Cut(y, SeparatorOf(found).value);
          (a.None? && b.None?)
          || (a.Some? && b.Some? && Fields(a.value.0) == Fields(b.value.0) && Fields(a.value.1) == Fields(b.value.1)))
  }

  lemma SameWordsRead(s: string, t: string, calendar: string, found: Qualifier, x: string, y: string)
    requires SameWords(found, x, y)
    ensures Alike(ReadQualified(s, calendar, found, x), ReadQualified(t, calendar, found, y))
  {
    hide Cut, Fields, TrimSpace, ReadSimple;
    ReadsWordsAlone(x, calendar);
    ReadsWordsAlone(y, calendar);
    if SeparatorOf(found).Some? {
      var a, b := Cut(x, SeparatorOf(found).value), Cut(y, SeparatorOf(found).value);
      if a.Some? {
        ReadsWordsAlone(a.value.0, calendar);
        ReadsWordsAlone(a.value.1, calendar);
        ReadsWordsAlone(b.value.0, calendar);
        ReadsWordsAlone(b.value.1, calendar);
      }
    }
  }

  /** The gap stands between a range's keyword and its separator word. */
  predicate ParsesRange(p: string, q: string)
  {
    (p == "BET" && "AND " <= q) || (p == "FROM" && "TO " <= q)
  }

  /** A qualified date is read alike across any two gaps, except between a range's keyword and its separator word. */
  lemma {:induction false} QualifiedAcross(s: string, t: string, calendar: string, p: string, g: string, h: string, q: string)
    requires Spaces(g) && Spaces(h) && !ParsesRange(p, q)
    ensures
      var (fg, xg) := TakeQualifier(QUALIFIERS, p + g + q);
      var (fh, xh) := TakeQualifier(QUALIFIERS, p + h + q);
      Alike(ReadQualified(s, calendar, fg, xg), ReadQualified(t, calendar, fh, xh))
  {
    hide QUALIFIERS, TakeQualifier, Cut, Fields, ReadQualified, SameWords, TakenBefore, Capitals;
    TableShape();
    TakeAcross(QUALIFIERS, p, g, q);
    TakeAcross(QUALIFIERS, p, h, q);
    var taken := TakenBefore(QUALIFIERS, p);
    match taken
    case None =>
      WithinGap(Exact, p, g, h, q);
      SameWordsRead(s, t, calendar, Exact, p + g + q, p + h + q);
    case Some((found, Some(inner))) =>
      WithinGap(found, inner, g, h, q);
      SameWordsRead(s, t, calendar, found, inner + g + q, inner + h + q);
    case Some((found, None)) =>
      KeywordOf(found, p);
      BehindGap(found, g, h, q);
      SameWordsRead(s, t, calendar, found, g[1..] + q, h[1..] + q);
  }

  /** Only BET and FROM open ranges. */
  lemma KeywordOf(found: Qualifier, p: string)
    requires TakenBefore(QUALIFIERS, p) == Some((found, None))
    ensures found == Between ==> p == "BET"
    ensures found == From ==> p == "FROM"
  {
    KeywordAt(QUALIFIERS, found, p);
  }

  lemma {:induction false} KeywordAt(table: seq<(string, Qualifier)>, found: Qualifier, p: string)
    requires TakenBefore(table, p) == Some((found, None))
    ensures exists j :: 0 <= j < |table| && table[j] == (p, found)
  {
    if table != [] && p != table[0].0 {
      KeywordAt(table[1..], found, p);
      var j :| 0 <= j < |table[1..]| && table[1..][j] == (p, found);
      assert table[j + 1] == (p, found);
    } else if table != [] {
      assert !(table[0].0 + " " <= p);
      assert table[0] == (p, found);
    }
  }

  lemma WithinGap(found: Qualifier, inner: string, g: string, h: string, q: string)
    requires Spaces(g) && Spaces(h)
    ensures SameWords(found, inner + g + q, inner + h + q)
  {
    hide Cut, Fields;
    WordsAround(inner, g, q);
    WordsAround(inner, h, q);
    if SeparatorOf(found).Some? {
      SeparatorIsWord(found);
      PartsAcross(inner, g, h, q, SeparatorWord(found));
    }
  }

  lemma BehindGap(found: Qualifier, g: string, h: string, q: string)
    requires Spaces(g) && Spaces(h) && (SeparatorOf(found).Some? ==> !(SeparatorWord(found) + " " <= q))
    ensures SameWords(found, g[1..] + q, h[1..] + q)
  {
    hide Cut, Fields;
    WordsAround("", g, q);
    WordsAround("", h, q);
    if SeparatorOf(found).Some? {
      SeparatorIsWord(found);
      PartsBehind(g, h, q, SeparatorWord(found));
    }
  }

  // --- Interpreted dates ---

  /** Interpreted dates across two gaps: the date alike, and the phrase too where the gap stands before it. */
  lemma InterpretedAcross(p: string, g: string, h: string, q: string, calendar: string)
    requires Spaces(g) && Spaces(h) && (|p| >= 4 || ToUpper(p) == "INT")
    ensures AlikeButPhrase(ReadInterpreted(p + g + q, calendar), ReadInterpreted(p + h + q, calendar))
    ensures '(' !in p ==> ReadInterpreted(p + g + q, calendar).interpretedFrom == ReadInterpreted(p + h + q, calendar).interpretedFrom
  {
    hide TrimSpace, ReadSimple, ToUpper, Cut, UpToLast;
    if |p| >= 4 {
      assert (p + g + q)[4..] == p[4..] + g + q && (p + h + q)[4..] == p[4..] + h + q;
      TrimAcross(p[4..], g, q);
      TrimAcross(p[4..], h, q);
      if !Blank(p[4..]) && !Blank(q) {
        RestAcross(TrimLeft(p[4..]), g, h, TrimRight(q), calendar);
        TrimLeftInside(p[4..]);
      }
    } else {
      assert |p| == 3;
      assert (p + g + q)[4..] == g[1..] + q && (p + h + q)[4..] == h[1..] + q;
      TrimLeftAcross(g[1..], q);
      TrimLeftAcross(h[1..], q);
      assert TrimSpace(g[1..] + q) == TrimSpace(h[1..] + q) by {
        BlankFront(g[1..], q);
        BlankFront(h[1..], q);
      }
    }
  }

  lemma BlankFront(gap: string, q: string)
    requires Blank(gap)
    ensures TrimSpace(gap + q) == TrimSpace(q)
  {
    TrimLeftAcross(gap, q);
  }

  lemma {:induction false} TrimLeftInside(s: string)
    ensures forall c :: c in TrimLeft(s) ==> c in s
  {
    if s != "" && IsSpace(s[0]) {
      TrimLeftInside(s[1..]);
    }
  }

  /** What an interpreted date's text behind INT is read as. */
  function ReadRest(rest: string, calendar: string): (Day, string)
  {
    var split := Cut(rest, "(");
    if split.None? then (ReadSimple(ToUpper(rest), calendar), "")
    else (ReadSimple(ToUpper(TrimSpace(split.value.0)), calendar), UpToLast(split.value.1, ')'))
  }

  lemma RestAcross(p: string, g: string, h: string, q: string, calendar: string)
    requires Spaces(g) && Spaces(h)
    ensures ReadRest(p + g + q, calendar).0 == ReadRest(p + h + q, calendar).0
    ensures '(' !in p ==> ReadRest(p + g + q, calendar).1 == ReadRest(p + h + q, calendar).1
  {
    hide TrimSpace, ReadSimple, Cut, UpToLast;
    CutAcross(p, g, q, "(");
    CutAcross(p, h, q, "(");
    if Cut(p, "(").Some? {
      assert p == Cut(p, "(").value.0 + "(" + Cut(p, "(").value.1;
      assert p[|Cut(p, "(").value.0|] == '(';
    } else if Cut(q, "(").Some? {
      UpperAcross(p, g, h, Cut(q, "(").value.0, calendar);
    } else {
      UpperAcross(p, g, h, q, calendar);
    }
  }

  lemma {:induction false} UpperAcross(p: string, g: string, h: string, q: string, calendar: string)
    requires Spaces(g) && Spaces(h)
    ensures ReadSimple(ToUpper(p + g + q), calendar) == ReadSimple(ToUpper(p + h + q), calendar)
    ensures ReadSimple(ToUpper(TrimSpace(p + g + q)), calendar) == ReadSimple(ToUpper(TrimSpace(p + h + q)), calendar)
  {
    hide TrimSpace, ReadSimple, Fields;
    UpperGap(p, g, q);
    UpperGap(p, h, q);
    FieldsAcross(ToUpper(p), g, ToUpper(q));
    FieldsAcross(ToUpper(p), h, ToUpper(q));
    ReadsUpperWords(p + g + q, calendar);
    ReadsUpperWords(p + h + q, calendar);
    ReadsWordsAlone(ToUpper(p + g + q), calendar);
    ReadsWordsAlone(ToUpper(p + h + q), calendar);
  }

  lemma UpperGap(p: string, gap: string, q: string)
    requires Spaces(gap)
    ensures ToUpper(p + gap + q) == ToUpper(p) + gap + ToUpper(q)
  {
    assert ToUpper(gap) == gap;
    UpperConcat(p + gap, q);
    UpperConcat(p, gap);
  }

  // --- The whole parser ---

  /** A gap whose amount of white space can matter. */
  predicate Sensitive(p: string, q: string)
  {
    var before, after := ToUpper(TrimLeft(p)), ToUpper(TrimRight(q));
    ParsesRange(before, after) || InFrenchEscape(before, after)
  }

  /** Read after trimming. */
  function ReadTrimmed(s: string): GenDate
    requires s != ""
  {
    var (calendar, work) := CalendarAndWork(ToUpper(s));
    if "INT " <= work then
      WorkNoLonger(ToUpper(s));
      ReadInterpreted(s, calendar)
    else
      var (q, body) := TakeQualifier(QUALIFIERS, work);
      ReadQualified(s, calendar, q, body)
  }

  /** When a text with a gap counts as interpreted, the gap ends the word INT or lies behind it. */
  lemma InterpretedReaches(p: string, gap: string, q: string)
    requires Spaces(gap) && p != "" && !IsSpace(p[0]) && !InFrenchEscape(ToUpper(p), ToUpper(q))
    requires "INT " <= CalendarAndWork(ToUpper(p + gap + q)).1
    ensures |p| >= 4 || ToUpper(p) == "INT"
  {
    hide Cut, IsCalendarToken, ToUpper;
    var up, uq := ToUpper(p), ToUpper(q);
    UpperGap(p, gap, q);
    EscapeAcross(up, gap, uq);
    assert "INT" + " " == "INT ";
    if EscapeOf(up, uq).None? {
      OpensAcross("INT", up, gap, uq);
    } else {
      assert !IsSpace(up[0]) by {
        assert up[0] == UpperChar(p[0]);
      }
      FirstWord(up, gap, uq);
    }
  }

  /** The first word of what is left when an escape is cut out. */
  lemma FirstWord(p: string, gap: string, q: string)
    requires p != "" && !IsSpace(p[0]) && EscapeOf(p, q).Some? && "INT " <= EscapeOf(p, q).value.1
    ensures |p| >= 4 || p == "INT"
  {
    hide Cut, Fields, Join;
    if Cut(p, "@#").Some? {
      var open := Cut(p, "@#");
      var close := Cut(open.value.1, "@");
      assert p == open.value.0 + "@#" + open.value.1 && open.value.1 == close.value.0 + "@" + close.value.1;
      assert |close.value.0| >= 7;
    } else {
      var open := Cut(q, "@#");
      var close := Cut(open.value.1, "@");
      var rest := open.value.0 + " " + close.value.1;
      var w, tail := FirstOf(p);
      WordFirst(w, tail);
      Associates([w], Fields(tail), Fields(rest));
      JoinCons(w, Fields(tail) + Fields(rest));
      WordIs(w, Join([w] + (Fields(tail) + Fields(rest))));
    }
  }

  lemma WordIs(w: string, s: string)
    requires NoSpaceIn(w) && "INT " <= s && (s == w || w + " " <= s)
    ensures w == "INT"
  {
    var key := "INT ";
    assert forall i :: 0 <= i < |key| ==> s[i] == key[i];
    assert key[3] == ' ' && forall i :: 0 <= i < |w| ==> w[i] != ' ';
    assert s != w;
    assert (w + " ")[|w|] == ' ' && forall i :: 0 <= i < |w + " "| ==> s[i] == (w + " ")[i];
    assert s[|w|] == ' ' && s[..|w|] == w;
    assert |w| >= 3 && w == key[..3];
  }

  /** Trimmed texts are read alike across any two gaps the parser is not sensitive to. */
  lemma {:induction false} TrimmedAcross(p: string, g: string, h: string, q: string)
    requires Spaces(g) && Spaces(h) && p != "" && !IsSpace(p[0])
    requires !ParsesRange(ToUpper(p), ToUpper(q)) && !InFrenchEscape(ToUpper(p), ToUpper(q))
    ensures AlikeButPhrase(ReadTrimmed(p + g + q), ReadTrimmed(p + h + q))
    ensures '(' !in p ==> Alike(ReadTrimmed(p + g + q), ReadTrimmed(p + h + q))
  {
    hide Cut, IsCalendarToken, ToUpper, TakeQualifier, QUALIFIERS, ReadInterpreted, ReadQualified, ExtractCalendarEscape, EscapeOf,
         ParsesRange, InFrenchEscape;
    var up, uq := ToUpper(p), ToUpper(q);
    UpperGap(p, g, q);
    UpperGap(p, h, q);
    EscapeAcross(up, g, uq);
    EscapeAcross(up, h, uq);
    var (calendar, work) := CalendarAndWork(up + g + uq);
    SameOpening(p, g, h, q);
    if "INT " <= work {
      InterpretedReaches(p, g, q);
      InterpretedAcross(p, g, h, q, calendar);
      InterpretedFields(p + g + q, calendar);
      InterpretedFields(p + h + q, calendar);
    } else if EscapeOf(up, uq).None? {
      QualifiedAcross(p + g + q, p + h + q, calendar, up, g, h, uq);
    } else {
      var (found, body) := TakeQualifier(QUALIFIERS, work);
      RawAside(p + g + q, calendar, found, body);
      RawAside(p + h + q, calendar, found, body);
    }
  }

  lemma InterpretedFields(s: string, calendar: string)
    requires |s| >= 4
    ensures ReadInterpreted(s, calendar).second == NO_DAY && ReadInterpreted(s, calendar).calendar == calendar
    ensures ReadInterpreted(s, calendar).qualifier == Interpreted
  {
  }

  lemma SameOpening(p: string, g: string, h: string, q: string)
    requires Spaces(g) && Spaces(h) && p != "" && !IsSpace(p[0]) && !InFrenchEscape(ToUpper(p), ToUpper(q))
    ensures
      var (c, w) := CalendarAndWork(ToUpper(p) + g + ToUpper(q));
      var (d, x) := CalendarAndWork(ToUpper(p) + h + ToUpper(q));
      c == d && ("INT " <= w <==> "INT " <= x)
  {
    hide Cut, IsCalendarToken, ToUpper;
    var up, uq := ToUpper(p), ToUpper(q);
    EscapeAcross(up, g, uq);
    EscapeAcross(up, h, uq);
    assert "INT" + " " == "INT ";
    OpensAcross("INT", up, g, uq);
    OpensAcross("INT", up, h, uq);
  }

  /**
   * The amount of white space between two parts of a date does not matter, except inside the French calendar's
   * escape and between a range's keyword and its separator word. In an interpreted date's phrase it is kept.
   */
  lemma {:induction false} SpacesAside(p: string, g: string, h: string, q: string)
    requires Spaces(g) && Spaces(h) && !Sensitive(p, q)
    ensures AlikeButPhrase(Read(p + g + q), Read(p + h + q))
    ensures '(' !in p ==> Alike(Read(p + g + q), Read(p + h + q))
  {
    hide TrimSpace, ReadTrimmed, ToUpper, ParsesRange, InFrenchEscape;
    TrimAcross(p, g, q);
    TrimAcross(p, h, q);
    ReadIsTrimmed(p + g + q);
    ReadIsTrimmed(p + h + q);
    if !Blank(p) && !Blank(q) {
      TrimLeftAcross(p, "");
      TrimLeftInside(p);
      TrimmedAcross(TrimLeft(p), g, h, TrimRight(q));
    }
  }

  lemma ReadIsTrimmed(text: string)
    ensures Read(text) == if TrimSpace(text) == "" then EMPTY else ReadTrimmed(TrimSpace(text))
  {
  }

  // --- Where it does matter ---

  /** The gap stands between a range's keyword and its separator word, or inside the French calendar's escape. */
  predicate SensitiveTo(p: string, w: string)
  {
    var before, word := ToUpper(TrimLeft(p)), ToUpper(w);
    (before == "BET" && word == "AND") || (before == "FROM" && word == "TO") || InFrenchEscape(before, word)
  }

  lemma OnlyThere(p: string, w: string, tail: string)
    requires w != "" && NoSpaceIn(w) && !SensitiveTo(p, w)
    ensures !Sensitive(p, w + " " + tail)
  {
    hide TrimLeft, TrimRight, ToUpper, Cut;
    var word, after := ToUpper(w), ToUpper(TrimRight(w + " " + tail));
    UpperWord(w, tail);
    OpensWordOnly(word, after, "AND");
    OpensWordOnly(word, after, "TO");
    assert "AND" + " " == "AND " && "TO" + " " == "TO ";
    OpensInside(word, after);
  }

  lemma OpensInside(word: string, after: string)
    requires word != "" && (after == word || word + " " <= after)
    ensures "R@" <= after ==> "R@" <= word
  {
    if after != word {
      assert (word + " ")[|word|] == ' ' && forall i :: 0 <= i < |word + " "| ==> after[i] == (word + " ")[i];
      assert forall i :: 0 <= i < |word| ==> after[i] == word[i];
      assert "R@"[1] == '@' && after[|word|] == ' ';
    }
  }

  lemma TrimRightKeeps(s: string)
    requires s != "" && !IsSpace(s[|s| - 1])
    ensures TrimRight(s) == s
  {
  }

  lemma UpperNoSpace(w: string)
    requires NoSpaceIn(w)
    ensures NoSpaceIn(ToUpper(w))
  {
  }

  lemma UpperWord(w: string, tail: string)
    requires w != "" && NoSpaceIn(w)
    ensures
      var word, after := ToUpper(w), ToUpper(TrimRight(w + " " + tail));
      NoSpaceIn(word) && |word| == |w| && (after == word || word + " " <= after)
  {
    hide TrimRight, ToUpper, NoSpaceIn, Blank;
    UpperNoSpace(w);
    TrimRightAcross(w + " ", tail);
    if Blank(tail) {
      TrimRightAcross(w, " ");
      assert Blank(" ") by {
        SpaceIsBlank();
      }
      assert TrimRight(w) == w by {
        LastOfWord(w);
        TrimRightKeeps(w);
      }
    } else {
      UpperGap(w, " ", TrimRight(tail));
      PrefixRest(ToUpper(w) + " ", ToUpper(TrimRight(tail)));
    }
  }

  lemma SpaceIsBlank()
    ensures Blank(" ")
  {
  }

  lemma LastOfWord(w: string)
    requires w != "" && NoSpaceIn(w)
    ensures !IsSpace(w[|w| - 1])
  {
  }

  lemma OpensWordOnly(word: string, after: string, k: string)
    requires NoSpaceIn(word) && Capitals(k) && (after == word || word + " " <= after)
    ensures k + " " <= after ==> word == k
  {
    var key := k + " ";
    assert key[|k|] == ' ' && key[..|k|] == k;
    if key <= after {
      assert forall i :: 0 <= i < |key| ==> after[i] == key[i];
      assert after != word;
      assert (word + " ")[|word|] == ' ' && forall i :: 0 <= i < |word + " "| ==> after[i] == (word + " ")[i];
      assert |word| == |k| && word == after[..|word|] == k;
    }
  }

  /** A range whose first date is missing: with one space its second date is lost, with two it is read. */
  lemma RangeWithoutFirst(s: string, t: string, calendar: string, found: Qualifier, k: string)
    requires (found == Between && k == "AND") || (found == From && k == "TO")
    ensures ReadQualified(s, calendar, found, k + " 5").second != ReadQualified(t, calendar, found, " " + k + " 5").second
  {
    SeparatorIsWord(found);
    var sep := " " + k + " ";
    CutFromGap(" ", k + " 5", k);
    assert " " + k + " 5" == " " + (k + " 5") && k + " " <= k + " 5" && (k + " 5")[|k| + 1..] == "5";
    assert Cut(k + " 5", sep) == None by {
      assert k + " 5" == k + (" 5");
      CutSkips(k, " 5", sep);
      CutShort(" 5", sep);
    }
    ReadsFive(calendar);
  }

  lemma ReadsFive(calendar: string)
    ensures ReadSimple("5", calendar) == Day(Some(5), None, None) && TrimSpace("5") == "5"
  {
    TrimKeeps("5");
    WordAtFront("5", "");
    assert "5" + "" == "5" && "5"[..1] == "5" && "5"[1..] == "";
    assert "5"[..0] == "" && DigitsValue("") == Some(0);
    assert Fields("5") == ["5"] && Atoi("5") == Some(5);
  }

  lemma NoEscapeInRange(a: string, gap: string, k: string)
    requires Capitals(a) && Capitals(k) && Spaces(gap)
    ensures CalendarAndWork(a + gap + (k + " 5")) == (GREGORIAN, a + gap + (k + " 5"))
  {
    CutAbsentHere(a + gap + (k + " 5"), "@#");
  }

  lemma TakesRange(a: string, gap: string, k: string)
    requires (a == "BET" && k == "AND") || (a == "FROM" && k == "TO")
    requires Spaces(gap)
    ensures TakeQualifier(QUALIFIERS, a + gap + (k + " 5"))
         == (if a == "BET" then Between else From, gap[1..] + (k + " 5"))
    ensures !("INT " <= a + gap + (k + " 5"))
  {
    hide QUALIFIERS;
    var j := if a == "BET" then 8 else 9;
    TableEnds();
    TableOpens(j);
    assert a + gap + (k + " 5") == a + " " + (gap[1..] + (k + " 5"));
    assert (a + gap)[0] == a[0] && "INT "[0] == 'I';
  }

  lemma TableEnds()
    ensures |QUALIFIERS| == 10 && QUALIFIERS[8] == ("BET", Between) && QUALIFIERS[9] == ("FROM", From)
  {
  }

  lemma {:induction false} RangeText(p: string, gap: string, w: string)
    requires (ToUpper(TrimLeft(p)) == "BET" && ToUpper(w) == "AND") || (ToUpper(TrimLeft(p)) == "FROM" && ToUpper(w) == "TO")
    requires Spaces(gap) && w != "" && NoSpaceIn(w)
    ensures
      var text := p + gap + (w + " 5");
      Read(text) == ReadQualified(TrimSpace(text), GREGORIAN, if ToUpper(TrimLeft(p)) == "BET" then Between else From,
                                  gap[1..] + (ToUpper(w) + " 5"))
  {
    hide TrimLeft, TrimRight, TrimSpace, CalendarAndWork, TakeQualifier, QUALIFIERS, ReadQualified, ToUpper, ReadInterpreted;
    TextOfRange(p, gap, w);
    NoEscapeInRange(ToUpper(TrimLeft(p)), gap, ToUpper(w));
    TakesRange(ToUpper(TrimLeft(p)), gap, ToUpper(w));
  }

  lemma {:induction false} RangeSensitive(p: string, w: string)
    requires (ToUpper(TrimLeft(p)) == "BET" && ToUpper(w) == "AND") || (ToUpper(TrimLeft(p)) == "FROM" && ToUpper(w) == "TO")
    requires w != "" && NoSpaceIn(w)
    ensures !AlikeButPhrase(Read(p + " " + (w + " 5")), Read(p + "  " + (w + " 5")))
  {
    hide TrimLeft, TrimRight, TrimSpace, Read, ReadQualified, ToUpper, NoSpaceIn;
    var k := ToUpper(w);
    RangeText(p, " ", w);
    RangeText(p, "  ", w);
    assert " "[1..] + (k + " 5") == k + " 5" && "  "[1..] + (k + " 5") == " " + k + " 5";
    RangeWithoutFirst(TrimSpace(p + " " + (w + " 5")), TrimSpace(p + "  " + (w + " 5")), GREGORIAN,
                      if ToUpper(TrimLeft(p)) == "BET" then Between else From, k);
  }

  lemma TextOfRange(p: string, gap: string, w: string)
    requires Spaces(gap) && w != "" && NoSpaceIn(w) && ToUpper(TrimLeft(p)) != ""
    ensures var s := TrimSpace(p + gap + (w + " 5"));
      s != "" && ToUpper(s) == ToUpper(TrimLeft(p)) + gap + (ToUpper(w) + " 5")
  {
    hide TrimLeft, TrimRight, TrimSpace;
    var q := w + " 5";
    TrimRightKeeps(q);
    TrimLeftAcross(p, "");
    TrimAcross(p, gap, q);
    UpperGap(TrimLeft(p), gap, q);
    UpperConcat(w, " 5");
    assert ToUpper(" 5") == " 5";
  }

  /** Inside the French calendar's escape one space keeps the calendar and two lose it. */
  lemma {:induction false} EscapeSensitive(p: string, w: string)
    requires InFrenchEscape(ToUpper(TrimLeft(p)), ToUpper(w)) && w != "" && NoSpaceIn(w)
    ensures Read(p + " " + (w + " 5")).calendar == FRENCH && Read(p + "  " + (w + " 5")).calendar == GREGORIAN
  {
    hide TrimLeft, TrimRight, TrimSpace, ToUpper, NoSpaceIn, Cut, ExtractCalendarEscape, IsCalendarToken;
    var a, k := ToUpper(TrimLeft(p)), ToUpper(w);
    CutShort("", "@#");
    TextOfRange(p, " ", w);
    TextOfRange(p, "  ", w);
    PrefixOfMore("R@", k, " 5");
    FrenchSplit(a, " ", k + " 5");
    FrenchSplit(a, "  ", k + " 5");
    CalendarIsFound(p + " " + (w + " 5"));
    CalendarIsFound(p + "  " + (w + " 5"));
  }

  lemma PrefixOfMore(p: string, s: string, t: string)
    requires p <= s
    ensures p <= s + t
  {
  }

  lemma FrenchSplit(p: string, gap: string, q: string)
    requires InFrenchEscape(p, q) && Spaces(gap)
    ensures ExtractCalendarEscape(p + gap + q).Some? <==> gap == " "
    ensures gap == " " ==> ExtractCalendarEscape(p + gap + q).value.0 == FRENCH
  {
    hide Cut, Fields, Join, Spaces;
    CutAcross(p, gap, q, "@#");
    CutAbsentHere("DFRENCH", "@");
    CutAcross("DFRENCH", gap, q, "@");
    assert q == "R" + "@" + q[2..];
    CutHere("R", "@", q[2..]);
    FrenchToken(gap);
  }

  lemma FrenchToken(gap: string)
    requires Spaces(gap)
    ensures IsCalendarToken("DFRENCH" + gap + "R") <==> gap == " "
    ensures gap == " " ==> "DFRENCH" + gap + "R" == FRENCH
  {
    var token := "DFRENCH" + gap + "R";
    assert "DFRENCH" + " " + "R" == FRENCH;
    if gap != " " {
      if IsCalendarToken(token) {
        TokenWithSpace("DFRENCH", gap, "R");
      }
    }
  }

  lemma CalendarIsFound(text: string)
    requires TrimSpace(text) != ""
    ensures Read(text).calendar == CalendarAndWork(ToUpper(TrimSpace(text))).0
  {
    hide TrimSpace, CalendarAndWork, TakeQualifier, ReadSimple, QUALIFIERS, Cut;
    ReadIsTrimmed(text);
  }

  /**
   * Exactly where the amount of white space before a word can make a difference: a text can follow for which it
   * does if and only if it stands between a range's keyword and its separator word, or inside the French escape.
   */
  lemma {:induction false} SpacesMatterIff(p: string, w: string)
    requires w != "" && NoSpaceIn(w)
    ensures SensitiveTo(p, w) <==>
      exists tail, g, h :: Spaces(g) && Spaces(h)
        && !AlikeButPhrase(Read(p + g + (w + " " + tail)), Read(p + h + (w + " " + tail)))
  {
    hide Read, Sensitive, InFrenchEscape;
    if SensitiveTo(p, w) {
      assert w + " " + "5" == w + " 5" && Spaces(" ") && Spaces("  ");
      if InFrenchEscape(ToUpper(TrimLeft(p)), ToUpper(w)) {
        EscapeSensitive(p, w);
      } else {
        RangeSensitive(p, w);
      }
      assert !AlikeButPhrase(Read(p + " " + (w + " " + "5")), Read(p + "  " + (w + " " + "5")));
    } else {
      forall tail, g, h | Spaces(g) && Spaces(h)
        ensures AlikeButPhrase(Read(p + g + (w + " " + tail)), Read(p + h + (w + " " + tail)))
      {
        OnlyThere(p, w, tail);
        SpacesAside(p, g, h, w + " " + tail);
      }
    }
  }
}
