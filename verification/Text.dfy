/**
 * The string operations the date printer and parser use, over sequences of characters, and how they
 * act on words joined by single spaces.
 */
module Text {
  import opened Base

  // --- Characters ---

  /** Unicode white space. */
  predicate IsSpace(c: char)
  {
    || '\t' <= c <= '\r' || c == ' ' || c == '\U{0085}' || c == '\U{00A0}' || c == '\U{1680}'
    || '\U{2000}' <= c <= '\U{200A}' || c == '\U{2028}' || c == '\U{2029}' || c == '\U{202F}' || c == '\U{205F}'
    || c == '\U{3000}'
  }

  predicate IsDigit(c: char)
  {
    '0' <= c <= '9'
  }

  /**
   * Upper case, exact wherever the result is ASCII: besides a to z, the dotless i and the long s have
   * ASCII capitals. Other letters have capitals that occur in no token of a date.
   */
  function UpperChar(c: char): char
  {
    if 'a' <= c <= 'z' then c - 'a' + 'A'
    else if c == '\U{0131}' then 'I'
    else if c == '\U{017F}' then 'S'
    else c
  }

  function ToUpper(s: string): (r: string)
    ensures |r| == |s|
    ensures forall i :: 0 <= i < |s| ==> r[i] == UpperChar(s[i])
  {
    seq(|s|, i requires 0 <= i < |s| => UpperChar(s[i]))
  }

  lemma UpperConcat(a: string, b: string)
    ensures ToUpper(a + b) == ToUpper(a) + ToUpper(b)
  {
  }

  lemma EmptyEnds(s: string)
    ensures s + "" == s && "" + s == s
  {
  }

  // --- Trimming and splitting ---

  function TrimLeft(s: string): string
  {
    if s != [] && IsSpace(s[0]) then TrimLeft(s[1..]) else s
  }

  function TrimRight(s: string): string
  {
    if s != [] && IsSpace(s[|s| - 1]) then TrimRight(s[..|s| - 1]) else s
  }

  function TrimSpace(s: string): string
  {
    TrimRight(TrimLeft(s))
  }

  /** How many characters stand before the first white space. */
  function WordLength(s: string): (n: nat)
    ensures n <= |s|
  {
    if s == [] || IsSpace(s[0]) then 0 else 1 + WordLength(s[1..])
  }

  /** The maximal runs without white space. */
  function Fields(s: string): seq<string>
  {
    if s == [] then []
    else if IsSpace(s[0]) then Fields(s[1..])
    else [s[..WordLength(s)]] + Fields(s[WordLength(s)..])
  }

  /** The words with one space between neighbours. */
  function Join(words: seq<string>): string
  {
    if words == [] then "" else if |words| == 1 then words[0] else words[0] + " " + Join(words[1..])
  }

  /** Splits around the first occurrence of a separator. */
  function Cut(s: string, sep: string): (r: Option<(string, string)>)
    ensures r.Some? ==> s == r.value.0 + sep + r.value.1
  {
    if sep <= s then
      assert s == [] + sep + s[|sep|..];
      Some(([], s[|sep|..]))
    else if s == [] then None
    else
      var rest := Cut(s[1..], sep);
      if rest.None? then None
      else
        assert s == [s[0]] + s[1..];
        Some(([s[0]] + rest.value.0, rest.value.1))
  }

  /** Splits around the last occurrence of a character; without one, the whole string. */
  function UpToLast(s: string, c: char): string
  {
    if s == [] then s
    else if c in s[1..] then [s[0]] + UpToLast(s[1..], c)
    else if s[0] == c then [] else s
  }

  // --- Numbers ---

  const MIN_INT := -0x8000_0000_0000_0000
  const MAX_INT := 0x7fff_ffff_ffff_ffff

  type int64 = x: int | MIN_INT <= x <= MAX_INT

  function Digit(n: nat): char
    requires n < 10
  {
    '0' + n as char
  }

  function Digits(n: nat): string
  {
    if n < 10 then [Digit(n)] else Digits(n / 10) + [Digit(n % 10)]
  }

  function Itoa(n: int): string
  {
    if n < 0 then "-" + Digits(-n) else Digits(n)
  }

  /** The value of a digit string, none when a character is no digit. */
  function DigitsValue(s: string): Option<nat>
  {
    if s == [] then Some(0)
    else
      var rest := DigitsValue(s[..|s| - 1]);
      if rest.None? || !IsDigit(s[|s| - 1]) then None
      else Some(10 * rest.value + (s[|s| - 1] as int - '0' as int))
  }

  /** A signed decimal number that fits the platform's integer, none otherwise. */
  function Atoi(s: string): Option<int64>
  {
    if s == [] then None
    else
      var digits := if s[0] == '-' || s[0] == '+' then s[1..] else s;
      if digits == [] || DigitsValue(digits).None? then None
      else
        var size: int := DigitsValue(digits).value;
        var n := if s[0] == '-' then -size else size;
        if MIN_INT <= n <= MAX_INT then Some(n) else None
  }

  lemma {:induction false} DigitsRead(n: nat)
    ensures Digits(n) != [] && DigitsValue(Digits(n)) == Some(n)
    ensures forall i :: 0 <= i < |Digits(n)| ==> IsDigit(Digits(n)[i])
  {
    if n >= 10 {
      DigitsRead(n / 10);
      var s := Digits(n);
      assert s[..|s| - 1] == Digits(n / 10);
    } else {
      assert Digits(n)[..0] == [];
      assert DigitsValue([]) == Some(0);
    }
  }

  /** Printing and reading a number gives it back. */
  lemma AtoiItoa(n: int64)
    ensures Atoi(Itoa(n)) == Some(n)
  {
    var size: nat := if n < 0 then -(n as int) else n as int;
    DigitsRead(size);
    hide Digits, DigitsValue;
    var s := Itoa(n);
    if n < 0 {
      assert s[0] == '-' && s[1..] == Digits(size);
    } else {
      assert s == Digits(size) && IsDigit(s[0]);
    }
  }

  /** A word that starts with neither a digit nor a sign is no number. */
  lemma NotANumber(w: string)
    requires w != [] && !IsDigit(w[0]) && w[0] != '-' && w[0] != '+'
    ensures Atoi(w) == None
  {
    FirstMustBeDigit(w);
  }

  lemma {:induction false} FirstMustBeDigit(w: string)
    requires w != [] && !IsDigit(w[0])
    ensures DigitsValue(w) == None
  {
    if |w| > 1 {
      FirstMustBeDigit(w[..|w| - 1]);
    }
  }

  // --- Words ---

  /** The characters of a printed date outside its phrase. */
  predicate IsPlain(c: char)
  {
    'A' <= c <= 'Z' || IsDigit(c) || c == '-' || c == '@' || c == '#'
  }

  predicate PlainWord(w: string)
  {
    w != [] && forall i :: 0 <= i < |w| ==> IsPlain(w[i])
  }

  predicate PlainWords(words: seq<string>)
  {
    forall i :: 0 <= i < |words| ==> PlainWord(words[i])
  }

  /** Plain words joined are plain characters and spaces, and neither begin nor end with a space. */
  lemma {:induction false} JoinShape(words: seq<string>)
    requires PlainWords(words)
    ensures forall i :: 0 <= i < |Join(words)| ==> IsPlain(Join(words)[i]) || Join(words)[i] == ' '
    ensures words != [] ==> Join(words) != [] && IsPlain(Join(words)[0]) && IsPlain(Join(words)[|Join(words)| - 1])
  {
    if |words| > 1 {
      JoinShape(words[1..]);
      var s := Join(words);
      assert PlainWord(words[0]) && s == words[0] + " " + Join(words[1..]);
      assert s[|s| - 1] == Join(words[1..])[|Join(words[1..])| - 1];
    } else if |words| == 1 {
      assert PlainWord(words[0]);
    }
  }

  lemma TrimKeeps(s: string)
    requires s != [] ==> !IsSpace(s[0]) && !IsSpace(s[|s| - 1])
    ensures TrimSpace(s) == s
  {
  }

  lemma UpperKeeps(s: string)
    requires forall i :: 0 <= i < |s| ==> UpperChar(s[i]) == s[i]
    ensures ToUpper(s) == s
  {
  }

  lemma {:induction false} JoinConcat(a: seq<string>, b: seq<string>)
    requires a != [] && b != []
    ensures Join(a + b) == Join(a) + " " + Join(b)
  {
    assert (a + b)[1..] == a[1..] + b;
    if |a| > 1 {
      JoinConcat(a[1..], b);
      assert a[0] + " " + (Join(a[1..]) + " " + Join(b)) == a[0] + " " + Join(a[1..]) + " " + Join(b);
    } else {
      assert a[1..] + b == b;
    }
  }

  lemma {:induction false} WordAtFront(w: string, rest: string)
    requires forall i :: 0 <= i < |w| ==> !IsSpace(w[i])
    requires rest == [] || IsSpace(rest[0])
    ensures WordLength(w + rest) == |w|
  {
    if w != [] {
      assert (w + rest)[1..] == w[1..] + rest;
      WordAtFront(w[1..], rest);
    }
  }

  lemma FieldsWord(w: string, rest: string)
    requires PlainWord(w) && (rest == [] || IsSpace(rest[0]))
    ensures Fields(w + rest) == [w] + Fields(rest)
  {
    WordAtFront(w, rest);
    assert (w + rest)[..|w|] == w && (w + rest)[|w|..] == rest;
    assert (w + rest)[0] == w[0] && IsPlain(w[0]);
  }

  lemma FieldsSpace(s: string)
    ensures Fields(" " + s) == Fields(s)
  {
    assert (" " + s)[1..] == s;
  }

  /** Splitting joined words gives the words back, whatever follows after a space. */
  lemma {:induction false} FieldsJoin(words: seq<string>, rest: string)
    requires PlainWords(words) && (rest == [] || IsSpace(rest[0]))
    ensures Fields(Join(words) + rest) == words + Fields(rest)
  {
    if words == [] {
      assert Join(words) + rest == rest;
    } else if |words| == 1 {
      FieldsWord(words[0], rest);
    } else {
      hide Fields, PlainWord;
      var w, tail := words[0], Join(words[1..]) + rest;
      assert PlainWord(w);
      JoinThen(words, rest);
      FieldsWord(w, " " + tail);
      FieldsSpace(tail);
      FieldsJoin(words[1..], rest);
      Associates([w], words[1..], Fields(rest));
      assert [w] + words[1..] == words;
    }
  }

  lemma JoinThen(words: seq<string>, rest: string)
    requires |words| > 1
    ensures Join(words) + rest == words[0] + (" " + (Join(words[1..]) + rest))
  {
  }

  lemma FieldsOfJoin(words: seq<string>)
    requires PlainWords(words)
    ensures Fields(Join(words)) == words
  {
    FieldsJoin(words, []);
    assert Join(words) + [] == Join(words);
  }

  /** Rejoining the fields of a string never makes it longer. */
  lemma {:induction false} RejoinShorter(s: string)
    ensures |Join(Fields(s))| <= |s|
    decreases |s|
  {
    if s == [] {
    } else if IsSpace(s[0]) {
      RejoinShorter(s[1..]);
    } else {
      var n := WordLength(s);
      WordEnds(s);
      var rest := s[n..];
      if rest != [] {
        RejoinShorter(rest[1..]);
        assert Fields(rest) == Fields(rest[1..]);
      }
      JoinCons(s[..n], Fields(rest));
    }
  }

  lemma JoinCons(w: string, words: seq<string>)
    ensures Join([w] + words) == if words == [] then w else w + " " + Join(words)
  {
    assert ([w] + words)[1..] == words;
  }

  lemma {:induction false} WordEnds(s: string)
    ensures WordLength(s) < |s| ==> IsSpace(s[WordLength(s)])
    ensures s != [] && !IsSpace(s[0]) ==> WordLength(s) > 0
  {
    if s != [] && !IsSpace(s[0]) {
      WordEnds(s[1..]);
    }
  }

  lemma ConsPrefix(c: char, a: string, b: string)
    ensures [c] + a <= [c] + b <==> a <= b
  {
    assert ([c] + a)[1..] == a && ([c] + b)[1..] == b;
    if a <= b {
      assert forall i :: 0 <= i < |[c] + a| ==> ([c] + a)[i] == ([c] + b)[i];
    }
  }

  lemma PrefixRest(p: string, rest: string)
    ensures p <= p + rest && (p + rest)[|p|..] == rest
  {
  }

  /** A keyword and a space open the joined words exactly when the keyword is the first of several words. */
  lemma {:induction false} KeywordOpens(words: seq<string>, k: string)
    requires PlainWords(words) && PlainWord(k)
    ensures k + " " <= Join(words) <==> |words| > 1 && words[0] == k
    ensures |words| > 1 && words[0] == k ==> Join(words)[|k| + 1..] == Join(words[1..])
  {
    if |words| > 1 {
      hide IsPlain;
      var w, tail := words[0], Join(words[1..]);
      var s := Join(words);
      assert PlainWord(w) && s == w + " " + tail;
      PrefixRest(w + " ", tail);
      if k + " " <= s {
        assert s == k + " " + s[|k + " "|..];
        SameWord(w, k, tail, s[|k + " "|..]);
      }
    } else if |words| == 1 && k + " " <= words[0] {
      assert PlainWord(words[0]) && words[0][|k|] == (k + " ")[|k|] == ' ';
    }
  }

  /** Where two words and their rests agree, the words do. */
  lemma SameWord(w: string, k: string, a: string, b: string)
    requires PlainWord(w) && PlainWord(k) && w + " " + a == k + " " + b
    ensures w == k
  {
    assert w + (" " + a) == w + " " + a && k + (" " + b) == k + " " + b;
    WordAtFront(w, " " + a);
    WordAtFront(k, " " + b);
    assert w == (w + " " + a)[..|w|] && k == (k + " " + b)[..|k|];
  }

  // --- Finding a separator ---

  /** Text free of the separator's first character is passed over. */
  lemma {:induction false} CutSkips(pre: string, s: string, sep: string)
    requires sep != [] && forall i :: 0 <= i < |pre| ==> pre[i] != sep[0]
    ensures Cut(pre + s, sep) == match Cut(s, sep) case None => None case Some((a, b)) => Some((pre + a, b))
  {
    if pre == [] {
      assert pre + s == s;
      if Cut(s, sep).Some? {
        assert [] + Cut(s, sep).value.0 == Cut(s, sep).value.0;
      }
    } else {
      assert (pre + s)[1..] == pre[1..] + s && (pre + s)[0] == pre[0];
      CutSkips(pre[1..], s, sep);
      if Cut(s, sep).Some? {
        assert [pre[0]] + (pre[1..] + Cut(s, sep).value.0) == pre + Cut(s, sep).value.0;
      }
    }
  }

  lemma {:induction false} CutHere(pre: string, sep: string, post: string)
    requires sep != [] && forall i :: 0 <= i < |pre| ==> pre[i] != sep[0]
    ensures Cut(pre + sep + post, sep) == Some((pre, post))
  {
    CutSkips(pre, sep + post, sep);
    assert pre + (sep + post) == pre + sep + post;
    assert (sep + post)[|sep|..] == post;
    assert pre + [] == pre;
  }

  /** Past a first word that is not the one sought, the search goes on in the words themselves. */
  lemma {:induction false} NotYet(rest: seq<string>, k: string)
    requires PlainWords(rest) && rest != [] && PlainWord(k) && (rest[0] != k || |rest| == 1)
    ensures Cut(" " + Join(rest), " " + k + " ")
      == match Cut(Join(rest), " " + k + " ") case None => None case Some((a, b)) => Some((" " + a, b))
  {
    var s, sep := " " + Join(rest), " " + k + " ";
    KeywordOpens(rest, k);
    ConsPrefix(' ', k + " ", Join(rest));
    assert sep == [' '] + (k + " ") && s == [' '] + Join(rest);
    assert s[1..] == Join(rest);
  }

  /** A word that is not the one sought is passed over, together with the space behind it. */
  lemma {:induction false} CutSkipsWord(w: string, rest: seq<string>, k: string)
    requires PlainWord(w) && PlainWords(rest) && rest != [] && PlainWord(k) && (rest[0] != k || |rest| == 1)
    ensures Cut(Join([w] + rest), " " + k + " ")
      == match Cut(Join(rest), " " + k + " ") case None => None case Some((a, b)) => Some((w + " " + a, b))
  {
    hide Cut;
    var sep := " " + k + " ";
    JoinCons(w, rest);
    NotYet(rest, k);
    CutSkips(w, " " + Join(rest), sep);
    Associates(w, " ", Join(rest));
    if Cut(Join(rest), sep).Some? {
      Associates(w, " ", Cut(Join(rest), sep).value.0);
    }
  }

  lemma CutNext(w: string, k: string, after: seq<string>)
    requires PlainWord(w) && PlainWord(k) && after != []
    ensures Cut(Join([w] + ([k] + after)), " " + k + " ") == Some((w, Join(after)))
  {
    hide Cut;
    JoinCons(w, [k] + after);
    JoinCons(k, after);
    assert w + " " + (k + " " + Join(after)) == w + (" " + k + " ") + Join(after);
    CutHere(w, " " + k + " ", Join(after));
  }

  /** A word between spaces is found in joined words exactly at its first inner occurrence. */
  lemma {:induction false} CutWord(words: seq<string>, k: string, after: seq<string>)
    requires PlainWords(words) && PlainWords(after) && PlainWord(k) && k !in words
    requires words != [] && after != []
    ensures Cut(Join(words + ([k] + after)), " " + k + " ") == Some((Join(words), Join(after)))
  {
    hide Cut;
    var w := words[0];
    assert PlainWord(w);
    if |words| == 1 {
      assert words == [w];
      CutNext(w, k, after);
    } else {
      var rest := words[1..] + ([k] + after);
      CutWord(words[1..], k, after);
      assert rest[0] == words[1];
      assert words == [w] + words[1..];
      Associates([w], words[1..], [k] + after);
      CutSkipsWord(w, rest, k);
      JoinCons(w, words[1..]);
    }
  }

  /** A word that closes the sequence, or does not occur, is not found between spaces. */
  lemma {:induction false} CutNothing(words: seq<string>, k: string)
    requires PlainWords(words) && PlainWord(k) && forall i :: 0 <= i < |words| - 1 ==> words[i] != k
    ensures Cut(Join(words), " " + k + " ") == None
  {
    if |words| > 1 {
      assert PlainWord(words[0]) && words == [words[0]] + words[1..];
      CutNothing(words[1..], k);
      CutSkipsWord(words[0], words[1..], k);
    } else if |words| == 1 {
      assert PlainWord(words[0]);
      CutSkips(words[0], [], " " + k + " ");
      assert words[0] + [] == words[0];
    }
  }

  lemma {:induction false} UpToLastAtEnd(s: string, c: char)
    ensures UpToLast(s + [c], c) == s
  {
    if s != [] {
      assert (s + [c])[1..] == s[1..] + [c];
      UpToLastAtEnd(s[1..], c);
    }
  }
}
