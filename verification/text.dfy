/**
 * The string helpers the client calls: C's `atoi`, the `"%d"` formatting of
 * `snprintf`, `strcasecmp`, and the two toolkit word splitters
 * (`string_get_word`, `string_split`) whose sources are not part of this
 * model and whose behaviour is defined here.
 */
module Text {

  // ---------------------------------------------------------------------
  // Characters
  // ---------------------------------------------------------------------

  /** C's `isspace` in the "C" locale. */
  predicate IsSpace(c: char) {
    c == ' ' || c == '\t' || c == '\n' || c == '\U{000B}' || c == '\U{000C}' || c == '\r'
  }

  predicate IsDigit(c: char) {
    '0' <= c <= '9'
  }

  predicate AllDigits(s: string) {
    forall i :: 0 <= i < |s| ==> IsDigit(s[i])
  }

  function DigitValue(c: char): (d: nat)
    requires IsDigit(c)
    ensures d < 10
  {
    c as int - '0' as int
  }

  function DigitChar(d: nat): (c: char)
    requires d < 10
    ensures IsDigit(c) && DigitValue(c) == d
  {
    ('0' as int + d) as char
  }

  // ---------------------------------------------------------------------
  // atoi and "%d"
  // ---------------------------------------------------------------------

  /** The number written by a string of decimal digits, most significant first. */
  function DigitsValue(ds: string): nat
    requires AllDigits(ds)
  {
    if |ds| == 0 then 0 else DigitsValue(ds[..|ds| - 1]) * 10 + DigitValue(ds[|ds| - 1])
  }

  function SkipSpaces(s: string): (r: string)
    ensures |r| <= |s| && r == s[|s| - |r|..]
    ensures |r| == 0 || !IsSpace(r[0])
  {
    if |s| > 0 && IsSpace(s[0]) then SkipSpaces(s[1..]) else s
  }

  /** The longest prefix of `s` made of decimal digits. */
  function DigitPrefix(s: string): (r: string)
    ensures |r| <= |s| && r == s[..|r|] && AllDigits(r)
    ensures |r| == |s| || !IsDigit(s[|r|])
  {
    if |s| > 0 && IsDigit(s[0]) then [s[0]] + DigitPrefix(s[1..]) else []
  }

  /**
   * C's `atoi`: leading white space is skipped, one optional sign is read,
   * then the longest run of digits; a string with no digits there reads as 0.
   * (Overflow of `int`, undefined in C, is not modelled.)
   */
  function Atoi(s: string): int {
    var t := SkipSpaces(s);
    if |t| > 0 && t[0] == '-' then -(DigitsValue(DigitPrefix(t[1..])) as int)
    else if |t| > 0 && t[0] == '+' then DigitsValue(DigitPrefix(t[1..]))
    else DigitsValue(DigitPrefix(t))
  }

  /** A string holding no number reads as 0. */
  lemma AtoiEmpty()
    ensures Atoi("") == 0
  {
    assert SkipSpaces("") == "";
    assert DigitPrefix("") == "";
  }

  /** Decimal digits of a natural number, without leading zeros. */
  function NatToString(n: nat): (s: string)
    ensures |s| > 0 && AllDigits(s)
  {
    if n < 10 then [DigitChar(n)] else NatToString(n / 10) + [DigitChar(n % 10)]
  }

  /** `snprintf(buf, size, "%d", n)`. */
  function Itoa(n: int): (s: string)
    ensures |s| > 0 && !IsSpace(s[0])
  {
    if n < 0 then "-" + NatToString(-n) else NatToString(n)
  }

  lemma {:induction false} DigitsValueOfNatToString(n: nat)
    ensures DigitsValue(NatToString(n)) == n
  {
    var s := NatToString(n);
    if n >= 10 {
      DigitsValueOfNatToString(n / 10);
      assert s[..|s| - 1] == NatToString(n / 10);
    }
  }

  lemma {:induction false} DigitPrefixOfDigits(s: string)
    requires AllDigits(s)
    ensures DigitPrefix(s) == s
  {
    if |s| > 0 {
      DigitPrefixOfDigits(s[1..]);
    }
  }

  /** Parsing what `"%d"` printed gives the number back. */
  lemma AtoiItoa(n: int)
    ensures Atoi(Itoa(n)) == n
  {
    var s := Itoa(n);
    assert SkipSpaces(s) == s;
    if n < 0 {
      assert s[1..] == NatToString(-n);
      DigitPrefixOfDigits(NatToString(-n));
      DigitsValueOfNatToString(-n);
    } else {
      DigitPrefixOfDigits(s);
      DigitsValueOfNatToString(n);
    }
  }

  // ---------------------------------------------------------------------
  // string_get_word: successive words separated by runs of a delimiter
  // ---------------------------------------------------------------------

  function SkipDelims(s: string, delim: char): (r: string)
    ensures |r| <= |s| && r == s[|s| - |r|..]
    ensures |r| == 0 || r[0] != delim
  {
    if |s| > 0 && s[0] == delim then SkipDelims(s[1..], delim) else s
  }

  /** The longest prefix of `s` not containing `delim`. */
  function TakeWord(s: string, delim: char): (w: string)
    ensures |w| <= |s| && w == s[..|w|] && delim !in w
    ensures |w| == |s| || s[|w|] == delim
  {
    if |s| > 0 && s[0] != delim then [s[0]] + TakeWord(s[1..], delim) else []
  }

  /** A word: non-empty and free of the delimiter. */
  predicate IsWord(w: string, delim: char) {
    |w| > 0 && delim !in w
  }

  /** Every element is a word. */
  predicate AllWords(ws: seq<string>, delim: char) {
    |ws| == 0 || (IsWord(ws[0], delim) && AllWords(ws[1..], delim))
  }

  /**
   * The words a loop of `string_get_word(s, &pos, delim, ...)` calls yields:
   * delimiters before a word are skipped, a word runs up to the next
   * delimiter, and the loop ends when only delimiters remain.
   */
  function Words(s: string, delim: char): (ws: seq<string>)
    ensures AllWords(ws, delim)
    decreases |s|
  {
    var t := SkipDelims(s, delim);
    if |t| == 0 then []
    else
      var w := TakeWord(t, delim);
      var rest := Words(t[|w|..], delim);
      assert ([w] + rest)[1..] == rest;
      [w] + rest
  }

  /** Word `k` of `s`; a word that is not there reads as the empty string. */
  function WordAt(s: string, delim: char, k: nat): string {
    var ws := Words(s, delim);
    if k < |ws| then ws[k] else ""
  }

  /** Words separated by a single delimiter: the text `Words` takes apart. */
  function JoinWords(ws: seq<string>, delim: char): string {
    if |ws| == 0 then "" else if |ws| == 1 then ws[0] else ws[0] + [delim] + JoinWords(ws[1..], delim)
  }

  lemma {:induction false} TakeWordOfJoin(w: string, delim: char, rest: string)
    requires delim !in w
    ensures TakeWord(w + [delim] + rest, delim) == w
    ensures TakeWord(w, delim) == w
  {
    if |w| > 0 {
      assert (w + [delim] + rest)[1..] == w[1..] + [delim] + rest;
      TakeWordOfJoin(w[1..], delim, rest);
    }
  }

  lemma WordsOfOneWord(w: string, delim: char)
    requires |w| > 0 && delim !in w
    ensures Words(w, delim) == [w]
  {
    assert SkipDelims(w, delim) == w;
    TakeWordOfJoin(w, delim, "");
    assert w[|w|..] == [];
  }

  /** A single word is word 0 of itself, and words 1 and 2 read as empty. */
  lemma WordAtOneWord(w: string)
    requires IsWord(w, ' ')
    ensures WordAt(w, ' ', 0) == w && WordAt(w, ' ', 1) == "" && WordAt(w, ' ', 2) == ""
  {
    WordsOfOneWord(w, ' ');
    var ws := Words(w, ' ');
    assert |ws| == 1 && ws[0] == w;
  }

  lemma WordsOfLeadingWord(w: string, delim: char, rest: string)
    requires |w| > 0 && delim !in w
    ensures Words(w + [delim] + rest, delim) == [w] + Words(rest, delim)
  {
    var s := w + [delim] + rest;
    assert s[0] == w[0];
    assert SkipDelims(s, delim) == s;
    TakeWordOfJoin(w, delim, rest);
    assert s[|w|..] == [delim] + rest;
    assert ([delim] + rest)[1..] == rest;
    assert SkipDelims([delim] + rest, delim) == SkipDelims(rest, delim);
  }

  /** Splitting words joined by one delimiter gives back the words. */
  lemma {:induction false} WordsOfJoin(ws: seq<string>, delim: char)
    requires AllWords(ws, delim)
    ensures Words(JoinWords(ws, delim), delim) == ws
  {
    if |ws| == 1 {
      assert JoinWords(ws, delim) == ws[0];
      WordsOfOneWord(ws[0], delim);
    } else if |ws| > 1 {
      WordsOfJoin(ws[1..], delim);
      WordsOfJoinCons(ws[0], ws[1..], delim);
      assert [ws[0]] + ws[1..] == ws;
    }
  }

  /** Putting a word in front of at least one word puts it in front of the words read back. */
  lemma WordsOfJoinCons(w: string, rest: seq<string>, delim: char)
    requires IsWord(w, delim) && |rest| >= 1
    ensures Words(JoinWords([w] + rest, delim), delim) == [w] + Words(JoinWords(rest, delim), delim)
  {
    var ws := [w] + rest;
    assert ws[0] == w && ws[1..] == rest;
    assert JoinWords(ws, delim) == w + [delim] + JoinWords(rest, delim);
    WordsOfLeadingWord(w, delim, JoinWords(rest, delim));
  }

  // ---------------------------------------------------------------------
  // string_split: at most `max` fields, the last one keeping the remainder
  // ---------------------------------------------------------------------

  function IndexOf(s: string, c: char): (k: nat)
    requires c in s
    ensures k < |s| && s[k] == c && c !in s[..k]
  {
    if s[0] == c then 0 else 1 + IndexOf(s[1..], c)
  }

  /** `f` holds no `c`: a field between two separators. */
  predicate Lacks(f: string, c: char) {
    c !in f
  }

  /**
   * What cutting a string at its first `max - 1` separators can produce:
   * between one and `max` fields, none but the last holding a separator,
   * and the last one too unless all `max` fields are used.
   */
  predicate FieldsShape(fs: seq<string>, sep: char, max: nat) {
    && 1 <= |fs| <= max
    && if |fs| == 1 then max > 1 ==> Lacks(fs[0], sep)
       else Lacks(fs[0], sep) && FieldsShape(fs[1..], sep, max - 1)
  }

  function Fields(s: string, sep: char, max: nat): (fs: seq<string>)
    requires max >= 1
    ensures FieldsShape(fs, sep, max)
    decreases max
  {
    if max == 1 || sep !in s then [s]
    else
      var k := IndexOf(s, sep);
      [s[..k]] + Fields(s[k + 1..], sep, max - 1)
  }

  /**
   * `string_split(s, fields, max, sep)`: an empty string has no fields;
   * otherwise the string is cut at its first `max - 1` separators.
   */
  function Split(s: string, sep: char, max: nat): (fs: seq<string>)
    requires max >= 1
    ensures |s| == 0 <==> |fs| == 0
    ensures |fs| <= max
  {
    if |s| == 0 then [] else Fields(s, sep, max)
  }

  function Join(fs: seq<string>, sep: char): string {
    if |fs| == 0 then "" else if |fs| == 1 then fs[0] else fs[0] + [sep] + Join(fs[1..], sep)
  }

  lemma {:induction false} JoinFields(s: string, sep: char, max: nat)
    requires max >= 1
    ensures Join(Fields(s, sep, max), sep) == s
    decreases max
  {
    if max > 1 && sep in s {
      var k := IndexOf(s, sep);
      var rest := Fields(s[k + 1..], sep, max - 1);
      JoinFields(s[k + 1..], sep, max - 1);
      JoinCons(s[..k], rest, sep);
      assert s == s[..k] + [sep] + s[k + 1..];
    }
  }

  lemma JoinCons(f: string, rest: seq<string>, sep: char)
    requires |rest| >= 1
    ensures Join([f] + rest, sep) == f + [sep] + Join(rest, sep)
  {
    assert ([f] + rest)[1..] == rest;
  }

  /** The fields `string_split` produces are the pieces of the input between separators. */
  lemma SplitJoin(s: string, sep: char, max: nat)
    requires max >= 1
    ensures Join(Split(s, sep, max), sep) == s
  {
    if |s| > 0 {
      JoinFields(s, sep, max);
    }
  }

  lemma IndexOfJoined(a: string, c: char, b: string)
    requires c !in a
    ensures c in a + [c] + b && IndexOf(a + [c] + b, c) == |a|
  {
    var s := a + [c] + b;
    assert s[|a|] == c;
    if |a| > 0 {
      assert s[1..] == a[1..] + [c] + b;
      IndexOfJoined(a[1..], c, b);
    }
  }

  lemma JoinLength(fs: seq<string>, sep: char)
    requires |fs| >= 2
    ensures |Join(fs, sep)| > 0
  {
  }

  /**
   * Fields joined by the separator split back into the same fields, as long
   * as only the last one (and only when all `max` fields are used) holds a
   * separator itself.
   */
  lemma {:induction false} FieldsOfJoin(fs: seq<string>, sep: char, max: nat)
    requires FieldsShape(fs, sep, max)
    ensures Fields(Join(fs, sep), sep, max) == fs
    decreases max
  {
    if |fs| == 1 {
      assert Join(fs, sep) == fs[0];
      FieldsOfOneField(fs[0], sep, max);
    } else {
      FieldsOfJoin(fs[1..], sep, max - 1);
      FieldsOfJoinStep(fs, sep, max);
    }
  }

  lemma FieldsOfOneField(f: string, sep: char, max: nat)
    requires max >= 1
    requires max > 1 ==> Lacks(f, sep)
    ensures Fields(f, sep, max) == [f]
  {
  }

  lemma FieldsOfJoinStep(fs: seq<string>, sep: char, max: nat)
    requires 2 <= |fs| <= max
    requires Lacks(fs[0], sep)
    requires Fields(Join(fs[1..], sep), sep, max - 1) == fs[1..]
    ensures Fields(Join(fs, sep), sep, max) == fs
  {
    var rest := Join(fs[1..], sep);
    assert Join(fs, sep) == fs[0] + [sep] + rest;
    FieldsOfLeadingField(fs[0], sep, rest, max);
    assert [fs[0]] + fs[1..] == fs;
  }

  lemma FieldsOfLeadingField(a: string, sep: char, rest: string, max: nat)
    requires sep !in a && max >= 2
    ensures Fields(a + [sep] + rest, sep, max) == [a] + Fields(rest, sep, max - 1)
  {
    var s := a + [sep] + rest;
    IndexOfJoined(a, sep, rest);
    assert s[..|a|] == a;
    assert s[|a| + 1..] == rest;
  }

  // ---------------------------------------------------------------------
  // strcasecmp
  // ---------------------------------------------------------------------

  /** C's `tolower` on ASCII. */
  function Lower(c: char): char {
    if 'A' <= c <= 'Z' then (c as int + 32) as char else c
  }

  function LowerString(s: string): (r: string)
    ensures |r| == |s| && forall i :: 0 <= i < |s| ==> r[i] == Lower(s[i])
  {
    if |s| == 0 then [] else [Lower(s[0])] + LowerString(s[1..])
  }

  /**
   * `strcasecmp(a, b) == 0`, following its loop: compare lower-cased
   * characters until one differs or a string ends.
   */
  predicate CaseEqual(a: string, b: string) {
    if |a| == 0 || |b| == 0 then |a| == |b|
    else Lower(a[0]) == Lower(b[0]) && CaseEqual(a[1..], b[1..])
  }

  /** Two names match case-insensitively exactly when their lower-case forms are equal. */
  lemma {:induction false} CaseEqualIffSameLower(a: string, b: string)
    ensures CaseEqual(a, b) <==> LowerString(a) == LowerString(b)
  {
    if |a| > 0 && |b| > 0 {
      CaseEqualIffSameLower(a[1..], b[1..]);
      assert LowerString(a) == [Lower(a[0])] + LowerString(a[1..]);
      assert LowerString(b) == [Lower(b[0])] + LowerString(b[1..]);
      if LowerString(a) == LowerString(b) {
        assert LowerString(a)[1..] == LowerString(a[1..]);
        assert LowerString(b)[1..] == LowerString(b[1..]);
      }
    }
  }
}
