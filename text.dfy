/**
 * String primitives of Python that the pipeline relies on, over `seq<char>`:
 * `str.isspace`, `str.split()` with no separator, `str.strip(chars)`,
 * `str.istitle()`, `sep.join(items)` and the decimal rendering of a
 * non-negative integer in an f-string.
 */
module Text {

  /** The characters Python's `str.isspace` accepts (and so `split()` and `strip()` use). */
  const Whitespace: set<char> := {
    ' ', '\t', '\n', '\U{000B}', '\U{000C}', '\r',
    '\U{001C}', '\U{001D}', '\U{001E}', '\U{001F}', '\U{0085}', '\U{00A0}',
    '\U{1680}', '\U{2000}', '\U{2001}', '\U{2002}', '\U{2003}', '\U{2004}',
    '\U{2005}', '\U{2006}', '\U{2007}', '\U{2008}', '\U{2009}', '\U{200A}',
    '\U{2028}', '\U{2029}', '\U{202F}', '\U{205F}', '\U{3000}'
  }

  /** Python's `str.isspace` on one character, written as ranges. */
  predicate IsSpace(c: char)
  {
    || c == ' '
    || '\t' <= c <= '\r'
    || '\U{001C}' <= c <= '\U{001F}'
    || c == '\U{0085}' || c == '\U{00A0}' || c == '\U{1680}'
    || '\U{2000}' <= c <= '\U{200A}'
    || c == '\U{2028}' || c == '\U{2029}' || c == '\U{202F}' || c == '\U{205F}' || c == '\U{3000}'
  }

  /** The ranges and the set list the same characters. */
  lemma IsSpaceInWhitespace(c: char)
    ensures IsSpace(c) <==> c in Whitespace
  {
    if '\t' <= c <= '\r' {
      assert c == '\t' || c == '\n' || c == '\U{000B}' || c == '\U{000C}' || c == '\r';
    }
    if '\U{001C}' <= c <= '\U{001F}' {
      assert c == '\U{001C}' || c == '\U{001D}' || c == '\U{001E}' || c == '\U{001F}';
    }
    if '\U{2000}' <= c <= '\U{200A}' {
      assert c as int - 0x2000 in {0, 1, 2, 3, 4, 5, 6, 7, 8, 9, 10};
    }
  }

  /** No character of `s` is whitespace. */
  predicate NoSpace(s: string) { forall i :: 0 <= i < |s| ==> !IsSpace(s[i]) }

  // ---------------------------------------------------------------------
  // str.split() with no argument: split on runs of whitespace, drop empties

  /** Length of the longest prefix of `s` free of whitespace. */
  function WordLen(s: string): (n: nat)
    ensures n <= |s|
    ensures NoSpace(s[..n])
    ensures n == |s| || IsSpace(s[n])
  {
    if s == [] || IsSpace(s[0]) then 0
    else
      var m := WordLen(s[1..]);
      assert s[..m + 1] == [s[0]] + s[1..][..m];
      m + 1
  }

  /** Python `s.split()`. */
  function Split(s: string): seq<string>
    decreases |s|
  {
    if s == [] then []
    else
      var n := WordLen(s);  // 0 when `s` starts with whitespace
      var rest := Split(s[if n == 0 then 1 else n..]);
      if n == 0 then rest else [s[..n]] + rest
  }

  /** Every word of a list is non-empty and free of whitespace. */
  predicate WellFormedWords(ws: seq<string>)
  {
    forall i :: 0 <= i < |ws| ==> ws[i] != [] && NoSpace(ws[i])
  }

  /** Concatenation of a list of strings. */
  function Concat(ws: seq<string>): string
  {
    if ws == [] then [] else ws[0] + Concat(ws[1..])
  }

  /** `s` with every whitespace character removed. */
  function RemoveSpace(s: string): string
  {
    if s == [] then []
    else
      var rest := RemoveSpace(s[1..]);
      if IsSpace(s[0]) then rest else [s[0]] + rest
  }

  /** The words of `s` are non-empty, free of whitespace, and together hold
      exactly the non-whitespace characters of `s`, in order. */
  lemma {:induction false} SplitWords(s: string)
    ensures WellFormedWords(Split(s))
    ensures Concat(Split(s)) == RemoveSpace(s)
    ensures |Split(s)| <= |s|
    decreases |s|
  {
    if s == [] {
    } else if IsSpace(s[0]) {
      SplitWords(s[1..]);
    } else {
      var n := WordLen(s);
      var w := s[..n];
      SplitWords(s[n..]);
      assert Split(s) == [w] + Split(s[n..]);
      RemoveSpaceOfNoSpace(w);
      RemoveSpaceAppend(w, s[n..]);
      assert s == w + s[n..];
      assert Concat(Split(s)) == w + Concat(Split(s[n..]));
    }
  }

  /** A non-empty word without whitespace is a single word. */
  lemma SplitWord(w: string)
    requires w != [] && NoSpace(w)
    ensures Split(w) == [w]
  {
    WordLenWhole(w);
    assert w[..|w|] == w && w[|w|..] == [];
  }

  /** Any whitespace character separates words: what precedes it and what
      follows it are split independently, and their words are kept in order. */
  lemma {:induction false} SplitAtSpace(a: string, c: char, b: string)
    requires IsSpace(c)
    ensures Split(a + [c] + b) == Split(a) + Split(b)
    decreases |a|
  {
    var s := a + [c] + b;
    if a == [] {
      assert s[0] == c && s[1..] == b;
    } else if IsSpace(a[0]) {
      assert s[1..] == a[1..] + [c] + b;
      SplitAtSpace(a[1..], c, b);
    } else {
      var m := WordLen(a);
      if m < |a| {
        WordLenExtend(a, [c] + b);
        assert s == a + ([c] + b);
        assert s[..m] == a[..m];
        assert s[m..] == a[m..] + [c] + b;
        SplitAtSpace(a[m..], c, b);
      } else {
        WordLenPrefix(a, [c] + b);
        assert s == a + ([c] + b);
        assert s[..|a|] == a && s[|a|..] == [c] + b;
        assert ([c] + b)[1..] == b;
        SplitWord(a);
      }
    }
  }

  /** The first word of `a` is not lengthened by what follows, once `a`
      holds whitespace after it. */
  lemma {:induction false} WordLenExtend(a: string, t: string)
    requires WordLen(a) < |a|
    ensures WordLen(a + t) == WordLen(a)
  {
    if !IsSpace(a[0]) {
      assert (a + t)[1..] == a[1..] + t;
      WordLenExtend(a[1..], t);
    }
  }

  /** A word without whitespace is its own first word. */
  lemma {:induction false} WordLenWhole(w: string)
    requires NoSpace(w)
    ensures WordLen(w) == |w|
  {
    if w != [] {
      WordLenWhole(w[1..]);
    }
  }

  lemma {:induction false} RemoveSpaceOfNoSpace(w: string)
    requires NoSpace(w)
    ensures RemoveSpace(w) == w
  {
    if w != [] {
      RemoveSpaceOfNoSpace(w[1..]);
    }
  }

  lemma {:induction false} RemoveSpaceAppend(a: string, b: string)
    ensures RemoveSpace(a + b) == RemoveSpace(a) + RemoveSpace(b)
  {
    if a != [] {
      assert (a + b)[1..] == a[1..] + b;
      RemoveSpaceAppend(a[1..], b);
    } else {
      assert a + b == b;
    }
  }

  /** `sep.join(items)` in Python. */
  function Join(sep: string, items: seq<string>): string
  {
    if items == [] then []
    else if |items| == 1 then items[0]
    else items[0] + sep + Join(sep, items[1..])
  }

  /** Splitting words joined by a single space gives the words back. */
  lemma {:induction false} SplitJoin(ws: seq<string>)
    requires WellFormedWords(ws)
    ensures Split(Join(" ", ws)) == ws
  {
    if |ws| == 1 {
      var w := ws[0];
      assert WordLen(w) == |w|;
      assert w[|w|..] == [];
      assert w[..|w|] == w;
    } else if |ws| > 1 {
      var w, rest := ws[0], ws[1..];
      var s := w + " " + Join(" ", rest);
      WordLenPrefix(w, " " + Join(" ", rest));
      assert s == w + (" " + Join(" ", rest));
      assert s[..|w|] == w;
      assert s[|w|..] == " " + Join(" ", rest);
      assert (" " + Join(" ", rest))[1..] == Join(" ", rest);
      SplitJoin(rest);
    }
  }

  lemma {:induction false} WordLenPrefix(w: string, t: string)
    requires w != [] && NoSpace(w)
    requires t != [] && IsSpace(t[0])
    ensures WordLen(w + t) == |w|
  {
    if |w| > 1 {
      assert (w + t)[1..] == w[1..] + t;
      WordLenPrefix(w[1..], t);
    } else {
      assert (w + t)[1..] == t;
    }
  }

  // ---------------------------------------------------------------------
  // str.strip(chars)

  /** Number of leading characters of `s` that are in `cs`. */
  function LeadLen(s: string, cs: set<char>): (n: nat)
    ensures n <= |s|
  {
    if s == [] || s[0] !in cs then 0 else 1 + LeadLen(s[1..], cs)
  }

  /** Number of trailing characters of `s` that are in `cs`. */
  function TrailLen(s: string, cs: set<char>): (n: nat)
    ensures n <= |s|
  {
    if s == [] || s[|s| - 1] !in cs then 0 else 1 + TrailLen(s[..|s| - 1], cs)
  }

  /** `LeadLen` is the length of the longest prefix made of `cs`. */
  lemma {:induction false} LeadLenMaximal(s: string, cs: set<char>)
    ensures forall i :: 0 <= i < LeadLen(s, cs) ==> s[i] in cs
    ensures LeadLen(s, cs) == |s| || s[LeadLen(s, cs)] !in cs
  {
    if s != [] && s[0] in cs {
      LeadLenMaximal(s[1..], cs);
    }
  }

  /** `TrailLen` is the length of the longest suffix made of `cs`. */
  lemma {:induction false} TrailLenMaximal(s: string, cs: set<char>)
    ensures forall i :: |s| - TrailLen(s, cs) <= i < |s| ==> s[i] in cs
    ensures TrailLen(s, cs) == |s| || s[|s| - 1 - TrailLen(s, cs)] !in cs
  {
    if s != [] && s[|s| - 1] in cs {
      TrailLenMaximal(s[..|s| - 1], cs);
    }
  }

  /** Python `s.strip(cs)`: drop the longest prefix, then the longest suffix, made of `cs`. */
  function Strip(s: string, cs: set<char>): string
  {
    s[StripStart(s, cs)..StripEnd(s, cs)]
  }

  /** Where the kept slice of `s.strip(cs)` begins. */
  function StripStart(s: string, cs: set<char>): (i: nat)
    ensures i <= |s|
  {
    LeadLen(s, cs)
  }

  /** Where the kept slice of `s.strip(cs)` ends. */
  function StripEnd(s: string, cs: set<char>): (j: nat)
    ensures StripStart(s, cs) <= j <= |s|
  {
    |s| - TrailLen(s[StripStart(s, cs)..], cs)
  }

  /** What is removed on either side is made of `cs`; what is kept neither
      starts nor ends with a character of `cs`. */
  lemma StripEdges(s: string, cs: set<char>)
    ensures forall k :: 0 <= k < StripStart(s, cs) ==> s[k] in cs
    ensures forall k :: StripEnd(s, cs) <= k < |s| ==> s[k] in cs
    ensures StripStart(s, cs) < StripEnd(s, cs) ==>
              s[StripStart(s, cs)] !in cs && s[StripEnd(s, cs) - 1] !in cs
  {
    var i := StripStart(s, cs);
    var t := s[i..];
    var n := TrailLen(t, cs);
    var j := |s| - n;
    LeadLenMaximal(s, cs);
    TrailLenMaximal(t, cs);
    forall k | j <= k < |s| ensures s[k] in cs {
      assert s[k] == t[k - i];
    }
    if i < j {
      assert t[|t| - 1 - n] == s[j - 1];
    }
  }

  /** A character of `s` outside `cs` survives stripping. */
  lemma StripKeeps(s: string, cs: set<char>, k: nat)
    requires k < |s| && s[k] !in cs
    ensures StripStart(s, cs) <= k < StripEnd(s, cs)
  {
    StripEdges(s, cs);
  }

  /** A string that neither starts nor ends with a character of `cs` is left as it is. */
  lemma StripUnchanged(s: string, cs: set<char>)
    requires s != [] && s[0] !in cs && s[|s| - 1] !in cs
    ensures Strip(s, cs) == s
  {
    assert StripStart(s, cs) == 0;
    assert s[0..] == s;
    assert StripEnd(s, cs) == |s|;
  }

  // ---------------------------------------------------------------------
  // str.istitle(), over the ASCII letters

  predicate IsUpper(c: char) { 'A' <= c <= 'Z' }
  predicate IsLower(c: char) { 'a' <= c <= 'z' }
  /** A "cased" character in Python's terms. */
  predicate IsLetter(c: char) { IsUpper(c) || IsLower(c) }

  /** The scan of CPython's `istitle`, from position `i`, with the flags
      "previous character cased" and "some cased character seen". */
  function TitleScan(w: string, i: nat, previousCased: bool, cased: bool): bool
    requires i <= |w|
    decreases |w| - i
  {
    if i == |w| then cased
    else
      var c := w[i];
      // an upper-case letter must not follow a cased one, a lower-case letter must
      var fits := if IsUpper(c) then !previousCased else if IsLower(c) then previousCased else true;
      fits && TitleScan(w, i + 1, IsLetter(c), cased || IsLetter(c))
  }

  /** Python `w.istitle()`. */
  function IsTitle(w: string): bool
  {
    TitleScan(w, 0, false, false)
  }

  /** The rule `istitle` states, written position by position. */
  ghost predicate TitleCased(w: string)
  {
    && (exists k :: 0 <= k < |w| && IsLetter(w[k]))
    && (forall k :: 0 <= k < |w| && IsUpper(w[k]) ==> k == 0 || !IsLetter(w[k - 1]))
    && (forall k :: 0 <= k < |w| && IsLower(w[k]) ==> k > 0 && IsLetter(w[k - 1]))
  }

  /** The tail of the scan from `i` agrees with the positional rule on `w[i..]`. */
  lemma {:induction false} TitleScanFrom(w: string, i: nat, previousCased: bool, cased: bool)
    requires i <= |w|
    requires previousCased == (i > 0 && IsLetter(w[i - 1]))
    requires cased == (exists k :: 0 <= k < i && IsLetter(w[k]))
    ensures TitleScan(w, i, previousCased, cased) <==>
      && (exists k :: 0 <= k < |w| && IsLetter(w[k]))
      && (forall k :: i <= k < |w| && IsUpper(w[k]) ==> k == 0 || !IsLetter(w[k - 1]))
      && (forall k :: i <= k < |w| && IsLower(w[k]) ==> k > 0 && IsLetter(w[k - 1]))
    decreases |w| - i
  {
    if i < |w| {
      var c := w[i];
      var cased' := cased || IsLetter(c);
      assert cased' == (exists k :: 0 <= k < i + 1 && IsLetter(w[k])) by {
        if IsLetter(c) { assert 0 <= i < i + 1 && IsLetter(w[i]); }
      }
      TitleScanFrom(w, i + 1, IsLetter(c), cased');
    }
  }

  /** A title-cased string has a letter. */
  lemma TitleHasLetter(w: string) returns (k: nat)
    requires IsTitle(w)
    ensures k < |w| && IsLetter(w[k])
  {
    IsTitleMeans(w);
    k :| 0 <= k < |w| && IsLetter(w[k]);
  }

  /** `istitle` holds exactly when `w` has a letter, every upper-case letter
      follows a non-letter or the start, and every lower-case letter follows a letter. */
  lemma IsTitleMeans(w: string)
    ensures IsTitle(w) <==> TitleCased(w)
  {
    TitleScanFrom(w, 0, false, false);
  }

  // ---------------------------------------------------------------------
  // Decimal rendering of a count, as an f-string prints an `int`

  function DigitChar(d: nat): char
    requires d < 10
  {
    ('0' as int + d) as char
  }

  /** `f"{n}"` for a non-negative `n`. */
  function Decimal(n: nat): string
    decreases n
  {
    if n < 10 then [DigitChar(n)] else Decimal(n / 10) + [DigitChar(n % 10)]
  }

  function DigitValue(c: char): nat
  {
    if '0' <= c <= '9' then (c as int - '0' as int) as nat else 0
  }

  /** Reads a string of decimal digits back as a number. */
  function ParseDecimal(s: string): nat
  {
    if s == [] then 0 else ParseDecimal(s[..|s| - 1]) * 10 + DigitValue(s[|s| - 1])
  }

  /** The rendering is a non-empty string of digits without a leading zero
      unless it is "0". */
  lemma {:induction false} DecimalDigits(n: nat)
    ensures Decimal(n) != []
    ensures forall i :: 0 <= i < |Decimal(n)| ==> '0' <= Decimal(n)[i] <= '9'
    ensures Decimal(n)[0] == '0' ==> n == 0
    decreases n
  {
    if n >= 10 {
      DecimalDigits(n / 10);
      assert Decimal(n)[0] == Decimal(n / 10)[0];
    }
  }

  /** The rendering reads back as `n`. */
  lemma {:induction false} DecimalRoundTrip(n: nat)
    ensures ParseDecimal(Decimal(n)) == n
    decreases n
  {
    if n >= 10 {
      DecimalRoundTrip(n / 10);
      var s := Decimal(n);
      assert s[..|s| - 1] == Decimal(n / 10);
      assert DigitValue(s[|s| - 1]) == n % 10;
    }
  }
}
