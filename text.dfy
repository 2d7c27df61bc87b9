/**
 * The Python string operations the scraper relies on, on `string` values
 * (sequences of Unicode scalar values): `str.replace`, `str.split(sep)`,
 * `str.split()`, `str.strip()`, `str.startswith`, slicing with defaults,
 * `int(...)`, the decimal subset of `float(...)` and `str(int)`.
 */
module Text {
  import opened Common

  /** The characters `str.isspace()` accepts; `str.split()` and `str.strip()` cut on them. */
  predicate IsSpace(c: char) {
    c == ' ' || '\t' <= c <= '\r' || '\U{1C}' <= c <= '\U{1F}' || c == '\U{85}' || c == '\U{A0}'
    || c == '\U{1680}' || '\U{2000}' <= c <= '\U{200A}' || c == '\U{2028}' || c == '\U{2029}'
    || c == '\U{202F}' || c == '\U{205F}' || c == '\U{3000}'
  }

  /** `s.startswith(prefix)` */
  predicate StartsWith(s: string, prefix: string) {
    |prefix| <= |s| && s[..|prefix|] == prefix
  }

  /** `s[k:]`, which is empty when `k` is past the end. */
  function Drop(s: string, k: nat): string {
    if |s| <= k then [] else s[k..]
  }

  /** `s[:-1]`, which is empty for the empty string. */
  function DropLast(s: string): string {
    if s == [] then [] else s[..|s| - 1]
  }

  /** Recursive form of "no character of `s` is in `bad`" that literals evaluate. */
  predicate Avoids(s: string, bad: string)
    decreases |s|
  {
    s == [] || (s[0] !in bad && Avoids(s[1..], bad))
  }

  lemma {:induction false} AvoidsChar(s: string, bad: string, c: char)
    requires Avoids(s, bad) && c in bad
    ensures c !in s
    decreases |s|
  {
    if s != [] {
      AvoidsChar(s[1..], bad, c);
      assert s == [s[0]] + s[1..];
    }
  }

  // ---------------------------------------------------------------------
  // str.replace

  /**
   * `s.replace(pat, rep)`: every leftmost, non-overlapping occurrence of the
   * non-empty `pat`, scanning left to right, is replaced by `rep`.
   */
  function Replace(s: string, pat: string, rep: string): (r: string)
    requires pat != []
    decreases |s|
  {
    if |s| < |pat| then s
    else if s[..|pat|] == pat then rep + Replace(s[|pat|..], pat, rep)
    else [s[0]] + Replace(s[1..], pat, rep)
  }

  /** A text lacking some character of the pattern has no occurrence to replace. */
  lemma {:induction false} ReplaceWithout(s: string, pat: string, rep: string, c: char)
    requires pat != [] && c in pat && c !in s
    ensures Replace(s, pat, rep) == s
    decreases |s|
  {
    if |pat| <= |s| {
      assert c !in s[..|pat|] && c !in s[1..];
      assert s[..|pat|] != pat;
      assert Replace(s, pat, rep) == [s[0]] + Replace(s[1..], pat, rep);
      ReplaceWithout(s[1..], pat, rep, c);
    }
  }

  /** No occurrence can start inside a prefix lacking the pattern's first character. */
  lemma {:induction false} ReplaceSkips(a: string, b: string, pat: string, rep: string)
    requires pat != [] && pat[0] !in a
    ensures Replace(a + b, pat, rep) == a + Replace(b, pat, rep)
    decreases |a|
  {
    if a != [] {
      var s := a + b;
      if |pat| <= |s| {
        assert s[..|pat|][0] != pat[0];
        assert s[0] == a[0] && s[1..] == a[1..] + b;
        assert Replace(s, pat, rep) == [a[0]] + Replace(a[1..] + b, pat, rep);
        assert pat[0] !in a[1..];
        ReplaceSkips(a[1..], b, pat, rep);
        assert a + Replace(b, pat, rep) == [a[0]] + (a[1..] + Replace(b, pat, rep));
      } else {
        assert Replace(s, pat, rep) == s;
        assert Replace(b, pat, rep) == b;
      }
    } else {
      assert a + b == b;
    }
  }

  /** Where no occurrence starts, the first character is kept and the scan moves on. */
  lemma ReplaceStep(c: char, s: string, pat: string, rep: string)
    requires pat != [] && !StartsWith([c] + s, pat)
    ensures Replace([c] + s, pat, rep) == [c] + Replace(s, pat, rep)
  {
    assert ([c] + s)[1..] == s;
  }

  /** An occurrence at the very start is replaced, and the scan resumes after it. */
  lemma ReplaceAtStart(pat: string, b: string, rep: string)
    requires pat != []
    ensures Replace(pat + b, pat, rep) == rep + Replace(b, pat, rep)
  {
    var s := pat + b;
    assert s[..|pat|] == pat && s[|pat|..] == b;
  }

  /** An occurrence at the start of a text with no further occurrence is the only one replaced. */
  lemma ReplaceOnlyAtStart(pat: string, b: string, rep: string, c: char)
    requires c in pat && c !in b
    ensures Replace(pat + b, pat, rep) == rep + b
  {
    ReplaceAtStart(pat, b, rep);
    ReplaceWithout(b, pat, rep, c);
  }

  /** The one occurrence after a prefix lacking the pattern's first character is replaced. */
  lemma ReplaceOnly(a: string, pat: string, b: string, rep: string, c: char)
    requires pat != [] && pat[0] !in a && c in pat && c !in b
    ensures Replace(a + (pat + b), pat, rep) == a + (rep + b)
  {
    ReplaceSkips(a, pat + b, pat, rep);
    ReplaceOnlyAtStart(pat, b, rep, c);
  }

  /** A pattern that ends the text, after a prefix lacking its first character, is deleted. */
  lemma DeleteSuffix(a: string, pat: string)
    requires pat != [] && pat[0] !in a
    ensures Replace(a + pat, pat, "") == a
  {
    ReplaceFirst(a, pat, [], []);
    assert a + pat + [] == a + pat;
    assert a + [] + Replace([], pat, []) == a;
  }

  /** The first occurrence is the one after a prefix lacking the pattern's first character. */
  lemma ReplaceFirst(a: string, pat: string, b: string, rep: string)
    requires pat != [] && pat[0] !in a
    ensures Replace(a + pat + b, pat, rep) == a + rep + Replace(b, pat, rep)
  {
    assert a + pat + b == a + (pat + b);
    ReplaceSkips(a, pat + b, pat, rep);
    ReplaceAtStart(pat, b, rep);
  }

  /** Deleting a one-character pattern leaves no copy of that character. */
  lemma {:induction false} ReplaceDeletesChar(s: string, c: char)
    ensures c !in Replace(s, [c], "")
    decreases |s|
  {
    if s != [] {
      ReplaceDeletesChar(s[1..], c);
    }
  }

  /** A replacement never introduces a character that neither the text nor the replacement has. */
  lemma {:induction false} ReplaceKeepsAbsent(s: string, pat: string, rep: string, c: char)
    requires pat != [] && c !in s && c !in rep
    ensures c !in Replace(s, pat, rep)
    decreases |s|
  {
    if |pat| <= |s| {
      if s[..|pat|] == pat {
        ReplaceKeepsAbsent(s[|pat|..], pat, rep, c);
      } else {
        ReplaceKeepsAbsent(s[1..], pat, rep, c);
      }
    }
  }

  // ---------------------------------------------------------------------
  // str.split(sep) and str.split()

  datatype Separator = Char(c: char) | Whitespace

  predicate Separates(sep: Separator, c: char) {
    match sep
    case Char(d) => c == d
    case Whitespace => IsSpace(c)
  }

  predicate Unseparated(s: string, sep: Separator) {
    forall i :: 0 <= i < |s| ==> !Separates(sep, s[i])
  }

  /** The pieces between separator characters, empty pieces included. */
  function Pieces(s: string, sep: Separator): (r: seq<string>)
    ensures |r| >= 1
    decreases |s|
  {
    if s == [] then [""]
    else if Separates(sep, s[0]) then [""] + Pieces(s[1..], sep)
    else
      var t := Pieces(s[1..], sep);
      [[s[0]] + t[0]] + t[1..]
  }

  /** `s.split(c)` */
  function Split(s: string, c: char): seq<string> {
    Pieces(s, Char(c))
  }

  /** `c.join(xs)` */
  function Join(xs: seq<string>, c: char): string
    requires |xs| >= 1
    decreases |xs|
  {
    if |xs| == 1 then xs[0] else xs[0] + [c] + Join(xs[1..], c)
  }

  /** No piece contains a separator. */
  lemma {:induction false} PiecesAreUnseparated(s: string, sep: Separator, k: nat)
    requires k < |Pieces(s, sep)|
    ensures Unseparated(Pieces(s, sep)[k], sep)
    decreases |s|
  {
    if s != [] {
      var t := Pieces(s[1..], sep);
      if Separates(sep, s[0]) {
        if k > 0 {
          PiecesAreUnseparated(s[1..], sep, k - 1);
        }
      } else if k > 0 {
        PiecesAreUnseparated(s[1..], sep, k);
      } else {
        PiecesAreUnseparated(s[1..], sep, 0);
        var p := [s[0]] + t[0];
        forall i | 0 <= i < |p| ensures !Separates(sep, p[i]) {
          if i > 0 {
            assert p[i] == t[0][i - 1];
          }
        }
      }
    }
  }

  /** The second piece of a text with two separators lies between them. */
  lemma SplitSecond(first: string, second: string, rest: string, c: char)
    requires c !in first && c !in second
    ensures |Split(first + [c] + second + [c] + rest, c)| >= 2
    ensures Split(first + [c] + second + [c] + rest, c)[1] == second
  {
    var sep := Char(c);
    PiecesConcat(first, c, second + [c] + rest, sep);
    assert first + [c] + second + [c] + rest == first + [c] + (second + [c] + rest);
    PiecesConcat(second, c, rest, sep);
    PiecesUnseparated(first, sep);
    PiecesUnseparated(second, sep);
  }

  lemma {:induction false} PiecesUnseparated(s: string, sep: Separator)
    requires Unseparated(s, sep)
    ensures Pieces(s, sep) == [s]
    decreases |s|
  {
    if s != [] {
      assert Unseparated(s[1..], sep) by {
        forall i | 0 <= i < |s[1..]| ensures !Separates(sep, s[1..][i]) {
          assert s[1..][i] == s[i + 1];
        }
      }
      PiecesUnseparated(s[1..], sep);
      assert [s[0]] + s[1..] == s;
    }
  }

  /** Cutting at a separator character splits the pieces exactly there. */
  lemma {:induction false} PiecesConcat(a: string, x: char, b: string, sep: Separator)
    requires Separates(sep, x)
    ensures Pieces(a + [x] + b, sep) == Pieces(a, sep) + Pieces(b, sep)
    decreases |a|
  {
    if a == [] {
      PiecesAtSeparator(x, b, sep);
      assert a + [x] + b == [x] + b;
    } else {
      var c, a' := a[0], a[1..];
      assert a + [x] + b == [c] + (a' + [x] + b);
      assert a == [c] + a';
      PiecesConcat(a', x, b, sep);
      PiecesCons(c, a' + [x] + b, sep);
      PiecesCons(c, a', sep);
      var p, q := Pieces(a', sep), Pieces(b, sep);
      if Separates(sep, c) {
        Assoc([""], p, q);
      } else {
        AppendHead(p, q);
        Assoc([[c] + p[0]], p[1..], q);
      }
    }
  }

  /** `PiecesConcat` with the concatenation grouped to the right. */
  lemma PiecesCut(a: string, x: char, b: string, sep: Separator)
    requires Separates(sep, x)
    ensures Pieces(a + ([x] + b), sep) == Pieces(a, sep) + Pieces(b, sep)
  {
    Assoc(a, [x], b);
    PiecesConcat(a, x, b, sep);
  }

  /** A text starting with a separator starts with an empty piece. */
  lemma PiecesAtSeparator(x: char, b: string, sep: Separator)
    requires Separates(sep, x)
    ensures Pieces([x] + b, sep) == [""] + Pieces(b, sep)
  {
    assert ([x] + b)[1..] == b;
  }

  /** One more character in front either opens a new piece or extends the first one. */
  lemma PiecesCons(c: char, s: string, sep: Separator)
    ensures Separates(sep, c) ==> Pieces([c] + s, sep) == [""] + Pieces(s, sep)
    ensures !Separates(sep, c) ==>
              Pieces([c] + s, sep) == [[c] + Pieces(s, sep)[0]] + Pieces(s, sep)[1..]
  {
    assert ([c] + s)[0] == c && ([c] + s)[1..] == s;
  }

  lemma AppendHead(p: seq<string>, q: seq<string>)
    requires p != []
    ensures (p + q)[0] == p[0] && (p + q)[1..] == p[1..] + q
  {
  }

  /** Joining the pieces of `s.split(c)` with `c` gives back `s`. */
  lemma {:induction false} JoinSplit(s: string, c: char)
    ensures Join(Split(s, c), c) == s
    decreases |s|
  {
    if s != [] {
      JoinSplit(s[1..], c);
      var t := Split(s[1..], c);
      if s[0] != c && |t| > 1 {
        assert Join(t, c) == t[0] + [c] + Join(t[1..], c);
        var u := [[s[0]] + t[0]] + t[1..];
        assert u[1..] == t[1..];
      }
    }
  }

  /** Splitting a join of pieces free of `c` gives back the pieces. */
  lemma {:induction false} SplitJoin(xs: seq<string>, c: char)
    requires |xs| >= 1
    requires forall k :: 0 <= k < |xs| ==> c !in xs[k]
    ensures Split(Join(xs, c), c) == xs
    decreases |xs|
  {
    PiecesUnseparated(xs[0], Char(c));
    if |xs| > 1 {
      SplitJoin(xs[1..], c);
      PiecesConcat(xs[0], c, Join(xs[1..], c), Char(c));
    }
  }

  function NonEmpty(xs: seq<string>): (r: seq<string>)
    decreases |xs|
  {
    if xs == [] then []
    else if xs[0] == [] then NonEmpty(xs[1..])
    else [xs[0]] + NonEmpty(xs[1..])
  }

  lemma {:induction false} NonEmptyConcat(xs: seq<string>, ys: seq<string>)
    ensures NonEmpty(xs + ys) == NonEmpty(xs) + NonEmpty(ys)
    decreases |xs|
  {
    if xs != [] {
      assert (xs + ys)[0] == xs[0] && (xs + ys)[1..] == xs[1..] + ys;
      NonEmptyConcat(xs[1..], ys);
    } else {
      assert xs + ys == ys;
    }
  }

  /** `s.split()`: the maximal runs of non-whitespace characters. */
  function SplitWs(s: string): seq<string>
  {
    NonEmpty(Pieces(s, Whitespace))
  }

  lemma UnseparatedConcat(a: string, b: string, sep: Separator)
    requires Unseparated(a, sep) && Unseparated(b, sep)
    ensures Unseparated(a + b, sep)
  {
    forall i | 0 <= i < |a + b| ensures !Separates(sep, (a + b)[i]) {
      if i >= |a| {
        assert (a + b)[i] == b[i - |a|];
      }
    }
  }

  /** A non-empty text without whitespace is one word. */
  lemma SplitWsOneWord(w: string)
    requires w != [] && Unseparated(w, Whitespace)
    ensures SplitWs(w) == [w]
  {
    PiecesUnseparated(w, Whitespace);
    assert NonEmpty([w][1..]) == [];
  }

  /** A last word after a whitespace character is the last token of `str.split()`. */
  lemma SplitWsLastWord(a: string, x: char, w: string)
    requires IsSpace(x) && w != [] && Unseparated(w, Whitespace)
    ensures SplitWs(a + [x] + w) == SplitWs(a) + [w]
  {
    PiecesConcat(a, x, w, Whitespace);
    PiecesUnseparated(w, Whitespace);
    NonEmptyConcat(Pieces(a, Whitespace), [w]);
  }

  // ---------------------------------------------------------------------
  // str.strip()

  function TrimStart(s: string): string
    decreases |s|
  {
    if s != [] && IsSpace(s[0]) then TrimStart(s[1..]) else s
  }

  function TrimEnd(s: string): string
    decreases |s|
  {
    if s != [] && IsSpace(s[|s| - 1]) then TrimEnd(s[..|s| - 1]) else s
  }

  /** `s.strip()` */
  function Strip(s: string): string {
    TrimEnd(TrimStart(s))
  }

  /** Trimming the front leaves a suffix that starts with a non-space. */
  lemma {:induction false} TrimStartSuffix(s: string)
    ensures |TrimStart(s)| <= |s| && TrimStart(s) == s[|s| - |TrimStart(s)|..]
    ensures TrimStart(s) == [] || !IsSpace(TrimStart(s)[0])
    decreases |s|
  {
    if s != [] && IsSpace(s[0]) {
      TrimStartSuffix(s[1..]);
      assert s[1..][|s| - 1 - |TrimStart(s[1..])|..] == s[|s| - |TrimStart(s[1..])|..];
    }
  }

  /** Trimming the back leaves a prefix that ends with a non-space. */
  lemma {:induction false} TrimEndPrefix(s: string)
    ensures |TrimEnd(s)| <= |s| && TrimEnd(s) == s[..|TrimEnd(s)|]
    ensures TrimEnd(s) == [] || !IsSpace(TrimEnd(s)[|TrimEnd(s)| - 1])
    decreases |s|
  {
    if s != [] && IsSpace(s[|s| - 1]) {
      TrimEndPrefix(s[..|s| - 1]);
      assert s[..|s| - 1][..|TrimEnd(s[..|s| - 1])|] == s[..|TrimEnd(s[..|s| - 1])|];
    }
  }

  /** No whitespace is left at either end of a stripped text. */
  lemma StripEnds(s: string)
    ensures Strip(s) != [] ==> !IsSpace(Strip(s)[0]) && !IsSpace(Strip(s)[|Strip(s)| - 1])
  {
    var t := TrimStart(s);
    TrimStartSuffix(s);
    TrimEndPrefix(t);
    if Strip(s) != [] {
      assert Strip(s)[0] == t[0];
    }
  }

  /** A text with no whitespace is its own strip. */
  lemma StripUnspaced(s: string)
    requires Unseparated(s, Whitespace)
    ensures Strip(s) == s
  {
    assert s == [] || !IsSpace(s[0]);
    assert TrimStart(s) == s;
    assert s == [] || !IsSpace(s[|s| - 1]);
  }

  // ---------------------------------------------------------------------
  // Integers: str(n) and int(s)

  predicate IsDigit(c: char) {
    '0' <= c <= '9'
  }

  predicate AllDigits(s: string) {
    forall i :: 0 <= i < |s| ==> IsDigit(s[i])
  }

  function DigitChar(d: nat): (c: char)
    requires d < 10
    ensures IsDigit(c)
  {
    ('0' as int + d) as char
  }

  function DigitValue(c: char): nat
    requires IsDigit(c)
  {
    c as int - '0' as int
  }

  /** The value of a run of decimal digits, most significant first. */
  function DigitsValue(ds: string): nat
    requires AllDigits(ds)
    decreases |ds|
  {
    if ds == [] then 0 else 10 * DigitsValue(ds[..|ds| - 1]) + DigitValue(ds[|ds| - 1])
  }

  /** `str(n)` for a natural number: digits only, with no leading zero, reading back as `n`. */
  function ShowNat(n: nat): (r: string)
    ensures r != [] && AllDigits(r)
    ensures DigitsValue(r) == n
    ensures r[0] == '0' ==> n == 0
    decreases n
  {
    if n < 10 then [DigitChar(n)]
    else
      var r := ShowNat(n / 10) + [DigitChar(n % 10)];
      assert r[..|r| - 1] == ShowNat(n / 10);
      r
  }

  /** `str(i)`: a minus sign only in front of a negative number, digits elsewhere. */
  function ShowInt(i: int): (r: string)
    ensures r != []
    ensures forall k :: 0 <= k < |r| ==> IsDigit(r[k]) || (k == 0 && r[k] == '-' && i < 0)
  {
    if i < 0 then "-" + ShowNat(-i) else ShowNat(i)
  }

  /**
   * `int(s)`: surrounding whitespace is ignored, then an optional sign and at
   * least one ASCII digit; anything else is a ValueError (None).
   */
  function ParseInt(s: string): (r: Option<int>)
    ensures r.Some? ==> Strip(s) != [] && (r.value < 0 ==> Strip(s)[0] == '-')
  {
    var t := Strip(s);
    if t != [] && (t[0] == '-' || t[0] == '+') then
      if |t| >= 2 && AllDigits(t[1..]) then
        var magnitude: int := DigitsValue(t[1..]);
        Some(if t[0] == '-' then -magnitude else magnitude)
      else None
    else if t != [] && AllDigits(t) then Some(DigitsValue(t))
    else None
  }

  lemma ShowIntUnspaced(i: int)
    ensures Unseparated(ShowInt(i), Whitespace)
  {
    var s := ShowInt(i);
    forall k | 0 <= k < |s| ensures !IsSpace(s[k]) {
      assert IsDigit(s[k]) || s[k] == '-';
    }
  }

  /** `int()` of a run of digits is its value. */
  lemma ParseDigits(ds: string)
    requires ds != [] && AllDigits(ds)
    ensures ParseInt(ds) == Some(DigitsValue(ds) as int)
  {
    assert Unseparated(ds, Whitespace) by {
      forall k | 0 <= k < |ds| ensures !IsSpace(ds[k]) {
        assert IsDigit(ds[k]);
      }
    }
    StripUnspaced(ds);
    assert IsDigit(ds[0]);
  }

  /** `int()` of a minus sign and a run of digits is the negated value. */
  lemma ParseNegativeDigits(ds: string)
    requires ds != [] && AllDigits(ds)
    ensures ParseInt("-" + ds) == Some(-(DigitsValue(ds) as int))
  {
    var s := "-" + ds;
    assert Unseparated(s, Whitespace) by {
      forall k | 0 <= k < |s| ensures !IsSpace(s[k]) {
        if k > 0 {
          assert s[k] == ds[k - 1];
          assert IsDigit(ds[k - 1]);
        }
      }
    }
    assert s[1..] == ds;
  }

  /** `int(str(i)) == i` */
  lemma ParseShowInt(i: int)
    ensures ParseInt(ShowInt(i)) == Some(i)
  {
    if i < 0 {
      ParseNegativeDigits(ShowNat(-i));
    } else {
      ParseDigits(ShowNat(i));
    }
  }

  /** `str` is injective on integers. */
  lemma ShowIntInjective(i: int, j: int)
    requires ShowInt(i) == ShowInt(j)
    ensures i == j
  {
    ParseShowInt(i);
    ParseShowInt(j);
  }

  // ---------------------------------------------------------------------
  // Decimal numbers: float(s) on the literals the site emits

  function IndexOf(s: string, c: char): (r: Option<nat>)
    ensures r.None? <==> c !in s
    ensures r.Some? ==> r.value < |s| && s[r.value] == c && c !in s[..r.value]
    decreases |s|
  {
    if s == [] then None
    else if s[0] == c then Some(0)
    else match IndexOf(s[1..], c)
      case None => None
      case Some(k) => assert s[..k + 1] == [s[0]] + s[1..][..k]; Some(k + 1)
  }

  function Pow10(n: nat): (r: nat)
    ensures r >= 1
  {
    if n == 0 then 1 else 10 * Pow10(n - 1)
  }

  /** Digits with at most one decimal point and at least one digit: "12", "12.5", "12.", ".5". */
  function UnsignedDecimal(b: string): (r: Option<real>)
    ensures r.Some? ==> r.value >= 0.0
  {
    match IndexOf(b, '.')
    case None =>
      if b != [] && AllDigits(b) then Some(DigitsValue(b) as real) else None
    case Some(dot) =>
      var whole, fraction := b[..dot], b[dot + 1..];
      if AllDigits(whole) && AllDigits(fraction) && (whole != [] || fraction != []) then
        Some(DecimalValue(whole, fraction))
      else None
  }

  /** The value of the digits before and after a decimal point. */
  function DecimalValue(whole: string, fraction: string): (r: real)
    requires AllDigits(whole) && AllDigits(fraction)
    ensures r >= 0.0
  {
    DigitsValue(whole) as real + DigitsValue(fraction) as real / Pow10(|fraction|) as real
  }

  /**
   * `float(s)` restricted to plain decimal literals: surrounding whitespace,
   * an optional sign, then digits with at most one decimal point.
   */
  function ParseDecimal(s: string): (r: Option<real>)
    ensures r.Some? ==> Strip(s) != [] && (r.value < 0.0 ==> Strip(s)[0] == '-')
  {
    var t := Strip(s);
    if t != [] && (t[0] == '-' || t[0] == '+') then
      match UnsignedDecimal(t[1..])
      case None => None
      case Some(v) => Some(if t[0] == '-' then -v else v)
    else UnsignedDecimal(t)
  }

  /** Every text `int()` accepts, `float()` accepts with the same value. */
  lemma ParseDecimalOfInt(s: string)
    requires ParseInt(s).Some?
    ensures ParseDecimal(s) == Some(ParseInt(s).value as real)
  {
    var t := Strip(s);
    if t[0] == '-' || t[0] == '+' {
      assert '.' !in t[1..] by { assert AllDigits(t[1..]); }
    } else {
      assert '.' !in t by { assert AllDigits(t); }
    }
  }

  /** `float()` of `str(a) + "." + digits` is `a` plus the digits as a fraction. */
  lemma ParseDecimalPoint(a: nat, ds: string)
    requires AllDigits(ds)
    ensures ParseDecimal(ShowNat(a) + "." + ds) == Some(a as real + DigitsValue(ds) as real / Pow10(|ds|) as real)
  {
    ParsePoint(ShowNat(a), ds);
    DecimalValueOfNat(a, ds);
  }

  lemma ParsePoint(w: string, ds: string)
    requires w != [] && AllDigits(w) && AllDigits(ds)
    ensures ParseDecimal(w + "." + ds) == Some(DecimalValue(w, ds))
  {
    var s := w + "." + ds;
    assert ParseDecimal(s) == UnsignedDecimal(s) by {
      PointUnspaced(w, ds);
      StripUnspaced(s);
      assert s[0] == w[0];
      ParseUnsigned(s);
    }
    UnsignedPoint(w, ds);
  }

  /** Without whitespace around it and without a sign, `float()` reads the unsigned literal. */
  lemma ParseUnsigned(s: string)
    requires Strip(s) == s && s != [] && s[0] != '-' && s[0] != '+'
    ensures ParseDecimal(s) == UnsignedDecimal(s)
  {
  }

  lemma DecimalValueOfNat(a: nat, ds: string)
    requires AllDigits(ds)
    ensures DecimalValue(ShowNat(a), ds) == a as real + DigitsValue(ds) as real / Pow10(|ds|) as real
  {
  }

  lemma PointUnspaced(w: string, ds: string)
    requires AllDigits(w) && AllDigits(ds)
    ensures Unseparated(w + "." + ds, Whitespace)
  {
    var s := w + "." + ds;
    forall k | 0 <= k < |s| ensures !IsSpace(s[k]) {
      if k < |w| {
        assert s[k] == w[k] && IsDigit(w[k]);
      } else if k > |w| {
        assert s[k] == ds[k - |w| - 1] && IsDigit(ds[k - |w| - 1]);
      }
    }
  }

  /** The first point of `w + "." + ds` for digits `w` is the one after `w`. */
  lemma PointAfterDigits(w: string, ds: string)
    requires AllDigits(w)
    ensures IndexOf(w + "." + ds, '.') == Some(|w|)
  {
    var s := w + "." + ds;
    assert s[|w|] == '.';
  }

  lemma UnsignedPoint(w: string, ds: string)
    requires w != [] && AllDigits(w) && AllDigits(ds)
    ensures UnsignedDecimal(w + "." + ds) == Some(DecimalValue(w, ds))
  {
    var s := w + "." + ds;
    assert IndexOf(s, '.') == Some(|w|) by {
      PointAfterDigits(w, ds);
    }
    assert s[..|w|] == w && s[|w| + 1..] == ds;
  }
}
