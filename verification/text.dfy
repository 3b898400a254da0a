/**
 * JavaScript string operations used by the mail client and the generators.
 *
 * A `string` here is a sequence of Unicode scalar values, where JavaScript
 * has UTF-16 code units. The two agree on text made only of characters of the
 * Basic Multilingual Plane; a character outside it (an emoji, say) is one
 * `char` here and two code units in JavaScript. Case mapping covers the ASCII
 * letters only.
 */
module Text {
  import opened Wrappers

  // ---------------------------------------------------------------------------
  // Whitespace: the ECMAScript WhiteSpace and LineTerminator characters, which is
  // the set matched by the regular expression class \s and removed by trim().

  predicate IsSpace(c: char) {
    var u := c as int;
    (0x09 <= u <= 0x0D) || u == 0x20 || u == 0xA0 || u == 0x1680 ||
    (0x2000 <= u <= 0x200A) || u == 0x2028 || u == 0x2029 || u == 0x202F ||
    u == 0x205F || u == 0x3000 || u == 0xFEFF
  }

  /** Number of whitespace characters at the start of `s`. */
  function LeadingSpaces(s: string): (n: nat)
    ensures n <= |s|
    ensures forall i :: 0 <= i < n ==> IsSpace(s[i])
    ensures n < |s| ==> !IsSpace(s[n])
  {
    if |s| > 0 && IsSpace(s[0]) then 1 + LeadingSpaces(s[1..]) else 0
  }

  /** Number of whitespace characters at the end of `s`. */
  function TrailingSpaces(s: string): (n: nat)
    ensures n <= |s|
    ensures forall i :: |s| - n <= i < |s| ==> IsSpace(s[i])
    ensures n < |s| ==> !IsSpace(s[|s| - 1 - n])
  {
    if |s| > 0 && IsSpace(s[|s| - 1]) then 1 + TrailingSpaces(s[..|s| - 1]) else 0
  }

  /**
   * String.prototype.trim: `s` without its leading and trailing whitespace.
   * The result is the slice of `s` starting at its first non-whitespace
   * character, everything outside it is whitespace, and it neither starts nor
   * ends with whitespace.
   */
  function Trim(s: string): (r: string)
    ensures |r| <= |s|
    ensures LeadingSpaces(s) + |r| <= |s| && r == s[LeadingSpaces(s)..LeadingSpaces(s) + |r|]
    ensures forall i :: 0 <= i < |s| && !(LeadingSpaces(s) <= i < LeadingSpaces(s) + |r|) ==> IsSpace(s[i])
    ensures r != [] ==> !IsSpace(r[0]) && !IsSpace(r[|r| - 1])
    ensures r == [] <==> forall i :: 0 <= i < |s| ==> IsSpace(s[i])
  {
    var a := LeadingSpaces(s);
    if a == |s| then []
    else
      var b := TrailingSpaces(s);
      assert !IsSpace(s[a]);
      s[a..|s| - b]
  }

  // ---------------------------------------------------------------------------
  // body.replace(/\s+/g, ' '): every maximal run of whitespace becomes one space.

  /** A string in which the only whitespace is single spaces. */
  ghost predicate Collapsed(s: string) {
    && (forall i :: 0 <= i < |s| && IsSpace(s[i]) ==> s[i] == ' ')
    && (forall i, j :: 0 <= i && j == i + 1 && j < |s| ==> !IsSpace(s[i]) || !IsSpace(s[j]))
  }

  lemma CollapsedSlice(s: string, i: nat, j: nat)
    requires Collapsed(s) && i <= j <= |s|
    ensures Collapsed(s[i..j])
  {
    var r := s[i..j];
    assert forall k :: 0 <= k < |r| ==> r[k] == s[i + k];
  }

  function CollapseSpaces(s: string): (r: string)
    ensures Collapsed(r)
    ensures |r| <= |s|
    ensures r == [] <==> s == []
    ensures s != [] && !IsSpace(s[0]) ==> r[0] == s[0]
    decreases |s|
  {
    if s == [] then []
    else if IsSpace(s[0]) then " " + CollapseSpaces(s[LeadingSpaces(s)..])
    else [s[0]] + CollapseSpaces(s[1..])
  }

  /** Text without whitespace is left as it is. */
  lemma {:induction false} CollapseWord(s: string)
    requires forall i :: 0 <= i < |s| ==> !IsSpace(s[i])
    ensures CollapseSpaces(s) == s
    decreases |s|
  {
    if s != [] {
      CollapseWord(s[1..]);
    }
  }

  /** `n` is the number of leading whitespace characters exactly when it ends the run. */
  lemma LeadingSpacesAre(s: string, n: nat)
    requires n <= |s| && forall i :: 0 <= i < n ==> IsSpace(s[i])
    requires n < |s| ==> !IsSpace(s[n])
    ensures LeadingSpaces(s) == n
  {
  }

  /** Leading whitespace collapses to one space. */
  lemma CollapseLeading(w: string, b: string)
    requires w != [] && forall i :: 0 <= i < |w| ==> IsSpace(w[i])
    requires b == [] || !IsSpace(b[0])
    ensures CollapseSpaces(w + b) == " " + CollapseSpaces(b)
  {
    var s := w + b;
    LeadingSpacesAre(s, |w|);
    assert s[|w|..] == b;
  }

  /** One step of CollapseAppend: past a non-whitespace first character. */
  lemma CollapseAppendCons(a: string, x: string)
    requires a != [] && !IsSpace(a[0])
    requires CollapseSpaces(a[1..] + x) == CollapseSpaces(a[1..]) + CollapseSpaces(x)
    ensures CollapseSpaces(a + x) == CollapseSpaces(a) + CollapseSpaces(x)
  {
    var s := a + x;
    SliceOfAppend(a, x, 1);
    assert CollapseSpaces(s) == [a[0]] + CollapseSpaces(a[1..] + x);
    assert CollapseSpaces(a) == [a[0]] + CollapseSpaces(a[1..]);
    Associative([a[0]], CollapseSpaces(a[1..]), CollapseSpaces(x));
  }

  /** One step of CollapseAppend: past the leading whitespace of `a`. */
  lemma CollapseAppendSkip(a: string, x: string, n: nat)
    requires n == LeadingSpaces(a) && 0 < n < |a|
    requires CollapseSpaces(a[n..] + x) == CollapseSpaces(a[n..]) + CollapseSpaces(x)
    ensures CollapseSpaces(a + x) == CollapseSpaces(a) + CollapseSpaces(x)
  {
    var s := a + x;
    LeadingSpacesPrefix(a, x);
    SliceOfAppend(a, x, n);
    CollapseSkipUnfold(s, n);
    CollapseSkipUnfold(a, n);
    Associative(" ", CollapseSpaces(a[n..]), CollapseSpaces(x));
  }

  /** Text after a non-whitespace character does not change the leading whitespace. */
  lemma LeadingSpacesPrefix(a: string, x: string)
    requires LeadingSpaces(a) < |a|
    ensures LeadingSpaces(a + x) == LeadingSpaces(a)
  {
    var n := LeadingSpaces(a);
    var s := a + x;
    assert forall i :: 0 <= i <= n ==> s[i] == a[i];
    LeadingSpacesAre(s, n);
  }

  lemma CollapseSkipUnfold(s: string, n: nat)
    requires n == LeadingSpaces(s) && 0 < n
    ensures CollapseSpaces(s) == " " + CollapseSpaces(s[n..])
  {
  }

  lemma SliceOfAppend<T>(a: seq<T>, x: seq<T>, n: nat)
    requires n <= |a|
    ensures (a + x)[n..] == a[n..] + x
    ensures n < |a| ==> (a + x)[n] == a[n]
  {
  }

  lemma Associative<T>(u: seq<T>, p: seq<T>, q: seq<T>)
    ensures u + (p + q) == (u + p) + q
  {
  }

  /**
   * Collapsing can be done piecewise at a point where no whitespace run is
   * cut: where the first piece ends with a non-whitespace character.
   */
  lemma {:induction false} CollapseAppend(a: string, x: string)
    requires a == [] || !IsSpace(a[|a| - 1])
    ensures CollapseSpaces(a + x) == CollapseSpaces(a) + CollapseSpaces(x)
    decreases |a|
  {
    if a == [] {
      assert a + x == x;
    } else if !IsSpace(a[0]) {
      CollapseAppend(a[1..], x);
      CollapseAppendCons(a, x);
    } else {
      var n := LeadingSpaces(a);
      assert n < |a|;
      CollapseAppend(a[n..], x);
      CollapseAppendSkip(a, x, n);
    }
  }

  /**
   * A whitespace run between two pieces of text becomes exactly one space in
   * its place; the text on either side is collapsed on its own.
   */
  lemma CollapseRun(a: string, w: string, b: string)
    requires a == [] || !IsSpace(a[|a| - 1])
    requires w != [] && forall i :: 0 <= i < |w| ==> IsSpace(w[i])
    requires b == [] || !IsSpace(b[0])
    ensures CollapseSpaces(a + w + b) == CollapseSpaces(a) + " " + CollapseSpaces(b)
  {
    Associative(a, w, b);
    CollapseAppend(a, w + b);
    CollapseLeading(w, b);
    Associative(CollapseSpaces(a), " ", CollapseSpaces(b));
  }

  /** The non-whitespace characters of `s`, in order. */
  function NonSpace(s: string): string {
    if s == [] then [] else (if IsSpace(s[0]) then [] else [s[0]]) + NonSpace(s[1..])
  }

  lemma {:induction false} NonSpaceSkip(s: string, n: nat)
    requires n <= |s|
    requires forall i :: 0 <= i < n ==> IsSpace(s[i])
    ensures NonSpace(s) == NonSpace(s[n..])
    decreases n
  {
    if n > 0 {
      assert s[1..][n - 1..] == s[n..];
      NonSpaceSkip(s[1..], n - 1);
    }
  }

  lemma {:induction false} NonSpaceEmpty(s: string)
    ensures NonSpace(s) == [] <==> forall i :: 0 <= i < |s| ==> IsSpace(s[i])
  {
    if s != [] {
      NonSpaceEmpty(s[1..]);
      assert forall i :: 1 <= i < |s| ==> s[i] == s[1..][i - 1];
    }
  }

  lemma {:induction false} NonSpaceAppend(x: string, y: string)
    ensures NonSpace(x + y) == NonSpace(x) + NonSpace(y)
  {
    if x == [] {
      assert x + y == y;
    } else {
      assert (x + y)[1..] == x[1..] + y;
      NonSpaceAppend(x[1..], y);
    }
  }

  /** Trimming keeps every non-whitespace character, in order. */
  lemma TrimKeepsText(s: string)
    ensures NonSpace(Trim(s)) == NonSpace(s)
  {
    var t := Trim(s);
    var a := LeadingSpaces(s);
    if t == [] {
      NonSpaceEmpty(s);
    } else {
      var front := s[..a];
      var back := s[a + |t|..];
      assert s == front + t + back;
      forall i | 0 <= i < |back| ensures IsSpace(back[i]) {
        assert back[i] == s[a + |t| + i];
      }
      NonSpaceEmpty(front);
      NonSpaceEmpty(back);
      NonSpaceAppend(front + t, back);
      NonSpaceAppend(front, t);
    }
  }

  /** Collapsing whitespace keeps every other character, in order. */
  lemma {:induction false} CollapseKeepsText(s: string)
    ensures NonSpace(CollapseSpaces(s)) == NonSpace(s)
    decreases |s|
  {
    if s == [] {
    } else if IsSpace(s[0]) {
      var n := LeadingSpaces(s);
      CollapseKeepsText(s[n..]);
      NonSpaceSkip(s, n);
      var r := CollapseSpaces(s);
      assert r == " " + CollapseSpaces(s[n..]);
      assert r[1..] == CollapseSpaces(s[n..]);
    } else {
      CollapseKeepsText(s[1..]);
      var r := CollapseSpaces(s);
      assert r[1..] == CollapseSpaces(s[1..]);
    }
  }

  // ---------------------------------------------------------------------------
  // Substring search.

  /** `p` occurs in `s` at index `i`. */
  predicate MatchAt(s: string, p: string, i: int) {
    0 <= i && i + |p| <= |s| && s[i..i + |p|] == p
  }

  /** String.prototype.includes. */
  predicate Includes(s: string, p: string) {
    exists i | 0 <= i <= |s| :: MatchAt(s, p, i)
  }

  function LastMatchUpTo(s: string, p: string, j: int): (r: int)
    requires -1 <= j
    ensures -1 <= r <= j
    ensures r >= 0 ==> MatchAt(s, p, r)
    ensures forall k :: r < k <= j ==> !MatchAt(s, p, k)
    decreases j + 1
  {
    if j < 0 then -1 else if MatchAt(s, p, j) then j else LastMatchUpTo(s, p, j - 1)
  }

  /**
   * String.prototype.lastIndexOf: the greatest index at which `p` occurs in
   * `s`, or -1 when it does not occur.
   */
  function LastIndexOf(s: string, p: string): (r: int)
    ensures -1 <= r <= |s|
    ensures r >= 0 ==> MatchAt(s, p, r)
    ensures forall k :: r < k ==> !MatchAt(s, p, k)
  {
    if |p| > |s| then -1 else LastMatchUpTo(s, p, |s| - |p|)
  }

  // ---------------------------------------------------------------------------
  // String.prototype.split with a one-character separator, and its inverse.

  function Split(s: string, sep: char): (parts: seq<string>)
    ensures |parts| > 0
    ensures forall i :: 0 <= i < |parts| ==> sep !in parts[i]
  {
    if s == [] then [""]
    else
      var rest := Split(s[1..], sep);
      if s[0] == sep then [""] + rest else [[s[0]] + rest[0]] + rest[1..]
  }

  /** Array.prototype.join with a one-character separator. */
  function Join(parts: seq<string>, sep: char): string {
    if parts == [] then ""
    else if |parts| == 1 then parts[0]
    else parts[0] + [sep] + Join(parts[1..], sep)
  }

  /** The first part of a split is the text before the first separator. */
  lemma {:induction false} SplitHead(a: string, sep: char, b: string)
    requires sep !in a
    ensures Split(a + [sep] + b, sep)[0] == a
    decreases |a|
  {
    var s := a + [sep] + b;
    if a == [] {
      assert s[0] == sep;
    } else {
      assert s[0] == a[0] && s[1..] == a[1..] + [sep] + b;
      SplitHead(a[1..], sep, b);
      assert [a[0]] + a[1..] == a;
    }
  }

  /** Splitting and joining again gives back the string. */
  lemma {:induction false} JoinSplit(s: string, sep: char)
    ensures Join(Split(s, sep), sep) == s
  {
    if s != [] {
      var rest := Split(s[1..], sep);
      JoinSplit(s[1..], sep);
      if s[0] == sep {
        assert Split(s, sep)[1..] == rest;
      } else {
        var parts := Split(s, sep);
        if |rest| == 1 {
          assert parts == [[s[0]] + rest[0]];
        } else {
          assert parts[1..] == rest[1..];
          assert Join(rest, sep) == rest[0] + [sep] + Join(rest[1..], sep);
        }
      }
    }
  }

  // ---------------------------------------------------------------------------
  // Case mapping, on the ASCII letters only.

  function UpperChar(c: char): char {
    if 'a' <= c <= 'z' then (c as int - 32) as char else c
  }

  function LowerChar(c: char): char {
    if 'A' <= c <= 'Z' then (c as int + 32) as char else c
  }

  predicate IsLower(c: char) {
    'a' <= c <= 'z'
  }

  predicate IsUpper(c: char) {
    'A' <= c <= 'Z'
  }

  /**
   * toUpperCase on ASCII: no lower-case letter is left, and every character
   * that is not one is unchanged.
   */
  function ToUpper(s: string): (r: string)
    ensures |r| == |s| && forall i :: 0 <= i < |s| ==> r[i] == UpperChar(s[i])
    ensures forall i :: 0 <= i < |r| ==> !IsLower(r[i])
    ensures forall i :: 0 <= i < |s| && !IsLower(s[i]) ==> r[i] == s[i]
  {
    seq(|s|, i requires 0 <= i < |s| => UpperChar(s[i]))
  }

  /**
   * toLowerCase on ASCII: no upper-case letter is left, and every character
   * that is not one is unchanged.
   */
  function ToLower(s: string): (r: string)
    ensures |r| == |s| && forall i :: 0 <= i < |s| ==> r[i] == LowerChar(s[i])
    ensures forall i :: 0 <= i < |r| ==> !IsUpper(r[i])
    ensures forall i :: 0 <= i < |s| && !IsUpper(s[i]) ==> r[i] == s[i]
  {
    seq(|s|, i requires 0 <= i < |s| => LowerChar(s[i]))
  }

  /**
   * Case mapping forgets earlier case mapping: lower-casing ignores an
   * upper-casing before it and the other way round, and each is idempotent.
   */
  lemma CaseFold(s: string)
    ensures ToLower(ToUpper(s)) == ToLower(s)
    ensures ToUpper(ToLower(s)) == ToUpper(s)
    ensures ToLower(ToLower(s)) == ToLower(s)
    ensures ToUpper(ToUpper(s)) == ToUpper(s)
  {
    assert forall c :: LowerChar(UpperChar(c)) == LowerChar(c);
    assert forall c :: UpperChar(LowerChar(c)) == UpperChar(c);
  }

  // ---------------------------------------------------------------------------
  // Decimal numbers.

  predicate IsDigit(c: char) {
    '0' <= c <= '9'
  }

  function DigitChar(d: nat): char
    requires d < 10
  {
    ('0' as int + d) as char
  }

  function DigitValue(c: char): nat
    requires IsDigit(c)
  {
    c as int - '0' as int
  }

  /** The value of a string of decimal digits. */
  function DigitsValue(s: string): nat
    requires forall i :: 0 <= i < |s| ==> IsDigit(s[i])
  {
    if s == [] then 0 else DigitsValue(s[..|s| - 1]) * 10 + DigitValue(s[|s| - 1])
  }

  /**
   * `${n}` for a non-negative integer: decimal digits without leading zeros,
   * which read back as `n`.
   */
  function Decimal(n: nat): (r: string)
    ensures 1 <= |r|
    ensures forall i :: 0 <= i < |r| ==> IsDigit(r[i])
    ensures DigitsValue(r) == n
    ensures r[0] == '0' ==> n == 0
    ensures |r| == 1 <==> n < 10
    ensures 10 <= n < 100 ==> |r| == 2
  {
    if n < 10 then [DigitChar(n)]
    else
      var r := Decimal(n / 10) + [DigitChar(n % 10)];
      assert r[..|r| - 1] == Decimal(n / 10);
      r
  }

  /** `s` padded on the left with '0' to at least `width` characters. */
  function ZeroPad(s: string, width: nat): (r: string)
    ensures |r| == if |s| < width then width else |s|
    ensures r[|r| - |s|..] == s
    ensures forall i :: 0 <= i < |r| - |s| ==> r[i] == '0'
  {
    if |s| < width then seq(width - |s|, _ => '0') + s else s
  }

  function Pow10(n: nat): nat {
    if n == 0 then 1 else 10 * Pow10(n - 1)
  }

  /** The digits of `a` followed by those of `b` are worth `a` shifted past `b`, plus `b`. */
  lemma {:induction false} DigitsValueAppend(a: string, b: string)
    requires forall i :: 0 <= i < |a| ==> IsDigit(a[i])
    requires forall i :: 0 <= i < |b| ==> IsDigit(b[i])
    ensures forall i :: 0 <= i < |a + b| ==> IsDigit((a + b)[i])
    ensures DigitsValue(a + b) == DigitsValue(a) * Pow10(|b|) + DigitsValue(b)
    decreases |b|
  {
    var s := a + b;
    if b == [] {
      assert s == a;
    } else {
      var b' := b[..|b| - 1];
      assert s[..|s| - 1] == a + b' && s[|s| - 1] == b[|b| - 1];
      DigitsValueAppend(a, b');
      ShiftDigit(DigitsValue(a), Pow10(|b'|), DigitsValue(b'), DigitValue(b[|b| - 1]));
    }
  }

  lemma ShiftDigit(va: nat, p: nat, vb: nat, d: nat)
    ensures (va * p + vb) * 10 + d == va * (10 * p) + (vb * 10 + d)
  {
    assert (va * p + vb) * 10 == (va * p) * 10 + vb * 10;
    assert (va * p) * 10 == va * (10 * p);
  }

  /** parseInt of a non-empty digit string is its value. */
  lemma ParseDigits(s: string)
    requires s != [] && forall i :: 0 <= i < |s| ==> IsDigit(s[i])
    ensures ParseInt(s) == Some(DigitsValue(s))
  {
    LeadingSpacesAre(s, 0);
    assert s[LeadingSpaces(s)..] == s;
    assert IsDigit(s[0]);
    LeadingValueAll(s);
  }

  lemma LeadingValueAll(s: string)
    requires s != [] && forall i :: 0 <= i < |s| ==> IsDigit(s[i])
    ensures LeadingValue(s) == Some(DigitsValue(s))
  {
    DigitRunAll(s);
    assert s[..|s|] == s;
  }

  lemma DigitRunAll(s: string)
    requires forall i :: 0 <= i < |s| ==> IsDigit(s[i])
    ensures DigitRun(s) == |s|
  {
  }

  /**
   * parseInt(s, 10): optional leading whitespace, an optional sign, then the
   * longest run of decimal digits; None (NaN) when there is no digit.
   */
  function ParseInt(s: string): Option<int> {
    var t := s[LeadingSpaces(s)..];
    if |t| > 0 && t[0] == '-' then
      match LeadingValue(t[1..])
      case Some(v) => Some(-v)
      case None => None
    else if |t| > 0 && t[0] == '+' then LeadingValue(t[1..])
    else LeadingValue(t)
  }

  /** The value of the run of digits at the start of `u`; None when there is none. */
  function LeadingValue(u: string): Option<int> {
    var d := DigitRun(u);
    if d == 0 then None else Some(DigitsValue(u[..d]))
  }

  /** Length of the run of digits at the start of `s`. */
  function DigitRun(s: string): (n: nat)
    ensures n <= |s|
    ensures forall i :: 0 <= i < n ==> IsDigit(s[i])
    ensures n < |s| ==> !IsDigit(s[n])
  {
    if |s| > 0 && IsDigit(s[0]) then 1 + DigitRun(s[1..]) else 0
  }

  // ---------------------------------------------------------------------------
  // The default order of Array.prototype.sort on strings: code unit by code unit.

  predicate StrLess(a: string, b: string) {
    if a == [] then b != []
    else if b == [] then false
    else a[0] < b[0] || (a[0] == b[0] && StrLess(a[1..], b[1..]))
  }

  lemma {:induction false} StrLessIrreflexive(a: string)
    ensures !StrLess(a, a)
  {
    if a != [] { StrLessIrreflexive(a[1..]); }
  }

  lemma {:induction false} StrLessTotal(a: string, b: string)
    ensures a == b || StrLess(a, b) || StrLess(b, a)
  {
    if a != [] && b != [] && a[0] == b[0] {
      StrLessTotal(a[1..], b[1..]);
      if a[1..] == b[1..] {
        assert a == [a[0]] + a[1..] && b == [b[0]] + b[1..];
      }
    }
  }

  lemma {:induction false} StrLessTransitive(a: string, b: string, c: string)
    requires StrLess(a, b) && StrLess(b, c)
    ensures StrLess(a, c)
  {
    if a != [] && a[0] == b[0] && b[0] == c[0] {
      StrLessTransitive(a[1..], b[1..], c[1..]);
    }
  }
}
