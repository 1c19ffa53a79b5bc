/**
 * String operations the handlers rely on: JavaScript's `trim` and
 * `toLowerCase`, the store's `CONTAINS` and `LOWER`, ordinal string order,
 * and the e-mail pattern used at patient registration.
 */
module Text {

  /**
   * JavaScript white space and line terminators: the `\s` class of a regular
   * expression, and the characters `String.prototype.trim` removes.
   */
  predicate IsSpace(c: char)
  {
    || c == '\t' || c == '\n' || c == '\U{000B}' || c == '\U{000C}' || c == '\r' || c == ' '
    || c == '\U{00A0}' || c == '\U{1680}' || ('\U{2000}' <= c <= '\U{200A}')
    || c == '\U{2028}' || c == '\U{2029}' || c == '\U{202F}' || c == '\U{205F}'
    || c == '\U{3000}' || c == '\U{FEFF}'
  }

  predicate NoSpace(s: string)
  {
    forall i :: 0 <= i < |s| ==> !IsSpace(s[i])
  }

  // ---------------------------------------------------------------- trim

  /** `trimStart`: drops white space from the front. */
  function TrimStart(s: string): string
  {
    if s != [] && IsSpace(s[0]) then TrimStart(s[1..]) else s
  }

  /** `trimEnd`: drops white space from the back. */
  function TrimEnd(s: string): string
  {
    if s != [] && IsSpace(s[|s| - 1]) then TrimEnd(s[..|s| - 1]) else s
  }

  /** `TrimStart` removes a prefix made of white space and stops at the first other character. */
  lemma {:induction false} TrimStartSpec(s: string)
    ensures |TrimStart(s)| <= |s| && TrimStart(s) == s[|s| - |TrimStart(s)|..]
    ensures forall i :: 0 <= i < |s| - |TrimStart(s)| ==> IsSpace(s[i])
    ensures TrimStart(s) != [] ==> !IsSpace(TrimStart(s)[0])
  {
    if s != [] && IsSpace(s[0]) {
      TrimStartSpec(s[1..]);
      assert s[1..][|s| - 1 - |TrimStart(s)|..] == s[|s| - |TrimStart(s)|..];
      forall i | 1 <= i < |s| - |TrimStart(s)| ensures IsSpace(s[i]) {
        assert s[1..][i - 1] == s[i];
      }
    }
  }

  /** `TrimEnd` removes a suffix made of white space and stops at the last other character. */
  lemma {:induction false} TrimEndSpec(s: string)
    ensures |TrimEnd(s)| <= |s| && TrimEnd(s) == s[..|TrimEnd(s)|]
    ensures forall i :: |TrimEnd(s)| <= i < |s| ==> IsSpace(s[i])
    ensures TrimEnd(s) != [] ==> !IsSpace(TrimEnd(s)[|TrimEnd(s)| - 1])
  {
    if s != [] && IsSpace(s[|s| - 1]) {
      TrimEndSpec(s[..|s| - 1]);
      assert s[..|s| - 1][..|TrimEnd(s)|] == s[..|TrimEnd(s)|];
      forall i | |TrimEnd(s)| <= i < |s| - 1 ensures IsSpace(s[i]) {
        assert s[..|s| - 1][i] == s[i];
      }
    }
  }

  /** Number of leading white-space characters of `s`. */
  function Leading(s: string): (n: nat)
    ensures n <= |s|
  {
    TrimStartSpec(s);
    |s| - |TrimStart(s)|
  }

  /** `String.prototype.trim`. */
  function Trim(s: string): string
  {
    TrimEnd(TrimStart(s))
  }

  /**
   * `trim` leaves the block of `s` between the white space at its two ends,
   * and that block neither starts nor ends with white space.
   */
  lemma TrimSpec(s: string)
    ensures Leading(s) + |Trim(s)| <= |s| && Trim(s) == s[Leading(s)..Leading(s) + |Trim(s)|]
    ensures forall i :: 0 <= i < Leading(s) ==> IsSpace(s[i])
    ensures forall i :: Leading(s) + |Trim(s)| <= i < |s| ==> IsSpace(s[i])
    ensures Trim(s) != [] ==> !IsSpace(Trim(s)[0]) && !IsSpace(Trim(s)[|Trim(s)| - 1])
  {
    var t := TrimStart(s);
    TrimStartSpec(s);
    TrimEndSpec(t);
    var r := TrimEnd(t);
    assert r == t[..|r|];
    if r != [] {
      assert r[0] == t[0];
    }
    forall i | Leading(s) + |r| <= i < |s| ensures IsSpace(s[i]) {
      assert s[i] == t[i - Leading(s)];
    }
  }

  /** Text with no white space at all is left as it is by `trim`. */
  lemma {:induction false} TrimNoSpace(s: string)
    requires NoSpace(s)
    ensures Trim(s) == s
  {
    if s != [] {
      assert TrimStart(s) == s;
      assert TrimEnd(s) == s;
    }
  }

  /** Trimming twice is trimming once. */
  lemma TrimIdempotent(s: string)
    ensures Trim(Trim(s)) == Trim(s)
  {
    var r := Trim(s);
    TrimSpec(s);
    if r != [] {
      assert TrimStart(r) == r;
      assert TrimEnd(r) == r;
    }
  }

  // ---------------------------------------------------------------- case

  /**
   * Lower-case mapping of one character: `A`–`Z` and the Latin-1 capitals
   * `À`–`Þ` (except `×`), which cover the Spanish alphabet.
   */
  function LowerChar(c: char): char
  {
    if 'A' <= c <= 'Z' || ('\U{00C0}' <= c <= '\U{00DE}' && c != '\U{00D7}') then (c as int + 32) as char else c
  }

  /** `String.prototype.toLowerCase` and the store's `LOWER`, character by character. */
  function ToLower(s: string): (r: string)
    ensures |r| == |s|
    ensures forall i :: 0 <= i < |s| ==> r[i] == LowerChar(s[i])
  {
    if s == [] then [] else [LowerChar(s[0])] + ToLower(s[1..])
  }

  /** Lower-casing twice is lower-casing once. */
  lemma ToLowerIdempotent(s: string)
    ensures ToLower(ToLower(s)) == ToLower(s)
  {
    var t := ToLower(s);
    forall i | 0 <= i < |s| ensures ToLower(t)[i] == t[i] {
      assert LowerChar(LowerChar(s[i])) == LowerChar(s[i]);
    }
  }

  /** Lower-casing never creates or removes white space, `@` or `.`. */
  lemma LowerCharKeepsClass(c: char)
    ensures IsSpace(LowerChar(c)) == IsSpace(c)
    ensures (LowerChar(c) == '@') == (c == '@')
    ensures (LowerChar(c) == '.') == (c == '.')
  {
  }

  // ---------------------------------------------------------------- substring

  predicate StartsWith(s: string, t: string)
  {
    |t| <= |s| && s[..|t|] == t
  }

  /** The store's `CONTAINS(s, t)`: `t` occurs in `s` as a contiguous block. */
  predicate Contains(s: string, t: string)
    decreases |s|
  {
    StartsWith(s, t) || (s != [] && Contains(s[1..], t))
  }

  /** `Contains` holds exactly when `t` starts at some position of `s`. */
  lemma {:induction false} ContainsIff(s: string, t: string)
    ensures Contains(s, t) <==> exists i :: 0 <= i <= |s| && StartsWith(s[i..], t)
    decreases |s|
  {
    if StartsWith(s, t) {
      assert s[0..] == s;
    } else if s == [] {
      forall i | 0 <= i <= |s| ensures !StartsWith(s[i..], t) {
        assert s[i..] == s;
      }
    } else {
      ContainsIff(s[1..], t);
      if Contains(s[1..], t) {
        var i :| 0 <= i <= |s| - 1 && StartsWith(s[1..][i..], t);
        assert s[1..][i..] == s[i + 1..];
      } else {
        forall i | 0 <= i <= |s| ensures !StartsWith(s[i..], t) {
          if i > 0 {
            assert s[1..][i - 1..] == s[i..];
          } else {
            assert s[i..] == s;
          }
        }
      }
    }
  }

  // ---------------------------------------------------------------- order

  /** Ordinal string order: compare code point by code point; a proper prefix comes first. */
  predicate StrLe(a: string, b: string)
  {
    a == [] || (b != [] && (a[0] < b[0] || (a[0] == b[0] && StrLe(a[1..], b[1..]))))
  }

  lemma {:induction false} StrLeTotal(a: string, b: string)
    ensures StrLe(a, b) || StrLe(b, a)
  {
    if a != [] && b != [] && a[0] == b[0] {
      StrLeTotal(a[1..], b[1..]);
    }
  }

  lemma {:induction false} StrLeTransitive(a: string, b: string, c: string)
    requires StrLe(a, b) && StrLe(b, c)
    ensures StrLe(a, c)
  {
    if a != [] && b != [] && c != [] && a[0] == b[0] == c[0] {
      StrLeTransitive(a[1..], b[1..], c[1..]);
    }
  }

  lemma {:induction false} StrLeAntisymmetric(a: string, b: string)
    requires StrLe(a, b) && StrLe(b, a)
    ensures a == b
  {
    if a != [] && b != [] {
      StrLeAntisymmetric(a[1..], b[1..]);
      assert a == [a[0]] + a[1..];
      assert b == [b[0]] + b[1..];
    }
  }

  // ---------------------------------------------------------------- e-mail

  /** `[^\s@]`. */
  predicate IsWordChar(c: char)
  {
    !IsSpace(c) && c != '@'
  }

  /** `[^\s@]+`. */
  predicate IsWord(w: string)
  {
    w != [] && forall i :: 0 <= i < |w| ==> IsWordChar(w[i])
  }

  /**
   * The strings `/^[^\s@]+@[^\s@]+\.[^\s@]+$/` accepts, read off the pattern:
   * a word, an `@` at position k, a word, a `.` at position m, a word.
   */
  ghost predicate MatchesEmailPattern(s: string)
  {
    exists k, m :: 0 <= k < m < |s| && s[k] == '@' && s[m] == '.'
      && IsWord(s[..k]) && IsWord(s[k + 1..m]) && IsWord(s[m + 1..])
  }

  /** Position of the first `c` in `s`, or `|s|` when there is none. */
  function IndexOf(s: string, c: char): (k: nat)
    ensures k <= |s|
    ensures k < |s| ==> s[k] == c
    ensures forall i :: 0 <= i < k ==> s[i] != c
  {
    if s == [] || s[0] == c then 0 else 1 + IndexOf(s[1..], c)
  }

  /**
   * `emailRegex.test(s)` as a direct check: no white space anywhere, a first
   * `@` that is not the first character, no further `@`, and after the `@`
   * a `.` that is neither the first nor the last character of the rest.
   */
  predicate EmailValid(s: string)
  {
    var k := IndexOf(s, '@');
    && NoSpace(s)
    && 0 < k
    && k + 4 <= |s|
    && '@' !in s[k + 1..]
    && '.' in s[k + 2..|s| - 1]
  }

  /** Every string the direct check accepts is described by the pattern. */
  lemma EmailValidSound(s: string)
    requires EmailValid(s)
    ensures MatchesEmailPattern(s)
  {
    var k := IndexOf(s, '@');
    var inner := s[k + 2..|s| - 1];
    var j :| 0 <= j < |inner| && inner[j] == '.';
    var m := k + 2 + j;
    assert s[m] == inner[j];
    var rest := s[k + 1..];
    forall i | k + 1 <= i < |s| ensures s[i] != '@' {
      assert rest[i - k - 1] == s[i];
    }
    assert IsWord(s[..k]);
    assert IsWord(s[k + 1..m]);
    assert IsWord(s[m + 1..]);
  }

  /** Outside its `@` and `.`, a string the pattern describes is made of word characters. */
  lemma PatternChars(s: string, k: nat, m: nat)
    requires 0 <= k < m < |s| && s[k] == '@' && s[m] == '.'
    requires IsWord(s[..k]) && IsWord(s[k + 1..m]) && IsWord(s[m + 1..])
    ensures forall i :: 0 <= i < |s| && i != k ==> s[i] != '@'
    ensures NoSpace(s)
  {
    var local, domain, top := s[..k], s[k + 1..m], s[m + 1..];
    forall i | 0 <= i < k ensures s[i] != '@' && !IsSpace(s[i]) {
      assert local[i] == s[i];
    }
    forall i | k < i < m ensures s[i] != '@' && !IsSpace(s[i]) {
      assert domain[i - k - 1] == s[i];
    }
    forall i | m < i < |s| ensures s[i] != '@' && !IsSpace(s[i]) {
      assert top[i - m - 1] == s[i];
    }
  }

  /** Every string the pattern describes is accepted by the direct check. */
  lemma EmailValidComplete(s: string)
    requires MatchesEmailPattern(s)
    ensures EmailValid(s)
  {
    var k, m :| 0 <= k < m < |s| && s[k] == '@' && s[m] == '.'
      && IsWord(s[..k]) && IsWord(s[k + 1..m]) && IsWord(s[m + 1..]);
    PatternChars(s, k, m);
    assert IndexOf(s, '@') == k;
    var rest := s[k + 1..];
    forall i | 0 <= i < |rest| ensures rest[i] != '@' {
      assert rest[i] == s[k + 1 + i];
    }
    var inner := s[k + 2..|s| - 1];
    assert inner[m - k - 2] == '.';
  }

  /** The direct check accepts exactly the strings the pattern describes. */
  lemma EmailValidIff(s: string)
    ensures EmailValid(s) <==> MatchesEmailPattern(s)
  {
    if EmailValid(s) {
      EmailValidSound(s);
    }
    if MatchesEmailPattern(s) {
      EmailValidComplete(s);
    }
  }

  lemma LowerKeepsWord(w: string)
    requires IsWord(w)
    ensures IsWord(ToLower(w))
  {
    forall i | 0 <= i < |w| ensures IsWordChar(ToLower(w)[i]) {
      LowerCharKeepsClass(w[i]);
    }
  }

  lemma LowerSlice(s: string, a: nat, b: nat)
    requires a <= b <= |s|
    ensures ToLower(s)[a..b] == ToLower(s[a..b])
  {
    var t, u := ToLower(s), s[a..b];
    var y := ToLower(u);
    forall i | 0 <= i < b - a ensures t[a + i] == y[i] {
      assert u[i] == s[a + i];
    }
    assert t[a..b] == y;
  }

  lemma LowerWordSlice(s: string, a: nat, b: nat)
    requires a <= b <= |s| && IsWord(s[a..b])
    ensures IsWord(ToLower(s)[a..b])
  {
    LowerSlice(s, a, b);
    LowerKeepsWord(s[a..b]);
  }

  lemma PatternUnderLower(s: string, k: nat, m: nat)
    requires k < m < |s| && s[k] == '@' && s[m] == '.'
    requires IsWord(s[..k]) && IsWord(s[k + 1..m]) && IsWord(s[m + 1..])
    ensures MatchesEmailPattern(ToLower(s))
  {
    var t := ToLower(s);
    assert t[k] == '@' && t[m] == '.' by {
      LowerCharKeepsClass(s[k]);
      LowerCharKeepsClass(s[m]);
    }
    assert IsWord(t[..k]) by {
      assert s[..k] == s[0..k] && t[..k] == t[0..k];
      LowerWordSlice(s, 0, k);
    }
    assert IsWord(t[k + 1..m]) by {
      LowerWordSlice(s, k + 1, m);
    }
    assert IsWord(t[m + 1..]) by {
      assert s[m + 1..] == s[m + 1..|s|] && t[m + 1..] == t[m + 1..|t|];
      LowerWordSlice(s, m + 1, |s|);
    }
  }

  /** A valid address stays valid once lower-cased, so the stored form matches the pattern too. */
  lemma EmailValidUnderLower(s: string)
    requires EmailValid(s)
    ensures EmailValid(ToLower(s))
  {
    EmailValidSound(s);
    var k, m :| 0 <= k < m < |s| && s[k] == '@' && s[m] == '.'
      && IsWord(s[..k]) && IsWord(s[k + 1..m]) && IsWord(s[m + 1..]);
    PatternUnderLower(s, k, m);
    EmailValidComplete(ToLower(s));
  }
}
