/**
 * The few pieces of Python's `str` behaviour the modelled code relies on:
 * whitespace stripping, `split`, `join`, substring tests, Latin-1 lower-casing
 * and decimal rendering of counters.
 */
module Text {

  /**
   * Python's `str.isspace`: the ASCII and Latin-1 blanks and controls that
   * Python treats as whitespace, and Unicode's space, line and paragraph
   * separators.
   */
  predicate IsSpace(c: char) {
    c == ' ' || ('\t' <= c <= '\r') || ('\U{1C}' <= c <= '\U{1F}') || c == '\U{85}' || c == '\U{A0}'
    || c == '\U{1680}' || ('\U{2000}' <= c <= '\U{200A}') || c == '\U{2028}' || c == '\U{2029}'
    || c == '\U{202F}' || c == '\U{205F}' || c == '\U{3000}'
  }

  /**
   * Unicode's separators other than the ASCII space (Zs, Zl, Zp) above the
   * Latin-1 range.
   */
  predicate WideSeparator(c: char) {
    c == '\U{1680}' || ('\U{2000}' <= c <= '\U{200A}') || c == '\U{2028}' || c == '\U{2029}'
    || c == '\U{202F}' || c == '\U{205F}' || c == '\U{3000}'
  }

  /** Unicode's format characters (Cf) above the Latin-1 range. */
  predicate FormatChar(c: char) {
    ('\U{0600}' <= c <= '\U{0605}') || c == '\U{061C}' || c == '\U{06DD}' || c == '\U{070F}'
    || ('\U{0890}' <= c <= '\U{0891}') || c == '\U{08E2}' || c == '\U{180E}'
    || ('\U{200B}' <= c <= '\U{200F}') || ('\U{202A}' <= c <= '\U{202E}')
    || ('\U{2060}' <= c <= '\U{2064}') || ('\U{2066}' <= c <= '\U{206F}')
    || c == '\U{FEFF}' || ('\U{FFF9}' <= c <= '\U{FFFB}')
    || c == '\U{110BD}' || c == '\U{110CD}' || ('\U{13430}' <= c <= '\U{1343F}')
    || ('\U{1BCA0}' <= c <= '\U{1BCA3}') || ('\U{1D173}' <= c <= '\U{1D17A}')
    || c == '\U{E0001}' || ('\U{E0020}' <= c <= '\U{E007F}')
  }

  /** Private-use characters (Co) and the noncharacters, which Unicode leaves unassigned (Cn). */
  predicate PrivateOrNonChar(c: char) {
    ('\U{E000}' <= c <= '\U{F8FF}') || ('\U{F0000}' <= c <= '\U{FFFFD}') || ('\U{100000}' <= c <= '\U{10FFFD}')
    || ('\U{FDD0}' <= c <= '\U{FDEF}') || (c as int) % 0x1_0000 >= 0xFFFE
  }

  /**
   * `str.isprintable` for one character: false for control characters, the
   * soft hyphen, separators other than the space, format and private-use
   * characters and noncharacters.
   */
  predicate IsPrintableChar(c: char) {
    (' ' <= c <= '~')
    || ('\U{A1}' <= c && c != '\U{AD}' && !WideSeparator(c) && !FormatChar(c) && !PrivateOrNonChar(c))
  }

  /** `s.lstrip()` */
  function LStrip(s: string): (r: string)
    ensures |r| <= |s| && r == s[|s| - |r|..]
    ensures r == [] || !IsSpace(r[0])
    ensures forall i :: 0 <= i < |s| - |r| ==> IsSpace(s[i])
  {
    if s != [] && IsSpace(s[0]) then LStrip(s[1..]) else s
  }

  /** `s.rstrip()` */
  function RStrip(s: string): (r: string)
    ensures |r| <= |s| && r == s[..|r|]
    ensures r == [] || !IsSpace(r[|r| - 1])
    ensures forall i :: |r| <= i < |s| ==> IsSpace(s[i])
  {
    if s != [] && IsSpace(s[|s| - 1]) then RStrip(s[..|s| - 1]) else s
  }

  /** `s.strip()` */
  function Strip(s: string): (r: string)
    ensures r == [] || (!IsSpace(r[0]) && !IsSpace(r[|r| - 1]))
    ensures |r| <= |s|
  {
    RStrip(LStrip(s))
  }

  /** `s.rstrip(c)` for a single character `c`. */
  function RStripChar(s: string, c: char): (r: string)
    ensures |r| <= |s| && r == s[..|r|]
    ensures r == [] || r[|r| - 1] != c
    ensures forall i :: |r| <= i < |s| ==> s[i] == c
  {
    if s != [] && s[|s| - 1] == c then RStripChar(s[..|s| - 1], c) else s
  }

  /** `sub in s` for strings. */
  predicate Contains(s: string, sub: string)
    decreases |s|
  {
    StartsWith(s, sub) || (s != [] && Contains(s[1..], sub))
  }

  predicate StartsWith(s: string, prefix: string) {
    |prefix| <= |s| && s[..|prefix|] == prefix
  }

  predicate EndsWith(s: string, suffix: string) {
    |suffix| <= |s| && s[|s| - |suffix|..] == suffix
  }

  /** `str.lower` restricted to the Latin-1 capitals, `A`-`Z` and `À`-`Þ` except `×`. */
  function LowerChar(c: char): char {
    if 'A' <= c <= 'Z' || ('\U{C0}' <= c <= '\U{DE}' && c != '\U{D7}') then (c as int + 32) as char else c
  }

  function Lower(s: string): (r: string)
    ensures |r| == |s| && forall i :: 0 <= i < |s| ==> r[i] == LowerChar(s[i])
  {
    seq(|s|, i requires 0 <= i < |s| => LowerChar(s[i]))
  }

  /** Every occurrence of `a` replaced by `b`, as `str.replace` does for one character. */
  function ReplaceChar(s: string, a: char, b: char): (r: string)
    ensures |r| == |s|
    ensures forall i :: 0 <= i < |s| ==> r[i] == (if s[i] == a then b else s[i])
  {
    seq(|s|, i requires 0 <= i < |s| => if s[i] == a then b else s[i])
  }

  /** `c * n`: the character `c` repeated `n` times. */
  function Repeat(c: char, n: nat): (r: string)
    ensures |r| == n && forall i :: 0 <= i < n ==> r[i] == c
  {
    seq(n, _ => c)
  }

  function Digit(d: nat): char
    requires d < 10
  {
    ('0' as int + d) as char
  }

  /** `str(n)` for a natural number: its decimal digits without leading zeros. */
  function Decimal(n: nat): (r: string)
    ensures |r| >= 1
    ensures n < 10 <==> |r| == 1
    decreases n
  {
    if n < 10 then [Digit(n)] else Decimal(n / 10) + [Digit(n % 10)]
  }

  /** Distinct numbers have distinct decimal renderings. */
  lemma {:induction false} DecimalInjective(a: nat, b: nat)
    requires Decimal(a) == Decimal(b)
    ensures a == b
    decreases a
  {
    var da, db := Decimal(a), Decimal(b);
    if a >= 10 {
      assert da[..|da| - 1] == Decimal(a / 10);
      assert db[..|db| - 1] == Decimal(b / 10);
      assert da[|da| - 1] == Digit(a % 10) && db[|db| - 1] == Digit(b % 10);
      DecimalInjective(a / 10, b / 10);
    }
  }

  /** `s.split(c)` for a one-character separator. */
  function SplitOn(s: string, c: char): (parts: seq<string>)
    ensures |parts| >= 1
    ensures forall k :: 0 <= k < |parts| ==> c !in parts[k]
    decreases |s|
  {
    if s == [] then [""]
    else
      var rest := SplitOn(s[1..], c);
      if s[0] == c then [""] + rest else [[s[0]] + rest[0]] + rest[1..]
  }

  /** `c.join(parts)` for a one-character separator. */
  function Join(parts: seq<string>, c: char): string
    decreases |parts|
  {
    if |parts| == 0 then ""
    else if |parts| == 1 then parts[0]
    else parts[0] + [c] + Join(parts[1..], c)
  }

  /** Splitting on a character and joining back with it gives the original string. */
  lemma {:induction false} JoinSplit(s: string, c: char)
    ensures Join(SplitOn(s, c), c) == s
    decreases |s|
  {
    if s != [] {
      JoinSplit(s[1..], c);
      var rest := SplitOn(s[1..], c);
      if s[0] == c {
        assert s == [c] + s[1..];
      } else if |rest| == 1 {
        assert s == [s[0]] + s[1..];
      } else {
        assert Join(rest, c) == rest[0] + [c] + Join(rest[1..], c);
        assert s == [s[0]] + s[1..];
      }
    }
  }

  /** The leading run of non-whitespace characters. */
  function TakeWord(s: string): (w: string)
    ensures |w| <= |s| && w == s[..|w|]
    ensures forall i :: 0 <= i < |w| ==> !IsSpace(w[i])
    ensures |w| == |s| || IsSpace(s[|w|])
  {
    if s == [] || IsSpace(s[0]) then [] else [s[0]] + TakeWord(s[1..])
  }

  /**
   * `s.split(None, 1)`: leading whitespace is skipped, the first word is cut
   * off at the next whitespace run, and the rest (after that run, trailing
   * whitespace kept) is the second part when it is not empty.
   */
  function SplitWhitespaceOnce(s: string): (parts: seq<string>)
    ensures |parts| <= 2
    ensures |parts| == 0 <==> LStrip(s) == []
    ensures |parts| >= 1 ==> parts[0] != []
    ensures |parts| == 2 ==> parts[1] != []
    ensures |parts| >= 1 ==> forall i :: 0 <= i < |parts[0]| ==> !IsSpace(parts[0][i])
  {
    var t := LStrip(s);
    if t == [] then []
    else
      var w := TakeWord(t);
      var rest := LStrip(t[|w|..]);
      if rest == [] then [w] else [w, rest]
  }

  /** A substring test succeeds exactly when some suffix starts with the needle. */
  lemma {:induction false} ContainsWitness(s: string, sub: string) returns (j: nat)
    requires Contains(s, sub)
    ensures j <= |s| && StartsWith(s[j..], sub)
    decreases |s|
  {
    if StartsWith(s, sub) {
      j := 0;
      assert s[0..] == s;
    } else {
      var k := ContainsWitness(s[1..], sub);
      j := k + 1;
      assert s[1..][k..] == s[j..];
    }
  }

  lemma {:induction false} ContainsFromSuffix(s: string, sub: string, j: nat)
    requires j <= |s| && StartsWith(s[j..], sub)
    ensures Contains(s, sub)
    decreases j
  {
    if j > 0 {
      assert s[1..][j - 1..] == s[j..];
      ContainsFromSuffix(s[1..], sub, j - 1);
    } else {
      assert s[0..] == s;
    }
  }

  /** Substring containment is transitive. */
  lemma {:induction false} ContainsTransitive(a: string, b: string, c: string)
    requires Contains(a, b) && Contains(b, c)
    ensures Contains(a, c)
  {
    var i := ContainsWitness(a, b);
    var j := ContainsWitness(b, c);
    assert b == a[i..][..|b|];
    assert a[i + j..][..|c|] == c by {
      forall k | 0 <= k < |c|
        ensures a[i + j..][..|c|][k] == c[k]
      {
        assert c[k] == b[j + k] == a[i + j + k];
      }
    }
    ContainsFromSuffix(a, c, i + j);
  }
}
