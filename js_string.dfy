/**
 * The JavaScript string built-ins that the dam-safety server leans on
 * (`trim`, `toLowerCase`, `normalize("NFD")`, `split`, `includes`,
 * `substring`, `Array.prototype.join`), written over Dafny strings, which are
 * sequences of Unicode scalar values.
 *
 * `toLowerCase` and `normalize("NFD")` are exact on U+0000..U+00FF (ASCII
 * and Latin-1, which covers every literal the server compares against) and
 * leave every other character unchanged.
 */
module JsString {

  // ---------------------------------------------------------------------------
  // String.prototype.trim
  // ---------------------------------------------------------------------------

  /** The ECMAScript WhiteSpace and LineTerminator code points: what `trim` removes. */
  predicate IsWhitespace(c: char) {
    || c == '\t' || c == '\n' || c == '\U{B}' || c == '\U{C}' || c == '\r' || c == ' '
    || c == '\U{A0}' || c == '\U{1680}' || ('\U{2000}' <= c <= '\U{200A}')
    || c == '\U{2028}' || c == '\U{2029}' || c == '\U{202F}' || c == '\U{205F}'
    || c == '\U{3000}' || c == '\U{FEFF}'
  }

  predicate AllWhitespace(s: string) {
    forall i :: 0 <= i < |s| ==> IsWhitespace(s[i])
  }

  /** Drops the leading whitespace: the result is the suffix of `s` that starts
      at its first non-whitespace character. */
  function TrimStart(s: string): string
  {
    if |s| > 0 && IsWhitespace(s[0]) then TrimStart(s[1..]) else s
  }

  /** Drops the trailing whitespace: the result is the prefix of `s` that ends
      at its last non-whitespace character. */
  function TrimEnd(s: string): string
  {
    if |s| > 0 && IsWhitespace(s[|s| - 1]) then TrimEnd(s[..|s| - 1]) else s
  }

  /** `String.prototype.trim`. */
  function Trim(s: string): string {
    TrimEnd(TrimStart(s))
  }

  lemma {:induction false} TrimStartPastWhitespace(w: string, x: string)
    requires AllWhitespace(w)
    ensures TrimStart(w + x) == TrimStart(x)
  {
    if w != [] {
      assert (w + x)[0] == w[0] && (w + x)[1..] == w[1..] + x;
      assert AllWhitespace(w[1..]);
      TrimStartPastWhitespace(w[1..], x);
    } else {
      assert w + x == x;
    }
  }

  lemma {:induction false} TrimEndPastWhitespace(x: string, w: string)
    requires AllWhitespace(w)
    ensures TrimEnd(x + w) == TrimEnd(x)
  {
    if w != [] {
      assert (x + w)[..|x + w| - 1] == x + w[..|w| - 1];
      TrimEndPastWhitespace(x, w[..|w| - 1]);
    } else {
      assert x + w == x;
    }
  }

  lemma {:induction false} TrimStartKeepsTail(x: string, w: string)
    requires !AllWhitespace(x)
    ensures TrimStart(x + w) == TrimStart(x) + w
  {
    if IsWhitespace(x[0]) {
      assert (x + w)[1..] == x[1..] + w;
      TrimStartKeepsTail(x[1..], w);
    }
  }

  /** Whitespace around a string never reaches the trimmed result. */
  lemma TrimIgnoresSurroundingWhitespace(w1: string, x: string, w2: string)
    requires AllWhitespace(w1) && AllWhitespace(w2)
    ensures Trim(w1 + x + w2) == Trim(x)
  {
    assert w1 + x + w2 == w1 + (x + w2);
    TrimStartPastWhitespace(w1, x + w2);
    if AllWhitespace(x) {
      assert AllWhitespace(x + w2);
      TrimStartPastWhitespace(x + w2, []);
      TrimStartPastWhitespace(x, []);
      assert x + w2 + [] == x + w2 && x + [] == x;
    } else {
      TrimStartKeepsTail(x, w2);
      TrimEndPastWhitespace(TrimStart(x), w2);
    }
  }

  /** `TrimStart` drops a prefix, and what it keeps does not start with
      whitespace. */
  lemma {:induction false} TrimStartIsSuffix(s: string)
    ensures |TrimStart(s)| <= |s| && TrimStart(s) == s[|s| - |TrimStart(s)|..]
    ensures TrimStart(s) == [] || !IsWhitespace(TrimStart(s)[0])
  {
    if |s| > 0 && IsWhitespace(s[0]) {
      TrimStartIsSuffix(s[1..]);
      assert s[1..][|s| - 1 - |TrimStart(s)|..] == s[|s| - |TrimStart(s)|..];
    }
  }

  /** `TrimEnd` drops a suffix, and what it keeps does not end with
      whitespace. */
  lemma {:induction false} TrimEndIsPrefix(s: string)
    ensures |TrimEnd(s)| <= |s| && TrimEnd(s) == s[..|TrimEnd(s)|]
    ensures TrimEnd(s) == [] || !IsWhitespace(TrimEnd(s)[|TrimEnd(s)| - 1])
  {
    if |s| > 0 && IsWhitespace(s[|s| - 1]) {
      TrimEndIsPrefix(s[..|s| - 1]);
      assert s[..|s| - 1][..|TrimEnd(s)|] == s[..|TrimEnd(s)|];
    }
  }

  /** The trimmed text is a piece of the input, so it holds no character
      the input does not. */
  lemma TrimKeepsCharacters(s: string)
    ensures forall c :: c in Trim(s) ==> c in s
  {
    var t := TrimStart(s);
    TrimStartIsSuffix(s);
    TrimEndIsPrefix(t);
    forall c | c in Trim(s)
      ensures c in s
    {
      var k :| 0 <= k < |Trim(s)| && Trim(s)[k] == c;
      assert t[k] == c;
      assert s[|s| - |t| + k] == c;
    }
  }

  /** Trimming twice is trimming once. */
  lemma TrimIdempotent(s: string)
    ensures Trim(Trim(s)) == Trim(s)
  {
    var t := TrimStart(s);
    TrimStartIsSuffix(s);
    TrimEndIsPrefix(t);
    var u := TrimEnd(t);
    if |u| > 0 {
      assert u[0] == t[0];
    }
    assert TrimStart(u) == u;
    assert TrimEnd(u) == u;
  }

  // ---------------------------------------------------------------------------
  // String.prototype.toLowerCase
  // ---------------------------------------------------------------------------

  predicate IsUpperLatin1(c: char) {
    'A' <= c <= 'Z' || ('\U{C0}' <= c <= '\U{DE}' && c != '\U{D7}')
  }

  /** The lower-case form of one character: A..Z and the Latin-1 capitals
      U+00C0..U+00DE (except the multiplication sign) move 0x20 up. */
  function LowerChar(c: char): char {
    if IsUpperLatin1(c) then (c as int + 32) as char else c
  }

  /** `String.prototype.toLowerCase`, character by character. */
  function Lower(s: string): (r: string)
    ensures |r| == |s| && forall i :: 0 <= i < |s| ==> r[i] == LowerChar(s[i])
  {
    seq(|s|, i requires 0 <= i < |s| => LowerChar(s[i]))
  }

  /** No upper-case letter at or after position `i`. */
  predicate NoUpperFrom(s: string, i: nat)
    decreases |s| - i
  {
    i >= |s| || (!IsUpperLatin1(s[i]) && NoUpperFrom(s, i + 1))
  }

  lemma {:induction false} NoUpperAt(s: string, i: nat, k: nat)
    requires NoUpperFrom(s, i) && i <= k < |s|
    ensures !IsUpperLatin1(s[k])
    decreases k - i
  {
    if i < k {
      NoUpperAt(s, i + 1, k);
    }
  }

  /** Text without capitals is its own lower-case form. */
  lemma LowerKeepsLowercase(s: string)
    requires NoUpperFrom(s, 0)
    ensures Lower(s) == s
  {
    forall k | 0 <= k < |s|
      ensures Lower(s)[k] == s[k]
    {
      NoUpperAt(s, 0, k);
    }
  }

  lemma LowerAppend(a: string, b: string)
    ensures Lower(a + b) == Lower(a) + Lower(b)
  {
  }

  lemma LowerIdempotent(s: string)
    ensures Lower(Lower(s)) == Lower(s)
  {
  }

  // ---------------------------------------------------------------------------
  // String.prototype.normalize("NFD") on Latin-1
  // ---------------------------------------------------------------------------

  const GRAVE: char := '\U{300}'
  const ACUTE: char := '\U{301}'
  const CIRCUMFLEX: char := '\U{302}'
  const TILDE: char := '\U{303}'
  const DIAERESIS: char := '\U{308}'
  const RING: char := '\U{30A}'
  const CEDILLA: char := '\U{327}'

  /** The canonical decomposition of the upper-case Latin-1 letters;
      every other character decomposes to itself. */
  function DecomposeUpper(c: char): string {
    match c
    case 'À' => ['A', GRAVE]
    case 'Á' => ['A', ACUTE]
    case 'Â' => ['A', CIRCUMFLEX]
    case 'Ã' => ['A', TILDE]
    case 'Ä' => ['A', DIAERESIS]
    case 'Å' => ['A', RING]
    case 'Ç' => ['C', CEDILLA]
    case 'È' => ['E', GRAVE]
    case 'É' => ['E', ACUTE]
    case 'Ê' => ['E', CIRCUMFLEX]
    case 'Ë' => ['E', DIAERESIS]
    case 'Ì' => ['I', GRAVE]
    case 'Í' => ['I', ACUTE]
    case 'Î' => ['I', CIRCUMFLEX]
    case 'Ï' => ['I', DIAERESIS]
    case 'Ñ' => ['N', TILDE]
    case 'Ò' => ['O', GRAVE]
    case 'Ó' => ['O', ACUTE]
    case 'Ô' => ['O', CIRCUMFLEX]
    case 'Õ' => ['O', TILDE]
    case 'Ö' => ['O', DIAERESIS]
    case 'Ù' => ['U', GRAVE]
    case 'Ú' => ['U', ACUTE]
    case 'Û' => ['U', CIRCUMFLEX]
    case 'Ü' => ['U', DIAERESIS]
    case 'Ý' => ['Y', ACUTE]
    case _ => [c]
  }

  predicate IsLowerLatin1Letter(c: char) {
    '\U{E0}' <= c <= '\U{FE}' && c != '\U{F7}'
  }

  /** The canonical decomposition of one character. The lower-case Latin-1
      letters U+00E0..U+00FE mirror the capitals 0x20 below them; U+00FF
      (y with diaeresis) has no Latin-1 capital. */
  function DecomposeChar(c: char): string {
    if IsLowerLatin1Letter(c) then Lower(DecomposeUpper((c as int - 32) as char))
    else if c == '\U{FF}' then ['y', DIAERESIS]
    else DecomposeUpper(c)
  }

  /** Characters outside the Latin-1 letter block decompose to themselves. */
  lemma DecomposeNonLetter(c: char)
    requires c < '\U{C0}' || c > '\U{FF}'
    ensures DecomposeChar(c) == [c]
  {
  }

  /** `String.prototype.normalize("NFD")`, character by character. */
  function Nfd(s: string): string {
    if s == [] then [] else DecomposeChar(s[0]) + Nfd(s[1..])
  }

  lemma {:induction false} NfdAppend(a: string, b: string)
    ensures Nfd(a + b) == Nfd(a) + Nfd(b)
  {
    if a != [] {
      assert (a + b)[1..] == a[1..] + b;
      NfdAppend(a[1..], b);
    } else {
      assert a + b == b;
    }
  }

  lemma DecomposeCommutesWithLower(c: char)
    ensures Lower(DecomposeChar(c)) == DecomposeChar(LowerChar(c))
  {
    if IsLowerLatin1Letter(c) {
      LowerIdempotent(DecomposeUpper((c as int - 32) as char));
    } else if IsUpperLatin1(c) && c > 'Z' {
      var d := (c as int + 32) as char;
      assert IsLowerLatin1Letter(d) && (d as int - 32) as char == c;
    }
  }

  lemma {:induction false} NfdCommutesWithLower(s: string)
    ensures Lower(Nfd(s)) == Nfd(Lower(s))
  {
    if s != [] {
      NfdCommutesWithLower(s[1..]);
      DecomposeCommutesWithLower(s[0]);
      LowerAppend(DecomposeChar(s[0]), Nfd(s[1..]));
      assert Lower(s) == [LowerChar(s[0])] + Lower(s[1..]);
      assert Lower(s)[1..] == Lower(s[1..]);
    }
  }

  // ---------------------------------------------------------------------------
  // String.prototype.includes, startsWith, substring; Array join; split
  // ---------------------------------------------------------------------------

  predicate StartsWith(s: string, prefix: string) {
    |prefix| <= |s| && s[..|prefix|] == prefix
  }

  predicate EndsWith(s: string, suffix: string) {
    |suffix| <= |s| && s[|s| - |suffix|..] == suffix
  }

  /** `sub` matches `s` from position `i`, checked from its `k`-th character on. */
  predicate MatchesAt(s: string, sub: string, i: nat, k: nat)
    decreases |sub| - k
  {
    k >= |sub| || (i + k < |s| && s[i + k] == sub[k] && MatchesAt(s, sub, i, k + 1))
  }

  /** `sub` occurs in `s` at some position from `i` on. */
  predicate IncludesFrom(s: string, sub: string, i: nat)
    decreases |s| - i
  {
    i + |sub| <= |s| && (MatchesAt(s, sub, i, 0) || IncludesFrom(s, sub, i + 1))
  }

  /** `String.prototype.includes`. */
  predicate Includes(s: string, sub: string) {
    IncludesFrom(s, sub, 0)
  }

  lemma {:induction false} MatchesInfix(a: string, b: string, c: string, k: nat)
    requires k <= |b|
    ensures MatchesAt(a + b + c, b, |a|, k)
    decreases |b| - k
  {
    if k < |b| {
      assert (a + b + c)[|a| + k] == b[k];
      MatchesInfix(a, b, c, k + 1);
    }
  }

  lemma {:induction false} IncludesFromBefore(s: string, sub: string, i: nat, j: nat)
    requires i <= j && j + |sub| <= |s| && MatchesAt(s, sub, j, 0)
    ensures IncludesFrom(s, sub, i)
    decreases j - i
  {
    if i < j {
      IncludesFromBefore(s, sub, i + 1, j);
    }
  }

  /** Whatever is written between two strings is included in the result. */
  lemma IncludesInfix(a: string, b: string, c: string)
    ensures Includes(a + b + c, b)
  {
    MatchesInfix(a, b, c, 0);
    IncludesFromBefore(a + b + c, b, 0, |a|);
  }

  /** `s.substring(0, n)`. */
  function Prefix(s: string, n: nat): (r: string)
    ensures |r| == if n <= |s| then n else |s|
    ensures StartsWith(s, r)
  {
    if n <= |s| then s[..n] else s
  }

  /** `Array.prototype.join(sep)`. */
  function Join(parts: seq<string>, sep: string): string
    decreases |parts|
  {
    if |parts| == 0 then ""
    else if |parts| == 1 then parts[0]
    else parts[0] + sep + Join(parts[1..], sep)
  }

  /** The first position of `c` in `s`. */
  function IndexOf(s: string, c: char): (i: nat)
    requires c in s
    ensures i < |s| && s[i] == c && c !in s[..i]
  {
    if s[0] == c then 0 else 1 + IndexOf(s[1..], c)
  }

  /** `s.split(sep)` for a one-character separator: the pieces between the
      separators, none of which contains it. */
  function Split(s: string, sep: char): (parts: seq<string>)
    ensures |parts| >= 1
    ensures forall i :: 0 <= i < |parts| ==> sep !in parts[i]
    decreases |s|
  {
    if sep !in s then [s]
    else
      var i := IndexOf(s, sep);
      [s[..i]] + Split(s[i + 1..], sep)
  }

  /** Joining the pieces back with the separator gives the original string. */
  lemma {:induction false} SplitJoin(s: string, sep: char)
    ensures Join(Split(s, sep), [sep]) == s
    decreases |s|
  {
    if sep in s {
      var i := IndexOf(s, sep);
      var rest := Split(s[i + 1..], sep);
      SplitJoin(s[i + 1..], sep);
      assert Split(s, sep) == [s[..i]] + rest;
      assert ([s[..i]] + rest)[1..] == rest;
      assert s == s[..i] + [sep] + s[i + 1..];
    }
  }

  /** The last element, which is what `split(...).pop()` yields. */
  function Last(parts: seq<string>): string
    requires |parts| >= 1
  {
    parts[|parts| - 1]
  }

  lemma IndexOfInPrefix(a: string, t: string, c: char)
    requires c in a
    ensures c in a + t && IndexOf(a + t, c) == IndexOf(a, c)
  {
    var j := IndexOf(a, c);
    assert (a + t)[j] == c;
    assert (a + t)[..j] == a[..j];
  }

  lemma IndexOfAfterPrefix(a: string, c: char, b: string)
    requires c !in a
    ensures c in a + [c] + b && IndexOf(a + [c] + b, c) == |a|
  {
    var s := a + [c] + b;
    assert s[|a|] == c;
    assert s[..|a|] == a;
  }

  /** Cutting at the first separator: what precedes it is the first piece. */
  lemma SplitAtFirstSeparator(a: string, sep: char, b: string)
    requires sep !in a
    ensures Split(a + [sep] + b, sep) == [a] + Split(b, sep)
  {
    var s := a + [sep] + b;
    IndexOfAfterPrefix(a, sep, b);
    assert s[..|a|] == a && s[|a| + 1..] == b;
  }

  /** Cutting at the last separator: what follows it is the last piece. */
  lemma {:induction false} SplitLastAfterSeparator(a: string, sep: char, b: string)
    requires sep !in b
    ensures Last(Split(a + [sep] + b, sep)) == b
    decreases |a|
  {
    if sep in a {
      var i := IndexOf(a, sep);
      var a1, a2 := a[..i], a[i + 1..];
      var tail := a2 + [sep] + b;
      assert a + [sep] + b == a1 + [sep] + tail by {
        assert a == a1 + [sep] + a2;
      }
      SplitAtFirstSeparator(a1, sep, tail);
      SplitLastAfterSeparator(a2, sep, b);
      LastAfterFirst(a1, Split(tail, sep));
    } else {
      SplitAtFirstSeparator(a, sep, b);
      assert Split(b, sep) == [b];
    }
  }

  lemma LastAfterFirst(first: string, rest: seq<string>)
    requires |rest| >= 1
    ensures Last([first] + rest) == Last(rest)
  {
  }

  // ---------------------------------------------------------------------------
  // Number to decimal text, as a template literal renders a non-negative integer
  // ---------------------------------------------------------------------------

  predicate IsDigit(c: char) {
    '0' <= c <= '9'
  }

  function Decimal(n: nat): (r: string)
    ensures |r| >= 1 && forall i :: 0 <= i < |r| ==> IsDigit(r[i])
  {
    if n < 10 then ["0123456789"[n]] else Decimal(n / 10) + ["0123456789"[n % 10]]
  }
}
