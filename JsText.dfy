/** The JavaScript string primitives the application relies on, over `seq<char>`:
    `Number.prototype.toString` on non-negative integers, `includes`, `trim`,
    `split` on a one-character separator, `join`, and `toLowerCase`
    (restricted to ASCII letters). */
module JsText {

  predicate IsDigit(c: char) {
    '0' <= c <= '9'
  }

  function DigitChar(d: nat): (c: char)
    requires d < 10
    ensures IsDigit(c) && c as int - '0' as int == d
  {
    ('0' as int + d) as char
  }

  /** Value of a string of decimal digits, most significant first (the
      inverse of `DecimalString`). */
  function ParseDecimal(s: string): nat
    requires forall i :: 0 <= i < |s| ==> IsDigit(s[i])
  {
    if s == [] then 0
    else
      assert IsDigit(s[|s| - 1]);
      ParseDecimal(s[..|s| - 1]) * 10 + (s[|s| - 1] as int - '0' as int)
  }

  /** `n.toString()` for a non-negative integer: no sign, no leading zero. */
  function DecimalString(n: nat): (s: string)
    ensures |s| >= 1
    ensures forall i :: 0 <= i < |s| ==> IsDigit(s[i])
    ensures ParseDecimal(s) == n
    ensures |s| > 1 ==> s[0] != '0'
  {
    if n < 10 then [DigitChar(n)]
    else
      var prefix := DecimalString(n / 10);
      var s := prefix + [DigitChar(n % 10)];
      assert s[..|s| - 1] == prefix;
      s
  }

  function Pow10(k: nat): (p: nat)
    ensures p >= 1
  {
    if k == 0 then 1 else 10 * Pow10(k - 1)
  }

  lemma SixDigitBounds()
    ensures Pow10(5) == 100000 && Pow10(6) == 1000000
  {
  }

  /** A number with k digits is written with exactly k characters. */
  lemma {:induction false} DecimalLength(n: nat, k: nat)
    requires k >= 1 && Pow10(k - 1) <= n < Pow10(k)
    ensures |DecimalString(n)| == k
  {
    if k > 1 {
      DecimalLength(n / 10, k - 1);
    }
  }

  /** `s.includes(sub)`. */
  predicate Contains(s: string, sub: string) {
    exists i | 0 <= i <= |s| :: sub <= s[i..]
  }

  lemma ContainsSelf(s: string)
    ensures Contains(s, s)
  {
    assert s <= s[0..];
  }

  lemma EmptyContained(s: string)
    ensures Contains(s, "")
  {
    assert "" <= s[0..];
  }

  /** ASCII `toLowerCase`; other characters are left as they are. */
  function LowerChar(c: char): (l: char)
    ensures !('A' <= l <= 'Z')
  {
    if 'A' <= c <= 'Z' then (c as int + 32) as char else c
  }

  function Lower(s: string): (l: string)
    ensures |l| == |s| && forall i :: 0 <= i < |s| ==> l[i] == LowerChar(s[i])
  {
    seq(|s|, i requires 0 <= i < |s| => LowerChar(s[i]))
  }

  /** Lower-casing is idempotent. */
  lemma LowerTwice(s: string)
    ensures Lower(Lower(s)) == Lower(s)
  {
    forall i | 0 <= i < |s| ensures Lower(Lower(s))[i] == Lower(s)[i] {
      assert !('A' <= Lower(s)[i] <= 'Z');
    }
  }

  /** The white space and line terminators `String.prototype.trim` removes. */
  predicate IsWhitespace(c: char) {
    c == ' ' || c == '\t' || c == '\n' || c == '\r'
    || c as int == 0x0B || c as int == 0x0C || c as int == 0xA0 || c as int == 0x1680
    || (0x2000 <= c as int <= 0x200A) || c as int == 0x2028 || c as int == 0x2029
    || c as int == 0x202F || c as int == 0x205F || c as int == 0x3000 || c as int == 0xFEFF
  }

  function TrimStart(s: string): (t: string)
    ensures |t| <= |s| && t == s[|s| - |t|..]
    ensures t == [] || !IsWhitespace(t[0])
  {
    if s != [] && IsWhitespace(s[0]) then TrimStart(s[1..]) else s
  }

  function TrimEnd(s: string): (t: string)
    ensures t <= s && (t == [] || !IsWhitespace(t[|t| - 1]))
  {
    if s != [] && IsWhitespace(s[|s| - 1]) then TrimEnd(s[..|s| - 1]) else s
  }

  /** Text that neither starts nor ends with white space. */
  predicate Trimmed(s: string) {
    s == [] || (!IsWhitespace(s[0]) && !IsWhitespace(s[|s| - 1]))
  }

  /** `s.trim()`. */
  function Trim(s: string): (t: string)
    ensures Trimmed(t)
  {
    TrimEnd(TrimStart(s))
  }

  /** `parts.join(sep)`. */
  function Join(parts: seq<string>, sep: string): string {
    if |parts| == 0 then ""
    else if |parts| == 1 then parts[0]
    else parts[0] + sep + Join(parts[1..], sep)
  }

  /** `s.split(sep)` for a one-character separator: always at least one piece,
      pieces never contain the separator, and joining them back gives `s`. */
  function Split(s: string, sep: char): (pieces: seq<string>)
    ensures |pieces| >= 1
    ensures forall k :: 0 <= k < |pieces| ==> sep !in pieces[k]
    ensures Join(pieces, [sep]) == s
  {
    if s == [] then [""]
    else if s[0] == sep then
      var rest := Split(s[1..], sep);
      assert s == [sep] + s[1..];
      [""] + rest
    else
      var rest := Split(s[1..], sep);
      var r := [[s[0]] + rest[0]] + rest[1..];
      assert r[1..] == rest[1..];
      assert s == [s[0]] + s[1..];
      r
  }

  /** Joining one more part adds the separator and the part at the end. */
  lemma {:induction false} JoinAppend(parts: seq<string>, x: string, sep: string)
    requires |parts| >= 1
    ensures Join(parts + [x], sep) == Join(parts, sep) + sep + x
  {
    if |parts| > 1 {
      assert (parts + [x])[1..] == parts[1..] + [x];
      JoinAppend(parts[1..], x, sep);
    }
  }

  /** In a join of separator-free parts, the first part runs up to the first
      separator, and what follows it is the join of the rest. */
  lemma JoinFirst(parts: seq<string>, sep: char)
    requires |parts| >= 1 && forall k :: 0 <= k < |parts| ==> sep !in parts[k]
    ensures var s := Join(parts, [sep]);
      && |parts[0]| <= |s| && s[..|parts[0]|] == parts[0]
      && (forall i | 0 <= i < |parts[0]| :: s[i] != sep)
      && (|parts| == 1 ==> s == parts[0])
      && (|parts| > 1 ==> |parts[0]| < |s| && s[|parts[0]|] == sep && s[|parts[0]| + 1..] == Join(parts[1..], [sep]))
  {
    var s := Join(parts, [sep]);
    forall i | 0 <= i < |parts[0]| ensures s[i] != sep {
      assert s[i] == parts[0][i];
    }
  }

  /** Joining separator-free parts loses nothing: equal joins come from equal
      part lists. */
  lemma {:induction false} JoinInjective(a: seq<string>, b: seq<string>, sep: char)
    requires |a| >= 1 && |b| >= 1
    requires forall k :: 0 <= k < |a| ==> sep !in a[k]
    requires forall k :: 0 <= k < |b| ==> sep !in b[k]
    requires Join(a, [sep]) == Join(b, [sep])
    ensures a == b
  {
    JoinFirst(a, sep);
    JoinFirst(b, sep);
    assert |a[0]| == |b[0]|;
    assert a[0] == b[0];
    assert |a| == 1 <==> |b| == 1;
    if |a| > 1 {
      JoinInjective(a[1..], b[1..], sep);
      assert a == [a[0]] + a[1..] && b == [b[0]] + b[1..];
    }
  }

  /** Splitting a join of separator-free parts gives the parts back. */
  lemma SplitJoin(parts: seq<string>, sep: char)
    requires |parts| >= 1 && forall k :: 0 <= k < |parts| ==> sep !in parts[k]
    ensures Split(Join(parts, [sep]), sep) == parts
  {
    var pieces := Split(Join(parts, [sep]), sep);
    JoinInjective(pieces, parts, sep);
  }

  /** The text before the first separator: `s.split(sep)[0]`. */
  function FirstPiece(s: string, sep: char): (p: string)
    ensures sep !in p
    ensures |p| <= |s| && s[..|p|] == p
    ensures |p| < |s| ==> s[|p|] == sep
    ensures sep !in s ==> p == s
  {
    var pieces := Split(s, sep);
    JoinFirst(pieces, sep);
    pieces[0]
  }

  /** The text after the last separator: `s.split(sep).pop()`. */
  function LastPiece(s: string, sep: char): (p: string)
    ensures sep !in p
    ensures |p| <= |s| && s[|s| - |p|..] == p
    ensures |p| < |s| ==> s[|s| - |p| - 1] == sep
  {
    var pieces := Split(s, sep);
    var last := pieces[|pieces| - 1];
    if |pieces| > 1 then
      var init := pieces[..|pieces| - 1];
      assert init + [last] == pieces;
      JoinAppend(init, last, [sep]);
      last
    else
      last
  }

  /** Whatever precedes the last separator, the last piece is what follows it. */
  lemma LastPieceAfter(prefix: string, sep: char, x: string)
    requires sep !in x
    ensures LastPiece(prefix + [sep] + x, sep) == x
  {
    var init := Split(prefix, sep);
    JoinAppend(init, x, [sep]);
    SplitJoin(init + [x], sep);
  }

  /** `trim` leaves trimmed text alone and removes leading white space before it. */
  lemma TrimAfterSpace(s: string)
    requires Trimmed(s)
    ensures Trim(s) == s && Trim(" " + s) == s
  {
    assert IsWhitespace(' ');
    assert TrimStart(s) == s;
    assert TrimEnd(s) == s;
    assert (" " + s)[1..] == s;
    assert TrimStart(" " + s) == TrimStart(s);
  }
}
