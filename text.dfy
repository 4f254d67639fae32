/**
 * String helpers shared by the model: Python's whitespace stripping, prefix,
 * suffix and substring tests, joining and splitting on a separator (with the
 * round trips between the two), decimal rendering and parsing of integers,
 * and the code-point order Python uses to compare strings.
 */
module Text {

  /** Python's `str.isspace()` for one character (Unicode classes WS, B, S and Zs). */
  predicate IsSpace(c: char) {
    c == ' ' || ('\t' <= c <= '\r') || ('\U{1c}' <= c <= '\U{1f}') || c == '\U{85}' || c == '\U{a0}'
    || c == '\U{1680}' || ('\U{2000}' <= c <= '\U{200a}') || c == '\U{2028}' || c == '\U{2029}'
    || c == '\U{202f}' || c == '\U{205f}' || c == '\U{3000}'
  }

  /** Python's `s.strip()`: leading and trailing whitespace removed, one character at a time. */
  function Strip(s: string): string
    decreases |s|
  {
    if s != [] && IsSpace(s[0]) then Strip(s[1..])
    else if s != [] && IsSpace(s[|s| - 1]) then Strip(s[..|s| - 1])
    else s
  }

  /**
   * The stripped string is made of characters of `s`, neither starts nor ends
   * with whitespace, and is `s` itself when `s` has no surrounding whitespace.
   */
  lemma {:induction false} StripShape(s: string)
    ensures |Strip(s)| <= |s| && forall c :: c in Strip(s) ==> c in s
    ensures Strip(s) == [] || (!IsSpace(Strip(s)[0]) && !IsSpace(Strip(s)[|Strip(s)| - 1]))
    ensures (s == [] || (!IsSpace(s[0]) && !IsSpace(s[|s| - 1]))) ==> Strip(s) == s
    decreases |s|
  {
    if s != [] && IsSpace(s[0]) {
      StripShape(s[1..]);
    } else if s != [] && IsSpace(s[|s| - 1]) {
      StripShape(s[..|s| - 1]);
    }
  }

  predicate StartsWith(s: string, prefix: string) {
    |prefix| <= |s| && s[..|prefix|] == prefix
  }

  predicate EndsWith(s: string, suffix: string) {
    |suffix| <= |s| && s[|s| - |suffix|..] == suffix
  }

  /** Python's `sub in s`. */
  predicate Contains(s: string, sub: string) {
    StartsWith(s, sub) || (s != [] && |sub| <= |s| && Contains(s[1..], sub))
  }

  /** A string contains every infix of itself. */
  lemma {:induction false} ContainsInfix(pre: string, sub: string, post: string)
    ensures Contains(pre + sub + post, sub)
  {
    var s := pre + sub + post;
    if pre == [] {
      assert s[..|sub|] == sub;
    } else {
      assert s[1..] == pre[1..] + sub + post;
      ContainsInfix(pre[1..], sub, post);
    }
  }

  /** Python's `s.replace(from, to)` for a one-character `from`. */
  function ReplaceChar(s: string, from: char, to: char): (r: string)
    ensures |r| == |s|
    ensures forall i :: 0 <= i < |s| ==> r[i] == (if s[i] == from then to else s[i])
  {
    if s == [] then [] else [if s[0] == from then to else s[0]] + ReplaceChar(s[1..], from, to)
  }

  /** Python's `sep.join(parts)`. */
  function Join(parts: seq<string>, sep: string): string {
    if |parts| == 0 then "" else if |parts| == 1 then parts[0] else parts[0] + sep + Join(parts[1..], sep)
  }

  lemma JoinFour(f: seq<string>, sep: string)
    requires |f| == 4
    ensures Join(f, sep) == f[0] + sep + f[1] + sep + f[2] + sep + f[3]
  {
    assert Join(f[3..], sep) == f[3];
    assert Join(f[2..], sep) == f[2] + sep + Join(f[3..], sep) by { assert f[2..][1..] == f[3..]; }
    assert Join(f[1..], sep) == f[1] + sep + Join(f[2..], sep) by { assert f[1..][1..] == f[2..]; }
  }

  /** The concatenation of `parts`, Python's `"".join(parts)`. */
  function Concat(parts: seq<string>): string {
    if parts == [] then "" else parts[0] + Concat(parts[1..])
  }

  /** Python's `s.split(c)` for a one-character separator. */
  function Split(s: string, c: char): (r: seq<string>)
    ensures |r| >= 1
    decreases |s|
  {
    if |s| == 0 then [""]
    else if s[0] == c then [""] + Split(s[1..], c)
    else var rest := Split(s[1..], c); [[s[0]] + rest[0]] + rest[1..]
  }

  lemma {:induction false} SplitPieces(s: string, c: char)
    ensures forall p :: p in Split(s, c) ==> c !in p
    decreases |s|
  {
    if |s| > 0 {
      SplitPieces(s[1..], c);
    }
  }

  lemma {:induction false} SplitPrefix(p: string, rest: string, c: char)
    requires c !in p
    ensures Split(p + rest, c) == [p + Split(rest, c)[0]] + Split(rest, c)[1..]
    decreases |p|
  {
    if p != [] {
      assert (p + rest)[0] == p[0] && (p + rest)[1..] == p[1..] + rest;
      SplitPrefix(p[1..], rest, c);
      assert [p[0]] + (p[1..] + Split(rest, c)[0]) == p + Split(rest, c)[0];
    } else {
      var r := Split(rest, c);
      assert p + rest == rest;
      assert p + r[0] == r[0];
      assert [r[0]] + r[1..] == r;
    }
  }

  /** Splitting a join recovers the parts when no part contains the separator. */
  lemma {:induction false} SplitJoin(parts: seq<string>, c: char)
    requires |parts| >= 1
    requires forall p :: p in parts ==> c !in p
    ensures Split(Join(parts, [c]), c) == parts
  {
    if |parts| == 1 {
      SplitPrefix(parts[0], "", c);
      assert parts[0] + "" == parts[0];
    } else {
      var rest := Join(parts[1..], [c]);
      assert Join(parts, [c]) == parts[0] + ([c] + rest);
      SplitPrefix(parts[0], [c] + rest, c);
      assert ([c] + rest)[0] == c && ([c] + rest)[1..] == rest;
      assert Split([c] + rest, c) == [""] + Split(rest, c);
      SplitJoin(parts[1..], c);
      assert Split(Join(parts, [c]), c) == [parts[0] + ""] + parts[1..];
      assert parts[0] + "" == parts[0];
      assert parts == [parts[0]] + parts[1..];
    }
  }

  /** Joining the pieces of a split gives the string back, for every string. */
  lemma {:induction false} JoinSplit(s: string, c: char)
    ensures Join(Split(s, c), [c]) == s
    decreases |s|
  {
    if |s| > 0 {
      JoinSplit(s[1..], c);
      var rest := Split(s[1..], c);
      if s[0] == c {
        assert Split(s, c) == [""] + rest;
        assert Join([""] + rest, [c]) == "" + [c] + Join(rest, [c]) by {
          assert ([""] + rest)[1..] == rest;
        }
        assert s == [c] + s[1..];
      } else {
        var r := [[s[0]] + rest[0]] + rest[1..];
        assert Split(s, c) == r;
        if |rest| == 1 {
          assert Join(r, [c]) == [s[0]] + rest[0];
        } else {
          assert r[1..] == rest[1..];
          assert Join(rest, [c]) == rest[0] + [c] + Join(rest[1..], [c]);
          assert Join(r, [c]) == [s[0]] + rest[0] + [c] + Join(rest[1..], [c]);
        }
        assert s == [s[0]] + s[1..];
      }
    }
  }

  lemma {:induction false} JoinAppend(parts: seq<string>, x: string, sep: string)
    requires |parts| >= 1
    ensures Join(parts + [x], sep) == Join(parts, sep) + sep + x
  {
    if |parts| == 1 {
      assert parts + [x] == [parts[0], x];
    } else {
      assert (parts + [x])[1..] == parts[1..] + [x];
      JoinAppend(parts[1..], x, sep);
    }
  }

  lemma {:induction false} ConcatAppend(parts: seq<string>, x: string)
    ensures Concat(parts + [x]) == Concat(parts) + x
  {
    if parts == [] {
      assert [] + [x] == [x];
    } else {
      assert (parts + [x])[1..] == parts[1..] + [x];
      ConcatAppend(parts[1..], x);
    }
  }

  /** A join holds a character only if a part or the separator does. */
  lemma {:induction false} JoinFree(parts: seq<string>, sep: string, c: char)
    requires forall p :: p in parts ==> c !in p
    requires c !in sep
    ensures c !in Join(parts, sep)
  {
    if |parts| > 1 {
      JoinFree(parts[1..], sep, c);
    }
  }

  /** Each line followed by `\n`. */
  function Terminated(lines: seq<string>): (r: seq<string>)
    ensures |r| == |lines| && forall i :: 0 <= i < |lines| ==> r[i] == lines[i] + "\n"
  {
    seq(|lines|, i requires 0 <= i < |lines| => lines[i] + "\n")
  }

  lemma TerminatedAppend(a: seq<string>, b: seq<string>)
    ensures Terminated(a + b) == Terminated(a) + Terminated(b)
  {
  }

  /** Lines each followed by `\n`, concatenated, are the lines joined by `\n` with a final empty piece. */
  lemma {:induction false} TerminatedLines(lines: seq<string>)
    ensures Concat(seq(|lines|, i requires 0 <= i < |lines| => lines[i] + "\n")) == Join(lines + [""], "\n")
  {
    if lines != [] {
      var f := seq(|lines|, i requires 0 <= i < |lines| => lines[i] + "\n");
      var g := seq(|lines| - 1, i requires 0 <= i < |lines| - 1 => lines[1..][i] + "\n");
      assert f[1..] == g;
      TerminatedLines(lines[1..]);
      assert (lines + [""])[1..] == lines[1..] + [""];
    }
  }

  /** Splitting `\n`-terminated lines gives the lines back, plus the empty piece after the last `\n`. */
  lemma SplitTerminatedLines(lines: seq<string>)
    requires forall l :: l in lines ==> '\n' !in l
    ensures Split(Concat(seq(|lines|, i requires 0 <= i < |lines| => lines[i] + "\n")), '\n') == lines + [""]
  {
    TerminatedLines(lines);
    SplitJoin(lines + [""], '\n');
  }

  // ----- integers -----

  function DigitChar(d: nat): (c: char)
    requires d < 10
    ensures '0' <= c <= '9'
  {
    ['0', '1', '2', '3', '4', '5', '6', '7', '8', '9'][d]
  }

  predicate IsDigit(c: char) {
    '0' <= c <= '9'
  }

  /** Python's `str(n)` for a natural number. */
  function NatToString(n: nat): (r: string)
    ensures |r| >= 1 && forall i :: 0 <= i < |r| ==> IsDigit(r[i])
    ensures r[0] == '0' ==> n == 0
  {
    if n < 10 then [DigitChar(n)] else NatToString(n / 10) + [DigitChar(n % 10)]
  }

  /** Python's `str(i)` for an integer. */
  function IntToString(i: int): (r: string)
    ensures |r| >= 1 && forall k :: 0 <= k < |r| ==> IsDigit(r[k]) || (k == 0 && r[k] == '-')
  {
    if i < 0 then "-" + NatToString(-i) else NatToString(i)
  }

  /** The value of a non-empty string of decimal digits. */
  function DigitsValue(s: string): nat
    requires forall i :: 0 <= i < |s| ==> IsDigit(s[i])
  {
    if s == [] then 0
    else
      assert IsDigit(s[|s| - 1]);
      10 * DigitsValue(s[..|s| - 1]) + (s[|s| - 1] as int - '0' as int)
  }

  lemma {:induction false} DigitCharValue(d: nat)
    requires d < 10
    ensures DigitChar(d) as int - '0' as int == d
  {
  }

  lemma {:induction false} DigitsOfNat(n: nat)
    ensures DigitsValue(NatToString(n)) == n
  {
    if n < 10 {
      DigitCharValue(n);
    } else {
      var s := NatToString(n);
      assert s[..|s| - 1] == NatToString(n / 10);
      DigitsOfNat(n / 10);
      DigitCharValue(n % 10);
    }
  }

  predicate AllDigits(s: string) {
    |s| >= 1 && forall i :: 0 <= i < |s| ==> IsDigit(s[i])
  }

  /**
   * Python's `int(s)` on ASCII input: surrounding whitespace, an optional sign
   * and at least one decimal digit; anything else raises (here: None).
   */
  function ParseInt(s: string): (r: Option<int>)
    ensures r.Some? ==> exists k :: 0 <= k < |s| && IsDigit(s[k])
  {
    var t := Strip(s);
    StripShape(s);
    if t == [] then None
    else if t[0] == '-' || t[0] == '+' then
      (if AllDigits(t[1..]) then
         (assert t[1..][0] == t[1] && t[1] in s;
          var v: int := DigitsValue(t[1..]);
          Some(if t[0] == '-' then -v else v))
       else None)
    else if AllDigits(t) then assert t[0] in s; Some(DigitsValue(t))
    else None
  }

  /** `int(str(i)) == i`: rendering an integer and parsing it back is the identity. */
  lemma IntRoundTrip(i: int)
    ensures ParseInt(IntToString(i)) == Some(i)
  {
    if i < 0 {
      NegativeRoundTrip(i);
    } else {
      NatRoundTrip(i);
    }
  }

  lemma NatRoundTrip(n: nat)
    ensures ParseInt(NatToString(n)) == Some(n)
  {
    var s := NatToString(n);
    assert Strip(s) == s by {
      assert !IsSpace(s[0]) && !IsSpace(s[|s| - 1]);
      StripShape(s);
    }
    DigitsOfNat(n);
    assert AllDigits(s);
  }

  lemma NegativeRoundTrip(i: int)
    requires i < 0
    ensures ParseInt(IntToString(i)) == Some(i)
  {
    var n := NatToString(-i);
    var s := "-" + n;
    assert s[1..] == n && s[|s| - 1] == n[|n| - 1];
    ParseNegative(s);
    DigitsOfNat(-i);
  }

  /** A minus sign followed by digits parses as the negated value of the digits. */
  lemma ParseNegative(t: string)
    requires |t| >= 2 && t[0] == '-' && AllDigits(t[1..]) && IsDigit(t[|t| - 1])
    ensures ParseInt(t) == Some(-(DigitsValue(t[1..]) as int))
  {
    StripShape(t);
  }

  datatype Option<+T> = None | Some(value: T)

  // ----- the order Python uses on strings -----

  /** Python's `a < b` on strings: lexicographic by code point. */
  predicate StrLt(a: string, b: string) {
    if |a| == 0 then |b| > 0
    else if |b| == 0 then false
    else if a[0] != b[0] then a[0] < b[0]
    else StrLt(a[1..], b[1..])
  }

  lemma {:induction false} StrLtIrreflexive(a: string)
    ensures !StrLt(a, a)
  {
    if |a| > 0 {
      StrLtIrreflexive(a[1..]);
    }
  }

  lemma {:induction false} StrLtTransitive(a: string, b: string, c: string)
    requires StrLt(a, b) && StrLt(b, c)
    ensures StrLt(a, c)
  {
    if |a| > 0 && |b| > 0 && |c| > 0 && a[0] == b[0] && b[0] == c[0] {
      StrLtTransitive(a[1..], b[1..], c[1..]);
    }
  }

  lemma {:induction false} StrLtTotal(a: string, b: string)
    ensures a == b || StrLt(a, b) || StrLt(b, a)
  {
    if |a| > 0 && |b| > 0 && a[0] == b[0] {
      StrLtTotal(a[1..], b[1..]);
      if a[1..] == b[1..] {
        assert a == [a[0]] + a[1..] && b == [b[0]] + b[1..];
      }
    }
  }

  lemma {:induction false} StrLtAsymmetric(a: string, b: string)
    requires StrLt(a, b)
    ensures !StrLt(b, a)
  {
    if StrLt(b, a) {
      StrLtTransitive(a, b, a);
      StrLtIrreflexive(a);
    }
  }

  // ----- sequence facts used by several modules -----

  lemma AppendAssoc<T>(a: seq<T>, b: seq<T>, c: seq<T>)
    ensures a + b + c == a + (b + c)
  {
  }

  lemma AppendNothing<T>(a: seq<T>, b: seq<T>)
    requires b == []
    ensures a + b == a
  {
  }

  lemma InInitOrLast<T>(s: seq<T>, x: T)
    requires s != []
    ensures x in s <==> x in s[..|s| - 1] || x == s[|s| - 1]
  {
    assert s == s[..|s| - 1] + [s[|s| - 1]];
  }

  lemma InAppend<T>(a: seq<T>, b: seq<T>, x: T)
    ensures x in a + b <==> x in a || x in b
  {
  }

  lemma InSuffix<T>(s: seq<T>, start: nat, m: nat)
    requires start <= m < |s|
    ensures s[m] in s[start..]
  {
    assert s[start..][m - start] == s[m];
  }

  /** What a log held after `mark` stays in it, seen from any earlier `start`, as the log grows. */
  lemma SuffixGrows<T>(a: seq<T>, b: seq<T>, start: nat, mark: nat, x: T)
    requires a <= b && start <= mark <= |a| && x in a[mark..]
    ensures x in b[start..]
  {
    var i :| mark <= i < |a| && a[i] == x;
    assert b[start..][i - start] == x;
  }

  lemma OnlyMiddle<T>(a: seq<T>, b: seq<T>, c: seq<T>)
    requires a == [] && c == []
    ensures a + b + c == b
  {
  }

  lemma AppendTwo<T>(s: seq<T>, a: T, b: T)
    ensures s + [a] + [b] == s + [a, b]
  {
    assert [a] + [b] == [a, b];
  }

  lemma PrefixIn<T>(s: seq<T>, n: nat, x: T)
    requires n <= |s| && x in s[..n]
    ensures x in s
  {
    var i :| 0 <= i < n && s[..n][i] == x;
    assert s[i] == x;
  }

  lemma SplitFirst<T>(s: seq<T>, m: nat, rest: seq<T>)
    requires m < |s|
    ensures s[m..] + rest == [s[m]] + (s[m + 1..] + rest)
  {
    assert s[m..] == [s[m]] + s[m + 1..];
  }
}
