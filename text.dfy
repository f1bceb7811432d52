/** The Python string operations the configuration code relies on:
    `str.split(' ')`, `' '.join`, `''.join`, `str.strip()`, `str.startswith`,
    substring `in`, `os.path.join` (POSIX) and `int(str)` / `str(int)`. */
module Text {
  import opened Values

  /** No character has a code point of 128 or more. */
  predicate IsAscii(s: string)
  {
    forall i :: 0 <= i < |s| ==> s[i] as int < 128
  }

  lemma AppendAscii(a: string, b: string)
    ensures IsAscii(a + b) <==> IsAscii(a) && IsAscii(b)
  {
    if IsAscii(a + b) {
      forall i | 0 <= i < |a| ensures a[i] as int < 128 {
        assert (a + b)[i] == a[i];
      }
      forall i | 0 <= i < |b| ensures b[i] as int < 128 {
        assert (a + b)[|a| + i] == b[i];
      }
    }
  }

  /** `''.join(xs)` */
  function Concat(xs: seq<string>): string
  {
    if |xs| == 0 then "" else xs[0] + Concat(xs[1..])
  }

  /** The joined string is pure ASCII exactly when every part is. */
  lemma {:induction false} ConcatAscii(xs: seq<string>)
    ensures IsAscii(Concat(xs)) <==> forall k :: 0 <= k < |xs| ==> IsAscii(xs[k])
  {
    if |xs| > 0 {
      ConcatAscii(xs[1..]);
      AppendAscii(xs[0], Concat(xs[1..]));
      assert forall k :: 1 <= k < |xs| ==> xs[k] == xs[1..][k - 1];
    }
  }

  lemma {:induction false} ConcatSnoc(xs: seq<string>, x: string)
    ensures Concat(xs + [x]) == Concat(xs) + x
  {
    if |xs| > 0 {
      assert (xs + [x])[1..] == xs[1..] + [x];
      ConcatSnoc(xs[1..], x);
    }
  }

  /** `sep.join(xs)` */
  function JoinWith(xs: seq<string>, sep: char): string
  {
    if |xs| == 0 then ""
    else if |xs| == 1 then xs[0]
    else xs[0] + [sep] + JoinWith(xs[1..], sep)
  }

  /** The pieces of a pure ASCII join are pure ASCII. */
  lemma {:induction false} JoinWithAscii(xs: seq<string>, sep: char)
    requires IsAscii(JoinWith(xs, sep))
    ensures forall k :: 0 <= k < |xs| ==> IsAscii(xs[k])
  {
    if |xs| > 1 {
      AppendAscii(xs[0] + [sep], JoinWith(xs[1..], sep));
      AppendAscii(xs[0], [sep]);
      JoinWithAscii(xs[1..], sep);
      assert forall k :: 1 <= k < |xs| ==> xs[k] == xs[1..][k - 1];
    }
  }

  /** `s.split(sep)` with an explicit one-character separator: empty pieces
      are kept, and there is always at least one piece. */
  function Split(s: string, sep: char): (r: seq<string>)
    ensures |r| >= 1
    ensures forall k :: 0 <= k < |r| ==> sep !in r[k]
    decreases |s|
  {
    if |s| == 0 then [""]
    else
      var rest := Split(s[1..], sep);
      if s[0] == sep then [""] + rest else [[s[0]] + rest[0]] + rest[1..]
  }

  lemma JoinConsChar(c: char, xs: seq<string>, sep: char)
    requires |xs| >= 1
    ensures JoinWith([[c] + xs[0]] + xs[1..], sep) == [c] + JoinWith(xs, sep)
  {
    var ys := [[c] + xs[0]] + xs[1..];
    if |xs| > 1 {
      assert ys[1..] == xs[1..];
    }
  }

  /** Joining the pieces of a split with the same separator gives back the string. */
  lemma {:induction false} JoinSplit(s: string, sep: char)
    ensures JoinWith(Split(s, sep), sep) == s
    decreases |s|
  {
    if |s| > 0 {
      var rest := Split(s[1..], sep);
      JoinSplit(s[1..], sep);
      assert s == [s[0]] + s[1..];
      if s[0] == sep {
        assert ([""] + rest)[1..] == rest;
      } else {
        JoinConsChar(s[0], rest, sep);
      }
    }
  }

  lemma {:induction false} SplitNoSep(x: string, sep: char)
    requires sep !in x
    ensures Split(x, sep) == [x]
    decreases |x|
  {
    if |x| > 0 {
      SplitNoSep(x[1..], sep);
      assert [x[0]] + x[1..] == x;
    }
  }

  lemma {:induction false} SplitAt(x: string, t: string, sep: char)
    requires sep !in x
    ensures Split(x + [sep] + t, sep) == [x] + Split(t, sep)
    decreases |x|
  {
    var s := x + [sep] + t;
    if |x| == 0 {
      assert s[1..] == t;
    } else {
      assert s[1..] == x[1..] + [sep] + t;
      SplitAt(x[1..], t, sep);
      assert [x[0]] + x[1..] == x;
    }
  }

  /** Splitting a join of separator-free pieces gives back the pieces. */
  lemma {:induction false} SplitJoin(xs: seq<string>, sep: char)
    requires |xs| >= 1
    requires forall k :: 0 <= k < |xs| ==> sep !in xs[k]
    ensures Split(JoinWith(xs, sep), sep) == xs
  {
    if |xs| == 1 {
      SplitNoSep(xs[0], sep);
    } else {
      SplitJoin(xs[1..], sep);
      SplitAt(xs[0], JoinWith(xs[1..], sep), sep);
      assert [xs[0]] + xs[1..] == xs;
    }
  }

  /** `s.startswith(prefix)` */
  predicate StartsWith(s: string, prefix: string)
  {
    |prefix| <= |s| && s[..|prefix|] == prefix
  }

  /** `s.endswith(suffix)` */
  predicate EndsWith(s: string, suffix: string)
  {
    |suffix| <= |s| && s[|s| - |suffix|..] == suffix
  }

  /** `sub in s` for two strings. */
  predicate Contains(s: string, sub: string)
    decreases |s|
  {
    StartsWith(s, sub) || (|s| > 0 && Contains(s[1..], sub))
  }

  /** `c.isspace()`: the characters Python treats as whitespace. */
  predicate IsSpace(c: char)
  {
    var n := c as int;
    n == 32 || 9 <= n <= 13 || 28 <= n <= 31 || n == 0x85 || n == 0xA0 || n == 0x1680
    || 0x2000 <= n <= 0x200A || n == 0x2028 || n == 0x2029 || n == 0x202F || n == 0x205F
    || n == 0x3000
  }

  /** The number of whitespace characters `s` starts with. */
  function LeadingSpace(s: string): (n: nat)
    ensures n <= |s|
    ensures forall k :: 0 <= k < n ==> IsSpace(s[k])
    ensures n < |s| ==> !IsSpace(s[n])
    decreases |s|
  {
    if |s| > 0 && IsSpace(s[0]) then 1 + LeadingSpace(s[1..]) else 0
  }

  function StripRight(s: string): (r: string)
    ensures |r| <= |s| && r == s[..|r|]
    ensures |r| > 0 ==> !IsSpace(r[|r| - 1])
    ensures |s| > 0 && !IsSpace(s[0]) ==> |r| > 0
    ensures forall k :: |r| <= k < |s| ==> IsSpace(s[k])
    decreases |s|
  {
    if |s| > 0 && IsSpace(s[|s| - 1]) then StripRight(s[..|s| - 1]) else s
  }

  /** `s.strip()`: the slice of `s` after its leading whitespace, with no
      whitespace at either end and only whitespace after it. */
  function Strip(s: string): (r: string)
    ensures |r| > 0 ==> !IsSpace(r[0]) && !IsSpace(r[|r| - 1])
    ensures LeadingSpace(s) + |r| <= |s| && r == s[LeadingSpace(s)..LeadingSpace(s) + |r|]
    ensures forall k :: LeadingSpace(s) + |r| <= k < |s| ==> IsSpace(s[k])
  {
    var n := LeadingSpace(s);
    var l := s[n..];
    var r := StripRight(l);
    assert |r| > 0 ==> r[0] == l[0];
    assert forall k :: n + |r| <= k < |s| ==> s[k] == l[k - n];
    r
  }

  /** Whitespace around a token is all `strip()` removes. */
  lemma StripPadded(pre: string, t: string, post: string)
    requires forall k :: 0 <= k < |pre| ==> IsSpace(pre[k])
    requires forall k :: 0 <= k < |post| ==> IsSpace(post[k])
    requires |t| > 0 ==> !IsSpace(t[0]) && !IsSpace(t[|t| - 1])
    ensures Strip(pre + t + post) == t
  {
    var s := pre + t + post;
    var r := Strip(s);
    var n := LeadingSpace(s);
    assert forall k :: 0 <= k < |pre| ==> s[k] == pre[k];
    assert forall k :: |pre| + |t| <= k < |s| ==> s[k] == post[k - |pre| - |t|];
    if |t| > 0 {
      assert s[|pre|] == t[0] && s[|pre| + |t| - 1] == t[|t| - 1];
      assert n == |pre|;
      assert |r| > 0 ==> r[|r| - 1] == s[n + |r| - 1];
      assert n + |r| == |pre| + |t|;
      assert s[|pre|..|pre| + |t|] == t;
    }
  }

  /** Stripping only removes characters. */
  lemma StripWithin(s: string, c: char)
    requires c in Strip(s)
    ensures c in s
  {
    var r := Strip(s);
    var i :| 0 <= i < |r| && r[i] == c;
    assert s[LeadingSpace(s) + i] == c;
  }

  /** `os.path.join(a, b)` on POSIX. */
  function JoinPath(a: string, b: string): string
  {
    if |b| > 0 && b[0] == '/' then b
    else if |a| == 0 || a[|a| - 1] == '/' then a + b
    else a + "/" + b
  }

  predicate IsDigit(c: char)
  {
    '0' <= c <= '9'
  }

  /** The body of a decimal literal `int()` accepts: digits, with single
      underscores allowed between two digits. */
  predicate IsDigitGroup(s: string)
  {
    && |s| > 0 && IsDigit(s[0]) && IsDigit(s[|s| - 1])
    && forall i :: 0 <= i < |s| ==> IsDigit(s[i]) || (s[i] == '_' && i + 1 < |s| && IsDigit(s[i + 1]))
  }

  /** The number a digit group denotes (underscores are skipped). */
  function GroupValue(s: string): int
    decreases |s|
  {
    if |s| == 0 then 0
    else if s[|s| - 1] == '_' then GroupValue(s[..|s| - 1])
    else GroupValue(s[..|s| - 1]) * 10 + (s[|s| - 1] as int - '0' as int)
  }

  /** `int(s)` for a string: surrounding whitespace, an optional sign, then a
      digit group; anything else is a ValueError (None here). */
  function ParseInt(s: string): Option<int>
  {
    var t := Strip(s);
    if |t| > 0 && t[0] == '-' then
      (if IsDigitGroup(t[1..]) then Some(-GroupValue(t[1..])) else None)
    else if |t| > 0 && t[0] == '+' then
      (if IsDigitGroup(t[1..]) then Some(GroupValue(t[1..])) else None)
    else if IsDigitGroup(t) then Some(GroupValue(t))
    else None
  }

  function DigitChar(d: nat): char
    requires d < 10
  {
    ('0' as int + d) as char
  }

  function NatToString(n: nat): string
  {
    if n < 10 then [DigitChar(n)] else NatToString(n / 10) + [DigitChar(n % 10)]
  }

  /** `str(n)` */
  function IntToString(n: int): string
  {
    if n < 0 then "-" + NatToString(-n) else NatToString(n)
  }

  lemma {:induction false} NatToStringDigits(n: nat)
    ensures IsDigitGroup(NatToString(n)) && GroupValue(NatToString(n)) == n
  {
    var s := NatToString(n);
    if n >= 10 {
      var p := NatToString(n / 10);
      NatToStringDigits(n / 10);
      assert s[..|s| - 1] == p;
      forall i | 0 <= i < |s|
        ensures IsDigit(s[i]) || (s[i] == '_' && i + 1 < |s| && IsDigit(s[i + 1]))
      {
        if i < |p| {
          assert s[i] == p[i];
          if i + 1 < |p| { assert s[i + 1] == p[i + 1]; }
        }
      }
    } else {
      assert s[..0] == "";
    }
  }

  lemma StripUnchanged(s: string)
    requires |s| > 0 && !IsSpace(s[0]) && !IsSpace(s[|s| - 1])
    ensures Strip(s) == s
  {
    assert LeadingSpace(s) == 0;
    assert StripRight(s) == s;
  }

  lemma ParseIntDigits(d: string)
    requires IsDigitGroup(d)
    ensures ParseInt(d) == Some(GroupValue(d))
  {
    StripUnchanged(d);
  }

  lemma ParseIntNegative(d: string)
    requires IsDigitGroup(d)
    ensures ParseInt("-" + d) == Some(-GroupValue(d))
  {
    var t := "-" + d;
    assert t[0] == '-' && t[1..] == d;
    assert t[|t| - 1] == d[|d| - 1];
    StripUnchanged(t);
  }

  /** `int(str(n)) == n` */
  lemma ParseIntRoundTrip(n: int)
    ensures ParseInt(IntToString(n)) == Some(n)
  {
    if n < 0 {
      NatToStringDigits(-n);
      ParseIntNegative(NatToString(-n));
    } else {
      NatToStringDigits(n);
      ParseIntDigits(NatToString(n));
    }
  }
}
