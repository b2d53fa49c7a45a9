/** The Python string operations the shop's code relies on: slicing,
    `str.replace`, `str.split`, `str.join`, substring containment and `int()`. */
module PyStr {
  import opened Wrappers

  /** A slice bound as Python clamps it to the length of the string. */
  function Clamp(i: nat, n: nat): (r: nat)
    ensures r <= n && r <= i
    ensures r == i || r == n
  {
    if i <= n then i else n
  }

  /** `s[i:j]` for non-negative bounds: empty when the clamped bounds cross. */
  function Slice(s: string, i: nat, j: nat): (r: string)
    ensures Clamp(i, |s|) + |r| <= |s|
    ensures forall k :: 0 <= k < |r| ==> r[k] == s[Clamp(i, |s|) + k]
  {
    var lo, hi := Clamp(i, |s|), Clamp(j, |s|);
    if lo <= hi then s[lo..hi] else []
  }

  /** `s[i:]` for a non-negative bound. */
  function SliceFrom(s: string, i: nat): (r: string)
    ensures |r| == |s| - Clamp(i, |s|)
    ensures forall k :: 0 <= k < |r| ==> r[k] == s[Clamp(i, |s|) + k]
  {
    s[Clamp(i, |s|)..]
  }

  /** `s.replace(from, to)` where both are single characters. */
  function ReplaceChar(s: string, from: char, to: char): (r: string)
    ensures |r| == |s|
    ensures forall i :: 0 <= i < |s| ==> r[i] == if s[i] == from then to else s[i]
  {
    if s == [] then [] else [if s[0] == from then to else s[0]] + ReplaceChar(s[1..], from, to)
  }

  /** Number of occurrences of `c` in `s`. */
  function CountChar(s: string, c: char): nat
  {
    if s == [] then 0 else (if s[0] == c then 1 else 0) + CountChar(s[1..], c)
  }

  /** `s.split(sep)` with an explicit one-character separator: every
      occurrence separates two (possibly empty) pieces, so the result is
      never empty and `"".split(" ") == [""]`. */
  function Split(s: string, sep: char): (r: seq<string>)
    ensures |r| >= 1
    ensures forall i :: 0 <= i < |r| ==> sep !in r[i]
  {
    if s == [] then [[]]
    else
      var rest := Split(s[1..], sep);
      if s[0] == sep then [[]] + rest else [[s[0]] + rest[0]] + rest[1..]
  }

  /** No piece of a split holds a character the string does not hold. */
  lemma {:induction false} SplitPiecesAvoid(s: string, sep: char, c: char)
    requires c !in s
    ensures forall i :: 0 <= i < |Split(s, sep)| ==> c !in Split(s, sep)[i]
  {
    if s != [] {
      assert c !in s[1..];
      SplitPiecesAvoid(s[1..], sep, c);
    }
  }

  /** Replacing one character by another moves its occurrences to the other. */
  lemma {:induction false} ReplaceCharCount(s: string, from: char, to: char)
    requires from != to
    ensures CountChar(ReplaceChar(s, from, to), to) == CountChar(s, to) + CountChar(s, from)
    ensures from !in ReplaceChar(s, from, to)
  {
    if s != [] {
      ReplaceCharCount(s[1..], from, to);
      assert ReplaceChar(s, from, to)[1..] == ReplaceChar(s[1..], from, to);
    }
  }

  /** `sep.join(ts)` with a one-character separator. */
  function Join(ts: seq<string>, sep: char): string
  {
    if ts == [] then []
    else if |ts| == 1 then ts[0]
    else ts[0] + [sep] + Join(ts[1..], sep)
  }

  /** Joining the pieces of a split gives back the string. */
  lemma {:induction false} JoinSplit(s: string, sep: char)
    ensures Join(Split(s, sep), sep) == s
  {
    if s != [] {
      var rest := Split(s[1..], sep);
      JoinSplit(s[1..], sep);
      if s[0] == sep {
        assert ([[]] + rest)[1..] == rest;
      } else {
        var r := [[s[0]] + rest[0]] + rest[1..];
        assert r[1..] == rest[1..];
        if |rest| > 1 {
          assert Join(rest, sep) == rest[0] + [sep] + Join(rest[1..], sep);
        }
      }
    }
  }

  /** A split yields one piece more than there are separators. */
  lemma {:induction false} SplitCount(s: string, sep: char)
    ensures |Split(s, sep)| == CountChar(s, sep) + 1
  {
    if s != [] {
      SplitCount(s[1..], sep);
    }
  }

  /** A string without the separator is a single piece. */
  lemma {:induction false} SplitNoSeparator(t: string, sep: char)
    requires sep !in t
    ensures Split(t, sep) == [t]
  {
    if t != [] {
      assert sep !in t[1..];
      SplitNoSeparator(t[1..], sep);
      assert [t[0]] + t[1..] == t;
    }
  }

  /** Splitting at the first separator, when the piece before it has none. */
  lemma {:induction false} SplitAfterPiece(t: string, sep: char, u: string)
    requires sep !in t
    ensures Split(t + [sep] + u, sep) == [t] + Split(u, sep)
  {
    if t == [] {
      assert t + [sep] + u == [sep] + u;
      assert ([sep] + u)[1..] == u;
    } else {
      var s := t + [sep] + u;
      assert s[0] == t[0] && s[1..] == t[1..] + [sep] + u;
      assert sep !in t[1..];
      SplitAfterPiece(t[1..], sep, u);
      assert [t[0]] + t[1..] == t;
    }
  }

  /** Splitting the join of separator-free pieces gives back the pieces. */
  lemma {:induction false} SplitJoin(ts: seq<string>, sep: char)
    requires |ts| >= 1
    requires forall i :: 0 <= i < |ts| ==> sep !in ts[i]
    ensures Split(Join(ts, sep), sep) == ts
  {
    if |ts| == 1 {
      SplitNoSeparator(ts[0], sep);
    } else {
      SplitJoin(ts[1..], sep);
      SplitAfterPiece(ts[0], sep, Join(ts[1..], sep));
      assert [ts[0]] + ts[1..] == ts;
    }
  }

  /** `t.startswith(k)`. */
  predicate IsPrefix(k: string, t: string)
  {
    |k| <= |t| && t[..|k|] == k
  }

  /** Python's `k in s` on strings: `k` occurs as a contiguous piece of `s`. */
  predicate Contains(s: string, k: string)
  {
    IsPrefix(k, s) || (s != [] && Contains(s[1..], k))
  }

  /** `k` occurs in `s` starting at position `i`. */
  predicate OccursAt(s: string, k: string, i: int)
  {
    0 <= i && i + |k| <= |s| && s[i..i + |k|] == k
  }

  /** `Contains` agrees with the positional definition of a substring. */
  lemma {:induction false} ContainsAt(s: string, k: string)
    ensures Contains(s, k) <==> exists i :: OccursAt(s, k, i)
  {
    if IsPrefix(k, s) {
      assert OccursAt(s, k, 0);
    }
    if s != [] {
      ContainsAt(s[1..], k);
      if Contains(s[1..], k) {
        var i :| OccursAt(s[1..], k, i);
        assert s[1..][i..i + |k|] == s[i + 1..i + 1 + |k|];
        assert OccursAt(s, k, i + 1);
      }
      if exists i :: OccursAt(s, k, i) {
        var i :| OccursAt(s, k, i);
        if i > 0 {
          assert s[1..][i - 1..i - 1 + |k|] == s[i..i + |k|];
          assert OccursAt(s[1..], k, i - 1);
        } else {
          assert s[..|k|] == k;
        }
      }
    } else {
      if exists i :: OccursAt(s, k, i) {
        var i :| OccursAt(s, k, i);
        assert k == [];
        assert IsPrefix(k, s);
      }
    }
  }

  /** The empty string is contained in every string. */
  lemma EmptyContained(s: string)
    ensures Contains(s, "")
  {
    assert IsPrefix("", s);
  }

  predicate IsDigit(c: char)
  {
    '0' <= c <= '9'
  }

  predicate AllDigits(s: string)
  {
    forall i :: 0 <= i < |s| ==> IsDigit(s[i])
  }

  function DigitValue(c: char): nat
    requires IsDigit(c)
  {
    (c as int) - ('0' as int)
  }

  /** The value of a string of decimal digits, most significant first. */
  function DigitsValue(ds: string): nat
    requires AllDigits(ds)
  {
    if ds == [] then 0 else DigitsValue(ds[..|ds| - 1]) * 10 + DigitValue(ds[|ds| - 1])
  }

  /** `int(s)` restricted to an optional sign followed by one or more ASCII
      digits; everything else raises ValueError, modelled as None. */
  function ParseInt(s: string): (r: Option<int>)
    ensures r.Some? ==> |s| > 0 && (IsDigit(s[0]) || s[0] == '+' || s[0] == '-')
  {
    if |s| > 1 && (s[0] == '+' || s[0] == '-') && AllDigits(s[1..]) then
      var magnitude: int := DigitsValue(s[1..]);
      Some(if s[0] == '-' then -magnitude else magnitude)
    else if |s| > 0 && AllDigits(s) then Some(DigitsValue(s))
    else None
  }

  function DigitChar(d: nat): (c: char)
    requires d < 10
    ensures IsDigit(c) && DigitValue(c) == d
  {
    ('0' as int + d) as char
  }

  /** `str(n)` for a natural number. */
  function DecimalString(n: nat): (r: string)
    ensures |r| > 0 && AllDigits(r)
  {
    if n < 10 then [DigitChar(n)] else DecimalString(n / 10) + [DigitChar(n % 10)]
  }

  lemma {:induction false} DecimalStringValue(n: nat)
    ensures DigitsValue(DecimalString(n)) == n
  {
    var r := DecimalString(n);
    if n < 10 {
      assert r[..|r| - 1] == [];
    } else {
      DecimalStringValue(n / 10);
      assert r[..|r| - 1] == DecimalString(n / 10);
    }
  }

  /** `int(str(n)) == n`. */
  lemma ParseDecimalString(n: nat)
    ensures ParseInt(DecimalString(n)) == Some(n)
  {
    DecimalStringValue(n);
  }

  /** An ASCII letter anywhere in the string makes base-10 `int()` fail. */
  lemma NonNumericIsNone(s: string, i: nat)
    requires i < |s| && ('a' <= s[i] <= 'z' || 'A' <= s[i] <= 'Z')
    ensures ParseInt(s) == None
  {
    if i > 0 {
      assert s[1..][i - 1] == s[i];
    }
  }
}
