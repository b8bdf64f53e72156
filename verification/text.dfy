// String helpers the analyzer relies on from Rust's standard library:
// substring search, decimal rendering of line numbers, ASCII lower-casing,
// joining and trimming.

module Text {

  predicate IsPrefix(p: string, s: string)
  {
    |p| <= |s| && s[..|p|] == p
  }

  /** `str::contains`: `sub` occurs somewhere in `s`. */
  function Contains(s: string, sub: string): bool
  {
    if IsPrefix(sub, s) then true
    else if s == [] then false
    else Contains(s[1..], sub)
  }

  /** `sub` starts at position `i` of `s`. */
  predicate OccursAt(s: string, sub: string, i: int)
  {
    0 <= i <= |s| - |sub| && s[i..i + |sub|] == sub
  }

  /** `Contains` agrees with the positional definition of an occurrence. */
  lemma {:induction false} ContainsIff(s: string, sub: string)
    ensures Contains(s, sub) <==> exists i :: OccursAt(s, sub, i)
  {
    if IsPrefix(sub, s) {
      assert OccursAt(s, sub, 0);
    } else if s == [] {
    } else {
      ContainsIff(s[1..], sub);
      if exists i :: OccursAt(s, sub, i) {
        var i :| OccursAt(s, sub, i);
        if i > 0 {
          assert s[1..][i - 1..i - 1 + |sub|] == s[i..i + |sub|];
          assert OccursAt(s[1..], sub, i - 1);
        }
      }
      if Contains(s[1..], sub) {
        var j :| OccursAt(s[1..], sub, j);
        assert s[j + 1..j + 1 + |sub|] == s[1..][j..j + |sub|];
        assert OccursAt(s, sub, j + 1);
      }
    }
  }

  /** An occurrence in `a` is still one in `a + b`. */
  lemma ContainsAppend(a: string, b: string, sub: string)
    requires Contains(a, sub)
    ensures Contains(a + b, sub)
  {
    ContainsIff(a, sub);
    ContainsIff(a + b, sub);
    var i :| OccursAt(a, sub, i);
    assert (a + b)[i..i + |sub|] == a[i..i + |sub|];
    assert OccursAt(a + b, sub, i);
  }

  /** Whatever contains `sub` contains its first character. */
  lemma ContainsFirstChar(s: string, sub: string)
    requires sub != [] && Contains(s, sub)
    ensures sub[0] in s
  {
    ContainsIff(s, sub);
    var i :| OccursAt(s, sub, i);
    assert s[i] == s[i..i + |sub|][0];
  }

  /** A string lacking the first character of `sub` does not contain `sub`. */
  lemma MissingFirstChar(s: string, sub: string)
    requires sub != [] && sub[0] !in s
    ensures !Contains(s, sub)
  {
    if Contains(s, sub) {
      ContainsFirstChar(s, sub);
    }
  }

  /** A witness position is enough to establish `Contains`. */
  lemma ContainsAt(s: string, sub: string, i: nat)
    requires OccursAt(s, sub, i)
    ensures Contains(s, sub)
  {
    ContainsIff(s, sub);
  }

  /** A string contains each of the pieces it is built from. */
  lemma ContainsMiddle(a: string, b: string, c: string)
    ensures Contains(a + b + c, b)
  {
    var s := a + b + c;
    assert s[|a|..|a| + |b|] == b;
    ContainsAt(s, b, |a|);
  }

  // ---------------------------------------------------------------------
  // Decimal rendering (Rust's `{}` for unsigned integers)

  function DigitChar(d: nat): char
    requires d < 10
  {
    "0123456789"[d]
  }

  function DigitValue(c: char): nat
  {
    if '0' <= c <= '9' then (c as int - '0' as int) as nat else 0
  }

  predicate IsDigit(c: char)
  {
    '0' <= c <= '9'
  }

  function NatToString(n: nat): (r: string)
    ensures |r| >= 1
    ensures forall i :: 0 <= i < |r| ==> IsDigit(r[i])
  {
    if n < 10 then [DigitChar(n)] else NatToString(n / 10) + [DigitChar(n % 10)]
  }

  /** Reads a string of decimal digits back as a number. */
  function DigitsValue(s: string): nat
  {
    if s == [] then 0 else 10 * DigitsValue(s[..|s| - 1]) + DigitValue(s[|s| - 1])
  }

  /** Rendering a number and reading it back gives the number: the rendering loses nothing. */
  lemma {:induction false} NatToStringRoundTrip(n: nat)
    ensures DigitsValue(NatToString(n)) == n
  {
    var r := NatToString(n);
    if n < 10 {
      assert r[..|r| - 1] == [];
    } else {
      NatToStringRoundTrip(n / 10);
      assert r[..|r| - 1] == NatToString(n / 10);
    }
  }

  lemma NatToStringInjective(m: nat, n: nat)
    requires NatToString(m) == NatToString(n)
    ensures m == n
  {
    NatToStringRoundTrip(m);
    NatToStringRoundTrip(n);
  }

  // ---------------------------------------------------------------------
  // ASCII lower-casing (`str::to_lowercase` restricted to ASCII)

  function LowerChar(c: char): char
  {
    if 'A' <= c <= 'Z' then (c as int + 32) as char else c
  }

  function ToLower(s: string): (r: string)
    ensures |r| == |s|
    ensures forall i :: 0 <= i < |s| ==> r[i] == LowerChar(s[i])
  {
    if s == [] then [] else [LowerChar(s[0])] + ToLower(s[1..])
  }

  lemma ToLowerIdempotent(s: string)
    ensures ToLower(ToLower(s)) == ToLower(s)
  {
  }

  // ---------------------------------------------------------------------
  // Joining and trimming

  /** `parts.join(sep)`. */
  function Join(parts: seq<string>, sep: string): string
  {
    if parts == [] then ""
    else if |parts| == 1 then parts[0]
    else parts[0] + sep + Join(parts[1..], sep)
  }

  /** `str::trim_matches(c)`: every leading and trailing `c` removed. */
  function TrimMatches(s: string, c: char): (r: string)
    ensures |r| <= |s|
    ensures r == [] || (r[0] != c && r[|r| - 1] != c)
  {
    if s == [] then s
    else if s[0] == c then TrimMatches(s[1..], c)
    else if s[|s| - 1] == c then TrimMatches(s[..|s| - 1], c)
    else s
  }

  /** `s[i..j]` is what is left of `s` once `s[..i]` and `s[j..]`, all `c`, are cut away. */
  predicate CutAt(s: string, c: char, i: nat, j: nat)
  {
    i <= j <= |s| &&
    (forall k :: 0 <= k < i ==> s[k] == c) &&
    (forall k :: j <= k < |s| ==> s[k] == c)
  }

  /**
   * Trimming cuts a run of `c` from the front and a run of `c` from the back
   * and keeps what lies between, unchanged.
   */
  lemma {:induction false} TrimMatchesSlice(s: string, c: char)
    ensures exists i: nat, j: nat :: CutAt(s, c, i, j) && TrimMatches(s, c) == s[i..j]
  {
    if s == [] {
      assert CutAt(s, c, 0, 0) && TrimMatches(s, c) == s[0..0];
    } else if s[0] == c {
      TrimMatchesSlice(s[1..], c);
      var i: nat, j: nat :| CutAt(s[1..], c, i, j) && TrimMatches(s[1..], c) == s[1..][i..j];
      CutFront(s, c, i, j);
    } else if s[|s| - 1] == c {
      TrimMatchesSlice(s[..|s| - 1], c);
      var i: nat, j: nat :| CutAt(s[..|s| - 1], c, i, j) && TrimMatches(s[..|s| - 1], c) == s[..|s| - 1][i..j];
      CutBack(s, c, i, j);
    } else {
      assert CutAt(s, c, 0, |s|) && TrimMatches(s, c) == s[0..|s|];
    }
  }

  lemma CutFront(s: string, c: char, i: nat, j: nat)
    requires s != [] && s[0] == c && CutAt(s[1..], c, i, j)
    ensures CutAt(s, c, i + 1, j + 1) && s[1..][i..j] == s[i + 1..j + 1]
  {
    var t := s[1..];
    forall k | 0 <= k < i + 1
      ensures s[k] == c
    {
      if k > 0 {
        assert s[k] == t[k - 1];
      }
    }
    forall k | j + 1 <= k < |s|
      ensures s[k] == c
    {
      assert s[k] == t[k - 1];
    }
  }

  lemma CutBack(s: string, c: char, i: nat, j: nat)
    requires s != [] && s[|s| - 1] == c && CutAt(s[..|s| - 1], c, i, j)
    ensures CutAt(s, c, i, j) && s[..|s| - 1][i..j] == s[i..j]
  {
    var t := s[..|s| - 1];
    forall k | 0 <= k < i
      ensures s[k] == c
    {
      assert s[k] == t[k];
    }
    forall k | j <= k < |s|
      ensures s[k] == c
    {
      if k < |s| - 1 {
        assert s[k] == t[k];
      }
    }
  }
}
