/** The parts of Rust's `str`/`String` library the core relies on: `trim`, `join`,
    decimal formatting of integers and the ordering of `String`. */
module Strings {

  // ---------------------------------------------------------------------------
  // Whitespace and trimming
  // ---------------------------------------------------------------------------

  /** `char::is_whitespace`: the characters with the Unicode White_Space property. */
  predicate IsWhitespace(c: char) {
    || c == ' '
    || ('\t' <= c <= '\r')
    || c == '\U{85}' || c == '\U{A0}' || c == '\U{1680}'
    || ('\U{2000}' <= c <= '\U{200A}')
    || c == '\U{2028}' || c == '\U{2029}' || c == '\U{202F}' || c == '\U{205F}' || c == '\U{3000}'
  }

  predicate AllWhitespace(s: string) {
    forall i :: 0 <= i < |s| ==> IsWhitespace(s[i])
  }

  /** `str::trim_start`: drops the leading whitespace, and nothing else. */
  function TrimStart(s: string): (r: string)
    ensures |r| <= |s| && r == s[|s| - |r|..]
    ensures AllWhitespace(s[..|s| - |r|])
    ensures r == [] || !IsWhitespace(r[0])
  {
    if s != [] && IsWhitespace(s[0]) then
      var r := TrimStart(s[1..]);
      TrimStartStep(s, r);
      r
    else
      assert s[..0] == [];
      s
  }

  /** Dropping one more leading whitespace character. */
  lemma TrimStartStep(s: string, r: string)
    requires s != [] && IsWhitespace(s[0])
    requires |r| <= |s| - 1 && r == s[1..][|s| - 1 - |r|..] && AllWhitespace(s[1..][..|s| - 1 - |r|])
    ensures r == s[|s| - |r|..] && AllWhitespace(s[..|s| - |r|])
  {
    var n := |s| - |r|;
    assert s[1..][n - 1..] == s[n..];
    assert s[..n] == [s[0]] + s[1..][..n - 1];
  }

  /** `str::trim_end`: drops the trailing whitespace, and nothing else. */
  function TrimEnd(s: string): (r: string)
    ensures |r| <= |s| && r == s[..|r|]
    ensures AllWhitespace(s[|r|..])
    ensures r == [] || !IsWhitespace(r[|r| - 1])
  {
    if s != [] && IsWhitespace(s[|s| - 1]) then
      var r := TrimEnd(s[..|s| - 1]);
      TrimEndStep(s, r);
      r
    else
      assert s[|s|..] == [];
      s
  }

  /** Dropping one more trailing whitespace character. */
  lemma TrimEndStep(s: string, r: string)
    requires s != [] && IsWhitespace(s[|s| - 1])
    requires |r| <= |s| - 1 && r == s[..|s| - 1][..|r|] && AllWhitespace(s[..|s| - 1][|r|..])
    ensures r == s[..|r|] && AllWhitespace(s[|r|..])
  {
    assert s[..|s| - 1][..|r|] == s[..|r|];
    assert s[|r|..] == s[..|s| - 1][|r|..] + [s[|s| - 1]];
  }

  /** `r` is the slice of `s` starting at `i`, with only whitespace before and after it. */
  predicate IsTrimmedSlice(s: string, r: string, i: int) {
    0 <= i <= |s| - |r| && r == s[i..i + |r|] && AllWhitespace(s[..i]) && AllWhitespace(s[i + |r|..])
  }

  /** `str::trim`. The result is empty exactly for a whitespace-only input and
      otherwise neither starts nor ends with whitespace. */
  function Trim(s: string): (r: string)
    ensures r == [] <==> AllWhitespace(s)
    ensures r != [] ==> !IsWhitespace(r[0]) && !IsWhitespace(r[|r| - 1])
  {
    TrimShape(s);
    TrimEnd(TrimStart(s))
  }

  /** Trimming keeps a slice of the input and cuts only whitespace on either side. */
  lemma TrimIsSlice(s: string)
    ensures exists i :: IsTrimmedSlice(s, Trim(s), i)
  {
    var m := TrimStart(s);
    var r := TrimEnd(m);
    assert Trim(s) == r;
    CutBothEnds(s, m, r);
    assert IsTrimmedSlice(s, r, |s| - |m|);
  }

  /** `r`, a prefix of the suffix `m` of `s`, is a slice of `s` between the cut parts. */
  lemma CutBothEnds(s: string, m: string, r: string)
    requires |m| <= |s| && m == s[|s| - |m|..] && AllWhitespace(s[..|s| - |m|])
    requires |r| <= |m| && r == m[..|r|] && AllWhitespace(m[|r|..])
    ensures IsTrimmedSlice(s, r, |s| - |m|)
  {
    var i := |s| - |m|;
    assert r == s[i..i + |r|];
    assert s[i + |r|..] == m[|r|..];
  }

  lemma TrimShape(s: string)
    ensures TrimEnd(TrimStart(s)) == [] <==> AllWhitespace(s)
    ensures var r := TrimEnd(TrimStart(s)); r != [] ==> !IsWhitespace(r[0]) && !IsWhitespace(r[|r| - 1])
  {
    var m := TrimStart(s);
    var r := TrimEnd(m);
    TrimStartEmpty(s);
    TrimEndEmpty(m);
    if m != [] {
      assert !AllWhitespace(m) by { assert !IsWhitespace(m[0]); }
    }
    if r != [] {
      assert r[0] == m[0];
    }
  }

  lemma TrimStartEmpty(s: string)
    ensures TrimStart(s) == [] <==> AllWhitespace(s)
  {
    var m := TrimStart(s);
    if m == [] {
      assert s[..|s|] == s;
    } else {
      assert !IsWhitespace(s[|s| - |m|]);
    }
  }

  lemma TrimEndEmpty(s: string)
    ensures TrimEnd(s) == [] <==> AllWhitespace(s)
  {
    var r := TrimEnd(s);
    if r == [] {
      assert s[0..] == s;
    } else {
      assert !IsWhitespace(s[|r| - 1]);
    }
  }

  lemma {:induction false} TrimStartSkips(w: string, s: string)
    requires AllWhitespace(w)
    ensures TrimStart(w + s) == TrimStart(s)
    decreases |w|
  {
    if w != [] {
      assert (w + s)[1..] == w[1..] + s;
      TrimStartSkips(w[1..], s);
    } else {
      assert w + s == s;
    }
  }

  lemma {:induction false} TrimStartKeepsTail(s: string, t: string)
    requires TrimStart(s) != []
    ensures TrimStart(s + t) == TrimStart(s) + t
    decreases |s|
  {
    assert (s + t)[0] == s[0];
    if IsWhitespace(s[0]) {
      assert (s + t)[1..] == s[1..] + t;
      TrimStartKeepsTail(s[1..], t);
    }
  }

  lemma {:induction false} TrimEndSkips(s: string, w: string)
    requires AllWhitespace(w)
    ensures TrimEnd(s + w) == TrimEnd(s)
    decreases |w|
  {
    if w != [] {
      var n := |w| - 1;
      assert (s + w)[|s + w| - 1] == w[n];
      assert (s + w)[..|s + w| - 1] == s + w[..n];
      TrimEndSkips(s, w[..n]);
    } else {
      assert s + w == s;
    }
  }

  lemma AllWhitespaceConcat(s: string, w: string)
    requires AllWhitespace(s) && AllWhitespace(w)
    ensures AllWhitespace(s + w)
  {
    forall i | 0 <= i < |s + w| ensures IsWhitespace((s + w)[i]) {
      if i < |s| {
        assert (s + w)[i] == s[i];
      } else {
        assert (s + w)[i] == w[i - |s|];
      }
    }
  }

  /** Trailing whitespace does not change what is left after the leading whitespace
      and the trailing whitespace are gone. */
  lemma TrimSkipsTrailing(s: string, w: string)
    requires AllWhitespace(w)
    ensures TrimEnd(TrimStart(s + w)) == TrimEnd(TrimStart(s))
  {
    TrimStartEmpty(s);
    if TrimStart(s) == [] {
      AllWhitespaceConcat(s, w);
      TrimStartEmpty(s + w);
    } else {
      TrimStartKeepsTail(s, w);
      TrimEndSkips(TrimStart(s), w);
    }
  }

  /** Whitespace added before or after a string does not change its trimmed form. */
  lemma TrimIgnoresPadding(w1: string, s: string, w2: string)
    requires AllWhitespace(w1) && AllWhitespace(w2)
    ensures Trim(w1 + s + w2) == Trim(s)
  {
    var padded, tail := w1 + s + w2, s + w2;
    assert padded == w1 + tail;
    TrimStartSkips(w1, tail);
    assert TrimStart(padded) == TrimStart(tail);
    TrimSkipsTrailing(s, w2);
    assert Trim(padded) == TrimEnd(TrimStart(tail));
  }

  // ---------------------------------------------------------------------------
  // Joining and decimal formatting
  // ---------------------------------------------------------------------------

  /** `[String]::join(sep)`. */
  function Join(parts: seq<string>, sep: string): string
  {
    if parts == [] then ""
    else if |parts| == 1 then parts[0]
    else parts[0] + sep + Join(parts[1..], sep)
  }

  /** Joining no parts gives the empty string, and joining one part gives that part. */
  lemma JoinShort(x: string, sep: string)
    ensures Join([], sep) == "" && Join([x], sep) == x
  {
  }

  /** Joining one more part appends the separator and the part. */
  lemma {:induction false} JoinSnoc(parts: seq<string>, x: string, sep: string)
    requires parts != []
    ensures Join(parts + [x], sep) == Join(parts, sep) + sep + x
    decreases |parts|
  {
    if |parts| == 1 {
      assert parts + [x] == [parts[0], x];
    } else {
      assert (parts + [x])[1..] == parts[1..] + [x];
      JoinSnoc(parts[1..], x, sep);
    }
  }

  predicate IsDigits(s: string) {
    forall i :: 0 <= i < |s| ==> '0' <= s[i] <= '9'
  }

  function DigitChar(d: nat): (c: char)
    requires d < 10
  {
    ('0' as int + d) as char
  }

  /** `format!("{}", n)` for an unsigned integer: decimal digits, no leading zero. */
  function NatToString(n: nat): (r: string)
    ensures r != [] && IsDigits(r)
    ensures r[0] == '0' ==> n == 0
    decreases n
  {
    if n < 10 then [DigitChar(n)] else NatToString(n / 10) + [DigitChar(n % 10)]
  }

  /** The number a string of decimal digits denotes. */
  function DigitsValue(s: string): nat
    requires IsDigits(s)
  {
    if s == [] then 0
    else DigitsValue(s[..|s| - 1]) * 10 + (s[|s| - 1] as int - '0' as int)
  }

  /** Decimal formatting loses nothing: the digits read back as the number. */
  lemma {:induction false} NatToStringRoundTrip(n: nat)
    ensures DigitsValue(NatToString(n)) == n
    decreases n
  {
    if n >= 10 {
      var s := NatToString(n);
      assert s[..|s| - 1] == NatToString(n / 10);
      NatToStringRoundTrip(n / 10);
    }
  }

  lemma NatToStringInjective(m: nat, n: nat)
    requires NatToString(m) == NatToString(n)
    ensures m == n
  {
    NatToStringRoundTrip(m);
    NatToStringRoundTrip(n);
  }

  // ---------------------------------------------------------------------------
  // The order of `String`
  // ---------------------------------------------------------------------------

  /** `a < b` for Rust strings: lexicographic on UTF-8 bytes, which is the
      lexicographic order on code points. */
  predicate Less(a: string, b: string)
    decreases |a|
  {
    b != [] && (a == [] || a[0] < b[0] || (a[0] == b[0] && Less(a[1..], b[1..])))
  }

  lemma {:induction false} LessIrreflexive(a: string)
    ensures !Less(a, a)
    decreases |a|
  {
    if a != [] {
      LessIrreflexive(a[1..]);
    }
  }

  lemma {:induction false} LessTransitive(a: string, b: string, c: string)
    requires Less(a, b) && Less(b, c)
    ensures Less(a, c)
    decreases |a|
  {
    if a != [] && a[0] == b[0] && b[0] == c[0] {
      LessTransitive(a[1..], b[1..], c[1..]);
    }
  }

  lemma {:induction false} LessTotal(a: string, b: string)
    ensures a == b || Less(a, b) || Less(b, a)
    decreases |a|
  {
    if a != [] && b != [] && a[0] == b[0] {
      LessTotal(a[1..], b[1..]);
      if a[1..] == b[1..] {
        assert a == [a[0]] + a[1..] && b == [b[0]] + b[1..];
      }
    }
  }

  lemma LessAsymmetric(a: string, b: string)
    requires Less(a, b)
    ensures !Less(b, a)
  {
    if Less(b, a) {
      LessTransitive(a, b, a);
      LessIrreflexive(a);
    }
  }

  predicate IsMinimum(m: string, s: set<string>) {
    m in s && forall y :: y in s ==> y == m || Less(m, y)
  }

  /** Every finite non-empty set of strings has a least element. */
  lemma {:induction false} MinimumExists(s: set<string>)
    requires s != {}
    ensures exists m :: IsMinimum(m, s)
    decreases |s|
  {
    var x :| x in s;
    var rest := s - {x};
    if rest == {} {
      assert s == {x};
      assert IsMinimum(x, s);
    } else {
      MinimumExists(rest);
      var m :| IsMinimum(m, rest);
      LessTotal(x, m);
      if Less(x, m) {
        forall y | y in s ensures y == x || Less(x, y) {
          if y != x && y != m { LessTransitive(x, m, y); }
        }
        assert IsMinimum(x, s);
      } else {
        assert IsMinimum(m, s);
      }
    }
  }

  /** No duplicates and every element below the next, as a `Vec` after `sort` on distinct keys. */
  predicate StrictlySorted(s: seq<string>) {
    forall i, j :: 0 <= i < j < |s| ==> Less(s[i], s[j])
  }

  /** `s` lists exactly the strings of `keys`, in increasing order. */
  ghost predicate SortedListing(s: seq<string>, keys: set<string>) {
    StrictlySorted(s) && (forall x :: x in s <==> x in keys)
  }

  lemma SortedListingEmpty(s: seq<string>, keys: set<string>)
    requires SortedListing(s, keys)
    ensures s == [] <==> keys == {}
  {
    if s != [] {
      assert s[0] in s;
    }
    if keys != {} {
      var x :| x in keys;
      assert x in s;
    }
  }

  /** A set has only one sorted listing. */
  lemma {:induction false} SortedListingUnique(s: seq<string>, t: seq<string>, keys: set<string>)
    requires SortedListing(s, keys) && SortedListing(t, keys)
    ensures s == t
    decreases |s|
  {
    SortedListingEmpty(s, keys);
    SortedListingEmpty(t, keys);
    if s != [] {
      if s[0] != t[0] {
        assert t[0] in t && t[0] in keys && t[0] in s;
        var j :| 0 <= j < |s| && s[j] == t[0];
        assert s[0] in s && s[0] in keys && s[0] in t;
        var k :| 0 <= k < |t| && t[k] == s[0];
        assert j > 0 && k > 0;
        assert Less(s[0], t[0]) && Less(t[0], s[0]);
        LessAsymmetric(s[0], t[0]);
        assert false;
      }
      var rest := keys - {s[0]};
      forall x ensures x in s[1..] <==> x in rest {
        if x in s[1..] {
          var i :| 1 <= i < |s| && s[i] == x;
          LessIrreflexive(x);
        }
        if x in rest {
          var i :| 0 <= i < |s| && s[i] == x;
          assert i != 0;
          assert s[1..][i - 1] == x;
        }
      }
      forall x ensures x in t[1..] <==> x in rest {
        if x in t[1..] {
          var i :| 1 <= i < |t| && t[i] == x;
          LessIrreflexive(x);
        }
        if x in rest {
          var i :| 0 <= i < |t| && t[i] == x;
          assert i != 0;
          assert t[1..][i - 1] == x;
        }
      }
      SortedListingUnique(s[1..], t[1..], rest);
      assert s == [s[0]] + s[1..] && t == [t[0]] + t[1..];
    }
  }

  ghost function MinimumOf(s: set<string>): (m: string)
    requires s != {}
    ensures IsMinimum(m, s)
  {
    MinimumExists(s);
    var m :| IsMinimum(m, s); m
  }

  /** Every finite set of strings can be listed in increasing order: take its least
      element first. */
  lemma {:induction false} SortedListingExists(keys: set<string>)
    ensures exists s :: SortedListing(s, keys)
    decreases |keys|
  {
    if keys == {} {
      assert SortedListing([], keys);
    } else {
      var m := MinimumOf(keys);
      SortedListingExists(keys - {m});
      var rest :| SortedListing(rest, keys - {m});
      assert forall i :: 0 <= i < |rest| ==> rest[i] in rest;
      assert forall i :: 0 <= i < |rest| ==> Less(m, rest[i]);
      assert SortedListing([m] + rest, keys);
    }
  }

  /** The sorted listing of a set of strings. */
  ghost function SortedKeys(keys: set<string>): (r: seq<string>)
    ensures SortedListing(r, keys)
  {
    SortedListingExists(keys);
    var s :| SortedListing(s, keys); s
  }
}
