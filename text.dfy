/**
 * The handful of Kotlin string operations the core relies on: `trim`,
 * `isBlank`, `ifBlank`, `split`, `joinToString`, `contains`, `replace(x, "")`
 * and decimal rendering of an `Int`.
 */
module Text {

  /** Whitespace as the model sees it (the ASCII subset of `Char.isWhitespace`). */
  predicate IsWhitespace(c: char) {
    c == ' ' || c == '\t' || c == '\n' || c == '\r' || c == '\U{B}' || c == '\U{C}'
  }

  /** `isBlank()`: empty or whitespace only. */
  predicate IsBlank(s: string) {
    forall i | 0 <= i < |s| :: IsWhitespace(s[i])
  }

  /** `ifBlank { d }`. */
  function IfBlank(s: string, d: string): (r: string)
    ensures IsBlank(s) ==> r == d
    ensures !IsBlank(s) ==> r == s
  {
    if IsBlank(s) then d else s
  }

  /** Drops leading whitespace. */
  function TrimStart(s: string): (r: string)
    ensures |r| <= |s| && r == s[|s| - |r|..]
    ensures forall k | 0 <= k < |s| - |r| :: IsWhitespace(s[k])
    ensures r == [] || !IsWhitespace(r[0])
  {
    if s != [] && IsWhitespace(s[0]) then TrimStart(s[1..]) else s
  }

  /** Drops trailing whitespace. */
  function TrimEnd(s: string): (r: string)
    ensures |r| <= |s| && r == s[..|r|]
    ensures forall k | |r| <= k < |s| :: IsWhitespace(s[k])
    ensures r == [] || !IsWhitespace(r[|r| - 1])
  {
    if s != [] && IsWhitespace(s[|s| - 1]) then TrimEnd(s[..|s| - 1]) else s
  }

  /** `trim()`. */
  function Trim(s: string): (r: string)
  {
    TrimEnd(TrimStart(s))
  }

  lemma TrimStartOfClean(s: string)
    requires s == [] || !IsWhitespace(s[0])
    ensures TrimStart(s) == s
  {
  }

  /** Trimming is idempotent, and a string trims to empty exactly when it is blank. */
  lemma TrimProperties(s: string)
    ensures Trim(Trim(s)) == Trim(s)
    ensures Trim(s) == [] <==> IsBlank(s)
  {
    var a := TrimStart(s);
    var t := TrimEnd(a);
    if t != [] {
      assert t[0] == a[0];
      TrimStartOfClean(t);
    }
  }

  /** Number of occurrences in `s` of characters from `seps`. */
  function CountIn(s: string, seps: set<char>): nat
  {
    if s == [] then 0 else (if s[0] in seps then 1 else 0) + CountIn(s[1..], seps)
  }

  /**
   * `split(d1, d2, ...)` for one-character delimiters: cuts at every
   * delimiter and keeps empty pieces, so n delimiters give n + 1 parts.
   */
  function Split(s: string, seps: set<char>): (parts: seq<string>)
    ensures |parts| == CountIn(s, seps) + 1
    ensures forall p <- parts, c <- p :: c !in seps
  {
    if s == [] then [[]]
    else
      var rest := Split(s[1..], seps);
      if s[0] in seps then [[]] + rest else [[s[0]] + rest[0]] + rest[1..]
  }

  /** `joinToString(sep)`. */
  function Join(parts: seq<string>, sep: char): string
  {
    if parts == [] then []
    else if |parts| == 1 then parts[0]
    else parts[0] + [sep] + Join(parts[1..], sep)
  }

  lemma CountInPositive(s: string, seps: set<char>)
    ensures CountIn(s, seps) > 0 <==> exists i :: 0 <= i < |s| && s[i] in seps
  {
    if s != [] {
      CountInPositive(s[1..], seps);
      if CountIn(s[1..], seps) > 0 {
        var i :| 0 <= i < |s[1..]| && s[1..][i] in seps;
        assert s[i + 1] in seps;
      }
    }
  }

  lemma {:induction false} JoinCons(p: string, rest: seq<string>, sep: char)
    requires rest != []
    ensures Join([p] + rest, sep) == p + [sep] + Join(rest, sep)
  {
    assert ([p] + rest)[1..] == rest;
  }

  /** Joining the pieces of a split with the one delimiter gives the string back. */
  lemma {:induction false} JoinSplit(s: string, sep: char)
    ensures Join(Split(s, {sep}), sep) == s
  {
    if s != [] {
      var rest := Split(s[1..], {sep});
      JoinSplit(s[1..], sep);
      if s[0] == sep {
        JoinCons([], rest, sep);
      } else if |rest| == 1 {
      } else {
        assert rest == [rest[0]] + rest[1..];
        JoinCons(rest[0], rest[1..], sep);
        JoinCons([s[0]] + rest[0], rest[1..], sep);
      }
    }
  }

  /** Splitting a join of delimiter-free pieces gives the pieces back. */
  lemma {:induction false} SplitJoin(parts: seq<string>, sep: char)
    requires parts != []
    requires forall p <- parts :: sep !in p
    ensures Split(Join(parts, sep), {sep}) == parts
  {
    if |parts| == 1 {
      SplitNoSep(parts[0], sep);
    } else {
      JoinCons(parts[0], parts[1..], sep);
      SplitJoin(parts[1..], sep);
      SplitPrefix(parts[0], Join(parts[1..], sep), sep);
    }
  }

  lemma {:induction false} SplitNoSep(s: string, sep: char)
    requires sep !in s
    ensures Split(s, {sep}) == [s]
  {
    if s != [] {
      SplitNoSep(s[1..], sep);
      assert [s[0]] + s[1..] == s;
    }
  }

  lemma {:induction false} SplitPrefix(p: string, t: string, sep: char)
    requires sep !in p
    ensures Split(p + [sep] + t, {sep}) == [p] + Split(t, {sep})
  {
    if p == [] {
      assert p + [sep] + t == [sep] + t;
      assert ([sep] + t)[1..] == t;
    } else {
      assert (p + [sep] + t)[1..] == p[1..] + [sep] + t;
      SplitPrefix(p[1..], t, sep);
      assert [p[0]] + p[1..] == p;
    }
  }

  /** `k` occurs in `q` starting at index `i`. */
  predicate OccursAt(q: string, k: string, i: int) {
    0 <= i <= |q| - |k| && q[i..i + |k|] == k
  }

  /** `q.contains(k)`: some window of `q` spells `k`. */
  function Contains(q: string, k: string): (r: bool)
    ensures r <==> exists i :: OccursAt(q, k, i)
    decreases |q|
  {
    if k <= q then
      assert OccursAt(q, k, 0);
      true
    else if q == [] then
      false
    else
      OccursShift(q, k);
      Contains(q[1..], k)
  }

  /** Past a non-matching first window, the occurrences of `k` in `q` are those in `q[1..]`. */
  lemma OccursShift(q: string, k: string)
    requires q != [] && !(k <= q)
    ensures (exists i :: OccursAt(q, k, i)) <==> exists j :: OccursAt(q[1..], k, j)
  {
    if exists j :: OccursAt(q[1..], k, j) {
      var j :| OccursAt(q[1..], k, j);
      assert q[j + 1..j + 1 + |k|] == q[1..][j..j + |k|];
      assert OccursAt(q, k, j + 1);
    }
    if exists i :: OccursAt(q, k, i) {
      var i :| OccursAt(q, k, i);
      assert i != 0;
      assert q[1..][i - 1..i - 1 + |k|] == q[i..i + |k|];
      assert OccursAt(q[1..], k, i - 1);
    }
  }

  /**
   * `s.replace(pat, "")`: removes the occurrences of `pat` found by a
   * left-to-right scan that resumes after each removed occurrence.
   */
  function RemoveAll(s: string, pat: string): string
    requires pat != []
    decreases |s|
  {
    if |s| < |pat| then s
    else if pat <= s then RemoveAll(s[|pat|..], pat)
    else [s[0]] + RemoveAll(s[1..], pat)
  }

  /** Removing occurrences of a pattern never introduces a character. */
  lemma {:induction false} RemoveAllChars(s: string, pat: string)
    requires pat != []
    ensures forall c <- RemoveAll(s, pat) :: c in s
    decreases |s|
  {
    if |s| >= |pat| {
      if pat <= s {
        RemoveAllChars(s[|pat|..], pat);
        assert forall c <- s[|pat|..] :: c in s;
      } else {
        RemoveAllChars(s[1..], pat);
        assert forall c <- s[1..] :: c in s;
      }
    }
  }

  /** A string in which the pattern's first character never occurs is left as it is. */
  lemma {:induction false} RemoveAllForeign(s: string, pat: string)
    requires pat != []
    requires forall c <- s :: c != pat[0]
    ensures RemoveAll(s, pat) == s
    decreases |s|
  {
    if |s| >= |pat| {
      assert s[0] in s;
      assert forall c <- s[1..] :: c in s;
      RemoveAllForeign(s[1..], pat);
      assert [s[0]] + s[1..] == s;
    }
  }

  /** A trailing occurrence after such a string is removed and nothing else. */
  lemma {:induction false} RemoveAllSuffix(p: string, pat: string)
    requires pat != []
    requires forall c <- p :: c != pat[0]
    ensures RemoveAll(p + pat, pat) == p
    decreases |p|
  {
    var s := p + pat;
    if p == [] {
      assert s == pat && s[|pat|..] == [];
    } else {
      assert s[0] == p[0] && p[0] in p;
      assert s[1..] == p[1..] + pat;
      assert forall c <- p[1..] :: c in p;
      RemoveAllSuffix(p[1..], pat);
      assert [p[0]] + p[1..] == p;
    }
  }

  /** A prefix in which the pattern's first character never occurs passes through untouched. */
  lemma {:induction false} RemoveAllForeignPrefix(p: string, q: string, pat: string)
    requires pat != []
    requires forall c <- p :: c != pat[0]
    ensures RemoveAll(p + q, pat) == p + RemoveAll(q, pat)
    decreases |p|
  {
    var s := p + q;
    if p == [] {
      assert s == q;
    } else if |s| < |pat| {
      assert |q| < |pat|;
    } else {
      assert s[0] == p[0] && p[0] in p;
      assert s[1..] == p[1..] + q;
      assert forall c <- p[1..] :: c in p;
      RemoveAllForeignPrefix(p[1..], q, pat);
      assert [p[0]] + p[1..] == p;
    }
  }

  /** Dropping a character distributes over concatenation. */
  lemma {:induction false} WithoutAppend(a: string, b: string, c: char)
    ensures Without(a + b, c) == Without(a, c) + Without(b, c)
  {
    if a == [] {
      assert a + b == b;
    } else {
      var ab := a + b;
      assert ab[0] == a[0] && ab[1..] == a[1..] + b;
      WithoutAppend(a[1..], b, c);
      var head := if a[0] == c then [] else [a[0]];
      assert Without(ab, c) == head + Without(a[1..] + b, c);
      assert Without(a, c) == head + Without(a[1..], c);
    }
  }

  /** Removing a one-character pattern keeps exactly the other characters, in order. */
  lemma {:induction false} RemoveCharAll(s: string, c: char)
    ensures RemoveAll(s, [c]) == Without(s, c)
    ensures c !in RemoveAll(s, [c])
  {
    if s != [] {
      RemoveCharAll(s[1..], c);
      if [c] <= s {
        assert s[1..] == s[|[c]|..];
      }
    }
  }

  /** The characters of `s` other than `c`, in order. */
  function Without(s: string, c: char): (r: string)
    ensures c !in r
    ensures |r| <= |s|
  {
    if s == [] then [] else (if s[0] == c then [] else [s[0]]) + Without(s[1..], c)
  }

  // ----- decimal digits -----

  function DigitChar(d: nat): char
    requires d < 10
  {
    "0123456789"[d]
  }

  predicate IsDigit(c: char) {
    '0' <= c <= '9'
  }

  function DigitValue(c: char): nat
    requires IsDigit(c)
  {
    (c as int - '0' as int) as nat
  }

  /** `Int.toString()` for a non-negative value. */
  function NatToString(n: nat): (r: string)
    ensures r != []
    ensures forall c <- r :: IsDigit(c)
    decreases n
  {
    if n < 10 then [DigitChar(n)] else NatToString(n / 10) + [DigitChar(n % 10)]
  }

  /** The value of a run of digits read left to right on top of `acc`. */
  function DigitsValue(s: string, acc: nat): nat
    requires forall c <- s :: IsDigit(c)
  {
    if s == [] then acc else DigitsValue(s[1..], acc * 10 + DigitValue(s[0]))
  }

  /** Reads the longest run of leading digits: its value and what follows it. */
  function ReadNat(s: string, acc: nat): (nat, string)
  {
    if s != [] && IsDigit(s[0]) then ReadNat(s[1..], acc * 10 + DigitValue(s[0])) else (acc, s)
  }

  lemma {:induction false} DigitsValueAppend(a: string, b: string, acc: nat)
    requires forall c <- a :: IsDigit(c)
    requires forall c <- b :: IsDigit(c)
    ensures DigitsValue(a + b, acc) == DigitsValue(b, DigitsValue(a, acc))
  {
    if a != [] {
      assert (a + b)[1..] == a[1..] + b && (a + b)[0] == a[0];
      DigitsValueAppend(a[1..], b, acc * 10 + DigitValue(a[0]));
    } else {
      assert a + b == b;
    }
  }

  /** Reading back the decimal rendering of `n` gives `n`. */
  lemma {:induction false} NatToStringValue(n: nat)
    ensures DigitsValue(NatToString(n), 0) == n
    decreases n
  {
    if n >= 10 {
      NatToStringValue(n / 10);
      DigitsValueAppend(NatToString(n / 10), [DigitChar(n % 10)], 0);
    }
  }

  lemma {:induction false} ReadNatDigits(a: string, t: string, acc: nat)
    requires forall c <- a :: IsDigit(c)
    requires t == [] || !IsDigit(t[0])
    ensures ReadNat(a + t, acc) == (DigitsValue(a, acc), t)
  {
    if a != [] {
      assert (a + t)[1..] == a[1..] + t;
      ReadNatDigits(a[1..], t, acc * 10 + DigitValue(a[0]));
    } else {
      assert a + t == t;
    }
  }

  /** Reading a number from the decimal rendering of `n` followed by a non-digit gives `n` back. */
  lemma ReadNatToString(n: nat, t: string)
    requires t == [] || !IsDigit(t[0])
    ensures ReadNat(NatToString(n) + t, 0) == (n, t)
  {
    ReadNatDigits(NatToString(n), t, 0);
    NatToStringValue(n);
  }
}
