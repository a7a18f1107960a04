/** The few Python string operations the model relies on: `str.find`,
    `str.split` with a separator, `str.join`, `str.strip`, `str.zfill`,
    `os.path.join` of two relative parts, ASCII case mapping and decimal
    formatting of naturals. Strings are sequences of characters. */
module Text {
  import opened Wrappers

  /** `pat` occurs in `s` starting at index i. */
  predicate MatchAt(s: string, pat: string, i: nat)
  {
    i + |pat| <= |s| && s[i..i + |pat|] == pat
  }

  /** `s.find(pat, start)`: the first index from `start` on at which `pat`
      occurs in `s`. */
  function FindFrom(s: string, pat: string, start: nat): (r: Option<nat>)
    ensures r.Some? ==> start <= r.value && MatchAt(s, pat, r.value)
    ensures r.Some? ==> forall i :: start <= i < r.value ==> !MatchAt(s, pat, i)
    ensures r.None? ==> forall i :: start <= i ==> !MatchAt(s, pat, i)
    decreases |s| - start
  {
    if start + |pat| > |s| then None
    else if MatchAt(s, pat, start) then Some(start)
    else FindFrom(s, pat, start + 1)
  }

  /** `s.find(pat)`. */
  function Find(s: string, pat: string): Option<nat>
  {
    FindFrom(s, pat, 0)
  }

  /** `pat in s` for strings. */
  predicate Contains(s: string, pat: string)
  {
    Find(s, pat).Some?
  }

  predicate StartsWith(s: string, prefix: string)
  {
    prefix <= s
  }

  predicate EndsWith(s: string, suffix: string)
  {
    |suffix| <= |s| && s[|s| - |suffix|..] == suffix
  }

  /** `s.split(sep)` for a non-empty separator. */
  function Split(s: string, sep: string): (r: seq<string>)
    requires |sep| > 0
    ensures |r| >= 1
    decreases |s|
  {
    match Find(s, sep)
    case None => [s]
    case Some(i) => [s[..i]] + Split(s[i + |sep|..], sep)
  }

  /** `sep.join(parts)`. */
  function Join(parts: seq<string>, sep: string): string
  {
    if |parts| == 0 then ""
    else if |parts| == 1 then parts[0]
    else parts[0] + sep + Join(parts[1..], sep)
  }

  /** Splitting and joining with the same separator gives back the string,
      and no piece holds the separator. */
  lemma {:induction false} JoinSplit(s: string, sep: string)
    requires |sep| > 0
    ensures Join(Split(s, sep), sep) == s
    ensures forall k :: 0 <= k < |Split(s, sep)| ==> !Contains(Split(s, sep)[k], sep)
    decreases |s|
  {
    match Find(s, sep)
    case None =>
    case Some(i) =>
      var head, rest := s[..i], s[i + |sep|..];
      var parts := Split(rest, sep);
      assert Split(s, sep) == [head] + parts;
      JoinSplit(rest, sep);
      assert Join([head] + parts, sep) == head + sep + Join(parts, sep) by {
        assert ([head] + parts)[1..] == parts;
      }
      assert head + sep + rest == s by {
        assert s[i..i + |sep|] == sep;
      }
      NoEarlierMatch(s, sep, i);
      forall k | 0 <= k < |Split(s, sep)|
        ensures !Contains(Split(s, sep)[k], sep)
      {
        if k > 0 {
          assert Split(s, sep)[k] == parts[k - 1];
        }
      }
  }

  /** A string without the separator character splits into itself. */
  lemma SplitNone(a: string, c: char)
    requires c !in a
    ensures Split(a, [c]) == [a]
  {
    forall j | 0 <= j
      ensures !MatchAt(a, [c], j)
    {
      if j + 1 <= |a| {
        assert a[j..j + 1] == [a[j]];
      }
    }
  }

  /** Splitting at the first separator character. */
  lemma SplitFirst(a: string, c: char, b: string)
    requires c !in a
    ensures Split(a + [c] + b, [c]) == [a] + Split(b, [c])
  {
    var s := a + [c] + b;
    assert MatchAt(s, [c], |a|) by {
      assert s[|a|..|a| + 1] == [c];
    }
    var r := Find(s, [c]);
    assert r.Some?;
    forall j | 0 <= j < |a|
      ensures !MatchAt(s, [c], j)
    {
      assert s[j] == a[j];
      assert s[j..j + 1] == [s[j]];
    }
    assert s[r.value..r.value + 1] == [s[r.value]];
    assert r.value == |a|;
    assert s[..|a|] == a && s[|a| + 1..] == b;
  }

  /** A separator character between two strings splits them apart:
      the pieces of the first, then the pieces of the second. */
  lemma {:induction false} SplitAtSep(x: string, c: char, y: string)
    ensures Split(x + [c] + y, [c]) == Split(x, [c]) + Split(y, [c])
    decreases |x|
  {
    if c !in x {
      SplitFirst(x, c, y);
      SplitNone(x, c);
    } else {
      var head, tail := SeparatorAt(x, c);
      calc {
        Split(x + [c] + y, [c]);
      == { Regroup(head, c, tail, y); }
        Split(head + [c] + (tail + [c] + y), [c]);
      == { SplitFirst(head, c, tail + [c] + y); }
        [head] + Split(tail + [c] + y, [c]);
      == { SplitAtSep(tail, c, y); }
        [head] + (Split(tail, [c]) + Split(y, [c]));
      == { SplitFirst(head, c, tail); }
        Split(x, [c]) + Split(y, [c]);
      }
    }
  }

  /** A string holding a separator character, cut at its first occurrence. */
  lemma SeparatorAt(x: string, c: char) returns (head: string, tail: string)
    requires c in x
    ensures x == head + [c] + tail && c !in head
  {
    var i := FirstOccurrence(x, c);
    head, tail := x[..i], x[i + 1..];
    assert x == head + [c] + tail;
  }

  lemma Regroup(head: string, c: char, tail: string, y: string)
    ensures head + [c] + tail + [c] + y == head + [c] + (tail + [c] + y)
  {
  }

  /** The first index at which a character occurs. */
  lemma FirstOccurrence(x: string, c: char) returns (i: nat)
    requires c in x
    ensures i < |x| && x[i] == c && c !in x[..i]
  {
    var j :| 0 <= j < |x| && x[j] == c;
    assert MatchAt(x, [c], j) by {
      assert x[j..j + 1] == [c];
    }
    i := Find(x, [c]).value;
    assert x[i..i + 1] == [c];
    NoEarlierMatch(x, [c], i);
    NotContainsChar(x[..i], c);
  }

  /** No piece of a split holds the separator character. */
  lemma SplitPiecesFree(s: string, c: char)
    ensures forall k :: 0 <= k < |Split(s, [c])| ==> c !in Split(s, [c])[k]
  {
    JoinSplit(s, [c]);
    forall k | 0 <= k < |Split(s, [c])|
      ensures c !in Split(s, [c])[k]
    {
      NotContainsChar(Split(s, [c])[k], c);
    }
  }

  /** Joining pieces free of the separator character and splitting again
      gives the pieces back. */
  lemma {:induction false} SplitJoin(parts: seq<string>, c: char)
    requires |parts| > 0
    requires forall k :: 0 <= k < |parts| ==> c !in parts[k]
    ensures Split(Join(parts, [c]), [c]) == parts
  {
    if |parts| == 1 {
      SplitNone(parts[0], c);
    } else {
      SplitJoin(parts[1..], c);
      SplitFirst(parts[0], c, Join(parts[1..], [c]));
    }
  }

  /** A string in which the one-character pattern `[c]` does not occur
      holds no `c`. */
  lemma NotContainsChar(s: string, c: char)
    requires !Contains(s, [c])
    ensures c !in s
  {
    forall k | 0 <= k < |s|
      ensures s[k] != c
    {
      assert !MatchAt(s, [c], k);
      assert s[k..k + 1] == [s[k]];
    }
  }

  /** The part of `s` before its first occurrence of `sep` holds no `sep`. */
  lemma NoEarlierMatch(s: string, sep: string, i: nat)
    requires |sep| > 0 && i <= |s|
    requires forall j :: 0 <= j < i ==> !MatchAt(s, sep, j)
    ensures !Contains(s[..i], sep)
  {
    if Find(s[..i], sep).Some? {
      var j := Find(s[..i], sep).value;
      assert s[..i][j..j + |sep|] == s[j..j + |sep|];
      assert MatchAt(s, sep, j);
    }
  }

  /** `s.replace(pat, "")`: every occurrence of `pat`, found left to right
      without overlap, removed. */
  function Remove(s: string, pat: string): (r: string)
    requires |pat| > 0
    ensures |r| <= |s|
    ensures !Contains(s, pat) ==> r == s
    decreases |s|
  {
    match Find(s, pat)
    case None => s
    case Some(i) => s[..i] + Remove(s[i + |pat|..], pat)
  }

  /** Removing is splitting on `pat` and joining the pieces back with
      nothing between them. */
  lemma {:induction false} RemoveIsJoinOfSplit(s: string, pat: string)
    requires |pat| > 0
    ensures Remove(s, pat) == Join(Split(s, pat), "")
    decreases |s|
  {
    match Find(s, pat)
    case None =>
    case Some(i) =>
      var rest := s[i + |pat|..];
      RemoveIsJoinOfSplit(rest, pat);
      var tail := Split(rest, pat);
      assert Split(s, pat) == [s[..i]] + tail;
      assert Join([s[..i]] + tail, "") == s[..i] + "" + Join(tail, "");
  }

  /** The number of occurrences of a character. */
  function Count(s: string, c: char): nat
  {
    if |s| == 0 then 0 else (if s[0] == c then 1 else 0) + Count(s[1..], c)
  }

  lemma {:induction false} CountConcat(a: string, b: string, c: char)
    ensures Count(a + b, c) == Count(a, c) + Count(b, c)
  {
    if |a| > 0 {
      assert (a + b)[1..] == a[1..] + b;
      CountConcat(a[1..], b, c);
    } else {
      assert a + b == b;
    }
  }

  lemma {:induction false} CountAbsent(s: string, c: char)
    requires !Contains(s, [c])
    ensures Count(s, c) == 0
  {
    forall k | 0 <= k < |s|
      ensures s[k] != c
    {
      assert s[k..k + 1] == [s[k]];
      assert !MatchAt(s, [c], k);
    }
    CountNone(s, c);
  }

  lemma {:induction false} CountNone(s: string, c: char)
    requires forall k :: 0 <= k < |s| ==> s[k] != c
    ensures Count(s, c) == 0
  {
    if |s| > 0 {
      CountNone(s[1..], c);
    }
  }

  /** Splitting on a single character gives one more piece than the
      character has occurrences. */
  lemma {:induction false} SplitCount(s: string, c: char)
    ensures |Split(s, [c])| == Count(s, c) + 1
    decreases |s|
  {
    match Find(s, [c])
    case None =>
      CountAbsent(s, c);
    case Some(i) =>
      var rest := s[i + 1..];
      SplitCount(rest, c);
      NoEarlierMatch(s, [c], i);
      CountAbsent(s[..i], c);
      assert s[i..i + 1] == [c];
      assert s == s[..i] + [c] + rest;
      CountConcat(s[..i] + [c], rest, c);
      CountConcat(s[..i], [c], c);
  }

  /** Python's ASCII whitespace, as `str.strip()` removes it. */
  const Whitespace: set<char> := {' ', '\t', '\n', '\r', '\U{B}', '\U{C}'}

  /** `s.strip(chars)`: drops leading and trailing characters of `chars`. */
  function StripChars(s: string, chars: set<char>): (r: string)
    ensures |r| <= |s|
    ensures |r| > 0 ==> r[0] !in chars && r[|r| - 1] !in chars
    ensures forall k :: 0 <= k < |s| && s[k] !in chars ==> |r| > 0
    decreases |s|
  {
    if |s| == 0 then s
    else if s[0] in chars then StripChars(s[1..], chars)
    else if s[|s| - 1] in chars then StripChars(s[..|s| - 1], chars)
    else s
  }

  function Strip(s: string): string
  {
    StripChars(s, Whitespace)
  }

  /** `re.sub("[...]", "", s)`: `s` with every character of `chars` deleted. */
  function Without(s: string, chars: set<char>): (r: string)
    ensures |r| <= |s|
    ensures forall k :: 0 <= k < |r| ==> r[k] !in chars
    ensures (forall k :: 0 <= k < |s| ==> s[k] !in chars) ==> r == s
  {
    if |s| == 0 then s
    else Without(s[..|s| - 1], chars) + (if s[|s| - 1] in chars then [] else [s[|s| - 1]])
  }

  function LowerChar(c: char): char
  {
    if 'A' <= c <= 'Z' then (c as int + 32) as char else c
  }

  function UpperChar(c: char): char
  {
    if 'a' <= c <= 'z' then (c as int - 32) as char else c
  }

  /** `s.lower()` on ASCII letters. */
  function Lower(s: string): (r: string)
    ensures |r| == |s|
  {
    seq(|s|, k requires 0 <= k < |s| => LowerChar(s[k]))
  }

  /** `s.upper()` on ASCII letters. */
  function Upper(s: string): (r: string)
    ensures |r| == |s|
  {
    seq(|s|, k requires 0 <= k < |s| => UpperChar(s[k]))
  }

  function DigitChar(d: nat): char
    requires d < 10
  {
    ('0' as int + d) as char
  }

  predicate IsDigit(c: char)
  {
    '0' <= c <= '9'
  }

  /** `str(n)` for a natural number. */
  function NatToString(n: nat): (r: string)
    ensures |r| >= 1
    ensures forall k :: 0 <= k < |r| ==> IsDigit(r[k])
  {
    if n < 10 then [DigitChar(n)] else NatToString(n / 10) + [DigitChar(n % 10)]
  }

  /** `int(s)` for a non-empty string of decimal digits. */
  function ParseNat(s: string): nat
    requires forall k :: 0 <= k < |s| ==> IsDigit(s[k])
  {
    if |s| == 0 then 0 else 10 * ParseNat(s[..|s| - 1]) + DigitValue(s[|s| - 1])
  }

  function DigitValue(c: char): (r: nat)
    requires IsDigit(c)
    ensures r < 10
  {
    c as int - '0' as int
  }

  /** Formatting a natural and parsing it back gives the natural. */
  lemma {:induction false} ParseFormat(n: nat)
    ensures ParseNat(NatToString(n)) == n
  {
    if n >= 10 {
      ParseFormat(n / 10);
      var s := NatToString(n);
      assert s[..|s| - 1] == NatToString(n / 10);
    }
  }

  /** `s.zfill(width)`: pads with zeros on the left, after a leading sign. */
  function ZFill(s: string, width: nat): (r: string)
    ensures |r| == if |s| >= width then |s| else width
  {
    if |s| >= width then s
    else
      var zeros := seq(width - |s|, _ => '0');
      if |s| > 0 && (s[0] == '+' || s[0] == '-') then [s[0]] + zeros + s[1..]
      else zeros + s
  }

  /** `f"{n:02d}"`, `strftime("%d")` and the like: zero-padded decimal. */
  function Padded(n: nat, width: nat): (r: string)
    ensures |r| >= width
  {
    ZFill(NatToString(n), width)
  }

  /** `os.path.join(a, b)` for a relative `b`. */
  function PathJoin(a: string, b: string): string
  {
    if |a| == 0 || EndsWith(a, "/") then a + b else a + "/" + b
  }
  // ---------------------------------------------------------------------
  // Ordering and sorting of strings

  /** Python's `<` on strings: lexicographic by code point. */
  predicate LexLess(a: string, b: string)
  {
    if |a| == 0 then |b| > 0
    else if |b| == 0 then false
    else if a[0] != b[0] then a[0] < b[0]
    else LexLess(a[1..], b[1..])
  }

  lemma {:induction false} LexIrreflexive(a: string)
    ensures !LexLess(a, a)
  {
    if |a| > 0 {
      LexIrreflexive(a[1..]);
    }
  }

  lemma {:induction false} LexTransitive(a: string, b: string, c: string)
    requires LexLess(a, b) && LexLess(b, c)
    ensures LexLess(a, c)
  {
    if |a| > 0 && |b| > 0 && |c| > 0 && a[0] == b[0] && b[0] == c[0] {
      LexTransitive(a[1..], b[1..], c[1..]);
    }
  }

  lemma {:induction false} LexTotal(a: string, b: string)
    ensures a == b || LexLess(a, b) || LexLess(b, a)
  {
    if |a| > 0 && |b| > 0 && a[0] == b[0] {
      LexTotal(a[1..], b[1..]);
      if a[1..] == b[1..] {
        assert a == [a[0]] + a[1..] && b == [b[0]] + b[1..];
      }
    }
  }

  lemma LexAsymmetric(a: string, b: string)
    requires LexLess(a, b)
    ensures !LexLess(b, a)
  {
    if LexLess(b, a) {
      LexTransitive(a, b, a);
      LexIrreflexive(a);
    }
  }

  /** The elements of `s` are in non-decreasing order of `key`. */
  predicate SortedBy<T>(s: seq<T>, key: T -> string)
  {
    forall i, j :: 0 <= i < j < |s| ==> !LexLess(key(s[j]), key(s[i]))
  }

  /** Inserts x after every element whose key is not greater than its own. */
  function InsertBy<T>(x: T, s: seq<T>, key: T -> string): (r: seq<T>)
    requires SortedBy(s, key)
    ensures multiset(r) == multiset(s) + multiset{x}
    ensures SortedBy(r, key)
  {
    if |s| == 0 then [x]
    else if LexLess(key(x), key(s[0])) then
      assert forall j :: 0 < j < |s| ==> !LexLess(key(s[j]), key(x)) by {
        forall j | 0 < j < |s| && LexLess(key(s[j]), key(x)) {
          LexTransitive(key(s[j]), key(x), key(s[0]));
        }
      }
      LexAsymmetric(key(x), key(s[0]));
      [x] + s
    else
      var rest := InsertBy(x, s[1..], key);
      assert s == [s[0]] + s[1..];
      assert forall j :: 0 <= j < |rest| ==> !LexLess(key(rest[j]), key(s[0])) by {
        forall j | 0 <= j < |rest|
          ensures !LexLess(key(rest[j]), key(s[0]))
        {
          assert rest[j] in multiset(rest);
          assert rest[j] == x || rest[j] in multiset(s[1..]);
          if rest[j] != x {
            var k :| 0 <= k < |s[1..]| && s[1..][k] == rest[j];
            assert s[k + 1] == rest[j];
          } else {
            LexTotal(key(x), key(s[0]));
            if key(x) == key(s[0]) {
              LexIrreflexive(key(x));
            }
          }
        }
      }
      [s[0]] + rest
  }

  /** Python's `sorted(s, key=key)`: stable, so elements of equal key keep
      their order. */
  function SortBy<T>(s: seq<T>, key: T -> string): (r: seq<T>)
    ensures multiset(r) == multiset(s)
    ensures |r| == |s|
    ensures SortedBy(r, key)
  {
    if |s| == 0 then []
    else
      var prefix := s[..|s| - 1];
      var sorted := SortBy(prefix, key);
      assert s == prefix + [s[|s| - 1]];
      assert multiset(s) == multiset(prefix) + multiset{s[|s| - 1]};
      InsertBy(s[|s| - 1], sorted, key)
  }

  function Identity(s: string): string
  {
    s
  }

  /** `sorted(s)` for strings. */
  function Sorted(s: seq<string>): (r: seq<string>)
    ensures multiset(r) == multiset(s) && |r| == |s|
    ensures SortedBy(r, Identity)
  {
    SortBy(s, Identity)
  }

  /** Strictly increasing: sorted without repeats. */
  predicate StrictlySorted(s: seq<string>)
  {
    forall i, j :: 0 <= i < j < |s| ==> LexLess(s[i], s[j])
  }

  /** Adds x to a strictly sorted sequence unless it is already there. */
  function InsertUnique(x: string, s: seq<string>): (r: seq<string>)
    requires StrictlySorted(s)
    ensures StrictlySorted(r)
    ensures forall y :: y in r <==> y == x || y in s
  {
    if |s| == 0 then [x]
    else if x == s[0] then s
    else if LexLess(x, s[0]) then
      assert forall j :: 0 <= j < |s| ==> LexLess(x, s[j]) by {
        forall j | 0 < j < |s| {
          LexTransitive(x, s[0], s[j]);
        }
      }
      [x] + s
    else
      LexTotal(x, s[0]);
      var rest := InsertUnique(x, s[1..]);
      assert forall y :: y in s <==> y == s[0] || y in s[1..];
      assert forall j :: 0 <= j < |rest| ==> LexLess(s[0], rest[j]) by {
        forall j | 0 <= j < |rest|
          ensures LexLess(s[0], rest[j])
        {
          assert rest[j] in rest;
          if rest[j] != x {
            var k :| 0 <= k < |s[1..]| && s[1..][k] == rest[j];
            assert s[k + 1] == rest[j];
          }
        }
      }
      var r := [s[0]] + rest;
      assert forall y :: y in r <==> y == s[0] || y in rest;
      r
  }

  /** `sorted(set(s))` for strings. */
  function SortedSet(s: seq<string>): (r: seq<string>)
    ensures StrictlySorted(r)
    ensures forall y :: y in r <==> y in s
  {
    if |s| == 0 then []
    else
      var prefix := s[..|s| - 1];
      var r := InsertUnique(s[|s| - 1], SortedSet(prefix));
      assert s == prefix + [s[|s| - 1]];
      assert forall y :: y in s <==> y in prefix || y == s[|s| - 1];
      r
  }

  /** Two strictly sorted sequences with the same elements start alike. */
  lemma SameHead(a: seq<string>, b: seq<string>)
    requires StrictlySorted(a) && StrictlySorted(b) && |a| > 0 && |b| > 0
    requires forall y :: y in a <==> y in b
    ensures a[0] == b[0]
  {
    assert a[0] in a && b[0] in b;
    var k :| 0 <= k < |b| && b[k] == a[0];
    var m :| 0 <= m < |a| && a[m] == b[0];
    if k > 0 && m > 0 {
      LexAsymmetric(b[0], a[0]);
    }
  }

  /** A strictly sorted sequence is determined by its elements. */
  lemma {:induction false} StrictlySortedUnique(a: seq<string>, b: seq<string>)
    requires StrictlySorted(a) && StrictlySorted(b)
    requires forall y :: y in a <==> y in b
    ensures a == b
  {
    assert |a| > 0 ==> a[0] in b;
    assert |b| > 0 ==> b[0] in a;
    if |a| > 0 && |b| > 0 {
      SameHead(a, b);
      LexIrreflexive(a[0]);
      forall y
        ensures y in a[1..] <==> y in b[1..]
      {
        if y in a[1..] {
          var k :| 0 <= k < |a[1..]| && a[1..][k] == y;
          assert a[k + 1] == y;
          assert y in b;
          var m :| 0 <= m < |b| && b[m] == y;
          assert m != 0;
          assert b[1..][m - 1] == y;
        }
        if y in b[1..] {
          var k :| 0 <= k < |b[1..]| && b[1..][k] == y;
          assert b[k + 1] == y;
          assert y in a;
          var m :| 0 <= m < |a| && a[m] == y;
          assert m != 0;
          assert a[1..][m - 1] == y;
        }
      }
      StrictlySortedUnique(a[1..], b[1..]);
      assert a == [a[0]] + a[1..] && b == [b[0]] + b[1..];
    }
  }
}
