/** Shared vocabulary of the model: Python exceptions as an error datatype,
    Option/Result wrappers, and the few string operations the source relies on
    (ASCII lower-casing, str(int), int(str), join/split, substring tests,
    code-point string comparison) together with a stable sort by a string key,
    which is what Python's list.sort(key=...) does. */
module Base {

  /** The exception classes raised by the modelled code, by name. */
  datatype Error =
    | ValueError
    | RuntimeError
    | KeyError
    | AssertionError
    | IndexError
    | AttributeError
    | TypeError
    | NameError
    | UnboundLocalError
    | EndpointAlreadyExists
    | DuplicateEndpointName
    | EndpointDontExist
    | MavlinkRouterStartFail
    | NoMasterMavlinkEndpoint
    | NoBoardsConnected
    | NoPreferredBoardSet
    | EndpointCreationFail
    | EndpointDeleteFail
    | UndefinedBoard
    | ArdupilotProcessKillFail
    | UnsupportedPlatform
    | UnsupportedBoardType
    | BoardBootloaderCommFail
    | FirmwareInstallFail
    | NoDefaultFirmwareAvailable
    | NoVersionAvailable
    | InvalidFirmwareFile
    | UndefinedPlatform
    | VehicleDisarmFail

  datatype Option<T> = None | Some(value: T)

  datatype Result<T> = Ok(value: T) | Err(error: Error)

  /** Outcome of an operation that returns nothing: it either returns or raises. */
  datatype Outcome = Pass | Fail(error: Error)

  // ---------------------------------------------------------------- characters

  predicate IsDigit(c: char) { '0' <= c <= '9' }

  predicate AllDigits(s: string) { forall i :: 0 <= i < |s| ==> IsDigit(s[i]) }

  function DigitChar(d: nat): (c: char)
    requires d < 10
    ensures IsDigit(c)
  {
    ('0' as int + d) as char
  }

  function DigitValue(c: char): (d: nat)
    requires IsDigit(c)
    ensures d < 10 && DigitChar(d) == c
  {
    c as int - '0' as int
  }

  /** ASCII lower-casing of one character. */
  function LowerChar(c: char): char
  {
    if 'A' <= c <= 'Z' then (c as int + 32) as char else c
  }

  /** str.lower() restricted to ASCII letters. */
  function Lower(s: string): (r: string)
    ensures |r| == |s|
    ensures forall i :: 0 <= i < |s| ==> r[i] == LowerChar(s[i])
  {
    if s == [] then [] else [LowerChar(s[0])] + Lower(s[1..])
  }

  // ---------------------------------------------------------- numbers as text

  /** str(n) for a natural number: decimal digits, no leading zeros. */
  function NatToString(n: nat): (s: string)
    decreases n
  {
    if n < 10 then [DigitChar(n)] else NatToString(n / 10) + [DigitChar(n % 10)]
  }

  /** str(i) for any Python int. */
  function IntToString(i: int): string
  {
    if i < 0 then "-" + NatToString(-i) else NatToString(i)
  }

  /** int(s) for a string of decimal digits. */
  function ParseDigits(s: string): nat
    requires AllDigits(s)
  {
    if s == [] then 0 else ParseDigits(s[..|s| - 1]) * 10 + DigitValue(s[|s| - 1])
  }

  lemma {:induction false} NatToStringDigits(n: nat)
    ensures |NatToString(n)| > 0 && AllDigits(NatToString(n))
    decreases n
  {
    if n >= 10 {
      NatToStringDigits(n / 10);
    }
  }

  /** int(str(n)) == n. */
  lemma {:induction false} ParseNatToString(n: nat)
    ensures AllDigits(NatToString(n)) && ParseDigits(NatToString(n)) == n
    decreases n
  {
    NatToStringDigits(n);
    if n >= 10 {
      var s := NatToString(n);
      ParseNatToString(n / 10);
      assert s[..|s| - 1] == NatToString(n / 10);
    }
  }

  /** Different numbers print differently. */
  lemma NatToStringInjective(a: nat, b: nat)
    requires NatToString(a) == NatToString(b)
    ensures a == b
  {
    ParseNatToString(a);
    ParseNatToString(b);
  }

  // ---------------------------------------------------------- search and split

  /** Index of the first occurrence of c in s, or |s| when there is none. */
  function IndexOf(s: string, c: char): (i: nat)
    ensures i <= |s|
    ensures i < |s| ==> s[i] == c
    ensures forall j :: 0 <= j < i ==> s[j] != c
  {
    if s == [] then 0 else if s[0] == c then 0 else 1 + IndexOf(s[1..], c)
  }

  /** sep.join(parts) for a one-character separator. */
  function Join(parts: seq<string>, sep: char): string
  {
    if |parts| == 0 then ""
    else if |parts| == 1 then parts[0]
    else parts[0] + [sep] + Join(parts[1..], sep)
  }

  /** s.split(sep) for a one-character separator. */
  function Split(s: string, sep: char): (r: seq<string>)
    ensures |r| > 0
    decreases |s|
  {
    var i := IndexOf(s, sep);
    if i == |s| then [s] else [s[..i]] + Split(s[i + 1..], sep)
  }

  predicate NoSep(parts: seq<string>, sep: char)
  {
    forall k :: 0 <= k < |parts| ==> sep !in parts[k]
  }

  lemma IndexOfAfterPrefix(a: string, c: char, b: string)
    requires c !in a
    ensures IndexOf(a + [c] + b, c) == |a|
  {
    var s := a + [c] + b;
    assert s[|a|] == c;
    assert forall j :: 0 <= j < |a| ==> s[j] == a[j];
  }

  /** A string without the separator splits into itself. */
  lemma SplitNoSep(a: string, sep: char)
    requires sep !in a
    ensures Split(a, sep) == [a]
  {
    assert IndexOf(a, sep) == |a|;
  }

  /** Splitting at the first separator, which ends `a`. */
  lemma SplitAfterSep(a: string, sep: char, rest: string)
    requires sep !in a
    ensures Split(a + [sep] + rest, sep) == [a] + Split(rest, sep)
  {
    var s := a + [sep] + rest;
    IndexOfAfterPrefix(a, sep, rest);
    assert s[..|a|] == a;
    assert s[|a| + 1..] == rest;
  }

  /** Splitting a join on the same separator gives the parts back. */
  lemma {:induction false} SplitJoin(parts: seq<string>, sep: char)
    requires |parts| > 0 && NoSep(parts, sep)
    ensures Split(Join(parts, sep), sep) == parts
    decreases |parts|
  {
    assert sep !in parts[0];
    if |parts| == 1 {
      SplitNoSep(parts[0], sep);
    } else {
      SplitAfterSep(parts[0], sep, Join(parts[1..], sep));
      SplitJoin(parts[1..], sep);
      assert parts == [parts[0]] + parts[1..];
    }
  }

  predicate StartsWith(s: string, prefix: string)
  {
    |prefix| <= |s| && s[..|prefix|] == prefix
  }

  /** Python's `sub in s`. */
  predicate Contains(s: string, sub: string)
    decreases |s|
  {
    StartsWith(s, sub) || (|s| > 0 && Contains(s[1..], sub))
  }

  lemma {:induction false} ContainsAt(s: string, sub: string, i: nat)
    requires i + |sub| <= |s| && s[i..i + |sub|] == sub
    ensures Contains(s, sub)
    decreases i
  {
    if i > 0 {
      assert s[1..][i - 1..i - 1 + |sub|] == sub;
      ContainsAt(s[1..], sub, i - 1);
    }
  }

  // ------------------------------------------------- code-point string order

  /** Python's `a < b` on str: lexicographic by code point. */
  predicate StrLess(a: string, b: string)
    decreases |a|
  {
    if |a| == 0 then |b| > 0
    else if |b| == 0 then false
    else if a[0] != b[0] then a[0] < b[0]
    else StrLess(a[1..], b[1..])
  }

  /** Strings agreeing before position i and smaller at i compare less. */
  lemma {:induction false} StrLessAt(a: string, b: string, i: nat)
    requires i < |a| && i < |b| && a[..i] == b[..i] && a[i] < b[i]
    ensures StrLess(a, b)
    decreases i
  {
    if i > 0 {
      assert a[0] == a[..i][0] && b[0] == b[..i][0];
      assert a[1..][..i - 1] == a[..i][1..] && b[1..][..i - 1] == b[..i][1..];
      StrLessAt(a[1..], b[1..], i - 1);
    }
  }

  lemma {:induction false} StrLessAsymmetric(a: string, b: string)
    ensures !(StrLess(a, b) && StrLess(b, a))
    decreases |a|
  {
    if |a| > 0 && |b| > 0 && a[0] == b[0] { StrLessAsymmetric(a[1..], b[1..]); }
  }

  lemma StrLessIrreflexive(a: string)
    ensures !StrLess(a, a)
  {
    StrLessAsymmetric(a, a);
  }

  lemma {:induction false} StrLessTransitive(a: string, b: string, c: string)
    requires StrLess(a, b) && StrLess(b, c)
    ensures StrLess(a, c)
    decreases |a|
  {
    if |a| > 0 && |b| > 0 && |c| > 0 && a[0] == b[0] == c[0] {
      StrLessTransitive(a[1..], b[1..], c[1..]);
    }
  }

  lemma {:induction false} StrLessTotal(a: string, b: string)
    ensures a == b || StrLess(a, b) || StrLess(b, a)
    decreases |a|
  {
    if |a| > 0 && |b| > 0 && a[0] == b[0] {
      StrLessTotal(a[1..], b[1..]);
      if a[1..] == b[1..] {
        assert a == [a[0]] + a[1..] && b == [b[0]] + b[1..];
      }
    }
  }

  /** "not less" is transitive: a <= b <= c gives a <= c. */
  lemma NotLessTransitive(a: string, b: string, c: string)
    requires !StrLess(b, a) && !StrLess(c, b)
    ensures !StrLess(c, a)
  {
    StrLessTotal(a, b);
    StrLessTotal(b, c);
    if a != b && b != c {
      StrLessTransitive(a, b, c);
      StrLessAsymmetric(a, c);
    }
  }

  // ------------------------------------------------------- stable sort by key

  /** Inserts x before the first element whose key is not smaller than x's,
      so that x precedes every later element with an equal key. */
  function InsertBy<T>(x: T, s: seq<T>, key: T -> string): (r: seq<T>)
    ensures |r| == |s| + 1
    ensures multiset(r) == multiset(s) + multiset{x}
  {
    if s == [] then [x]
    else if StrLess(key(s[0]), key(x)) then
      assert s == [s[0]] + s[1..];
      [s[0]] + InsertBy(x, s[1..], key)
    else [x] + s
  }

  /** list.sort(key=key): a stable insertion sort. */
  function SortBy<T>(s: seq<T>, key: T -> string): (r: seq<T>)
    ensures |r| == |s|
    ensures multiset(r) == multiset(s)
  {
    if s == [] then []
    else
      assert s == [s[0]] + s[1..];
      InsertBy(s[0], SortBy(s[1..], key), key)
  }

  predicate SortedBy<T>(s: seq<T>, key: T -> string)
  {
    forall i, j :: 0 <= i < j < |s| ==> !StrLess(key(s[j]), key(s[i]))
  }

  lemma {:induction false} InsertBySorted<T>(x: T, s: seq<T>, key: T -> string)
    requires SortedBy(s, key)
    ensures SortedBy(InsertBy(x, s, key), key)
    decreases |s|
  {
    if s != [] {
      if StrLess(key(s[0]), key(x)) {
        InsertBySorted(x, s[1..], key);
        var r := InsertBy(x, s, key);
        var t := InsertBy(x, s[1..], key);
        assert r == [s[0]] + t;
        assert multiset(t) == multiset(s[1..]) + multiset{x};
        forall j | 1 <= j < |r|
          ensures !StrLess(key(r[j]), key(s[0]))
        {
          assert r[j] in multiset(t);
          if r[j] == x {
            StrLessAsymmetric(key(s[0]), key(x));
          } else {
            assert r[j] in multiset(s[1..]);
            var k :| 0 <= k < |s[1..]| && s[1..][k] == r[j];
            assert s[k + 1] == r[j];
          }
        }
      } else {
        var r := [x] + s;
        forall j | 1 <= j < |r|
          ensures !StrLess(key(r[j]), key(x))
        {
          if j > 1 { NotLessTransitive(key(x), key(s[0]), key(r[j])); }
        }
      }
    }
  }

  /** The sort result is ordered by key (and a permutation, by its ensures). */
  lemma {:induction false} SortBySorted<T>(s: seq<T>, key: T -> string)
    ensures SortedBy(SortBy(s, key), key)
    decreases |s|
  {
    if s != [] {
      SortBySorted(s[1..], key);
      InsertBySorted(s[0], SortBy(s[1..], key), key);
    }
  }

  /** k is the position of the first element of s with the least key. */
  predicate FirstLeast<T>(s: seq<T>, key: T -> string, k: int)
  {
    && 0 <= k < |s|
    && (forall j :: 0 <= j < |s| ==> !StrLess(key(s[j]), key(s[k])))
    && (forall j :: 0 <= j < k ==> StrLess(key(s[k]), key(s[j])))
  }

  lemma InsertByHead<T>(x: T, r: seq<T>, key: T -> string)
    requires |r| > 0
    ensures InsertBy(x, r, key)[0] == if StrLess(key(r[0]), key(x)) then r[0] else x
  {
  }

  /** The first least element of s[1..] stays first least when s[0] is not smaller. */
  lemma {:induction false} FirstLeastShift<T>(s: seq<T>, key: T -> string, k': int)
    requires |s| > 1 && FirstLeast(s[1..], key, k')
    requires StrLess(key(s[k' + 1]), key(s[0]))
    ensures FirstLeast(s, key, k' + 1)
  {
    var t := s[1..];
    var k := k' + 1;
    assert s[k] == t[k'];
    forall j | 0 <= j < |s| ensures !StrLess(key(s[j]), key(s[k])) {
      if j == 0 {
        StrLessAsymmetric(key(s[0]), key(s[k]));
      } else {
        assert s[j] == t[j - 1];
      }
    }
    forall j | 0 <= j < k ensures StrLess(key(s[k]), key(s[j])) {
      if j > 0 { assert s[j] == t[j - 1]; }
    }
  }

  /** s[0] is first least when no element of s[1..] is smaller than it. */
  lemma {:induction false} FirstLeastHead<T>(s: seq<T>, key: T -> string, k': int)
    requires |s| > 1 && FirstLeast(s[1..], key, k')
    requires !StrLess(key(s[k' + 1]), key(s[0]))
    ensures FirstLeast(s, key, 0)
  {
    var t := s[1..];
    assert s[k' + 1] == t[k'];
    forall j | 0 <= j < |s| ensures !StrLess(key(s[j]), key(s[0])) {
      if j == 0 {
        StrLessIrreflexive(key(s[0]));
      } else {
        assert s[j] == t[j - 1];
        NotLessTransitive(key(s[0]), key(t[k']), key(s[j]));
      }
    }
  }

  /** Stability where it is used: the sorted head is the first least element. */
  lemma {:induction false} SortByHead<T>(s: seq<T>, key: T -> string)
    requires |s| > 0
    ensures exists k :: FirstLeast(s, key, k) && SortBy(s, key)[0] == s[k]
    decreases |s|
  {
    if |s| == 1 {
      assert FirstLeast(s, key, 0) by { StrLessIrreflexive(key(s[0])); }
    } else {
      var t := s[1..];
      SortByHead(t, key);
      var k' :| FirstLeast(t, key, k') && SortBy(t, key)[0] == t[k'];
      var r' := SortBy(t, key);
      assert SortBy(s, key) == InsertBy(s[0], r', key);
      InsertByHead(s[0], r', key);
      assert s[k' + 1] == r'[0];
      if StrLess(key(r'[0]), key(s[0])) {
        FirstLeastShift(s, key, k');
        assert SortBy(s, key)[0] == s[k' + 1];
      } else {
        FirstLeastHead(s, key, k');
        assert SortBy(s, key)[0] == s[0];
      }
    }
  }

  /** Python's list(s) for a set s: some order listing every element once. */
  predicate ListsExactly<T>(order: seq<T>, s: set<T>)
  {
    && (forall i, j :: 0 <= i < j < |order| ==> order[i] != order[j])
    && (forall i :: 0 <= i < |order| ==> order[i] in s)
    && (forall x :: x in s ==> x in order)
  }
}
