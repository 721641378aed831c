/**
 * String and path helpers with Python's semantics: `str.split`/`str.join` with an
 * explicit separator, `str.replace` of one character, `os.path.basename` and
 * `os.path.join` (POSIX flavour), and `str(n)` of a non-negative integer.
 */
module Text {
  import opened Wrappers

  /** Index of the first occurrence of `x` in `s` (the `for i, d in enumerate(s): if d == x: break` search). */
  function IndexOf<T(==)>(s: seq<T>, x: T): (r: Option<nat>)
    ensures r.None? <==> x !in s
    ensures r.Some? ==> r.value < |s| && s[r.value] == x && x !in s[..r.value]
  {
    if s == [] then None
    else if s[0] == x then Some(0)
    else
      match IndexOf(s[1..], x)
      case None => None
      case Some(i) =>
        assert s[1..][..i] == s[1..i + 1];
        Some(i + 1)
  }

  /** `s.split(sep)` for a one-character separator: always at least one piece, none containing `sep`. */
  function Split(s: string, sep: char): (parts: seq<string>)
    ensures |parts| >= 1
    ensures forall i :: 0 <= i < |parts| ==> sep !in parts[i]
    decreases |s|
  {
    if s == [] then [""]
    else
      var rest := Split(s[1..], sep);
      if s[0] == sep then [""] + rest
      else [[s[0]] + rest[0]] + rest[1..]
  }

  /** `sep.join(parts)`. */
  function Join(parts: seq<string>, sep: char): string
    decreases |parts|
  {
    if parts == [] then ""
    else if |parts| == 1 then parts[0]
    else parts[0] + [sep] + Join(parts[1..], sep)
  }

  /** Joining the pieces of a split gives back the original string. */
  lemma {:induction false} JoinSplit(s: string, sep: char)
    ensures Join(Split(s, sep), sep) == s
    decreases |s|
  {
    if s != [] {
      var rest := Split(s[1..], sep);
      JoinSplit(s[1..], sep);
      if s[0] == sep {
        assert Split(s, sep) == [""] + rest;
        assert s == [sep] + s[1..];
      } else if |rest| == 1 {
        assert Split(s, sep) == [[s[0]] + rest[0]];
        assert s == [s[0]] + s[1..];
      } else {
        var parts := Split(s, sep);
        assert parts[1..] == rest[1..];
        assert Join(rest, sep) == rest[0] + [sep] + Join(rest[1..], sep);
        assert s == [s[0]] + s[1..];
      }
    }
  }

  /** Splitting a join of separator-free pieces gives back the pieces. */
  lemma {:induction false} SplitJoin(parts: seq<string>, sep: char)
    requires |parts| >= 1
    requires forall i :: 0 <= i < |parts| ==> sep !in parts[i]
    ensures Split(Join(parts, sep), sep) == parts
    decreases |parts|
  {
    if |parts| == 1 {
      SplitNoSeparator(parts[0], sep);
    } else {
      SplitJoin(parts[1..], sep);
      SplitAppend(parts[0], Join(parts[1..], sep), sep);
      assert parts == [parts[0]] + parts[1..];
    }
  }

  /** A string without the separator splits into itself alone. */
  lemma {:induction false} SplitNoSeparator(s: string, sep: char)
    requires sep !in s
    ensures Split(s, sep) == [s]
    decreases |s|
  {
    if s != [] {
      assert sep !in s[1..] by {
        forall c | c in s[1..] ensures c != sep { }
      }
      SplitNoSeparator(s[1..], sep);
      assert s == [s[0]] + s[1..];
    }
  }

  /** `(a + sep + b).split(sep)` when `a` holds no separator. */
  lemma {:induction false} SplitAppend(a: string, b: string, sep: char)
    requires sep !in a
    ensures Split(a + [sep] + b, sep) == [a] + Split(b, sep)
    decreases |a|
  {
    if a == [] {
      assert a + [sep] + b == [sep] + b;
      assert ([sep] + b)[1..] == b;
    } else {
      assert sep !in a[1..] by {
        forall c | c in a[1..] ensures c != sep { }
      }
      SplitAppend(a[1..], b, sep);
      assert (a + [sep] + b)[1..] == a[1..] + [sep] + b;
      assert a == [a[0]] + a[1..];
    }
  }

  /** The join of the first `m` pieces is a prefix of the whole join, followed by a separator if more pieces remain. */
  lemma {:induction false} JoinPrefix(parts: seq<string>, m: nat, sep: char)
    requires 1 <= m <= |parts|
    ensures Join(parts[..m], sep) <= Join(parts, sep)
    ensures m < |parts| ==> |Join(parts[..m], sep)| < |Join(parts, sep)|
    ensures m < |parts| ==> Join(parts, sep)[|Join(parts[..m], sep)|] == sep
    decreases |parts|
  {
    if m == |parts| {
      assert parts[..m] == parts;
    } else if m == 1 {
      assert parts[..1] == [parts[0]];
    } else {
      JoinPrefix(parts[1..], m - 1, sep);
      assert parts[..m][1..] == parts[1..][..m - 1];
    }
  }

  /** A non-empty join ends with its last piece. */
  lemma {:induction false} JoinEndsWithLast(parts: seq<string>, sep: char)
    requires |parts| >= 1
    ensures var s := Join(parts, sep); var p := parts[|parts| - 1];
            |p| <= |s| && s[|s| - |p|..] == p
    decreases |parts|
  {
    if |parts| > 1 {
      JoinEndsWithLast(parts[1..], sep);
    }
  }

  /** `s.replace(from, to)` for single characters. */
  function ReplaceChar(s: string, from: char, to: char): (r: string)
    ensures |r| == |s|
    ensures forall i :: 0 <= i < |s| ==> r[i] == if s[i] == from then to else s[i]
  {
    seq(|s|, i requires 0 <= i < |s| => if s[i] == from then to else s[i])
  }

  /**
   * `os.path.basename(p)` (POSIX): the part of `p` after its last `/`.
   * It is the longest separator-free suffix of `p`.
   */
  function Basename(p: string): (name: string)
    ensures '/' !in name
    ensures |name| <= |p| && p[|p| - |name|..] == name
    ensures |name| == |p| || p[|p| - |name| - 1] == '/'
    decreases |p|
  {
    if p == [] then []
    else if p[|p| - 1] == '/' then []
    else Basename(p[..|p| - 1]) + [p[|p| - 1]]
  }

  /**
   * `os.path.join(a, b)` (POSIX, two arguments): an absolute `b` replaces `a`;
   * otherwise a `/` is inserted unless `a` is empty or already ends with one.
   */
  function PathJoin(a: string, b: string): string
  {
    if |b| > 0 && b[0] == '/' then b
    else if a == [] || a[|a| - 1] == '/' then a + b
    else a + "/" + b
  }

  /**
   * The joined path ends with `b`; an absolute `b` is the whole result, and a
   * relative one follows `a` and a `/` (the `/` may be the last of `a`).
   */
  lemma PathJoinEndsWith(a: string, b: string)
    ensures var r := PathJoin(a, b);
            && |r| >= |b| && r[|r| - |b|..] == b
            && (|b| > 0 && b[0] == '/' ==> r == b)
            && (!(|b| > 0 && b[0] == '/') ==> r[..|r| - |b|] == a || r[..|r| - |b|] == a + "/")
            && (!(|b| > 0 && b[0] == '/') && |r| > |b| ==> r[|r| - |b| - 1] == '/')
  {
  }

  /** The decimal digit character for `d`. */
  function Digit(d: nat): (c: char)
    requires d < 10
    ensures '0' <= c <= '9'
  {
    (d + '0' as int) as char
  }

  /** The value of a decimal digit character. */
  function DigitValue(c: char): nat
    requires '0' <= c <= '9'
  {
    c as int - '0' as int
  }

  predicate IsDigits(s: string)
  {
    forall i :: 0 <= i < |s| ==> '0' <= s[i] <= '9'
  }

  /** `str(n)` for a non-negative integer: its decimal digits, most significant first. */
  function NatToString(n: nat): (s: string)
    ensures |s| >= 1 && IsDigits(s)
  {
    if n < 10 then [Digit(n)] else NatToString(n / 10) + [Digit(n % 10)]
  }

  /** The integer value of a string of decimal digits. */
  function ParseNat(s: string): nat
    requires IsDigits(s)
  {
    if s == [] then 0 else ParseNat(s[..|s| - 1]) * 10 + DigitValue(s[|s| - 1])
  }

  /** Reading back the decimal form of `n` gives `n`. */
  lemma {:induction false} ParseNatToString(n: nat)
    ensures ParseNat(NatToString(n)) == n
  {
    if n >= 10 {
      ParseNatToString(n / 10);
      var s := NatToString(n);
      assert s[..|s| - 1] == NatToString(n / 10);
    }
  }

  /** Distinct numbers have distinct decimal forms. */
  lemma NatToStringInjective(m: nat, n: nat)
    requires NatToString(m) == NatToString(n)
    ensures m == n
  {
    ParseNatToString(m);
    ParseNatToString(n);
  }

  function Pow10(k: nat): (p: nat)
    ensures p >= 1
  {
    if k == 0 then 1 else 10 * Pow10(k - 1)
  }

  /** A number of at least `10^k` has more than `k` decimal digits. */
  lemma {:induction false} NatToStringLength(n: nat, k: nat)
    requires n >= Pow10(k)
    ensures |NatToString(n)| > k
  {
    if k > 0 {
      assert n >= 10;
      NatToStringLength(n / 10, k - 1);
    }
  }

  /** Some length bounds every string of a finite set. */
  lemma {:induction false} LengthBound(names: set<string>) returns (bound: nat)
    ensures forall x :: x in names ==> |x| <= bound
    decreases |names|
  {
    if names == {} {
      bound := 0;
    } else {
      var x :| x in names;
      var rest := LengthBound(names - {x});
      bound := if |x| > rest then |x| else rest;
    }
  }
}
