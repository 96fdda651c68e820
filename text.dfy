/** The few Python string operations the extraction relies on, with the laws that the model uses. */
module Text {

  /** Python's `s.replace(target, repl)` for a one-character `target`. */
  function Replace(s: string, target: char, repl: string): (r: string)
    ensures target !in repl ==> target !in r
  {
    if s == [] then [] else (if s[0] == target then repl else [s[0]]) + Replace(s[1..], target, repl)
  }

  lemma {:induction false} ReplaceAppend(a: string, b: string, target: char, repl: string)
    ensures Replace(a + b, target, repl) == Replace(a, target, repl) + Replace(b, target, repl)
  {
    if a != [] {
      var head := if a[0] == target then repl else [a[0]];
      assert (a + b)[0] == a[0] && (a + b)[1..] == a[1..] + b;
      ReplaceAppend(a[1..], b, target, repl);
      assert Replace(a + b, target, repl) == head + (Replace(a[1..], target, repl) + Replace(b, target, repl));
      assert Replace(a, target, repl) == head + Replace(a[1..], target, repl);
    } else {
      assert a + b == b;
    }
  }

  /** With a one-character replacement the result has the same length and is read off position by position. */
  lemma {:induction false} ReplaceByChar(s: string, target: char, c: char)
    ensures |Replace(s, target, [c])| == |s|
    ensures forall i :: 0 <= i < |s| ==> Replace(s, target, [c])[i] == if s[i] == target then c else s[i]
  {
    if s != [] {
      ReplaceByChar(s[1..], target, c);
    }
  }

  /** Replacing a character that does not occur changes nothing. */
  lemma {:induction false} ReplaceAbsent(s: string, target: char, repl: string)
    requires target !in s
    ensures Replace(s, target, repl) == s
  {
    if s != [] {
      ReplaceAbsent(s[1..], target, repl);
    }
  }

  /** Python's `sep.join(parts)`. */
  function Join(parts: seq<string>, sep: string): string {
    if |parts| == 0 then ""
    else if |parts| == 1 then parts[0]
    else parts[0] + sep + Join(parts[1..], sep)
  }

  /** Python's `s.split(sep)` for a non-empty separator: the pieces between
      the leftmost non-overlapping occurrences of `sep`. There is always one piece. */
  function Split(s: string, sep: string): (r: seq<string>)
    requires |sep| > 0
    ensures |r| >= 1
    decreases |s|
  {
    if |s| < |sep| then [s]
    else if s[..|sep|] == sep then [""] + Split(s[|sep|..], sep)
    else
      var rest := Split(s[1..], sep);
      [[s[0]] + rest[0]] + rest[1..]
  }

  /** Joining the pieces of a split with the same separator gives the string back. */
  lemma {:induction false} JoinSplit(s: string, sep: string)
    requires |sep| > 0
    ensures Join(Split(s, sep), sep) == s
    decreases |s|
  {
    if |s| < |sep| {
    } else if s[..|sep|] == sep {
      var rest := Split(s[|sep|..], sep);
      JoinSplit(s[|sep|..], sep);
      JoinEmptyFirst(rest, sep);
      assert s == s[..|sep|] + s[|sep|..];
    } else {
      var rest := Split(s[1..], sep);
      JoinSplit(s[1..], sep);
      JoinExtendFirst(s[0], rest, sep);
      assert s == [s[0]] + s[1..];
    }
  }

  lemma JoinEmptyFirst(rest: seq<string>, sep: string)
    requires |rest| >= 1
    ensures Join([""] + rest, sep) == sep + Join(rest, sep)
  {
    assert ([""] + rest)[1..] == rest;
  }

  lemma JoinExtendFirst(c: char, rest: seq<string>, sep: string)
    requires |rest| >= 1
    ensures Join([[c] + rest[0]] + rest[1..], sep) == [c] + Join(rest, sep)
  {
    var r := [[c] + rest[0]] + rest[1..];
    if |rest| > 1 {
      assert r[1..] == rest[1..];
    }
  }

  /** Splitting on a one-character separator peels off a leading piece that does not contain it. */
  lemma {:induction false} SplitPeel(piece: string, t: char, rest: string)
    requires t !in piece
    ensures Split(piece + [t] + rest, [t]) == [piece] + Split(rest, [t])
  {
    var s := piece + [t] + rest;
    if piece == [] {
      assert s[..1] == [t];
      assert s[1..] == rest;
    } else {
      assert s[0] == piece[0] && s[0] != t;
      assert s[1..] == piece[1..] + [t] + rest;
      SplitPeel(piece[1..], t, rest);
      assert [piece[0]] + piece[1..] == piece;
    }
  }

  /** A string without the separator is a single piece. */
  lemma {:induction false} SplitAbsent(s: string, t: char)
    requires t !in s
    ensures Split(s, [t]) == [s]
  {
    if |s| >= 1 {
      assert s[0] in s && s[..1] == [s[0]];
      SplitAbsent(s[1..], t);
      assert [s[0]] + s[1..] == s;
    }
  }

  /** Each field followed by the terminator, as the header loops build `name + "\t"`. */
  function Terminated(fields: seq<string>, t: char): string {
    if fields == [] then "" else fields[0] + [t] + Terminated(fields[1..], t)
  }

  /** A character other than the terminator occurs in a terminated line only if it occurs in a field. */
  lemma {:induction false} TerminatedAvoids(fields: seq<string>, t: char, c: char)
    requires c != t && forall i :: 0 <= i < |fields| ==> c !in fields[i]
    ensures c !in Terminated(fields, t)
  {
    if fields != [] {
      TerminatedAvoids(fields[1..], t, c);
    }
  }

  /** Reading a terminated line back: splitting on the terminator recovers the fields,
      followed by the empty piece after the last terminator. */
  lemma {:induction false} SplitTerminated(fields: seq<string>, t: char)
    requires forall i :: 0 <= i < |fields| ==> t !in fields[i]
    ensures Split(Terminated(fields, t), [t]) == fields + [""]
  {
    if fields != [] {
      SplitPeel(fields[0], t, Terminated(fields[1..], t));
      SplitTerminated(fields[1..], t);
      assert fields == [fields[0]] + fields[1..];
    }
  }

  /** The part of `s` before the first `c`, i.e. Python's `s.split(c)[0]`. */
  function TakeUntil(s: string, c: char): (r: string)
    ensures c !in r && r <= s
    ensures r == s || s[|r|] == c
  {
    if s == [] || s[0] == c then [] else [s[0]] + TakeUntil(s[1..], c)
  }

  lemma {:induction false} TakeUntilIsFirstPiece(s: string, c: char)
    ensures TakeUntil(s, c) == Split(s, [c])[0]
  {
    if s != [] {
      if s[0] == c {
        assert s[..1] == [c];
      } else {
        assert s[..1] != [c];
        TakeUntilIsFirstPiece(s[1..], c);
      }
    }
  }

  /** `TakeUntil` read position by position: `s` starts with `piece`, which lacks `c`, and then has `c`. */
  lemma {:induction false} TakeUntilAt(s: string, c: char, piece: string)
    requires |piece| < |s| && c !in piece && s[|piece|] == c
    requires forall j :: 0 <= j < |piece| ==> s[j] == piece[j]
    ensures TakeUntil(s, c) == piece
  {
    if piece != [] {
      TakeUntilAt(s[1..], c, piece[1..]);
      assert piece == [piece[0]] + piece[1..];
    }
  }

  predicate IsDigit(c: char) {
    '0' <= c <= '9'
  }

  predicate AllDigits(s: string) {
    forall i :: 0 <= i < |s| ==> IsDigit(s[i])
  }

  function DigitChar(d: nat): (c: char)
    requires d < 10
    ensures IsDigit(c)
  {
    (48 + d) as char
  }

  function DigitValue(c: char): nat
    requires IsDigit(c)
  {
    c as nat - 48
  }

  /** Python's `str(n)` for a natural number: decimal digits, no leading zero. */
  function NatToString(n: nat): (r: string)
    ensures |r| >= 1 && AllDigits(r)
    decreases n
  {
    if n < 10 then [DigitChar(n)] else NatToString(n / 10) + [DigitChar(n % 10)]
  }

  /** The decimal value of a string of digits (leading zeros allowed). */
  function ParseNat(s: string): nat
    requires AllDigits(s)
    decreases |s|
  {
    if s == [] then 0 else ParseNat(s[..|s| - 1]) * 10 + DigitValue(s[|s| - 1])
  }

  /** `str` is inverted by reading the digits back. */
  lemma {:induction false} ParseNatToString(n: nat)
    ensures ParseNat(NatToString(n)) == n
    decreases n
  {
    if n >= 10 {
      var s := NatToString(n);
      assert s[..|s| - 1] == NatToString(n / 10);
      ParseNatToString(n / 10);
    }
  }

  function Zeros(k: nat): (r: string)
    ensures |r| == k && AllDigits(r)
  {
    if k == 0 then "" else "0" + Zeros(k - 1)
  }

  lemma {:induction false} ParseNatLeadingZeros(k: nat, s: string)
    requires AllDigits(s)
    ensures ParseNat(Zeros(k) + s) == ParseNat(s)
    decreases |s|, k
  {
    if s == [] {
      assert Zeros(k) + s == Zeros(k);
      if k > 0 {
        assert Zeros(k)[..k - 1] == Zeros(k - 1) by {
          ZerosSnoc(k - 1);
        }
        ParseNatLeadingZeros(k - 1, "");
        assert Zeros(k - 1) + "" == Zeros(k - 1);
      }
    } else {
      var t := Zeros(k) + s;
      assert t[..|t| - 1] == Zeros(k) + s[..|s| - 1];
      ParseNatLeadingZeros(k, s[..|s| - 1]);
    }
  }

  lemma {:induction false} ZerosSnoc(k: nat)
    ensures Zeros(k + 1) == Zeros(k) + "0"
  {
    if k > 0 {
      ZerosSnoc(k - 1);
    }
  }

  /** Python's `'{:0wd}'.format(n)` for a natural number: the decimal digits, left-padded with zeros to width `w`. */
  function ZeroPad(n: nat, width: nat): (r: string)
    ensures AllDigits(r)
  {
    var d := NatToString(n);
    (if |d| < width then Zeros(width - |d|) else "") + d
  }

  /** The padded form is at least `width` long, reads back as `n`, and is `str(n)` once that is wide enough. */
  lemma ZeroPadSpec(n: nat, width: nat)
    ensures |ZeroPad(n, width)| == if |NatToString(n)| < width then width else |NatToString(n)|
    ensures ParseNat(ZeroPad(n, width)) == n
    ensures |NatToString(n)| >= width ==> ZeroPad(n, width) == NatToString(n)
  {
    var d := NatToString(n);
    ParseNatToString(n);
    if |d| < width {
      ParseNatLeadingZeros(width - |d|, d);
    } else {
      assert "" + d == d;
    }
  }

  /** Python's `s.endswith(suffix)`. */
  predicate EndsWith(s: string, suffix: string) {
    |suffix| <= |s| && s[|s| - |suffix|..] == suffix
  }

  /** A string cannot end both in `a` and in `b` when their last characters differ. */
  lemma EndsWithOne(s: string, a: string, b: string)
    requires |a| > 0 && |b| > 0 && a[|a| - 1] != b[|b| - 1] && EndsWith(s, a)
    ensures !EndsWith(s, b)
  {
    assert s[|s| - 1] == s[|s| - |a|..][|a| - 1];
    assert |b| <= |s| ==> s[|s| - |b|..][|b| - 1] == s[|s| - 1];
  }

  /** Python's `os.path.join(a, b)` on POSIX (`posixpath.join` with two arguments). */
  function PathJoin(a: string, b: string): (r: string)
    ensures |b| > 0 && b[0] == '/' ==> r == b
    ensures |b| <= |r| && r[|r| - |b|..] == b
  {
    if |b| > 0 && b[0] == '/' then b
    else if a == "" || a[|a| - 1] == '/' then a + b
    else a + "/" + b
  }

  /** A joined path ends like its last component. */
  lemma JoinEndsWith(a: string, b: string, suffix: string)
    requires EndsWith(b, suffix)
    ensures EndsWith(PathJoin(a, b), suffix)
  {
    var r := PathJoin(a, b);
    assert r[|r| - |suffix|..] == r[|r| - |b|..][|b| - |suffix|..];
  }
}
