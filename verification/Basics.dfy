/** What several modules share. */
module Basics {

  type byte = b: int | 0 <= b < 256

  datatype Option<T> = None | Some(value: T)

  /** The digits printf writes for %x. */
  const HEX := "0123456789abcdef"

  /** The value of a hexadecimal digit. */
  function HexDigit(c: char): (d: Option<nat>)
    ensures d.Some? ==> d.value < 16
  {
    if '0' <= c <= '9' then Some((c - '0') as nat)
    else if 'A' <= c <= 'F' then Some(c as nat - 55)
    else if 'a' <= c <= 'f' then Some(c as nat - 87)
    else None
  }

  /** A C string ends at its first terminator. */
  function CString<T(==)>(memory: seq<T>, nul: T): seq<T> {
    if memory == [] || memory[0] == nul then [] else [memory[0]] + CString(memory[1..], nul)
  }

  lemma {:induction false} CStringIsPrefix<T>(memory: seq<T>, nul: T)
    ensures var s := CString(memory, nul);
      && |s| <= |memory| && s == memory[..|s|]
      && (|s| < |memory| ==> memory[|s|] == nul)
      && forall i :: 0 <= i < |s| ==> s[i] != nul
  {
    if memory != [] && memory[0] != nul {
      CStringIsPrefix(memory[1..], nul);
    }
  }

  lemma {:induction false} CStringStops<T>(memory: seq<T>, n: nat, nul: T)
    requires n < |memory| && memory[n] == nul
    ensures CString(memory, nul) == CString(memory[..n], nul)
  {
    if n > 0 && memory[0] != nul {
      CStringStops(memory[1..], n - 1, nul);
      assert memory[..n][1..] == memory[1..][..n - 1];
    }
  }

  lemma {:induction false} CStringWhole<T>(s: seq<T>, nul: T)
    requires forall i :: 0 <= i < |s| ==> s[i] != nul
    ensures CString(s, nul) == s
  {
    if s != [] {
      CStringWhole(s[1..], nul);
    }
  }

  lemma {:induction false} HexDigitOfMap(d: nat)
    requires d < 16
    ensures HexDigit(HEX[d]) == Some(d)
  {
  }

  // ---------- sequences ----------

  lemma {:induction false} Regroup<T>(a: seq<T>, b: seq<T>, c: seq<T>)
    ensures (a + b) + c == a + (b + c)
  {
  }

  lemma {:induction false} RegroupFour<T>(a: seq<T>, b: seq<T>, c: seq<T>, d: seq<T>)
    ensures ((a + b) + c) + d == a + (b + (c + d)) && (a + (b + c)) + d == a + (b + (c + d))
  {
    Regroup(a, b, c);
    Regroup(a + b, c, d);
    Regroup(a, b, c + d);
  }

  lemma {:induction false} EmptyEnds<T>(s: seq<T>)
    ensures s + [] == s && [] + s == s
  {
  }

  lemma {:induction false} TailOfCons<T>(x: T, s: seq<T>)
    ensures |[x] + s| == 1 + |s| && ([x] + s)[0] == x && ([x] + s)[1..] == s
  {
  }

  lemma {:induction false} SplitAround<T>(head: seq<T>, x: T, tail: seq<T>)
    ensures var s := head + ([x] + tail);
      |head| < |s| && s[|head|] == x && s[..|head|] == head && s[|head| + 1..] == tail
  {
  }

  lemma {:induction false} HeadAndTail<T>(s: seq<T>)
    requires s != []
    ensures s == [s[0]] + s[1..]
  {
  }

  lemma {:induction false} TailOfTail<T>(s: seq<T>, i: nat, j: nat)
    requires i + j <= |s|
    ensures s[i..][j..] == s[i + j..]
  {
  }

  lemma {:induction false} SubsetSize<T>(a: set<T>, b: set<T>)
    requires a <= b
    ensures |a| <= |b|
  {
    if a != {} {
      var x :| x in a;
      SubsetSize(a - {x}, b - {x});
    }
  }
}
