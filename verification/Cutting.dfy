/** Cutting a stream into lines at a delimiter, and what is left after the last one. */
module Cutting {
  import opened Basics

  /** The offset of the first delimiter, or the length (memchr). */
  function FirstOf<T(==)>(s: seq<T>, lf: T): (i: nat)
    ensures i <= |s| && (i < |s| ==> s[i] == lf)
  {
    if s == [] || s[0] == lf then 0 else 1 + FirstOf(s[1..], lf)
  }

  /** The complete lines of a stream, without their delimiter. */
  function Lines<T(==)>(s: seq<T>, lf: T): seq<seq<T>>
    decreases |s|
  {
    var i := FirstOf(s, lf);
    if i == |s| then [] else [s[..i]] + Lines(s[i + 1..], lf)
  }

  /** What follows the last delimiter. */
  function Remainder<T(==)>(s: seq<T>, lf: T): seq<T>
    decreases |s|
  {
    var i := FirstOf(s, lf);
    if i == |s| then s else Remainder(s[i + 1..], lf)
  }

  lemma {:induction false} LinesUnfold<T>(s: seq<T>, lf: T)
    requires FirstOf(s, lf) < |s|
    ensures Lines(s, lf) == [s[..FirstOf(s, lf)]] + Lines(s[FirstOf(s, lf) + 1..], lf)
  {
  }

  lemma {:induction false} RemainderUnfold<T>(s: seq<T>, lf: T)
    requires FirstOf(s, lf) < |s|
    ensures Remainder(s, lf) == Remainder(s[FirstOf(s, lf) + 1..], lf)
  {
  }

  lemma {:induction false} FirstAfter<T>(head: seq<T>, tail: seq<T>, lf: T)
    requires FirstOf(head, lf) == |head|
    ensures FirstOf(head + ([lf] + tail), lf) == |head|
  {
    if head == [] {
      EmptyEnds([lf] + tail);
    } else {
      FirstAfter(head[1..], tail, lf);
      assert (head + ([lf] + tail))[1..] == head[1..] + ([lf] + tail);
    }
  }

  lemma {:induction false} FirstBefore<T>(s: seq<T>, lf: T)
    ensures FirstOf(s[..FirstOf(s, lf)], lf) == FirstOf(s, lf)
  {
    if s != [] && s[0] != lf {
      FirstBefore(s[1..], lf);
      assert s[..FirstOf(s, lf)][1..] == s[1..][..FirstOf(s[1..], lf)];
    }
  }

  /** One line and its delimiter. */
  lemma {:induction false} OneLine<T>(head: seq<T>, tail: seq<T>, lf: T)
    requires FirstOf(head, lf) == |head|
    ensures Lines(head + ([lf] + tail), lf) == [head] + Lines(tail, lf)
    ensures Remainder(head + ([lf] + tail), lf) == Remainder(tail, lf)
  {
    FirstAfter(head, tail, lf);
    SplitAround(head, lf, tail);
    LinesUnfold(head + ([lf] + tail), lf);
    RemainderUnfold(head + ([lf] + tail), lf);
  }

  /** A stream that holds a delimiter is a line, the delimiter and a shorter stream. */
  lemma {:induction false} Opened<T>(s: seq<T>, lf: T) returns (head: seq<T>, tail: seq<T>)
    requires FirstOf(s, lf) < |s|
    ensures s == head + ([lf] + tail) && FirstOf(head, lf) == |head|
  {
    var i := FirstOf(s, lf);
    head, tail := s[..i], s[i + 1..];
    FirstBefore(s, lf);
  }

  lemma {:induction false} Unbroken<T>(s: seq<T>, lf: T)
    requires FirstOf(s, lf) == |s|
    ensures Lines(s, lf) == [] && Remainder(s, lf) == s
  {
  }

  /** Cutting commutes with appending: complete lines stay, the remainder is carried over. */
  lemma {:induction false} LinesOfConcat<T>(a: seq<T>, b: seq<T>, lf: T)
    ensures Lines(a + b, lf) == Lines(a, lf) + Lines(Remainder(a, lf) + b, lf)
    ensures Remainder(a + b, lf) == Remainder(Remainder(a, lf) + b, lf)
    decreases |a|
  {
    if FirstOf(a, lf) < |a| {
      var head, tail := Opened(a, lf);
      LinesOfConcat(tail, b, lf);
      OneLineThen(head, tail, b, lf);
    } else {
      Unbroken(a, lf);
      EmptyEnds(Lines(a + b, lf));
    }
  }

  lemma {:induction false} OneLineThen<T>(head: seq<T>, tail: seq<T>, b: seq<T>, lf: T)
    requires FirstOf(head, lf) == |head|
    requires Lines(tail + b, lf) == Lines(tail, lf) + Lines(Remainder(tail, lf) + b, lf)
    requires Remainder(tail + b, lf) == Remainder(Remainder(tail, lf) + b, lf)
    ensures var a := head + ([lf] + tail);
      && Lines(a + b, lf) == Lines(a, lf) + Lines(Remainder(a, lf) + b, lf)
      && Remainder(a + b, lf) == Remainder(Remainder(a, lf) + b, lf)
  {
    OneLine(head, tail, lf);
    OneLine(head, tail + b, lf);
    RegroupFour(head, [lf], tail, b);
    Regroup([head], Lines(tail, lf), Lines(Remainder(tail, lf) + b, lf));
  }

  lemma {:induction false} RemainderHasNoLine<T>(s: seq<T>, lf: T)
    ensures Lines(Remainder(s, lf), lf) == []
    decreases |s|
  {
    if FirstOf(s, lf) < |s| {
      var head, tail := Opened(s, lf);
      OneLine(head, tail, lf);
      RemainderHasNoLine(tail, lf);
    } else {
      Unbroken(s, lf);
    }
  }
}
