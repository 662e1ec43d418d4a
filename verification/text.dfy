/**
 The text layer of the sampler output: pieces each followed by a terminator
 (fields by a tab, rows by a newline), the inverse split, and the decimal
 rendering of a walker index.
 */
module Text {
  import opened Wrappers

  const Tab: char := '\t'
  const Newline: char := '\n'

  /** Every piece followed by the terminator `t`. */
  function Terminated(pieces: seq<string>, t: char): string
  {
    if pieces == [] then [] else pieces[0] + [t] + Terminated(pieces[1..], t)
  }

  /** No piece contains the character `c`. */
  predicate AllFree(pieces: seq<string>, c: char)
  {
    forall i :: 0 <= i < |pieces| ==> c !in pieces[i]
  }

  lemma {:induction false} TerminatedAppend(xs: seq<string>, ys: seq<string>, t: char)
    ensures Terminated(xs + ys, t) == Terminated(xs, t) + Terminated(ys, t)
  {
    if xs == [] {
      assert xs + ys == ys;
    } else {
      assert (xs + ys)[1..] == xs[1..] + ys;
      TerminatedAppend(xs[1..], ys, t);
    }
  }

  lemma TerminatedSnoc(xs: seq<string>, x: string, t: char)
    ensures Terminated(xs + [x], t) == Terminated(xs, t) + x + [t]
  {
    TerminatedAppend(xs, [x], t);
    assert Terminated([x], t) == x + [t] + Terminated([], t);
  }

  /** A character other than the terminator occurs in the text only if it occurs in a piece. */
  lemma {:induction false} TerminatedFree(pieces: seq<string>, t: char, c: char)
    requires c != t && AllFree(pieces, c)
    ensures c !in Terminated(pieces, t)
  {
    if pieces != [] {
      TerminatedFree(pieces[1..], t, c);
    }
  }

  /** Position of the first `t` in `s`, if any. */
  function FirstIndex(s: string, t: char): (r: Option<nat>)
    ensures r.Some? ==> r.value < |s| && s[r.value] == t && t !in s[..r.value]
    ensures r.None? <==> t !in s
  {
    if s == [] then None
    else if s[0] == t then Some(0)
    else match FirstIndex(s[1..], t)
      case None => None
      case Some(j) =>
        assert s[..j + 1] == [s[0]] + s[1..][..j];
        Some(j + 1)
  }

  lemma {:induction false} FirstIndexAfterFree(p: string, t: char, q: string)
    requires t !in p
    ensures FirstIndex(p + [t] + q, t) == Some(|p|)
  {
    if p != [] {
      assert (p + [t] + q)[1..] == p[1..] + [t] + q;
      FirstIndexAfterFree(p[1..], t, q);
    }
  }

  /** Cut `s` into the pieces that each end with `t`; None when text follows the last `t`. */
  function SplitTerminated(s: string, t: char): (r: Option<seq<string>>)
    decreases |s|
  {
    if s == [] then Some([])
    else match FirstIndex(s, t)
      case None => None
      case Some(j) =>
        match SplitTerminated(s[j + 1..], t)
        case None => None
        case Some(rest) => Some([s[..j]] + rest)
  }

  /** Splitting undoes terminating, provided no piece contains the terminator. */
  lemma {:induction false} SplitTerminatedRoundTrip(pieces: seq<string>, t: char)
    requires AllFree(pieces, t)
    ensures SplitTerminated(Terminated(pieces, t), t) == Some(pieces)
  {
    if pieces != [] {
      var p := pieces[0];
      var rest := Terminated(pieces[1..], t);
      var s := Terminated(pieces, t);
      assert s == p + [t] + rest;
      FirstIndexAfterFree(p, t, rest);
      assert s[..|p|] == p;
      assert s[|p| + 1..] == rest;
      SplitTerminatedRoundTrip(pieces[1..], t);
      assert [p] + pieces[1..] == pieces;
    }
  }

  /** Terminating undoes a successful split, and the pieces it finds never contain the terminator. */
  lemma {:induction false} SplitTerminatedInverse(s: string, t: char)
    requires SplitTerminated(s, t).Some?
    ensures AllFree(SplitTerminated(s, t).value, t)
    ensures Terminated(SplitTerminated(s, t).value, t) == s
    decreases |s|
  {
    if s != [] {
      var j := FirstIndex(s, t).value;
      var tail := s[j + 1..];
      SplitTerminatedInverse(tail, t);
      var rest := SplitTerminated(tail, t).value;
      var pieces := SplitTerminated(s, t).value;
      assert pieces == [s[..j]] + rest;
      assert pieces[0] == s[..j] && pieces[1..] == rest;
      assert Terminated(pieces, t) == s[..j] + [t] + Terminated(rest, t);
      CutAround(s, j);
      forall i | 0 <= i < |pieces|
        ensures t !in pieces[i]
      {
        if i > 0 { assert pieces[i] == rest[i - 1]; }
      }
    }
  }

  /** A split succeeds exactly when the text is empty or ends with the terminator. */
  lemma {:induction false} SplitTerminatedSucceeds(s: string, t: char)
    ensures SplitTerminated(s, t).Some? <==> (s == [] || s[|s| - 1] == t)
    decreases |s|
  {
    if s != [] {
      match FirstIndex(s, t)
      case None =>
        assert s[|s| - 1] in s;
      case Some(j) =>
        var tail := s[j + 1..];
        SplitTerminatedSucceeds(tail, t);
        if tail == [] {
          assert j == |s| - 1;
        } else {
          assert tail[|tail| - 1] == s[|s| - 1];
        }
    }
  }

  /** Two well-terminated texts concatenate into one whose pieces are the two lists in order. */
  lemma SplitTerminatedAppend(a: string, b: string, t: char)
    requires SplitTerminated(a, t).Some? && SplitTerminated(b, t).Some?
    ensures SplitTerminated(a + b, t) == Some(SplitTerminated(a, t).value + SplitTerminated(b, t).value)
  {
    var pa := SplitTerminated(a, t).value;
    var pb := SplitTerminated(b, t).value;
    SplitTerminatedInverse(a, t);
    SplitTerminatedInverse(b, t);
    TerminatedAppend(pa, pb, t);
    AllFreeAppend(pa, pb, t);
    SplitTerminatedRoundTrip(pa + pb, t);
  }

  lemma AllFreeAppend(xs: seq<string>, ys: seq<string>, c: char)
    requires AllFree(xs, c) && AllFree(ys, c)
    ensures AllFree(xs + ys, c)
  {
    forall i | 0 <= i < |xs + ys|
      ensures c !in (xs + ys)[i]
    {
      if i < |xs| { assert (xs + ys)[i] == xs[i]; } else { assert (xs + ys)[i] == ys[i - |xs|]; }
    }
  }

  /** The sequences one after the other: texts into one text, row lists into one list. */
  function Concat<T>(parts: seq<seq<T>>): seq<T>
  {
    if parts == [] then [] else Concat(parts[..|parts| - 1]) + parts[|parts| - 1]
  }

  lemma ConcatSnoc<T>(xs: seq<seq<T>>, x: seq<T>)
    ensures Concat(xs + [x]) == Concat(xs) + x
  {
    assert (xs + [x])[..|xs|] == xs;
  }

  lemma {:induction false} ConcatAppend<T>(xs: seq<seq<T>>, ys: seq<seq<T>>)
    ensures Concat(xs + ys) == Concat(xs) + Concat(ys)
    decreases |ys|
  {
    if ys == [] {
      assert xs + ys == xs;
    } else {
      var n := |ys|;
      assert (xs + ys)[..|xs + ys| - 1] == xs + ys[..n - 1];
      ConcatAppend(xs, ys[..n - 1]);
      AppendAssociative(Concat(xs), Concat(ys[..n - 1]), ys[n - 1]);
    }
  }

  /* Sequence facts, stated once so that proofs about large terms can cite them. */

  lemma CutAround<T>(s: seq<T>, j: nat)
    requires j < |s|
    ensures s == s[..j] + [s[j]] + s[j + 1..]
  {
  }

  lemma AppendAssociative<T>(a: seq<T>, b: seq<T>, c: seq<T>)
    ensures (a + b) + c == a + (b + c)
  {
  }

  lemma EmptyAppend<T>(a: seq<T>)
    ensures [] + a == a
  {
  }

  predicate IsDigit(c: char)
  {
    '0' <= c <= '9'
  }

  function DigitChar(d: nat): (c: char)
    requires d < 10
    ensures IsDigit(c) && c as int - '0' as int == d
  {
    ('0' as int + d) as char
  }

  /** Python's '{0:d}' of a non-negative int: its decimal digits, no sign, no padding. */
  function Decimal(k: nat): (s: string)
    ensures |s| > 0
    ensures forall i :: 0 <= i < |s| ==> IsDigit(s[i])
    ensures Tab !in s && Newline !in s
    ensures s[0] == '0' ==> k == 0 && s == "0"
  {
    if k < 10 then [DigitChar(k)] else Decimal(k / 10) + [DigitChar(k % 10)]
  }

  /** Reads a non-empty run of decimal digits back into a number. */
  function ParseDecimal(s: string): Option<nat>
    decreases |s|
  {
    if s == [] || !IsDigit(s[|s| - 1]) then None
    else
      var d := s[|s| - 1] as int - '0' as int;
      if |s| == 1 then Some(d)
      else match ParseDecimal(s[..|s| - 1])
        case None => None
        case Some(v) => Some(10 * v + d)
  }

  lemma {:induction false} ParseDecimalRoundTrip(k: nat)
    ensures ParseDecimal(Decimal(k)) == Some(k)
  {
    if k >= 10 {
      var s := Decimal(k);
      ParseDecimalRoundTrip(k / 10);
      assert s[..|s| - 1] == Decimal(k / 10);
    }
  }
}
