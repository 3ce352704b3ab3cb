/** Byte-slice helpers of the test HSS servicers. */
module Util {

  newtype Byte = x: int | 0 <= x < 256

  /** Every byte of the sequence is zero, stated one byte at a time from the front. */
  predicate IsAllZero(s: seq<Byte>)
  {
    s == [] || (s[0] == 0 && IsAllZero(s[1..]))
  }

  /** The recursive statement agrees with the quantified one, in both directions. */
  lemma {:induction false} IsAllZeroIff(s: seq<Byte>)
    ensures IsAllZero(s) <==> forall i :: 0 <= i < |s| ==> s[i] == 0
  {
    if s != [] {
      IsAllZeroIff(s[1..]);
      assert forall i :: 1 <= i < |s| ==> s[i] == s[1..][i - 1];
    }
  }

  /** A non-zero byte anywhere makes the answer false. */
  lemma NonzeroByteMeansNotAllZero(s: seq<Byte>, k: nat)
    requires k < |s| && s[k] != 0
    ensures !IsAllZero(s)
  {
    IsAllZeroIff(s);
  }

  /** A concatenation is all zero exactly when both parts are. */
  lemma {:induction false} IsAllZeroConcat(a: seq<Byte>, b: seq<Byte>)
    ensures IsAllZero(a + b) <==> IsAllZero(a) && IsAllZero(b)
  {
    if a == [] {
      assert a + b == b;
    } else {
      assert (a + b)[1..] == a[1..] + b;
      IsAllZeroConcat(a[1..], b);
    }
  }

  /**
   * Scans the slice from the front and stops at the first non-zero byte. The
   * method has no modifies clause, so the slice is left as it was.
   */
  method AllZero(bytes: array<Byte>) returns (r: bool)
    ensures r == IsAllZero(bytes[..])
    ensures r <==> forall i :: 0 <= i < bytes.Length ==> bytes[i] == 0
  {
    IsAllZeroIff(bytes[..]);
    for i := 0 to bytes.Length
      invariant IsAllZero(bytes[..i])
    {
      if bytes[i] != 0 {
        NonzeroByteMeansNotAllZero(bytes[..], i);
        return false;
      }
      assert bytes[..i + 1] == bytes[..i] + [bytes[i]];
      IsAllZeroConcat(bytes[..i], [bytes[i]]);
      assert IsAllZero([bytes[i]]) by {
        assert [bytes[i]][1..] == [];
      }
    }
    assert bytes[..] == bytes[..bytes.Length];
    return true;
  }
}
