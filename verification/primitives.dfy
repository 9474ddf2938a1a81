/** Go primitives the backend relies on: fixed-width unsigned integers with
    wrap-around arithmetic, the `strings` helpers the handlers call, and the
    Option/Result wrappers used for error paths. */
module Primitives {

  datatype Option<+T> = None | Some(value: T)

  datatype Result<+T, +E> = Ok(value: T) | Err(error: E)

  const TWO_64: nat := 0x1_0000_0000_0000_0000
  const TWO_32: nat := 0x1_0000_0000

  type u64 = x: nat | x < TWO_64
  type u32 = x: nat | x < TWO_32
  type u16 = x: nat | x < 0x1_0000
  type byte = x: nat | x < 0x100

  /** Go's `a - b` on uint64: wraps modulo 2^64 when b > a. */
  function SubU64(a: u64, b: u64): (r: u64)
    ensures b <= a ==> r == a - b
    ensures a < b ==> r == TWO_64 - (b - a)
  {
    if b <= a then a - b else TWO_64 - (b - a)
  }

  /** Go's `a + b` on uint64: wraps modulo 2^64 on overflow. */
  function AddU64(a: u64, b: u64): (r: u64)
    ensures r == (a + b) % TWO_64
  {
    if a + b < TWO_64 then a + b else a + b - TWO_64
  }

  /** The exact (unbounded) sum of a sequence. */
  function Sum(xs: seq<nat>): nat
  {
    if |xs| == 0 then 0 else Sum(xs[..|xs| - 1]) + xs[|xs| - 1]
  }

  /** A Go `for ... { acc += x }` loop over uint64 values, left to right. */
  function SumU64(xs: seq<u64>): u64
  {
    if |xs| == 0 then 0 else AddU64(SumU64(xs[..|xs| - 1]), xs[|xs| - 1])
  }

  lemma ModAddLeft(a: nat, b: nat)
    ensures (a % TWO_64 + b) % TWO_64 == (a + b) % TWO_64
  {
    var q := a / TWO_64;
    assert a == q * TWO_64 + a % TWO_64;
    assert a + b == q * TWO_64 + (a % TWO_64 + b);
  }

  /** The accumulating loop computes the true total reduced modulo 2^64. */
  lemma {:induction false} SumU64IsSumMod(xs: seq<u64>)
    ensures SumU64(xs) == Sum(xs) % TWO_64
  {
    if |xs| > 0 {
      var init := xs[..|xs| - 1];
      SumU64IsSumMod(init);
      ModAddLeft(Sum(init), xs[|xs| - 1]);
    }
  }

  predicate HasPrefix(s: string, prefix: string)
  {
    |prefix| <= |s| && s[..|prefix|] == prefix
  }

  /** Go's `strings.TrimPrefix`: removes one leading occurrence, if any. */
  function TrimPrefix(s: string, prefix: string): (r: string)
    ensures HasPrefix(s, prefix) ==> prefix + r == s
    ensures !HasPrefix(s, prefix) ==> r == s
  {
    if HasPrefix(s, prefix) then s[|prefix|..] else s
  }

  /** Go's `unicode.IsSpace`: the Unicode White_Space characters. */
  predicate IsSpace(c: char)
  {
    || c == '\t' || c == '\n' || c == '\U{000B}' || c == '\U{000C}' || c == '\r'
    || c == ' ' || c == '\U{0085}' || c == '\U{00A0}' || c == '\U{1680}'
    || ('\U{2000}' <= c <= '\U{200A}')
    || c == '\U{2028}' || c == '\U{2029}' || c == '\U{202F}' || c == '\U{205F}'
    || c == '\U{3000}'
  }

  function TrimLeft(s: string): (r: string)
    ensures |r| <= |s| && r == s[|s| - |r|..]
    ensures |r| == 0 || !IsSpace(r[0])
    ensures forall i :: 0 <= i < |s| - |r| ==> IsSpace(s[i])
  {
    if |s| > 0 && IsSpace(s[0]) then TrimLeft(s[1..]) else s
  }

  function TrimRight(s: string): (r: string)
    ensures |r| <= |s| && r == s[..|r|]
    ensures |r| == 0 || !IsSpace(r[|r| - 1])
    ensures forall i :: |r| <= i < |s| ==> IsSpace(s[i])
  {
    if |s| > 0 && IsSpace(s[|s| - 1]) then TrimRight(s[..|s| - 1]) else s
  }

  /** Go's `strings.TrimSpace`: drops leading and trailing white space. */
  function TrimSpace(s: string): (r: string)
  {
    TrimRight(TrimLeft(s))
  }

  /** The trimmed string is a slice of the input whose ends are not white
      space and outside of which there is nothing but white space. */
  lemma TrimSpaceSlice(s: string)
    ensures exists i, j ::
              && 0 <= i <= j <= |s| && TrimSpace(s) == s[i..j]
              && (forall k :: 0 <= k < i ==> IsSpace(s[k]))
              && (forall k :: j <= k < |s| ==> IsSpace(s[k]))
    ensures TrimSpace(s) == [] || (!IsSpace(TrimSpace(s)[0]) && !IsSpace(TrimSpace(s)[|TrimSpace(s)| - 1]))
  {
    var l := TrimLeft(s);
    var i := |s| - |l|;
    var j := i + |TrimRight(l)|;
    assert TrimSpace(s) == s[i..j];
    assert forall k :: j <= k < |s| ==> IsSpace(s[k]) by {
      forall k | j <= k < |s| ensures IsSpace(s[k]) {
        assert s[k] == l[k - i];
      }
    }
  }

  /** A string whose first and last characters are not white space is left alone. */
  lemma TrimSpaceNoop(s: string)
    requires |s| > 0 && !IsSpace(s[0]) && !IsSpace(s[|s| - 1])
    ensures TrimSpace(s) == s
  {
    assert TrimLeft(s) == s;
  }

  /** A string made only of white space trims to the empty string. */
  lemma {:induction false} TrimSpaceAllSpace(s: string)
    requires forall i :: 0 <= i < |s| ==> IsSpace(s[i])
    ensures TrimSpace(s) == ""
  {
    if |s| > 0 {
      TrimSpaceAllSpace(s[1..]);
      assert TrimLeft(s) == TrimLeft(s[1..]);
    }
  }

  lemma {:induction false} TrimLeftSkipsSpace(pad: string, s: string)
    requires forall i :: 0 <= i < |pad| ==> IsSpace(pad[i])
    ensures TrimLeft(pad + s) == TrimLeft(s)
  {
    if |pad| > 0 {
      assert (pad + s)[1..] == pad[1..] + s;
      TrimLeftSkipsSpace(pad[1..], s);
    } else {
      assert pad + s == s;
    }
  }

  lemma {:induction false} TrimRightSkipsSpace(s: string, pad: string)
    requires forall i :: 0 <= i < |pad| ==> IsSpace(pad[i])
    ensures TrimRight(s + pad) == TrimRight(s)
  {
    if |pad| > 0 {
      assert (s + pad)[..|s + pad| - 1] == s + pad[..|pad| - 1];
      TrimRightSkipsSpace(s, pad[..|pad| - 1]);
    } else {
      assert s + pad == s;
    }
  }

  /** White space around a string with non-space ends is exactly what
      `TrimSpace` removes. */
  lemma TrimSpacePadded(left: string, s: string, right: string)
    requires forall i :: 0 <= i < |left| ==> IsSpace(left[i])
    requires forall i :: 0 <= i < |right| ==> IsSpace(right[i])
    requires |s| > 0 && !IsSpace(s[0]) && !IsSpace(s[|s| - 1])
    ensures TrimSpace(left + s + right) == s
  {
    assert left + s + right == left + (s + right);
    TrimLeftSkipsSpace(left, s + right);
    assert TrimLeft(s + right) == s + right;
    TrimRightSkipsSpace(s, right);
  }
}
