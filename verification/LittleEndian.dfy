/**
 Little-endian values: their bytes, and the value a run of bytes stands for.
 */
module LittleEndian {

  type byte = b: nat | b < 256

  function Pow256(n: nat): (r: nat)
    ensures r > 0
  {
    if n == 0 then 1 else 256 * Pow256(n - 1)
  }

  /** The lowest `n` bytes of `v`. */
  function Le(v: nat, n: nat): (bs: seq<byte>)
    ensures |bs| == n
  {
    if n == 0 then [] else [v % 256] + Le(v / 256, n - 1)
  }

  function Unle(bs: seq<nat>): nat {
    if bs == [] then 0 else bs[0] + 256 * Unle(bs[1..])
  }

  lemma {:induction false} UnleBound(bs: seq<byte>)
    ensures Unle(bs) < Pow256(|bs|)
    decreases |bs|
  {
    if bs != [] {
      UnleBound(bs[1..]);
    }
  }

  lemma LowByte(b: byte, rest: nat)
    ensures (b + 256 * rest) % 256 == b && (b + 256 * rest) / 256 == rest
  {
  }

  lemma {:induction false} LeOfUnle(bs: seq<byte>)
    ensures Le(Unle(bs), |bs|) == bs
    decreases |bs|
  {
    if bs != [] {
      var rest := Unle(bs[1..]);
      LowByte(bs[0], rest);
      LeOfUnle(bs[1..]);
      assert [bs[0]] + bs[1..] == bs;
    }
  }

  lemma {:induction false} UnleOfLe(v: nat, n: nat)
    requires v < Pow256(n)
    ensures Unle(Le(v, n)) == v
    decreases n
  {
    if n > 0 {
      UnleOfLe(v / 256, n - 1);
      assert Le(v, n)[1..] == Le(v / 256, n - 1);
    }
  }

  lemma MulOut(a: nat, x: nat, p: nat, h: nat)
    ensures a + 256 * (x + p * h) == (a + 256 * x) + (256 * p) * h
  {
  }

  lemma {:induction false} UnleConcat(lo: seq<byte>, hi: seq<byte>)
    ensures Unle(lo + hi) == Unle(lo) + Pow256(|lo|) * Unle(hi)
    decreases |lo|
  {
    if lo == [] {
      assert lo + hi == hi;
    } else {
      UnleConcat(lo[1..], hi);
      assert (lo + hi)[1..] == lo[1..] + hi;
      MulOut(lo[0], Unle(lo[1..]), Pow256(|lo| - 1), Unle(hi));
    }
  }
}
