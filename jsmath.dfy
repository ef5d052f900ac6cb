/** The pieces of JavaScript's number library the mesh builders use. */
module JsMath {

  /** `Math.PI`: the double nearest to pi, written as its shortest decimal. */
  const Pi: real := 3.141592653589793

  /** `Math.sin` and `Math.cos`. They are left uninterpreted: a builder
      receives them as parameters, so the proofs know nothing about their values. */
  datatype Trig = Trig(sinFn: real -> real, cosFn: real -> real)
  {
    function Sin(x: real): real
    {
      sinFn(x)
    }

    function Cos(x: real): real
    {
      cosFn(x)
    }
  }

  /** Largest value plus one of an element of a `Uint16Array`. */
  const Uint16Limit: int := 65536

  /** The ToUint16 conversion an integral number undergoes when it is
      stored into a `Uint16Array`: reduction modulo 2^16. */
  function ToUint16(x: int): (r: int)
    ensures 0 <= r < Uint16Limit
    ensures 0 <= x < Uint16Limit ==> r == x
    ensures (x - r) % Uint16Limit == 0
  {
    x % Uint16Limit
  }

  /** `new Uint16Array(s)` for a sequence of integral numbers. */
  function Uint16Array(s: seq<int>): (r: seq<int>)
    ensures |r| == |s|
    ensures forall k :: 0 <= k < |s| ==> 0 <= r[k] < Uint16Limit
  {
    seq(|s|, k requires 0 <= k < |s| => ToUint16(s[k]))
  }

  /** Storing numbers into a `Uint16Array` changes none of them exactly
      when every one of them is in 0 .. 65535. */
  lemma Uint16ArrayKeeps(s: seq<int>)
    ensures Uint16Array(s) == s <==> forall x :: x in s ==> 0 <= x < Uint16Limit
  {
    if forall x :: x in s ==> 0 <= x < Uint16Limit {
      forall k | 0 <= k < |s| ensures Uint16Array(s)[k] == s[k] {
        assert s[k] in s;
      }
    } else {
      var x :| x in s && !(0 <= x < Uint16Limit);
      var k :| 0 <= k < |s| && s[k] == x;
      assert Uint16Array(s)[k] != s[k];
    }
  }
}
