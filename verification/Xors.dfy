/** Exclusive or of natural numbers, bit by bit, and of lists of them. */
module Xors {
  import opened Bytes

  function Xor(a: nat, b: nat): nat
    decreases a + b
  {
    if a == 0 then b else if b == 0 then a
    else (if a % 2 == b % 2 then 0 else 1) + 2 * Xor(a / 2, b / 2)
  }

  lemma {:induction false} XorBits(a: nat, b: nat)
    ensures Xor(a, b) % 2 == (if a % 2 == b % 2 then 0 else 1) && Xor(a, b) / 2 == Xor(a / 2, b / 2)
  {
    if a > 0 && b > 0 {
      DivMod(2, if a % 2 == b % 2 then 0 else 1, Xor(a / 2, b / 2));
    }
  }

  lemma {:induction false} XorSelf(a: nat)
    ensures Xor(a, a) == 0
    decreases a
  {
    if a > 0 { XorSelf(a / 2); }
  }

  lemma {:induction false} XorComm(a: nat, b: nat)
    ensures Xor(a, b) == Xor(b, a)
    decreases a + b
  {
    if a > 0 && b > 0 { XorComm(a / 2, b / 2); }
  }

  lemma {:induction false} XorAssoc(a: nat, b: nat, c: nat)
    ensures Xor(Xor(a, b), c) == Xor(a, Xor(b, c))
    decreases a + b + c
  {
    if a > 0 && b > 0 && c > 0 {
      XorAssoc(a / 2, b / 2, c / 2);
      XorBits(a, b);
      XorBits(b, c);
      XorBits(Xor(a, b), c);
      XorBits(a, Xor(b, c));
    }
  }

  lemma {:induction false} XorBound(a: nat, b: nat, bits: nat, top: nat)
    requires top == Pow2(bits) && a < top && b < top
    ensures Xor(a, b) < top
    decreases bits
  {
    if bits > 0 { XorBound(a / 2, b / 2, bits - 1, top / 2); }
  }

  function Pow2(n: nat): nat {
    if n == 0 then 1 else 2 * Pow2(n - 1)
  }

  function XorAll(ws: seq<nat>): nat
    decreases ws
  {
    if ws == [] then 0 else Xor(ws[0], XorAll(ws[1..]))
  }

  /** Replacing a zero entry by x turns the sum s into s xor x. */
  lemma {:induction false} XorReplace(ws: seq<nat>, i: nat, x: nat)
    requires i < |ws| && ws[i] == 0
    ensures XorAll(ws[i := x]) == Xor(x, XorAll(ws))
    decreases ws
  {
    var v := ws[i := x];
    if i == 0 {
      assert v[1..] == ws[1..];
    } else {
      assert v[1..] == ws[1..][i - 1 := x];
      XorReplace(ws[1..], i - 1, x);
      var rest := XorAll(ws[1..]);
      XorAssoc(ws[0], x, rest);
      XorComm(ws[0], x);
      XorAssoc(x, ws[0], rest);
    }
  }

  lemma {:induction false} XorAllBound(ws: seq<nat>)
    requires forall i :: 0 <= i < |ws| ==> ws[i] < 0x1_0000
    ensures XorAll(ws) < 0x1_0000
    decreases ws
  {
    if ws != [] {
      XorAllBound(ws[1..]);
      assert Pow2(4) == 0x10 && Pow2(8) == 0x100 && Pow2(12) == 0x1000;
      XorBound(ws[0], XorAll(ws[1..]), 16, 0x1_0000);
    }
  }
}
