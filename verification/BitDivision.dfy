/** Division of bit strings as polynomials over two elements, highest power first: what a cyclic
    redundancy check is the remainder of, said without a register. */
module BitDivision {

  function Zeros(n: nat): (r: seq<bool>)
    ensures |r| == n
  {
    seq(n, _ => false)
  }

  function Ones(n: nat): (r: seq<bool>)
    ensures |r| == n
  {
    seq(n, _ => true)
  }

  /** The sum of two polynomials: the bits that differ. */
  function Xored(a: seq<bool>, b: seq<bool>): (r: seq<bool>)
    requires |a| == |b|
    ensures |r| == |a|
  {
    seq(|a|, i requires 0 <= i < |a| => a[i] != b[i])
  }

  /** The polynomial with the given powers. */
  function Polynomial(degree: nat, powers: set<nat>): (r: seq<bool>)
    ensures |r| == degree + 1 && forall i :: 0 <= i < |r| ==> (r[i] <==> degree - i in powers)
  {
    seq(degree + 1, i requires 0 <= i < degree + 1 => degree - i in powers)
  }

  /** Every one of the quotient adds the divisor at its own place. */
  function Product(quotient: seq<bool>, divisor: seq<bool>): (r: seq<bool>)
    requires divisor != []
    ensures |r| == |quotient| + |divisor| - 1
  {
    if quotient == [] then Zeros(|divisor| - 1)
    else
      var first := if quotient[0] then divisor + Zeros(|quotient| - 1) else Zeros(|quotient| + |divisor| - 1);
      Xored(first, [false] + Product(quotient[1..], divisor))
  }

  /** The dividend is the divisor times the quotient, plus the remainder. */
  predicate Leaves(dividend: seq<bool>, divisor: seq<bool>, quotient: seq<bool>, remainder: seq<bool>) {
    && divisor != [] && |remainder| == |divisor| - 1 && |dividend| == |quotient| + |remainder|
    && dividend == Xored(Product(quotient, divisor), Zeros(|quotient|) + remainder)
  }

  ghost predicate IsRemainder(dividend: seq<bool>, divisor: seq<bool>, remainder: seq<bool>) {
    exists quotient :: Leaves(dividend, divisor, quotient, remainder)
  }

  /** One step of long division: the first bit goes, with the divisor if it is set. */
  function Reduced(dividend: seq<bool>, divisor: seq<bool>): (r: seq<bool>)
    requires 1 <= |divisor| <= |dividend|
    ensures |r| == |dividend| - 1
  {
    (if dividend[0] then Xored(dividend, divisor + Zeros(|dividend| - |divisor|)) else dividend)[1..]
  }

  function ReducedBy(n: nat, dividend: seq<bool>, divisor: seq<bool>): (r: seq<bool>)
    requires divisor != [] && |dividend| >= n + |divisor| - 1
    ensures |r| == |dividend| - n
  {
    if n == 0 then dividend else ReducedBy(n - 1, Reduced(dividend, divisor), divisor)
  }

  lemma ProductFirst(quotient: seq<bool>, divisor: seq<bool>)
    requires quotient != [] && divisor != [] && divisor[0]
    ensures Product(quotient, divisor)[0] == quotient[0]
  {}

  /** Adding the same first summand on both sides and cutting off the first place, which is nought. */
  lemma SameSummand(dividend: seq<bool>, first: seq<bool>, rest: seq<bool>, tail: seq<bool>)
    requires |dividend| == |first| == |rest| + 1 == |tail| + 1 && first[0] == dividend[0]
    ensures dividend == Xored(Xored(first, [false] + rest), [false] + tail) <==>
      Xored(dividend, first)[1..] == Xored(rest, tail)
  {
    var whole := Xored(Xored(first, [false] + rest), [false] + tail);
    var (less, part) := (Xored(dividend, first)[1..], Xored(rest, tail));
    assert whole[0] == dividend[0];
    forall i | 0 <= i < |rest| ensures whole[i + 1] == dividend[i + 1] <==> less[i] == part[i] {}
    if less == part {
      forall i | 0 <= i < |whole| ensures whole[i] == dividend[i] {
        if i > 0 { assert less[i - 1] == part[i - 1]; }
      }
    }
  }

  lemma FirstOf(a: seq<bool>, b: seq<bool>)
    requires |a| == |b| > 0 && !b[0]
    ensures Xored(a, b)[0] == a[0]
  {}

  lemma LeavesStep(dividend: seq<bool>, divisor: seq<bool>, quotient: seq<bool>, remainder: seq<bool>)
    requires divisor != [] && divisor[0] && quotient != [] && |remainder| == |divisor| - 1
    requires |dividend| == |quotient| + |remainder|
    ensures Leaves(dividend, divisor, quotient, remainder) <==>
      quotient[0] == dividend[0] && Leaves(Reduced(dividend, divisor), divisor, quotient[1..], remainder)
  {
    var rest := Product(quotient[1..], divisor);
    var first := if quotient[0] then divisor + Zeros(|quotient| - 1) else Zeros(|quotient| + |divisor| - 1);
    var tail := Zeros(|quotient| - 1) + remainder;
    assert Product(quotient, divisor) == Xored(first, [false] + rest);
    assert Zeros(|quotient|) + remainder == [false] + tail;
    ProductFirst(quotient, divisor);
    FirstOf(Product(quotient, divisor), [false] + tail);
    hide *;
    if quotient[0] == dividend[0] {
      SameSummand(dividend, first, rest, tail);
      assert Reduced(dividend, divisor) == Xored(dividend, first)[1..];
    }
  }

  /** Division has one quotient and one remainder. */
  lemma {:induction false} RemainderUnique(dividend: seq<bool>, divisor: seq<bool>, q1: seq<bool>, r1: seq<bool>, q2: seq<bool>, r2: seq<bool>)
    requires divisor != [] && divisor[0]
    requires Leaves(dividend, divisor, q1, r1) && Leaves(dividend, divisor, q2, r2)
    ensures q1 == q2 && r1 == r2
    decreases |q1|
  {
    if q1 == [] {
      assert Zeros(0) + r1 == r1 && Zeros(0) + r2 == r2;
      assert Xored(Zeros(|r1|), r1) == r1 && Xored(Zeros(|r2|), r2) == r2;
    } else {
      LeavesStep(dividend, divisor, q1, r1);
      LeavesStep(dividend, divisor, q2, r2);
      RemainderUnique(Reduced(dividend, divisor), divisor, q1[1..], r1, q2[1..], r2);
      assert q1 == [q1[0]] + q1[1..] && q2 == [q2[0]] + q2[1..];
    }
  }

  /** Long division finds the remainder. */
  lemma {:induction false} ReducingDivides(n: nat, dividend: seq<bool>, divisor: seq<bool>)
    requires divisor != [] && divisor[0] && |dividend| == n + |divisor| - 1
    ensures IsRemainder(dividend, divisor, ReducedBy(n, dividend, divisor))
  {
    var remainder := ReducedBy(n, dividend, divisor);
    if n == 0 {
      assert dividend == Xored(Product([], divisor), Zeros(0) + remainder);
      assert Leaves(dividend, divisor, [], remainder);
    } else {
      ReducingDivides(n - 1, Reduced(dividend, divisor), divisor);
      var q :| Leaves(Reduced(dividend, divisor), divisor, q, remainder);
      assert ([dividend[0]] + q)[1..] == q;
      LeavesStep(dividend, divisor, [dividend[0]] + q, remainder);
      assert Leaves(dividend, divisor, [dividend[0]] + q, remainder);
    }
  }

  lemma {:induction false} ReducedTwice(m: nat, n: nat, dividend: seq<bool>, divisor: seq<bool>)
    requires divisor != [] && |dividend| >= m + n + |divisor| - 1
    ensures ReducedBy(m + n, dividend, divisor) == ReducedBy(n, ReducedBy(m, dividend, divisor), divisor)
    decreases m
  {
    if m > 0 {
      ReducedTwice(m - 1, n, Reduced(dividend, divisor), divisor);
    }
  }

  /** What stands behind the places reduced is added unchanged. */
  lemma {:induction false} ReducingAdds(n: nat, a: seq<bool>, b: seq<bool>, divisor: seq<bool>)
    requires divisor != [] && |a| == n + |b| && |b| >= |divisor| - 1
    ensures ReducedBy(n, Xored(a, Zeros(n) + b), divisor) == Xored(ReducedBy(n, a, divisor), b)
    decreases n
  {
    if n == 0 {
      assert Zeros(0) + b == b;
    } else {
      var (tail, next) := (Zeros(n - 1) + b, Reduced(a, divisor));
      assert Reduced(Xored(a, Zeros(n) + b), divisor) == Xored(next, tail);
      ReducingAdds(n - 1, next, b, divisor);
    }
  }

  // ----- a message with its first bits complemented ------------------------------------------

  /** The message's bits followed by `width` zeros, the first `width` of them complemented. */
  function Primed(width: nat, message: seq<bool>): (r: seq<bool>)
    ensures |r| == |message| + width
    ensures forall i :: 0 <= i < |r| ==> r[i] == ((i < |message| && message[i]) != (i < width))
  {
    seq(|message| + width, i requires 0 <= i < |message| + width => (i < |message| && message[i]) != (i < width))
  }

  /** A register in front of the bits that are still to come. */
  function Mixed(register: seq<bool>, message: seq<bool>): (r: seq<bool>)
    ensures |r| == |message| + |register|
  {
    Xored(register + Zeros(|message|), message + Zeros(|register|))
  }

  lemma PrimedIsMixed(width: nat, message: seq<bool>)
    ensures Primed(width, message) == Mixed(Ones(width), message)
  {}

  lemma MixedNothing(register: seq<bool>)
    ensures Mixed(register, []) == register
  {}

  /** Taking a part of the message into the register, and then reducing it away. */
  lemma MixedStep(register: seq<bool>, part: seq<bool>, rest: seq<bool>, taken: seq<bool>, next: seq<bool>, divisor: seq<bool>)
    requires divisor != [] && |register| == |taken| == |next| == |divisor| - 1 >= |part|
    requires taken == Xored(register, part + Zeros(|register| - |part|))
    requires ReducedBy(|part|, taken + Zeros(|part| + |rest|), divisor) == next + Zeros(|rest|)
    ensures ReducedBy(|part|, Mixed(register, part + rest), divisor) == Mixed(next, rest)
  {
    hide *;
    var n := |part|;
    var tail := rest + Zeros(|register|);
    TakenApart(register, part, rest, taken);
    ReducingAdds(n, taken + Zeros(n + |rest|), tail, divisor);
    MixedIs(next, rest);
  }

  lemma MixedIs(register: seq<bool>, message: seq<bool>)
    ensures Mixed(register, message) == Xored(register + Zeros(|message|), message + Zeros(|register|))
  {}

  lemma TakenApart(register: seq<bool>, part: seq<bool>, rest: seq<bool>, taken: seq<bool>)
    requires |register| == |taken| >= |part| && taken == Xored(register, part + Zeros(|register| - |part|))
    ensures Mixed(register, part + rest) ==
      Xored(taken + Zeros(|part| + |rest|), Zeros(|part|) + (rest + Zeros(|register|)))
  {
    var (a, b) := (register + Zeros(|part + rest|), (part + rest) + Zeros(|register|));
    var (c, d) := (taken + Zeros(|part| + |rest|), Zeros(|part|) + (rest + Zeros(|register|)));
    forall i | 0 <= i < |a| ensures (a[i] != b[i]) == (c[i] != d[i]) {
      if i < |part| {
        assert taken[i] == (register[i] != (part + Zeros(|register| - |part|))[i]);
      } else if i < |register| {
        assert taken[i] == (register[i] != (part + Zeros(|register| - |part|))[i]);
      }
    }
  }

  /** Reducing zeros behind a register moves the register on by one step for each. */
  lemma ReducedRegister(register: seq<bool>, next: seq<bool>, zeros: nat, divisor: seq<bool>)
    requires divisor != [] && |register| == |next| == |divisor| - 1 && zeros > 0
    requires [false] + next == if (register + [false])[0] then Xored(register + [false], divisor) else register + [false]
    ensures Reduced(register + Zeros(zeros), divisor) == next + Zeros(zeros - 1)
  {
    var whole := register + Zeros(zeros);
    var one := if (register + [false])[0] then Xored(register + [false], divisor) else register + [false];
    forall i | 0 <= i < |whole| - 1
      ensures Reduced(whole, divisor)[i] == (next + Zeros(zeros - 1))[i]
    {
      if i + 1 <= |register| {
        assert one[i + 1] == ([false] + next)[i + 1];
      }
    }
  }
}
