/** Shared vocabulary of the model: bytes, optional and failing results, the
    Python exceptions the driver can raise by itself, and the integer
    operations of Python that Dafny does not have built in (truncating
    int(), `<<`, `|` and single-bit tests). */
module Common {

  /** One octet, as read from a register or carried on the SPI wire. */
  type byte = b: int | 0 <= b < 256

  datatype Option<T> = None | Some(value: T)

  /** The exceptions the driver code raises on its own (not those of the bus
      libraries, which are not part of this model). */
  datatype Fault =
    | IndexError         // a list is indexed past its end
    | ValueError         // an enum constructor or int() rejects its argument
    | ZeroDivisionError  // a float division by zero
    | StructError        // struct.pack gets a value outside the format's range

  datatype Result<T> = Ok(value: T) | Err(fault: Fault)

  /** n is x with its fraction dropped: the integer next to x on the side of
      zero. */
  predicate TruncatedTo(x: real, n: int)
  {
    (0.0 <= x ==> n as real <= x < n as real + 1.0) &&
    (x < 0.0 ==> n as real - 1.0 < x <= n as real)
  }

  /** Python's `int(x)` on a float: truncation toward zero. */
  function Trunc(x: real): (n: int)
    ensures TruncatedTo(x, n)
  {
    if 0.0 <= x then x.Floor else -((-x).Floor)
  }

  /** `1 << k`. */
  function Pow2(k: nat): (p: nat)
    ensures p >= 1 && Bit(p, k)
  {
    if k == 0 then 1 else 2 * Pow2(k - 1)
  }

  /** `1 << k` for a bit of a byte: bit k is its only set bit. */
  function SingleBit(k: nat): (v: nat)
    requires k < 8
    ensures v < 256 && forall j :: Bit(v, j) <==> j == k
  {
    assert Pow2(7) == 128;
    Pow2Monotone(k, 7);
    assert forall j :: Bit(Pow2(k), j) <==> j == k by {
      forall j ensures Bit(Pow2(k), j) <==> j == k {
        Pow2Bit(k, j);
      }
    }
    Pow2(k)
  }

  /** Bit k of x, i.e. `(x >> k) & 1 == 1`. */
  function Bit(x: nat, k: nat): (b: bool)
    ensures b ==> x > 0
  {
    if k == 0 then x % 2 == 1 else Bit(x / 2, k - 1)
  }

  /** Python's `a | b` on non-negative integers. */
  function Or(a: nat, b: nat): (r: nat)
    ensures a <= r && b <= r <= a + b
    decreases a + b
  {
    if a == 0 then b
    else if b == 0 then a
    else 2 * Or(a / 2, b / 2) + (if a % 2 == 1 || b % 2 == 1 then 1 else 0)
  }

  /** Each bit of `a | b` is set exactly when it is set in a or in b. */
  lemma {:induction false} OrBit(a: nat, b: nat, k: nat)
    ensures Bit(Or(a, b), k) <==> Bit(a, k) || Bit(b, k)
    decreases k
  {
    if a == 0 {
      assert !Bit(0, k);
    } else if b == 0 {
      assert !Bit(0, k);
    } else if k > 0 {
      var c := if a % 2 == 1 || b % 2 == 1 then 1 else 0;
      assert Or(a, b) / 2 == Or(a / 2, b / 2) by {
        assert Or(a, b) == 2 * Or(a / 2, b / 2) + c;
      }
      OrBit(a / 2, b / 2, k - 1);
    }
  }

  /** `1 << j` has bit k set exactly when j == k. */
  lemma {:induction false} Pow2Bit(j: nat, k: nat)
    ensures Bit(Pow2(j), k) <==> j == k
    decreases j
  {
    if j == 0 {
      if k > 0 { assert !Bit(0, k - 1); }
    } else if k == 0 {
    } else {
      assert Pow2(j) / 2 == Pow2(j - 1);
      Pow2Bit(j - 1, k - 1);
    }
  }

  /** Setting a bit that is not yet present is addition: for a < 2^k,
      `a | (1 << k) == a + (1 << k)`. */
  lemma {:induction false} OrHighBit(a: nat, k: nat)
    requires a < Pow2(k)
    ensures Or(a, Pow2(k)) == a + Pow2(k)
    decreases k
  {
    if a != 0 {
      assert k > 0;
      assert Pow2(k) / 2 == Pow2(k - 1) && Pow2(k) % 2 == 0;
      OrHighBit(a / 2, k - 1);
    }
  }

  /** `|` keeps values below 2^k below 2^k; in particular a byte OR a byte
      is a byte. */
  lemma {:induction false} OrBound(a: nat, b: nat, k: nat)
    requires a < Pow2(k) && b < Pow2(k)
    ensures Or(a, b) < Pow2(k)
    decreases k
  {
    if a != 0 && b != 0 {
      assert k > 0;
      OrBound(a / 2, b / 2, k - 1);
    }
  }

  /** 2^j <= 2^k for j <= k. */
  lemma {:induction false} Pow2Monotone(j: nat, k: nat)
    requires j <= k
    ensures Pow2(j) <= Pow2(k)
    decreases k
  {
    if j < k {
      Pow2Monotone(j, k - 1);
    }
  }
}
