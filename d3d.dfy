// Helpers of Platform/DirectX12/D3D.h: the ROUND_UP alignment macro, the
// D3D_CHECK_FAILURE error check and the TransitionBarrier record builder.
module D3D {

  /** Natural-number arithmetic facts shared by the alignment proofs. */
  lemma MulAtLeast(a: nat, d: nat)
    requires d >= 1
    ensures a * d >= a
  {
    assert a * d == a * (d - 1) + a;
  }

  /** Euclidean division is unique: a quotient and remainder that rebuild x are x / a and x % a. */
  lemma DivModUnique(x: nat, a: nat, q: nat, r: nat)
    requires a > 0 && r < a && x == a * q + r
    ensures x % a == r && x / a == q
  {
    var q', r' := x / a, x % a;
    assert a * q' + r' == a * q + r;
    if q' > q {
      var d := q' - q;
      assert a * q' == a * q + a * d;
      MulAtLeast(a, d);
      assert false;
    } else if q' < q {
      var d := q - q';
      assert a * q == a * q' + a * d;
      MulAtLeast(a, d);
      assert false;
    }
  }

  /** x splits into a whole number of a's and a remainder below a. */
  lemma DivModSplit(x: nat, a: nat)
    requires a > 0
    ensures 0 <= x / a && x == a * (x / a) + x % a && x % a < a
  {
  }

  /** a is 1, 2, 4, 8, ...: the alignments ROUND_UP is written for. */
  predicate IsPowerOfTwo(a: nat)
  {
    if a <= 1 then a == 1 else a % 2 == 0 && IsPowerOfTwo(a / 2)
  }

  /**
   * `x & ~(a - 1)` for a power-of-two a, computed bit by bit: the low bit of x
   * is dropped while the mask still has low bits to clear.
   */
  function MaskOffLowBits(x: nat, a: nat): nat
    requires IsPowerOfTwo(a)
    decreases a
  {
    if a == 1 then x else 2 * MaskOffLowBits(x / 2, a / 2)
  }

  /** Clearing the bits below a power of two a subtracts the remainder modulo a. */
  lemma {:induction false} MaskOffLowBitsValue(x: nat, a: nat)
    requires IsPowerOfTwo(a)
    ensures MaskOffLowBits(x, a) == x - x % a
    decreases a
  {
    if a > 1 {
      var q, r, h := x / 2, x % 2, a / 2;
      MaskOffLowBitsValue(q, h);
      assert a == 2 * h;
      var qq, qr := q / h, q % h;
      assert q == h * qq + qr;
      assert x == a * qq + (2 * qr + r);
      DivModUnique(x, a, qq, 2 * qr + r);
    }
  }

  /** ROUND_UP(v, a) = (v + a - 1) & ~(a - 1)  (D3D.h:15). */
  function RoundUp(v: nat, a: nat): nat
    requires IsPowerOfTwo(a)
  {
    MaskOffLowBits(v + a - 1, a)
  }

  /** The multiple of a that v + a - 1 rounds down to lies in [v, v + a). */
  lemma MultipleInWindow(v: nat, a: nat, q: nat, rem: nat)
    requires a > 0 && rem < a && v + a - 1 == a * q + rem
    ensures v <= a * q < v + a && (a * q) % a == 0
  {
    DivModUnique(a * q, a, q, 0);
  }

  /** ROUND_UP(v, a) is a multiple of a that lies in [v, v + a). */
  lemma RoundUpBounds(v: nat, a: nat)
    requires IsPowerOfTwo(a)
    ensures RoundUp(v, a) % a == 0
    ensures v <= RoundUp(v, a) < v + a
  {
    assert a >= 1;
    var x := v + a - 1;
    DivModSplit(x, a);
    MaskOffLowBitsValue(x, a);
    MultipleInWindow(v, a, x / a, x % a);
  }

  /** Two multiples of a that differ, differ by at least a. */
  lemma MultiplesApart(a: nat, j: nat, k: nat)
    requires a > 0 && a * k < a * j
    ensures a * k + a <= a * j
  {
    if j <= k {
      assert false;
    }
    assert a * j == a * k + a * (j - k);
    MulAtLeast(a, j - k);
  }

  /** No multiple of a that is at least v lies below the one v + a - 1 rounds down to. */
  lemma NoMultipleBelow(v: nat, a: nat, q: nat, rem: nat, k: nat)
    requires a > 0 && rem < a && v + a - 1 == a * q + rem && v <= a * k
    ensures a * q <= a * k
  {
    if a * k < a * q {
      MultiplesApart(a, q, k);
    }
  }

  /**
   * ROUND_UP(v, a) is the least multiple of a that is at least v: with
   * RoundUpBounds, no multiple of a lies in [v, ROUND_UP(v, a)).
   */
  lemma RoundUpIsLeastMultiple(v: nat, a: nat, m: nat)
    requires IsPowerOfTwo(a)
    requires m % a == 0 && v <= m
    ensures RoundUp(v, a) <= m
  {
    assert a >= 1;
    var x := v + a - 1;
    DivModSplit(x, a);
    MaskOffLowBitsValue(x, a);
    DivModSplit(m, a);
    NoMultipleBelow(v, a, x / a, x % a, m / a);
  }

  /** ROUND_UP leaves a value that is already aligned unchanged, so it is idempotent. */
  lemma RoundUpIdempotent(v: nat, a: nat)
    requires IsPowerOfTwo(a)
    ensures v % a == 0 ==> RoundUp(v, a) == v
    ensures RoundUp(RoundUp(v, a), a) == RoundUp(v, a)
  {
    RoundUpBounds(v, a);
    if v % a == 0 { RoundUpIsLeastMultiple(v, a, v); }
    RoundUpBounds(RoundUp(v, a), a);
    RoundUpIsLeastMultiple(RoundUp(v, a), a, RoundUp(v, a));
  }

  /** An HRESULT: a signed 32-bit value. */
  newtype HResult = x: int | -0x8000_0000 <= x < 0x8000_0000

  /** FAILED(hr): the severity bit is set, i.e. the value is negative. */
  predicate Failed(hr: HResult) { hr < 0 }

  /** Whether a checked call goes on or throws; the exception carries no HRESULT. */
  datatype CheckOutcome = Continue | Thrown

  /** D3D_CHECK_FAILURE(x) (D3D.h:10-12): throws a bare exception exactly when the result is a failure code. */
  function CheckFailure(hr: HResult): (r: CheckOutcome)
    ensures r.Thrown? <==> Failed(hr)
  {
    if hr < 0 then Thrown else Continue
  }

  /** The D3D12_RESOURCE_STATES the engine names. */
  datatype ResourceState =
    | Common | GenericRead | AllShaderResource | UnorderedAccess | Present | RenderTarget

  datatype BarrierType = Transition | Aliasing | Uav
  datatype BarrierFlags = NoFlags | BeginOnly | EndOnly

  /** D3D12_RESOURCE_BARRIER_ALL_SUBRESOURCES. */
  const AllSubresources: nat := 0xffff_ffff

  datatype ResourceBarrier = ResourceBarrier(
    kind: BarrierType, flags: BarrierFlags, resource: nat,
    before: ResourceState, after: ResourceState, subresource: nat)

  /** TransitionBarrier (D3D.h:25-37). */
  function TransitionBarrier(resource: nat, before: ResourceState, after: ResourceState): (b: ResourceBarrier)
    ensures b.kind == Transition && b.flags == NoFlags
    ensures b.subresource == AllSubresources
    ensures b.resource == resource && b.before == before && b.after == after
  {
    ResourceBarrier(Transition, NoFlags, resource, before, after, AllSubresources)
  }
}
