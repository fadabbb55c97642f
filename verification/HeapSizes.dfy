/** Size classes of the seeded heap (`alloc.rs`) and the arithmetic of blocks
    in a slab. */
module HeapSizes {
  import opened Wrappers

  const SLAB: nat := 65536
  const HEADER: nat := 16
  const SMALL_MAX: nat := 1024
  const N_SMALL: nat := 64
  const N_LARGE: nat := 10
  const PAGE: nat := 0x4000
  /** Slabs in the 64 GiB whose blocks 32-bit offsets can name */
  const WINDOW_SLABS: nat := 0x10_0000
  const IN_POOL: nat := 1
  const POOL: nat := 32
  const N_POOLED: nat := 70
  const USIZE_MAX: nat := 0xFFFF_FFFF_FFFF_FFFF


  /** The sizes above the small ones: 2 KB, doubling up to 1 MB */
  function LargeSize(i: nat): (n: nat)
    requires i < N_LARGE
    ensures 2048 <= n <= 0x10_0000 && n % 16 == 0
  {
    match i
    case 0 => 2048 case 1 => 4096 case 2 => 8192 case 3 => 16384 case 4 => 32768
    case 5 => 65536 case 6 => 131072 case 7 => 262144 case 8 => 524288 case _ => 1048576
  }

  /** Bytes of a block of class `c` */
  function ClassSize(c: nat): (n: nat)
    requires c < N_SMALL + N_LARGE
    ensures n >= 16 && n % 16 == 0
    ensures c < N_POOLED ==> n <= SLAB
  {
    if c < N_SMALL then 16 * (c + 1) else LargeSize(c - N_SMALL)
  }

  /** What `class_for` answers: a class, or none for a page multiple */
  datatype Fit = Fit(class_: Option<nat>, size: nat)

  function RoundUp(n: nat, unit: nat): (r: nat)
    requires unit > 0
    ensures n <= r < n + unit && r % unit == 0
  {
    RoundUpFacts(n, unit);
    (n + unit - 1) / unit * unit
  }

  lemma RoundUpFacts(n: nat, unit: nat)
    requires unit > 0
    ensures n <= (n + unit - 1) / unit * unit < n + unit && ((n + unit - 1) / unit * unit) % unit == 0
  {
    var q := (n + unit - 1) / unit;
    assert n + unit - 1 == q * unit + (n + unit - 1) % unit;
    MultipleMod(q, unit);
  }

  lemma {:induction false} MultipleMod(q: nat, unit: nat)
    requires unit > 0
    ensures (q * unit) % unit == 0
  {
    if q > 0 {
      MultipleMod(q - 1, unit);
      assert q * unit == (q - 1) * unit + unit;
      AddUnit((q - 1) * unit, unit);
    }
  }

  lemma AddUnit(x: nat, unit: nat)
    requires unit > 0 && x % unit == 0
    ensures (x + unit) % unit == 0
  {
    assert x + unit == (x / unit + 1) * unit + 0;
    ModUnique(x + unit, x / unit + 1, 0, unit);
  }

  lemma ModUnique(x: nat, q: nat, r: nat, unit: nat)
    requires unit > 0 && x == q * unit + r && r < unit
    ensures x % unit == r
  {
    DivUnique(x, q, r, unit);
    assert x == (x / unit) * unit + x % unit;
  }

  /** The smallest class whose blocks hold `raw` bytes, or a run's size; None
      beyond any block */
  function ClassFor(raw: nat): (r: Option<Fit>)
    ensures r.Some? ==> r.value.size >= raw && r.value.size % 16 == 0 && r.value.size > 0
    ensures r.Some? && r.value.class_.Some? ==>
              r.value.class_.value < N_SMALL + N_LARGE && r.value.size == ClassSize(r.value.class_.value)
  {
    if raw <= SMALL_MAX then
      var k := if raw == 0 then 1 else (raw + 15) / 16;
      Some(Fit(Some(k - 1), 16 * k))
    else if raw <= 0x10_0000 then
      Some(Fit(Some(N_SMALL + LargeIndex(raw, 0)), LargeSize(LargeIndex(raw, 0))))
    else
      var size := RoundUp(raw, PAGE);
      PageSixteen(size);
      if size > USIZE_MAX then None else Some(Fit(None, size))
  }

  lemma PageSixteen(n: nat)
    requires n % PAGE == 0
    ensures n % 16 == 0
  {
    assert n == n / PAGE * PAGE;
    assert n == (n / PAGE * 1024) * 16;
  }

  /** The first large class that holds `raw`, from the `i`th on */
  function LargeIndex(raw: nat, i: nat): (k: nat)
    requires i < N_LARGE && raw <= 0x10_0000
    ensures i <= k < N_LARGE && raw <= LargeSize(k)
    ensures forall j :: i <= j < k ==> raw > LargeSize(j)
    decreases N_LARGE - i
  {
    if raw <= LargeSize(i) then i else LargeIndex(raw, i + 1)
  }

  /** No smaller class would hold the block. */
  lemma ClassIsTight(raw: nat, c: nat)
    requires ClassFor(raw).Some? && ClassFor(raw).value.class_.Some? && c < ClassFor(raw).value.class_.value
    ensures ClassSize(c) < raw
  {
  }

  /** What `free` computes from the size in a header is the class the block was
      allocated in. */
  lemma FreeFindsTheClass(raw: nat)
    requires ClassFor(raw).Some?
    ensures ClassFor(ClassFor(raw).value.size) == ClassFor(raw)
  {
    var size := ClassFor(raw).value.size;
    if raw <= SMALL_MAX {
    } else if raw <= 0x10_0000 {
      LargeIs(size, LargeIndex(raw, 0), 0);
    } else {
      RoundUpTwice(size, PAGE);
    }
  }

  lemma RoundUpTwice(n: nat, unit: nat)
    requires unit > 0 && n % unit == 0
    ensures RoundUp(n, unit) == n
  {
    var q := n / unit;
    assert n == q * unit;
    assert n + unit - 1 == q * unit + (unit - 1);
    DivUnique(n + unit - 1, q, unit - 1, unit);
  }

  lemma DivUnique(x: nat, q: nat, r: nat, unit: nat)
    requires unit > 0 && x == q * unit + r && r < unit
    ensures x / unit == q
  {
    var q1, r1 := x / unit, x % unit;
    assert x == q1 * unit + r1;
    Gap(q1, q, r1, r, unit);
    Gap(q, q1, r, r1, unit);
  }

  lemma Gap(a: nat, b: nat, r: nat, t: nat, unit: nat)
    requires a * unit + r == b * unit + t && r < unit && t < unit
    ensures a <= b
  {
    assert (b + 1) * unit == b * unit + unit;
    if a > b { Product(a, b + 1, unit, unit); }
  }

  lemma ClassOfSize(c: nat)
    requires c < N_SMALL + N_LARGE
    ensures ClassFor(ClassSize(c)) == Some(Fit(Some(c), ClassSize(c)))
  {
    if c >= N_SMALL { LargeIs(LargeSize(c - N_SMALL), c - N_SMALL, 0); }
  }

  method ClassForLoop(raw: nat) returns (r: Option<Fit>)
    requires raw <= USIZE_MAX
    ensures r == ClassFor(raw)
  {
    if raw <= SMALL_MAX {
      var k := if raw == 0 then 1 else (raw + 15) / 16;
      return Some(Fit(Some(k - 1), k * 16));
    }
    var i, size := LargeClass(raw);
    if i < N_LARGE {
      LargeIs(raw, i, 0);
      return Some(Fit(Some(N_SMALL + i), size));
    }
    assert raw > LargeSize(9);
    var pages := (raw + PAGE - 1) / PAGE * PAGE;
    return if pages > USIZE_MAX then None else Some(Fit(None, pages));
  }

  /** Doubling until the size is enough */
  method LargeClass(raw: nat) returns (i: nat, size: nat)
    ensures i <= N_LARGE && (i < N_LARGE ==> raw <= size == LargeSize(i))
    ensures forall j :: 0 <= j < i ==> raw > LargeSize(j)
  {
    i, size := 0, 2048;
    while i < N_LARGE && raw > size
      invariant i <= N_LARGE && (i < N_LARGE ==> size == LargeSize(i))
      invariant forall j :: 0 <= j < i ==> raw > LargeSize(j)
    {
      i, size := i + 1, size * 2;
    }
  }

  lemma {:induction false} LargeIs(raw: nat, k: nat, i: nat)
    requires i <= k < N_LARGE && raw <= LargeSize(k) && raw <= 0x10_0000
    requires forall j :: i <= j < k ==> raw > LargeSize(j)
    ensures LargeIndex(raw, i) == k
    decreases k - i
  {
    if i < k { LargeIs(raw, k, i + 1); }
  }

  // ---- blocks in a slab -------------------------------------------------------

  /** Blocks of class `c` a slab is cut into */
  function Slots(c: nat): (n: nat)
    requires c < N_POOLED
    ensures 1 <= n <= 4096
  {
    SlotsBound(ClassSize(c));
    SLAB / ClassSize(c)
  }

  lemma SlotsBound(size: nat)
    requires 16 <= size <= SLAB
    ensures 1 <= SLAB / size <= 4096
  {
    var q := SLAB / size;
    assert q * size <= SLAB < q * size + size;
    if q > 4096 { Product(q, 4097, size, 16); }
  }

  lemma Product(a: nat, b: nat, c: nat, d: nat)
    requires a >= b && c >= d
    ensures a * c >= b * d
  {
    assert a * c >= b * c >= b * d;
  }

  /** Where block `k` lies in its slab */
  function Off(c: nat, k: nat): nat
    requires c < N_POOLED
  {
    k * ClassSize(c)
  }

  /** A block lies wholly in its slab, at a multiple of 16. */
  lemma InSlab(c: nat, k: nat)
    requires c < N_POOLED && k < Slots(c)
    ensures Off(c, k) + ClassSize(c) <= SLAB && Off(c, k) % 16 == 0
  {
    var size, n := ClassSize(c), Slots(c);
    assert n * size <= SLAB;
    Product(n, k + 1, size, size);
    assert (k + 1) * size == k * size + size;
    Sixteen(k, size);
  }

  lemma Sixteen(k: nat, size: nat)
    requires size % 16 == 0
    ensures (k * size) % 16 == 0
  {
    var h := size / 16;
    assert size == 16 * h;
    assert k * size == (k * h) * 16;
    MultipleMod(k * h, 16);
  }

  /** Later blocks of a slab begin where earlier ones have ended. */
  lemma InOrder(c: nat, j: nat, k: nat)
    requires c < N_POOLED && j < k
    ensures Off(c, j) + ClassSize(c) <= Off(c, k)
  {
    var size := ClassSize(c);
    Product(k, j + 1, size, size);
    assert (j + 1) * size == j * size + size;
  }
}
