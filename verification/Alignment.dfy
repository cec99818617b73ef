/** Window starts are multiples of the window size, counted from the epoch. */
module Alignment {

  function Times(k: int, size: int): int { k * size }

  ghost predicate Aligned(size: int, start: int) { exists k :: start == Times(k, size) }

  function Align(size: int, ts: real): int
    requires size > 0
  { Times((ts / size as real).Floor, size) }

  lemma TimesMonotone(a: int, b: int, size: int)
    requires size > 0
    ensures a < b ==> Times(a, size) + size <= Times(b, size)
  {
    hide Times;
    if a < b {
      TimesMinus(b, a, size);
      TimesAtLeast(b - a, size);
    }
  }

  lemma TimesAtLeast(k: int, size: int)
    requires k >= 1 && size > 0
    ensures Times(k, size) >= size
  {
    assert Times(k, size) == Times(k - 1, size) + size;
    assert (k - 1) * size >= 0;
  }

  lemma SmallMultiple(d: int, size: int)
    requires size > 0 && -size < Times(d, size) < size
    ensures d == 0
  {
    TimesMonotone(0, d, size);
    TimesMonotone(d, 0, size);
  }

  lemma TimesMinus(a: int, b: int, size: int)
    ensures Times(a, size) - Times(b, size) == Times(a - b, size)
  {
  }

  lemma Euclid(n: int, size: int)
    requires size > 0
    ensures n == Times(n / size, size) + n % size && 0 <= n % size < size
  {
  }

  lemma DivideExactly(k: int, size: int)
    requires size > 0
    ensures Times(k, size) / size == k
  {
    var n := Times(k, size);
    Euclid(n, size);
    TimesMinus(k, n / size, size);
    SmallMultiple(k - n / size, size);
  }

  lemma RealTimes(k: int, size: int)
    ensures Times(k, size) as real == k as real * size as real
  {
  }

  lemma DivideMonotone(x: real, y: real, s: real)
    requires s > 0.0
    ensures x <= y ==> x / s <= y / s
    ensures x < y ==> x / s < y / s
  {
  }

  lemma DivideBack(f: int, size: int)
    requires size > 0
    ensures Times(f, size) as real / size as real == f as real
  {
    RealTimes(f, size);
  }

  lemma AlignBounds(size: int, ts: real)
    requires size > 0
    ensures Aligned(size, Align(size, ts))
    ensures Align(size, ts) as real <= ts
    ensures ts < Align(size, ts) as real + size as real
  {
    var s := size as real;
    var f := (ts / s).Floor;
    DivideBack(f, size);
    DivideBack(f + 1, size);
    DivideMonotone(ts, Times(f, size) as real, s);
    DivideMonotone(Times(f + 1, size) as real, ts, s);
    assert Times(f + 1, size) == Times(f, size) + size;
  }

  lemma AlignedApart(size: int, a: int, b: int)
    requires size > 0 && Aligned(size, a) && Aligned(size, b)
    ensures a < b ==> a + size <= b
  {
    var x :| a == Times(x, size);
    var y :| b == Times(y, size);
    TimesMonotone(x, y, size);
    TimesMonotone(y, x, size);
  }

  lemma AlignedStep(size: int, a: int)
    requires Aligned(size, a)
    ensures Aligned(size, a + size) && Aligned(size, a - size)
  {
    var x :| a == Times(x, size);
    assert a + size == Times(x + 1, size) && a - size == Times(x - 1, size);
  }

  lemma AlignedBy(size: int, start: int, k: int)
    requires Aligned(size, start)
    ensures Aligned(size, start - Times(k, size))
  {
    var x :| start == Times(x, size);
    TimesMinus(x, k, size);
  }

  lemma AlignMonotone(size: int, s: real, t: real)
    requires size > 0 && s <= t
    ensures Align(size, s) <= Align(size, t)
  {
    DivideMonotone(s, t, size as real);
    TimesMonotone((s / size as real).Floor, (t / size as real).Floor, size);
  }
}
