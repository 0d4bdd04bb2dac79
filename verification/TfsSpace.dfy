/** How many blocks a file takes, with the second-level blocks that name them, and what free blocks allow. */
module TfsSpace {
  import opened TfsAllocator
  import opened TfsFiles
  import opened TfsBytes
  import opened TfsImage

  /** The blocks that `n` data blocks take: themselves, and a second-level block for each full or started row. */
  function Needs(units: nat, n: nat): nat
    requires units > 0
  {
    n + CalcBlocks(units, n)
  }

  /** What one more data block takes: a new row needs a second-level block too. */
  function NextNeeds(units: nat, n: nat): nat
    requires units > 0
  {
    if Rem(n, units) == 0 then 2 else 1
  }

  function Cost(units: nat, size: nat): nat
    requires units > 0
  {
    Needs(units, CalcBlocks(4 * units, size))
  }

  /** A file can grow to hold so many bytes: an inode can name its blocks, and those it lacks are free. */
  predicate Affords(g: Geometry, size: nat, end: nat, free: nat)
    requires g.units > 0
  {
    end <= size || (CalcBlocks(4 * g.units, end) <= g.first * g.units
      && Cost(g.units, end) <= Cost(g.units, size) + free)
  }

  /** The blocks still free once it holds them. */
  function Left(g: Geometry, size: nat, end: nat, free: nat): int
    requires g.units > 0
  {
    free + Cost(g.units, size) - Cost(g.units, if end > size then end else size)
  }

  /** A block that is taken and cannot be named is lost, if there is one to take. */
  function Wasted(free: int): nat {
    if free > 0 then 1 else 0
  }

  lemma NeedsStep(units: nat, n: nat)
    requires units > 0
    ensures Needs(units, n + 1) == Needs(units, n) + NextNeeds(units, n)
  {
    var q, r := Quo(n, units), Rem(n, units);
    QuoRem(n, units);
    NextRow(q, units);
    CalcUnique(units, n + 1, q + 1);
    if r == 0 {
      if q > 0 {
        NextRow(q - 1, units);
      }
      CalcUnique(units, n, q);
    } else {
      CalcUnique(units, n, q + 1);
    }
    hide CalcBlocks, Quo, Rem;
  }

  lemma NeedsMonotonic(units: nat, a: nat, b: nat)
    requires units > 0 && a <= b
    ensures Needs(units, a) <= Needs(units, b)
  {
    CalcMonotonic(units, a, b);
  }

  /** A row that is not started yet is one that no second-level block was taken for. */
  lemma RowStarted(units: nat, n: nat)
    requires units > 0
    ensures Quo(n, units) * units < n <==> Rem(n, units) != 0
  {
    QuoRem(n, units);
  }

  lemma AffordsAll(g: Geometry, size: nat, end: nat, n: nat, free0: nat, free: nat)
    requires g.units > 0 && n == CalcBlocks(4 * g.units, if end > size then end else size) && n <= g.first * g.units
    requires free + Needs(g.units, n) == free0 + Cost(g.units, size)
    ensures Affords(g, size, end, free0) && free == Left(g, size, end, free0)
  {
    hide CalcBlocks;
  }

  /** The block after the last one that could be had could not. */
  lemma AffordsNoMore(g: Geometry, size: nat, at: nat, end: nat, n: nat, free0: nat, free: nat)
    requires g.units > 0 && size <= at < end && n == CalcBlocks(4 * g.units, at) == Quo(at, 4 * g.units)
      && n <= g.first * g.units
    requires free + Needs(g.units, n) == free0 + Cost(g.units, size)
    requires n == g.first * g.units || free < NextNeeds(g.units, n)
    ensures Affords(g, size, at, free0) && free == Left(g, size, at, free0)
    ensures !Affords(g, size, at + 1, free0) && !Affords(g, size, end, free0)
  {
    AffordsAll(g, size, at, n, free0, free);
    CalcStep(4 * g.units, at, 1);
    CalcMonotonic(4 * g.units, at + 1, end);
    NeedsStep(g.units, n);
    NeedsMonotonic(g.units, n + 1, CalcBlocks(4 * g.units, end));
    hide CalcBlocks, Quo, Rem, Needs, NextNeeds;
  }

  lemma AffordsWithin(g: Geometry, size: nat, end: nat, free: nat)
    requires g.units > 0
    ensures end <= size ==> Affords(g, size, end, free)
  {
  }

  /** What is affordable stays so with fewer bytes, so that a write goes as far as it can. */
  lemma AffordsLess(g: Geometry, size: nat, a: nat, b: nat, free: nat)
    requires g.units > 0 && a <= b && Affords(g, size, b, free)
    ensures Affords(g, size, a, free)
  {
    CalcMonotonic(4 * g.units, a, b);
    NeedsMonotonic(g.units, CalcBlocks(4 * g.units, a), CalcBlocks(4 * g.units, b));
    hide CalcBlocks, Needs;
  }

  // --- by rows

  /** How many of `n` blocks are in a row. */
  function RowLen(units: nat, n: nat, i: nat): nat {
    if n <= i * units then 0 else if n - i * units < units then n - i * units else units
  }

  /** How many are in the rows below one. */
  function Below(units: nat, n: nat, i: nat): nat {
    if n < i * units then n else i * units
  }

  lemma RowsEnd(units: nat, n: nat, i: nat)
    requires units > 0 && i * units < n
    ensures Below(units, n, i) == i * units && Below(units, n, i + 1) == i * units + RowLen(units, n, i)
    ensures RowLen(units, n, i) > 0 && CalcBlocks(units, Below(units, n, i + 1)) == i + 1
  {
    NextRow(i, units);
    CalcUnique(units, Below(units, n, i + 1), i + 1);
    hide CalcBlocks;
  }

  /** A row takes its blocks and one more. */
  lemma RowNeeds(units: nat, n: nat, i: nat)
    requires units > 0 && i * units < n
    ensures Needs(units, Below(units, n, i + 1)) == Needs(units, Below(units, n, i)) + RowLen(units, n, i) + 1
  {
    RowsEnd(units, n, i);
    if i > 0 {
      NextRow(i - 1, units);
    }
    CalcUnique(units, i * units, i);
    hide CalcBlocks, Below, RowLen;
  }

  /** The rest of a row that is cut. */
  lemma PartNeeds(units: nat, n: nat, count: nat)
    requires units > 0 && count < n && Rem(count, units) != 0
    ensures var q, r := Quo(count, units), Rem(count, units);
      && q * units < n && r < RowLen(units, n, q)
      && Needs(units, Below(units, n, q + 1)) == Needs(units, count) + RowLen(units, n, q) - r
  {
    var q, r := Quo(count, units), Rem(count, units);
    QuoRem(count, units);
    RowsEnd(units, n, q);
    NextRow(q, units);
    CalcUnique(units, count, q + 1);
    hide CalcBlocks, Below;
  }
}
