/** Open addressing with quadratic probing, DSAAC/hashquad.c. */
module HashQuad {
  import opened Basics
  import opened NumberTheory

  const MIN_TABLE_SIZE := 10

  datatype Kind = Legitimate | Empty | Deleted
  datatype Cell = Cell(element: int, info: Kind)

  // ----- Probe sequence -----

  /** The i-th position tried for a key that hashes to h. */
  function Probe(h: int, i: nat, p: int): int
    requires p > 0
  {
    (h + i * i) % p
  }

  /** The source adds 2i-1 and subtracts the table size at most once. */
  lemma ProbeStep(h: int, i: nat, p: int)
    requires p > 0 && 0 <= h < p && 2 * i + 1 < p
    ensures var next := Probe(h, i, p) + 2 * (i + 1) - 1;
            Probe(h, i + 1, p) == if next >= p then next - p else next
  {
    var a := h + i * i;
    var step := 2 * i + 1;
    Distribute(i + 1, i, 1);
    Distribute(i, i, 1);
    assert h + (i + 1) * (i + 1) == a + step;
    ModAdd(a, step, p);
    SmallMod(step, p);
    var next := a % p + step;
    if next >= p {
      ModShift(next - p, 1, p);
      SmallMod(next - p, p);
    } else {
      SmallMod(next, p);
    }
  }

  lemma DifferenceOfSquares(i: int, j: int)
    ensures j * j - i * i == (j - i) * (j + i)
  {
    Distribute(j + i, j, -i);
    Distribute(j, j, i);
    Distribute(i, j, i);
  }

  /** The first (p+1)/2 probe positions of a prime table are distinct. */
  lemma ProbesDistinct(h: int, i: nat, j: nat, p: int)
    requires IsPrime(p) && i < j <= (p - 1) / 2
    ensures Probe(h, i, p) != Probe(h, j, p)
  {
    if Probe(h, i, p) == Probe(h, j, p) {
      ModEqDiff(h + j * j, h + i * i, p);
      DifferenceOfSquares(i, j);
      assert Divides(p, (j - i) * (j + i));
      SmallMod(j - i, p);
      SmallMod(j + i, p);
      Euclid(p, j - i, j + i);
    }
  }

  ghost function Visited(h: int, c: nat, p: int): set<int>
    requires p > 0
  {
    if c == 0 then {} else Visited(h, c - 1, p) + {Probe(h, c - 1, p)}
  }

  lemma {:induction false} VisitedIsProbe(h: int, c: nat, p: int, x: int) returns (j: nat)
    requires p > 0 && x in Visited(h, c, p)
    ensures j < c && x == Probe(h, j, p)
  {
    if x == Probe(h, c - 1, p) { j := c - 1; } else { j := VisitedIsProbe(h, c - 1, p, x); }
  }

  lemma {:induction false} VisitedSize(h: int, c: nat, p: int)
    requires IsPrime(p) && c <= (p + 1) / 2
    ensures |Visited(h, c, p)| == c
  {
    if c > 0 {
      VisitedSize(h, c - 1, p);
      var x := Probe(h, c - 1, p);
      if x in Visited(h, c - 1, p) {
        var j := VisitedIsProbe(h, c - 1, p, x);
        ProbesDistinct(h, j, c - 1, p);
      }
    }
  }

  lemma {:induction false} ProbeIsVisited(h: int, j: nat, c: nat, p: int)
    requires p > 0 && j < c
    ensures Probe(h, j, p) in Visited(h, c, p)
  {
    if j < c - 1 { ProbeIsVisited(h, j, c - 1, p); }
  }

  lemma SameProbe(h: int, i: nat, j: nat, p: int)
    requires p > 0 && (i * i) % p == (j * j) % p
    ensures Probe(h, i, p) == Probe(h, j, p)
  {
    ModAdd(h, i * i, p);
    ModAdd(h, j * j, p);
  }

  lemma MirrorSquare(r: nat, p: int)
    requires 0 <= r < p
    ensures ((p - r) * (p - r)) % p == (r * r) % p
  {
    DistributeSub(p - r, p, r);
    DistributeSub(r, p, r);
    DistributeSub(p, p - r, r);
    assert (p - r) * (p - r) == r * r + (p - r - r) * p;
    ModShift(r * r, p - r - r, p);
  }

  /** The bound of one half is exact: however long a probe runs, it only ever sees the
      (p+1)/2 cells it sees first, so a table with just those occupied has no hole for it. */
  lemma ProbesSeeHalf(h: int, i: nat, p: int)
    requires IsPrime(p) && p > 2
    ensures Probe(h, i, p) in Visited(h, (p + 1) / 2, p) && |Visited(h, (p + 1) / 2, p)| == (p + 1) / 2
  {
    EvenNotPrime(p);
    VisitedSize(h, (p + 1) / 2, p);
    var r := i % p;
    ModMul(i, i, p);
    SameProbe(h, i, r, p);
    if r < (p + 1) / 2 {
      ProbeIsVisited(h, r, (p + 1) / 2, p);
    } else {
      MirrorSquare(r, p);
      SameProbe(h, r, p - r, p);
      ProbeIsVisited(h, p - r, (p + 1) / 2, p);
    }
  }

  // ----- Contents of a table -----

  ghost function Occupied(s: seq<Cell>): set<int> {
    set i | 0 <= i < |s| && s[i].info != Empty
  }

  ghost function KeysOf(s: seq<Cell>): set<int> {
    set i | 0 <= i < |s| && s[i].info == Legitimate :: s[i].element
  }

  /** The first i probes for key pass only over non-empty cells that hold other keys. */
  ghost predicate Passed(s: seq<Cell>, key: int, i: nat)
    requires |s| > 0
  {
    forall j: nat :: j < i ==> 
      var c := s[Probe(key % |s|, j, |s|)]; c.info != Empty && c.element != key
  }

  ghost predicate ProbedTo(s: seq<Cell>, key: int, i: nat, pos: int)
    requires |s| > 0
  {
    i <= (|s| - 1) / 2 && pos == Probe(key % |s|, i, |s|) && Passed(s, key, i)
  }

  /** Every non-empty cell is where a probe for its element stops. */
  ghost predicate Placed(s: seq<Cell>) {
    |s| > 0 && forall pos :: 0 <= pos < |s| && s[pos].info != Empty ==>
      s[pos].element >= 0 && exists i: nat :: ProbedTo(s, s[pos].element, i, pos)
  }

  /** With at most half of a prime table occupied, a probe meets a hole within (p-1)/2 collisions. */
  lemma RoomLeft(s: seq<Cell>, key: int, c: nat)
    requires IsPrime(|s|) && c <= (|s| + 1) / 2 && Passed(s, key, c)
    requires |Occupied(s)| <= (|s| - 1) / 2
    ensures c <= (|s| - 1) / 2
  {
    var h, p := key % |s|, |s|;
    VisitedSize(h, c, p);
    forall x | x in Visited(h, c, p) ensures x in Occupied(s) {
      var j := VisitedIsProbe(h, c, p, x);
      assert s[Probe(key % |s|, j, |s|)].info != Empty;
    }
    SubsetSize(Visited(h, c, p), Occupied(s));
  }

  /** Where a probe for key stops decides whether key is in the table. */
  lemma StopDecides(s: seq<Cell>, key: int, i: nat, pos: int)
    requires Placed(s) && IsPrime(|s|) && key >= 0
    requires 0 <= pos < |s| && ProbedTo(s, key, i, pos)
    requires s[pos].info == Empty || s[pos].element == key
    ensures forall q :: 0 <= q < |s| && s[q].info != Empty && s[q].element == key ==> q == pos
    ensures s[pos].info == Legitimate <==> key in KeysOf(s)
  {
    forall q | 0 <= q < |s| && s[q].info != Empty && s[q].element == key ensures q == pos {
      var k: nat :| ProbedTo(s, key, k, q);
    }
  }

  /** Filling the cell where the probe stopped keeps every cell reachable and adds only key. */
  lemma FillKeepsPlaced(s: seq<Cell>, key: int, i: nat, pos: int)
    requires Placed(s) && IsPrime(|s|) && key >= 0
    requires 0 <= pos < |s| && ProbedTo(s, key, i, pos)
    requires s[pos].info == Empty || (s[pos].info == Deleted && s[pos].element == key)
    ensures var t := s[pos := Cell(key, Legitimate)];
            Placed(t) && KeysOf(t) == KeysOf(s) + {key} && Occupied(t) == Occupied(s) + {pos}
  {
    var t := s[pos := Cell(key, Legitimate)];
    forall q | 0 <= q < |t| && t[q].info != Empty
      ensures t[q].element >= 0 && exists k: nat :: ProbedTo(t, t[q].element, k, q)
    {
      var x := t[q].element;
      var k: nat :| ProbedTo(s, x, k, q) && (q == pos ==> k == i);
      forall j: nat | j < k
        ensures var c := t[Probe(x % |t|, j, |t|)]; c.info != Empty && c.element != x
      {
        assert s[Probe(x % |s|, j, |s|)].info != Empty;
        if q == pos { ProbesDistinct(x % |t|, j, k, |t|); }
      }
      assert ProbedTo(t, x, k, q);
    }
    assert t[pos].element in KeysOf(t);
    forall x | x in KeysOf(s) ensures x in KeysOf(t) {
      var q :| 0 <= q < |s| && s[q].info == Legitimate && s[q].element == x;
      assert t[q] == s[q];
    }
  }

  // ----- Prime table sizes -----

  ghost predicate NoPrimes(lo: int, hi: int) {
    forall m :: lo <= m < hi ==> !IsPrime(m)
  }

  ghost predicate LeastPrime(n: int, r: int) {
    r >= n && IsPrime(r) && NoPrimes(n, r)
  }

  lemma SkipEven(n: int, r: int)
    requires MIN_TABLE_SIZE <= n <= r && r % 2 == 0 && NoPrimes(n, r)
    ensures NoPrimes(n, r + 1)
  {
    EvenNotPrime(r);
  }

  lemma SkipComposite(n: int, r: int, q: int)
    requires MIN_TABLE_SIZE <= n <= r <= q && r % 2 == 1 && NoPrimes(n, r) && !IsPrime(r) && IsPrime(q)
    ensures NoPrimes(n, r + 2) && r + 2 <= q
  {
    SkipEven(n, r + 1);
    assert !IsPrime(r + 1);
  }

  /** Trial division of an odd number by the odd numbers up to its square root. */
  method IsOddPrime(n: int) returns (prime: bool)
    requires n >= MIN_TABLE_SIZE && n % 2 == 1
    ensures prime <==> IsPrime(n)
  {
    var i := 3;
    while i * i <= n
      invariant 3 <= i && i % 2 == 1
      invariant forall d :: 3 <= d < i && d % 2 == 1 ==> !Divides(d, n)
      decreases n - i
    {
      SquareGrows(i);
      if n % i == 0 {
        assert Divides(i, n);
        return false;
      }
      i := i + 2;
    }
    NoSmallDivisor(n, i);
    return true;
  }

  /** The least prime not below n; the source asks for n >= 10. */
  method NextPrime(n: int) returns (r: int)
    requires n >= MIN_TABLE_SIZE
    ensures LeastPrime(n, r)
  {
    ghost var q := PrimeAbove(n);
    r := n;
    if r % 2 == 0 {
      SkipEven(n, n);
      r := r + 1;
    }
    while true
      invariant n <= r <= q && r % 2 == 1 && NoPrimes(n, r)
      decreases q - r
    {
      var prime := IsOddPrime(r);
      if prime { return; }
      SkipComposite(n, r, q);
      r := r + 2;
    }
  }

  lemma EvenNotPrime(n: int)
    requires n > 2
    ensures n % 2 == 0 ==> !IsPrime(n)
  {
    if n % 2 == 0 { assert Divides(2, n); }
  }

  lemma MoreThanDoubled(n: int, r: int)
    requires n >= MIN_TABLE_SIZE && LeastPrime(2 * n, r)
    ensures r > 2 * n
  {
    EvenNotPrime(2 * n);
  }

  lemma SquareGrows(i: int)
    requires i >= 2
    ensures i < i * i
  {
    Distribute(i, i - 1, 1);
    MulAtLeast(i - 1, i);
  }

  lemma SquareMonotone(i: nat, d: nat)
    requires i <= d
    ensures i * i <= d * d
  {
    Distribute(d, i, d - i);
    Distribute(i, i, d - i);
  }

  lemma NoSmallDivisor(r: int, i: int)
    requires r >= MIN_TABLE_SIZE && r % 2 == 1 && i >= 3 && i * i > r
    requires forall d :: 3 <= d < i && d % 2 == 1 ==> !Divides(d, r)
    ensures IsPrime(r)
  {
    if !IsPrime(r) {
      var d := SmallDivisor(r);
      if d >= i { SquareMonotone(i, d); }
      if d % 2 == 0 {
        assert Divides(2, d);
        DividesTransitive(2, d, r);
      }
    }
  }

  // ----- The table -----

  class HashTable {
    var tableSize: int
    var cells: array<Cell>

    ghost predicate Valid()
      reads this, cells
    {
      cells.Length == tableSize && IsPrime(tableSize) && Placed(cells[..])
    }

    ghost function Keys(): set<int>
      reads this, cells
    {
      KeysOf(cells[..])
    }

    ghost function Load(): nat
      reads this, cells
    {
      |Occupied(cells[..])|
    }

    constructor (size: int)
      requires size >= MIN_TABLE_SIZE
      ensures Valid() && fresh(cells) && Keys() == {} && Load() == 0
      ensures LeastPrime(size, tableSize)
    {
      var p := NextPrime(size);
      tableSize := p;
      cells := new Cell[p](_ => Cell(0, Empty));
    }

    /** Probes until key or an empty cell is met. With at most half of a prime table
        occupied the loop ends before a position repeats. */
    method Find(key: int) returns (pos: int)
      requires Valid() && key >= 0 && Load() <= (tableSize - 1) / 2
      ensures 0 <= pos < cells.Length
      ensures cells[pos].info == Empty || cells[pos].element == key
      ensures exists i: nat :: ProbedTo(cells[..], key, i, pos)
      ensures cells[pos].info == Legitimate <==> key in Keys()
    {
      var collisionNum: nat := 0;
      pos := key % tableSize;
      ghost var s := cells[..];
      assert pos == Probe(key % |s|, 0, |s|) by { SmallMod(pos, tableSize); }
      while cells[pos].info != Empty && cells[pos].element != key
        invariant 0 <= pos < cells.Length && ProbedTo(s, key, collisionNum, pos)
        decreases (tableSize - 1) / 2 - collisionNum
      {
        RoomLeft(s, key, collisionNum + 1);
        ProbeStep(key % |s|, collisionNum, |s|);
        collisionNum := collisionNum + 1;
        pos := pos + 2 * collisionNum - 1;
        if pos >= tableSize { pos := pos - tableSize; }
      }
      StopDecides(s, key, collisionNum, pos);
      assert ProbedTo(cells[..], key, collisionNum, pos);
    }

    method Insert(key: int)
      requires Valid() && key >= 0 && Load() <= (tableSize - 1) / 2
      modifies cells
      ensures Valid() && Keys() == old(Keys()) + {key}
      ensures Load() <= old(Load()) + 1
      ensures key in old(Keys()) ==> cells[..] == old(cells[..])
    {
      var pos := Find(key);
      ghost var s := cells[..];
      if cells[pos].info != Legitimate {
        ghost var i: nat :| ProbedTo(s, key, i, pos);
        FillKeepsPlaced(s, key, i, pos);
        cells[pos] := Cell(key, Legitimate);
        assert cells[..] == s[pos := Cell(key, Legitimate)];
      } else {
        assert s[pos].element in KeysOf(s);
      }
    }

    /** A table at least twice as large with the same keys; works however full this table is. */
    method Rehash() returns (h: HashTable)
      requires Valid() && tableSize >= MIN_TABLE_SIZE
      ensures fresh(h) && h.Valid() && h.Keys() == Keys()
      ensures LeastPrime(2 * tableSize, h.tableSize) && h.Load() <= (h.tableSize - 1) / 2
    {
      h := new HashTable(2 * tableSize);
      MoreThanDoubled(tableSize, h.tableSize);
      ghost var s, newSize := cells[..], h.tableSize;
      for i := 0 to tableSize
        invariant cells[..] == s && fresh(h) && fresh(h.cells) && h.Valid()
        invariant h.tableSize == newSize > 2 * tableSize
        invariant h.Keys() == KeysOf(s[..i]) && h.Load() <= i
      {
        assert s[..i + 1] == s[..i] + [s[i]];
        KeysOfAppend(s[..i], s[i]);
        if cells[i].info == Legitimate {
          h.Insert(cells[i].element);
        }
      }
      assert s[..tableSize] == s;
    }
  }

  lemma KeysOfAppend(s: seq<Cell>, c: Cell)
    ensures KeysOf(s + [c]) == KeysOf(s) + if c.info == Legitimate then {c.element} else {}
  {
    var t := s + [c];
    assert forall i :: 0 <= i < |s| ==> t[i] == s[i];
    assert t[|s|] == c;
  }

  /** Refuses sizes below the minimum, as the source does. */
  method InitializeTable(size: int) returns (h: HashTable?)
    ensures h == null <==> size < MIN_TABLE_SIZE
    ensures h != null ==> fresh(h) && h.Valid() && h.Keys() == {} && h.Load() == 0 && LeastPrime(size, h.tableSize)
  {
    if size < MIN_TABLE_SIZE { return null; }
    h := new HashTable(size);
  }
}
