/** The message array of a ring: `queueSize` cells of `messageSize` bytes, one after the other. */
module Cells {
  import opened Bytes

  /** The constants that `queue_create` leaves in the header. */
  datatype Config = Config(queueSize: nat, messageSize: nat)

  predicate ValidConfig(c: Config) {
    c.queueSize >= 1 && c.messageSize >= 1
  }

  /** Both rings advance an index by one and fall back to 0 at the end of the array. */
  function Wrap(index: int, queueSize: int): (next: int) {
    if index + 1 == queueSize then 0 else index + 1
  }

  /** The cell a counter names: where an index stands after `k` advances from 0. */
  function Slot(k: nat, queueSize: nat): (index: nat)
    requires queueSize >= 1
    ensures index < queueSize
  {
    if k == 0 then 0 else Wrap(Slot(k - 1, queueSize), queueSize)
  }

  lemma {:induction false} MulAtLeast(x: int, m: nat)
    requires x >= 1
    ensures x * m >= m
  {
    assert (x - 1) * m >= 0;
    assert x * m == (x - 1) * m + m;
  }

  lemma {:induction false} MulDistributes(x: int, y: int, m: int)
    ensures (x - y) * m == x * m - y * m
  {}

  lemma {:induction false} ModUnique(k: int, m: nat, q: int, r: int)
    requires m >= 1 && k == q * m + r && 0 <= r < m
    ensures k % m == r && k / m == q
  {
    var q', r' := k / m, k % m;
    assert k == q' * m + r';
    if q > q' {
      MulDistributes(q, q', m);
      MulAtLeast(q - q', m);
    } else if q < q' {
      MulDistributes(q', q, m);
      MulAtLeast(q' - q, m);
    }
  }

  /** Advancing with a compare-and-reset is advancing modulo the queue size. */
  lemma {:induction false} SlotIsMod(k: nat, m: nat)
    requires m >= 1
    ensures Slot(k, m) == k % m
  {
    if k == 0 {
      ModUnique(0, m, 0, 0);
    } else {
      SlotIsMod(k - 1, m);
      ModStep(k - 1, m);
    }
  }

  lemma {:induction false} ModStep(k: nat, m: nat)
    requires m >= 1
    ensures (k + 1) % m == Wrap(k % m, m)
  {
    var q, r := k / m, k % m;
    if r + 1 == m {
      MulDistributes(q + 1, q, m);
      ModUnique(k + 1, m, q + 1, 0);
    } else {
      ModUnique(k + 1, m, q, r + 1);
    }
  }

  /** At most one lap ahead of a counter. */
  lemma {:induction false} SlotAhead(a: nat, d: nat, m: nat)
    requires m >= 1 && d <= m
    ensures Slot(a + d, m) == if Slot(a, m) + d < m then Slot(a, m) + d else Slot(a, m) + d - m
  {
    if d > 0 {
      SlotAhead(a, d - 1, m);
    }
  }

  /** Two counters less than a lap apart name different cells. */
  lemma {:induction false} SlotsDiffer(a: nat, b: nat, m: nat)
    requires m >= 1 && a < b < a + m
    ensures Slot(a, m) != Slot(b, m)
  {
    SlotAhead(a, b - a, m);
  }

  /** A lap later the counter names the same cell again. */
  lemma {:induction false} SlotLap(a: nat, m: nat)
    requires m >= 1
    ensures Slot(a + m, m) == Slot(a, m)
  {
    SlotAhead(a, m, m);
  }

  /** During the first lap the counter is the cell. */
  lemma {:induction false} SlotFirstLap(k: nat, m: nat)
    requires k < m
    ensures Slot(k, m) == k
  {
    if k > 0 {
      SlotFirstLap(k - 1, m);
    }
  }

  /** Where a cell starts: `cell` times the message size. */
  function CellStart(c: Config, cell: nat): (a: nat) {
    if cell == 0 then 0 else CellStart(c, cell - 1) + c.messageSize
  }

  lemma {:induction false} CellStartIsProduct(c: Config, cell: nat)
    ensures CellStart(c, cell) == cell * c.messageSize
  {
    if cell > 0 {
      CellStartIsProduct(c, cell - 1);
    }
  }

  /** Cells are laid out one after the other without overlap. */
  lemma {:induction false} CellsApart(c: Config, a: nat, b: nat)
    requires a < b
    ensures CellStart(c, a) + c.messageSize <= CellStart(c, b)
  {
    if a < b - 1 {
      CellsApart(c, a, b - 1);
    }
  }

  /** The message array is exactly `queueSize` cells long. */
  ghost predicate ValidRegion(c: Config, region: Bytes) {
    |region| == CellStart(c, c.queueSize)
  }

  /** The address of byte i of a cell. */
  function Address(c: Config, cell: nat, i: nat): (a: nat)
    requires cell < c.queueSize && i < c.messageSize
    ensures a < CellStart(c, c.queueSize)
  {
    CellsApart(c, cell, c.queueSize);
    CellStart(c, cell) + i
  }

  /** The address ranges of two different cells do not overlap. */
  lemma {:induction false} AddressesDiffer(c: Config, a: nat, b: nat, i: nat, j: nat)
    requires a < c.queueSize && b < c.queueSize && a != b
    requires i < c.messageSize && j < c.messageSize
    ensures Address(c, a, i) != Address(c, b, j)
  {
    if a < b {
      CellsApart(c, a, b);
    } else {
      CellsApart(c, b, a);
    }
  }

  /** The bytes of one cell. */
  function Cell(c: Config, region: Bytes, cell: nat): (bytes: Bytes)
    requires ValidRegion(c, region) && cell < c.queueSize
    ensures |bytes| == c.messageSize
  {
    CellsApart(c, cell, c.queueSize);
    region[CellStart(c, cell)..CellStart(c, cell) + c.messageSize]
  }

  /** Storing one byte changes the cell it lies in at that byte, and no other cell. */
  lemma {:induction false} StoreByte(c: Config, region: Bytes, cell: nat, i: nat, b: Byte, other: nat)
    requires ValidRegion(c, region) && cell < c.queueSize && i < c.messageSize && other < c.queueSize
    ensures ValidRegion(c, region[Address(c, cell, i) := b])
    ensures Cell(c, region[Address(c, cell, i) := b], other)
         == if other == cell then Cell(c, region, cell)[i := b] else Cell(c, region, other)
  {
    CellsApart(c, other, c.queueSize);
    var region' := region[Address(c, cell, i) := b];
    var want := if other == cell then Cell(c, region, cell)[i := b] else Cell(c, region, other);
    forall j: nat | j < c.messageSize
      ensures Cell(c, region', other)[j] == want[j]
    {
      if other != cell {
        AddressesDiffer(c, cell, other, i, j);
      }
      assert Cell(c, region', other)[j] == region'[Address(c, other, j)];
    }
  }

  /** Loading a byte of the array is reading it from its cell. */
  lemma {:induction false} LoadByte(c: Config, region: Bytes, cell: nat, i: nat)
    requires ValidRegion(c, region) && cell < c.queueSize && i < c.messageSize
    ensures region[Address(c, cell, i)] == Cell(c, region, cell)[i]
  {
    CellsApart(c, cell, c.queueSize);
  }

  /** A buffer no longer than a cell, laid over what the cell held before. */
  function Overlay(buf: Bytes, old_: Bytes): (r: Bytes)
    requires |buf| <= |old_|
    ensures |r| == |old_|
  {
    buf + old_[|buf|..]
  }

  /** Laying one more byte of a buffer over a cell. */
  lemma {:induction false} OverlayMore(buf: Bytes, done: nat, old_: Bytes)
    requires done < |buf| <= |old_|
    ensures Overlay(buf[..done + 1], old_) == Overlay(buf[..done], old_)[done := buf[done]]
  {
  }

  ghost predicate Fitting(c: Config, bufs: seq<Bytes>) {
    forall i :: 0 <= i < |bufs| ==> |bufs[i]| <= c.messageSize
  }

  /** What cell `cell` holds once the buffers `bufs` have been pushed, in order, into a ring
      whose array initially holds `init`: push k goes to cell k mod queueSize. */
  function CellAfter(c: Config, init: Bytes, bufs: seq<Bytes>, cell: nat): (bytes: Bytes)
    requires ValidConfig(c) && ValidRegion(c, init) && Fitting(c, bufs) && cell < c.queueSize
    ensures |bytes| == c.messageSize
    decreases |bufs|
  {
    if bufs == [] then Cell(c, init, cell)
    else
      var k := |bufs| - 1;
      var before := CellAfter(c, init, bufs[..k], cell);
      if Slot(k, c.queueSize) == cell then Overlay(bufs[k], before) else before
  }

  /** One more push. */
  lemma {:induction false} CellAfterPush(c: Config, init: Bytes, bufs: seq<Bytes>, buf: Bytes, cell: nat)
    requires ValidConfig(c) && ValidRegion(c, init) && Fitting(c, bufs) && cell < c.queueSize
    requires |buf| <= c.messageSize
    ensures Fitting(c, bufs + [buf])
    ensures CellAfter(c, init, bufs + [buf], cell)
         == if Slot(|bufs|, c.queueSize) == cell then Overlay(buf, CellAfter(c, init, bufs, cell))
            else CellAfter(c, init, bufs, cell)
  {
    assert (bufs + [buf])[..|bufs|] == bufs;
  }

  /** The record that push k leaves in its cell. */
  function RecordAt(c: Config, init: Bytes, bufs: seq<Bytes>, k: nat): (record: Bytes)
    requires ValidConfig(c) && ValidRegion(c, init) && Fitting(c, bufs) && k < |bufs|
    ensures |record| == c.messageSize
  {
    CellAfter(c, init, bufs[..k + 1], Slot(k, c.queueSize))
  }

  /** All records pushed so far, oldest first. */
  function Records(c: Config, init: Bytes, bufs: seq<Bytes>): (records: seq<Bytes>)
    requires ValidConfig(c) && ValidRegion(c, init) && Fitting(c, bufs)
    ensures |records| == |bufs| && Uniform(records, c.messageSize)
    decreases |bufs|
  {
    if bufs == [] then []
    else
      var k := |bufs| - 1;
      Records(c, init, bufs[..k]) + [CellAfter(c, init, bufs, Slot(k, c.queueSize))]
  }

  lemma {:induction false} RecordsIndex(c: Config, init: Bytes, bufs: seq<Bytes>, k: nat)
    requires ValidConfig(c) && ValidRegion(c, init) && Fitting(c, bufs) && k < |bufs|
    ensures Records(c, init, bufs)[k] == RecordAt(c, init, bufs, k)
    decreases |bufs|
  {
    if k == |bufs| - 1 {
      assert bufs[..k + 1] == bufs;
    } else {
      var front := bufs[..|bufs| - 1];
      RecordsIndex(c, init, front, k);
      assert front[..k + 1] == bufs[..k + 1];
    }
  }

  lemma {:induction false} RecordsAppend(c: Config, init: Bytes, bufs: seq<Bytes>, buf: Bytes)
    requires ValidConfig(c) && ValidRegion(c, init) && Fitting(c, bufs) && |buf| <= c.messageSize
    ensures Fitting(c, bufs + [buf])
    ensures Records(c, init, bufs + [buf])
         == Records(c, init, bufs) + [RecordAt(c, init, bufs + [buf], |bufs|)]
  {
    hide CellAfter, Slot;
    var bufs', k := bufs + [buf], |bufs|;
    assert Fitting(c, bufs');
    assert bufs'[..k] == bufs;
    assert Records(c, init, bufs') == Records(c, init, bufs'[..k]) + [CellAfter(c, init, bufs', Slot(k, c.queueSize))];
    assert bufs'[..k + 1] == bufs';
  }

  /** A cell keeps its bytes over pushes that go to other cells. */
  lemma {:induction false} CellUntouched(c: Config, init: Bytes, bufs: seq<Bytes>, j: nat, cell: nat)
    requires ValidConfig(c) && ValidRegion(c, init) && Fitting(c, bufs) && cell < c.queueSize
    requires j <= |bufs| && forall k: nat :: j <= k < |bufs| ==> Slot(k, c.queueSize) != cell
    ensures CellAfter(c, init, bufs, cell) == CellAfter(c, init, bufs[..j], cell)
    decreases |bufs|
  {
    if j == |bufs| {
      assert bufs[..j] == bufs;
    } else {
      CellUntouched(c, init, bufs[..|bufs| - 1], j, cell);
      assert bufs[..|bufs| - 1][..j] == bufs[..j];
    }
  }

  /** A record stays readable in its cell for the next queueSize - 1 pushes. */
  lemma {:induction false} RecordSurvives(c: Config, init: Bytes, bufs: seq<Bytes>, k: nat)
    requires ValidConfig(c) && ValidRegion(c, init) && Fitting(c, bufs)
    requires k < |bufs| <= k + c.queueSize
    ensures CellAfter(c, init, bufs, Slot(k, c.queueSize)) == RecordAt(c, init, bufs, k)
  {
    forall m: nat | k + 1 <= m < |bufs|
      ensures Slot(m, c.queueSize) != Slot(k, c.queueSize)
    {
      SlotsDiffer(k, m, c.queueSize);
    }
    CellUntouched(c, init, bufs, k + 1, Slot(k, c.queueSize));
  }

  /** A push of fewer than messageSize bytes leaves the tail of the record pushed a lap earlier
      (or of the initial array) behind its own bytes. */
  lemma {:induction false} ShortPush(c: Config, init: Bytes, bufs: seq<Bytes>, k: nat)
    requires ValidConfig(c) && ValidRegion(c, init) && Fitting(c, bufs) && k < |bufs|
    ensures RecordAt(c, init, bufs, k)
         == if k >= c.queueSize then Overlay(bufs[k], RecordAt(c, init, bufs, k - c.queueSize))
            else Overlay(bufs[k], Cell(c, init, k))
  {
    var cell, before := Slot(k, c.queueSize), bufs[..k];
    assert bufs[..k + 1][..k] == before;
    if k >= c.queueSize {
      SlotLap(k - c.queueSize, c.queueSize);
      RecordSurvives(c, init, before, k - c.queueSize);
      assert before[..k - c.queueSize + 1] == bufs[..k - c.queueSize + 1];
    } else {
      SlotFirstLap(k, c.queueSize);
      forall m: nat | m < k
        ensures Slot(m, c.queueSize) != cell
      {
        SlotFirstLap(m, c.queueSize);
      }
      CellUntouched(c, init, before, 0, cell);
    }
  }

  /** A push of exactly messageSize bytes is the record. */
  lemma {:induction false} FullPush(c: Config, init: Bytes, bufs: seq<Bytes>, k: nat)
    requires ValidConfig(c) && ValidRegion(c, init) && Fitting(c, bufs) && k < |bufs|
    requires |bufs[k]| == c.messageSize
    ensures RecordAt(c, init, bufs, k) == bufs[k]
  {
    ShortPush(c, init, bufs, k);
  }

  /** When every push is full-size the records are the buffers themselves. */
  lemma {:induction false} FullPushes(c: Config, init: Bytes, bufs: seq<Bytes>)
    requires ValidConfig(c) && ValidRegion(c, init) && Uniform(bufs, c.messageSize)
    ensures Records(c, init, bufs) == bufs
  {
    forall k: nat | k < |bufs|
      ensures Records(c, init, bufs)[k] == bufs[k]
    {
      FullPush(c, init, bufs, k);
      RecordsIndex(c, init, bufs, k);
    }
  }

  // ---------------------------------------------------------------------------------------
  // The array while a push is under way
  // ---------------------------------------------------------------------------------------

  /** What a cell holds when `partial` has already been copied over the start of the cell that the
      next push goes to. */
  ghost function CellDuring(c: Config, init: Bytes, bufs: seq<Bytes>, partial: Bytes, cell: nat): (bytes: Bytes)
    requires ValidConfig(c) && ValidRegion(c, init) && Fitting(c, bufs) && |partial| <= c.messageSize
    requires cell < c.queueSize
    ensures |bytes| == c.messageSize
  {
    var settled := CellAfter(c, init, bufs, cell);
    if cell == Slot(|bufs|, c.queueSize) then Overlay(partial, settled) else settled
  }

  /** The first n cells are as they should be. */
  ghost predicate CellsHold(c: Config, init: Bytes, region: Bytes, bufs: seq<Bytes>, partial: Bytes, n: nat)
    requires ValidConfig(c) && ValidRegion(c, init) && Fitting(c, bufs) && |partial| <= c.messageSize
    requires ValidRegion(c, region) && n <= c.queueSize
  {
    n == 0 || (CellsHold(c, init, region, bufs, partial, n - 1) &&
               Cell(c, region, n - 1) == CellDuring(c, init, bufs, partial, n - 1))
  }

  /** The message array while `partial` of the next push has been copied. */
  ghost predicate Holds(c: Config, init: Bytes, region: Bytes, bufs: seq<Bytes>, partial: Bytes)
    requires ValidConfig(c) && ValidRegion(c, init) && Fitting(c, bufs) && |partial| <= c.messageSize
  {
    ValidRegion(c, region) && CellsHold(c, init, region, bufs, partial, c.queueSize)
  }

  lemma {:induction false} HoldsAt(c: Config, init: Bytes, region: Bytes, bufs: seq<Bytes>, partial: Bytes, n: nat,
                                   cell: nat)
    requires ValidConfig(c) && ValidRegion(c, init) && Fitting(c, bufs) && |partial| <= c.messageSize
    requires ValidRegion(c, region) && n <= c.queueSize && cell < n
    requires CellsHold(c, init, region, bufs, partial, n)
    ensures Cell(c, region, cell) == CellDuring(c, init, bufs, partial, cell)
  {
    if cell < n - 1 {
      HoldsAt(c, init, region, bufs, partial, n - 1, cell);
    }
  }

  lemma {:induction false} HoldsInit(c: Config, init: Bytes, n: nat)
    requires ValidConfig(c) && ValidRegion(c, init) && n <= c.queueSize
    ensures CellsHold(c, init, init, [], [], n)
  {
    if n > 0 {
      HoldsInit(c, init, n - 1);
    }
  }

  /** Copying one more byte. */
  lemma {:induction false} CopyByte(c: Config, init: Bytes, region: Bytes, bufs: seq<Bytes>, partial: Bytes, b: Byte,
                                    n: nat)
    requires ValidConfig(c) && ValidRegion(c, init) && Fitting(c, bufs) && |partial| < c.messageSize
    requires ValidRegion(c, region) && n <= c.queueSize && CellsHold(c, init, region, bufs, partial, n)
    ensures CellsHold(c, init, region[Address(c, Slot(|bufs|, c.queueSize), |partial|) := b], bufs, partial + [b], n)
  {
    if n > 0 {
      CopyByte(c, init, region, bufs, partial, b, n - 1);
      StoreByte(c, region, Slot(|bufs|, c.queueSize), |partial|, b, n - 1);
      OverlayMore(partial + [b], |partial|, CellAfter(c, init, bufs, n - 1));
      assert (partial + [b])[..|partial|] == partial;
      assert (partial + [b])[..|partial| + 1] == partial + [b];
    }
  }

  /** Once the whole buffer has been copied, the push can be published. */
  lemma {:induction false} Publish(c: Config, init: Bytes, region: Bytes, bufs: seq<Bytes>, buf: Bytes, n: nat)
    requires ValidConfig(c) && ValidRegion(c, init) && Fitting(c, bufs) && |buf| <= c.messageSize
    requires ValidRegion(c, region) && n <= c.queueSize && CellsHold(c, init, region, bufs, buf, n)
    ensures Fitting(c, bufs + [buf])
    ensures CellsHold(c, init, region, bufs + [buf], [], n)
  {
    if n > 0 {
      Publish(c, init, region, bufs, buf, n - 1);
      CellAfterPush(c, init, bufs, buf, n - 1);
      assert Overlay([], CellAfter(c, init, bufs + [buf], n - 1)) == CellAfter(c, init, bufs + [buf], n - 1);
    }
  }

  /** A record still in the ring is in its cell, untouched by the push under way. */
  lemma {:induction false} RecordHeld(c: Config, init: Bytes, region: Bytes, bufs: seq<Bytes>, partial: Bytes, k: nat)
    requires ValidConfig(c) && ValidRegion(c, init) && Fitting(c, bufs) && |partial| <= c.messageSize
    requires Holds(c, init, region, bufs, partial)
    requires k < |bufs| < k + c.queueSize
    ensures Cell(c, region, Slot(k, c.queueSize)) == Records(c, init, bufs)[k]
    ensures Slot(k, c.queueSize) != Slot(|bufs|, c.queueSize)
  {
    HoldsAt(c, init, region, bufs, partial, c.queueSize, Slot(k, c.queueSize));
    RecordSurvives(c, init, bufs, k);
    SlotsDiffer(k, |bufs|, c.queueSize);
    RecordsIndex(c, init, bufs, k);
  }
}
