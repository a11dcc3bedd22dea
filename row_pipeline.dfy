/**
 * The row bookkeeping of one operation in the dense-feature pipeline
 * (RowOperationBase in RowPipeline.h).  Worker threads ask the operation
 * for the next row to process (`Schedule`), process it, and report it back
 * (`Done`).  Rows may be reported out of order: the 32-bit row mask records
 * which of the rows after the completed prefix are done, and the prefix
 * grows over the run of set bits at the bottom of the mask.
 *
 * The mutex is modelled by the outcome of its try-lock, passed in.  The
 * 32-bit mask is a sequence of 32 flags, element i being bit i.
 */
module RowPipeline {

  /** ErrorStatus. */
  const AllRowsDone: int := -1
  const BlockedBySelfDependency: int := -2
  const BlockedByBackwardDependency: int := -3
  const BlockedByForwardDependency: int := -4
  const MutexTrylockFailed: int := -5

  const MaskBits: nat := 32

  /** A uint32_t row mask; element i is bit i. */
  type Mask = m: seq<bool> | |m| == MaskBits witness seq(MaskBits, _ => false)

  const EmptyMask: Mask := seq(MaskBits, _ => false)

  /** The number of consecutive set bits at the bottom of a mask. */
  function TrailingOnes(m: seq<bool>): (n: nat)
    ensures n <= |m|
    ensures forall i :: 0 <= i < n ==> m[i]
    ensures n < |m| ==> !m[n]
  {
    if |m| > 0 && m[0] then 1 + TrailingOnes(m[1..]) else 0
  }

  /** The mask shifted right by one: bit 0 drops out and a zero enters at the top. */
  function ShiftRight(m: Mask): (r: Mask)
    ensures forall i :: 0 <= i < MaskBits - 1 ==> r[i] == m[i + 1]
    ensures !r[MaskBits - 1]
  {
    m[1..] + [false]
  }

  /** The mask shifted right by n: bit i + n becomes bit i. */
  function ShiftRightBy(m: Mask, n: nat): (r: Mask)
    requires n <= MaskBits
    ensures forall i :: 0 <= i < MaskBits - n ==> r[i] == m[i + n]
    ensures forall i :: MaskBits - n <= i < MaskBits ==> !r[i]
  {
    m[n..] + seq(n, _ => false)
  }

  /** Shifting by n and then by one is shifting by n + 1. */
  lemma ShiftRightStep(m: Mask, n: nat)
    requires n < MaskBits
    ensures ShiftRight(ShiftRightBy(m, n)) == ShiftRightBy(m, n + 1)
  {
    var a := ShiftRight(ShiftRightBy(m, n));
    var b := ShiftRightBy(m, n + 1);
    assert forall i :: 0 <= i < MaskBits ==> a[i] == b[i];
  }

  /** The trailing ones of a shifted mask are those of the mask, one fewer. */
  lemma TrailingOnesShift(m: Mask)
    requires m[0]
    ensures TrailingOnes(ShiftRight(m)) == TrailingOnes(m) - 1
  {
    TrailingOnesAppendFalse(m[1..]);
  }

  /** A zero appended at the top does not lengthen the run of ones at the bottom. */
  lemma {:induction false} TrailingOnesAppendFalse(s: seq<bool>)
    ensures TrailingOnes(s + [false]) == TrailingOnes(s)
  {
    if |s| > 0 && s[0] {
      assert (s + [false])[1..] == s[1..] + [false];
      TrailingOnesAppendFalse(s[1..]);
    }
  }

  class RowOperation {
    const numRows: nat
    const ahead: nat
    const lag: int
    var prevOp: RowOperation?
    var nextOp: RowOperation?
    /** The next row to hand out. */
    var nextY: nat
    /** Every row below this one is done. */
    var numRowsDone: nat
    /** Bit i: row numRowsDone + i is done. */
    var rowMask: Mask

    /**
     * Rows are handed out in order, at most `ahead` past the completed
     * prefix; a set bit stands for a row already handed out; and the bottom
     * bit is clear, since a done row there would have joined the prefix.
     */
    ghost predicate Valid()
      reads this
    {
      && numRowsDone <= nextY <= numRows
      && nextY <= numRowsDone + ahead
      && (forall i :: 0 <= i < MaskBits && rowMask[i] ==> numRowsDone + i < nextY)
      && !rowMask[0]
    }

    constructor (numRows: nat, ahead: nat, lag: int)
      ensures Valid()
      ensures this.numRows == numRows && this.ahead == ahead && this.lag == lag
      ensures prevOp == null && nextOp == null
      ensures nextY == 0 && numRowsDone == 0 && rowMask == EmptyMask
    {
      this.numRows := numRows;
      this.ahead := ahead;
      this.lag := lag;
      prevOp := null;
      nextOp := null;
      nextY := 0;
      numRowsDone := 0;
      rowMask := EmptyMask;
    }

    /** init: no row handed out, none done. */
    method Init()
      modifies this
      ensures Valid()
      ensures nextY == 0 && numRowsDone == 0 && rowMask == EmptyMask
      ensures prevOp == old(prevOp) && nextOp == old(nextOp)
    {
      nextY := 0;
      numRowsDone := 0;
      rowMask := EmptyMask;
    }

    method SetPrevOp(op: RowOperation?)
      modifies this
      ensures prevOp == op && nextOp == old(nextOp)
      ensures nextY == old(nextY) && numRowsDone == old(numRowsDone) && rowMask == old(rowMask)
    {
      prevOp := op;
    }

    method SetNextOp(op: RowOperation?)
      modifies this
      ensures nextOp == op && prevOp == old(prevOp)
      ensures nextY == old(nextY) && numRowsDone == old(numRowsDone) && rowMask == old(rowMask)
    {
      nextOp := op;
    }

    /**
     * Backward dependency check: has this operation produced enough rows
     * for a following operation of `rows` rows to process row y?  Rows are
     * compared in proportion to the two operations' heights.
     */
    function HasEnoughRows(y: int, rows: nat): (r: bool)
      reads this
      ensures numRowsDone >= numRows ==> r
      ensures rows == numRows > 0 ==> (r <==> y < numRowsDone || numRowsDone >= numRows)
    {
      ProportionalBelow(numRowsDone, rows, y, numRows);
      numRowsDone * rows > y * numRows || numRowsDone >= numRows
    }

    /**
     * Forward dependency check: does this operation still need input rows
     * from a preceding operation of `rows` rows to process that operation's
     * row y?
     */
    function NeedsMoreInputRows(y: int, rows: nat): (r: bool)
      reads this
      ensures rows == numRows > 0 ==> (r <==> y <= nextY + ahead + lag)
    {
      ProportionalAtMost(y, numRows, nextY + ahead + lag, rows);
      y * numRows <= (nextY + ahead + lag) * rows
    }

    /**
     * schedule: hands out the next row, or says why it cannot.  The checks
     * come in the source's order: the mutex, every row handed out, too far
     * ahead of the completed prefix, the preceding operation not far
     * enough, the following operation not needing more input.
     */
    method Schedule(lockAcquired: bool) returns (y: int)
      requires Valid()
      modifies this
      ensures Valid()
      ensures numRowsDone == old(numRowsDone) && rowMask == old(rowMask)
      ensures prevOp == old(prevOp) && nextOp == old(nextOp)
      ensures !lockAcquired ==> y == MutexTrylockFailed
      ensures lockAcquired && old(nextY) >= numRows ==> y == AllRowsDone
      ensures lockAcquired && old(nextY) < numRows && old(nextY) >= numRowsDone + ahead ==> y == BlockedBySelfDependency
      ensures lockAcquired && old(nextY) < numRows && old(nextY) < numRowsDone + ahead
              && old(prevOp) != null && !old(prevOp.HasEnoughRows(nextY + lag, numRows)) ==>
        y == BlockedByBackwardDependency
      ensures lockAcquired && old(nextY) < numRows && old(nextY) < numRowsDone + ahead
              && (old(prevOp) == null || old(prevOp.HasEnoughRows(nextY + lag, numRows)))
              && old(nextOp) != null && !old(nextOp.NeedsMoreInputRows(numRowsDone, numRows)) ==>
        y == BlockedByForwardDependency
      ensures y >= 0 <==>
        && lockAcquired && old(nextY) < numRows && old(nextY) < numRowsDone + ahead
        && (old(prevOp) == null || old(prevOp.HasEnoughRows(nextY + lag, numRows)))
        && (old(nextOp) == null || old(nextOp.NeedsMoreInputRows(numRowsDone, numRows)))
      ensures y >= 0 ==> y == old(nextY) && nextY == old(nextY) + 1
      ensures y < 0 ==> nextY == old(nextY) && y in {AllRowsDone, BlockedBySelfDependency,
        BlockedByBackwardDependency, BlockedByForwardDependency, MutexTrylockFailed}
    {
      if !lockAcquired {
        y := MutexTrylockFailed;
      } else if nextY >= numRows {
        y := AllRowsDone;
      } else if nextY >= numRowsDone + ahead {
        y := BlockedBySelfDependency;
      } else if prevOp != null && !prevOp.HasEnoughRows(nextY + lag, numRows) {
        y := BlockedByBackwardDependency;
      } else if nextOp != null && !nextOp.NeedsMoreInputRows(numRowsDone, numRows) {
        y := BlockedByForwardDependency;
      } else {
        y := nextY;
        nextY := nextY + 1;
      }
    }

    /**
     * done(y): marks row y done in the mask, then moves the completed
     * prefix over the run of done rows at its end.  Answers how far the
     * prefix moved, and whether this report finished the operation (the
     * point where the source calls postprocess).
     */
    method Done(y: nat) returns (moreRowsDone: nat, operationDone: bool)
      requires Valid()
      requires numRowsDone <= y < nextY && y < numRowsDone + MaskBits
      requires !rowMask[y - numRowsDone]
      modifies this
      ensures Valid()
      ensures nextY == old(nextY) && prevOp == old(prevOp) && nextOp == old(nextOp)
      ensures var marked := old(rowMask)[y - old(numRowsDone) := true];
        && moreRowsDone == TrailingOnes(marked)
        && rowMask == ShiftRightBy(marked, moreRowsDone)
      ensures numRowsDone == old(numRowsDone) + moreRowsDone
      ensures y == old(numRowsDone) ==> moreRowsDone >= 1
      ensures operationDone <==> moreRowsDone > 0 && numRowsDone >= numRows
    {
      var bitPos := y - numRowsDone;
      var marked := rowMask[bitPos := true];
      rowMask := marked;
      moreRowsDone := 0;
      while rowMask[0]
        invariant moreRowsDone <= MaskBits
        invariant nextY == old(nextY) && numRowsDone == old(numRowsDone)
        invariant prevOp == old(prevOp) && nextOp == old(nextOp)
        invariant old(numRowsDone) + moreRowsDone <= nextY
        invariant rowMask == ShiftRightBy(marked, moreRowsDone)
        invariant moreRowsDone + TrailingOnes(rowMask) == TrailingOnes(marked)
        invariant forall i :: 0 <= i < MaskBits && rowMask[i] ==> old(numRowsDone) + moreRowsDone + i < nextY
        decreases MaskBits - moreRowsDone
      {
        TrailingOnesShift(rowMask);
        ShiftRightStep(marked, moreRowsDone);
        rowMask := ShiftRight(rowMask);
        moreRowsDone := moreRowsDone + 1;
      }
      numRowsDone := numRowsDone + moreRowsDone;
      operationDone := moreRowsDone > 0 && numRowsDone >= numRows;
    }

    /**
     * doWork: schedule a row and, when one was handed out, report it done
     * (processing the row itself is the operation's own business and is
     * not part of this model).  Answers schedule's refusal code, or how
     * far the completed prefix moved once the row handed out is marked.
     */
    method DoWork(lockAcquired: bool) returns (r: int)
      requires Valid() && ahead <= MaskBits
      modifies this
      ensures Valid()
      ensures !lockAcquired ==> r == MutexTrylockFailed
      ensures lockAcquired && old(nextY) >= numRows ==> r == AllRowsDone
      ensures lockAcquired && old(nextY) < numRows && old(nextY) >= old(numRowsDone) + ahead ==> r == BlockedBySelfDependency
      ensures lockAcquired && old(nextY) < numRows && old(nextY) < old(numRowsDone) + ahead
              && old(prevOp) != null && !old(prevOp.HasEnoughRows(nextY + lag, numRows)) ==>
        r == BlockedByBackwardDependency
      ensures lockAcquired && old(nextY) < numRows && old(nextY) < old(numRowsDone) + ahead
              && (old(prevOp) == null || old(prevOp.HasEnoughRows(nextY + lag, numRows)))
              && old(nextOp) != null && !old(nextOp.NeedsMoreInputRows(numRowsDone, numRows)) ==>
        r == BlockedByForwardDependency
      ensures r >= 0 <==>
        && lockAcquired && old(nextY) < numRows && old(nextY) < old(numRowsDone) + ahead
        && (old(prevOp) == null || old(prevOp.HasEnoughRows(nextY + lag, numRows)))
        && (old(nextOp) == null || old(nextOp.NeedsMoreInputRows(numRowsDone, numRows)))
      ensures r < 0 ==> nextY == old(nextY) && numRowsDone == old(numRowsDone) && rowMask == old(rowMask)
      ensures r >= 0 ==> nextY == old(nextY) + 1 && numRowsDone == old(numRowsDone) + r
      ensures r >= 0 ==>
        var marked := old(rowMask)[old(nextY) - old(numRowsDone) := true];
        r == TrailingOnes(marked) && rowMask == ShiftRightBy(marked, r)
    {
      var y := Schedule(lockAcquired);
      r := y;
      if y >= 0 {
        var more, _ := Done(y);
        r := more;
      }
    }
  }

  /** With equal heights, a proportional comparison is a plain one. */
  lemma ProportionalBelow(done: nat, rows: nat, y: int, numRows: nat)
    ensures rows == numRows > 0 ==> (done * rows > y * numRows <==> y < done)
  {
    if rows == numRows > 0 {
      assert done * rows - y * numRows == (done - y) * rows;
      if y < done {
        assert (done - y) * rows > 0;
      } else {
        assert (y - done) * rows >= 0;
      }
    }
  }

  lemma ProportionalAtMost(y: int, numRows: nat, bound: int, rows: nat)
    ensures rows == numRows > 0 ==> (y * numRows <= bound * rows <==> y <= bound)
  {
    if rows == numRows > 0 {
      assert bound * rows - y * numRows == (bound - y) * rows;
      if y <= bound {
        assert (bound - y) * rows >= 0;
      } else {
        assert (y - bound) * rows > 0;
      }
    }
  }
}
