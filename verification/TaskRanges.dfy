/** How the multi-threaded version cuts the points into twelve tasks. */
module TaskRanges {

  const NUM_TASKS: nat := 12

  // Points begin..end-1 are one task's work.
  datatype Range = Range(begin: nat, end: nat)

  // Eleven equal pieces and a last one that takes the remainder.
  function TaskRange(n: nat, t: nat): (r: Range)
    requires t < NUM_TASKS
  {
    var curNums := n / (NUM_TASKS - 1);
    if t < NUM_TASKS - 1 then Range(t * curNums, t * curNums + curNums)
    else Range(t * curNums, t * curNums + n % (NUM_TASKS - 1))
  }

  function Tasks(n: nat): (ts: seq<Range>)
    ensures |ts| == NUM_TASKS
  {
    seq(NUM_TASKS, t requires 0 <= t < NUM_TASKS => TaskRange(n, t))
  }

  predicate InRange(r: Range, i: nat) {
    r.begin <= i < r.end
  }

  // The task that owns point i.
  function OwnerTask(n: nat, i: nat): (t: nat)
    requires i < n
    ensures t < NUM_TASKS
  {
    var curNums := n / (NUM_TASKS - 1);
    if curNums == 0 || i >= (NUM_TASKS - 1) * curNums then NUM_TASKS - 1 else i / curNums
  }

  lemma QuotientBounds(i: nat, q: nat)
    requires q > 0
    ensures (i / q) * q <= i < (i / q) * q + q
  {
    assert i == (i / q) * q + i % q;
  }

  lemma {:induction false} ProductOrder(a: nat, b: nat, q: nat)
    requires a < b
    ensures a * q + q <= b * q
  {
    if a + 1 < b {
      ProductOrder(a, b - 1, q);
    }
    assert b * q == (b - 1) * q + q;
  }

  // The work is shared evenly: all tasks but the last get equally many points, the last one fewer
  // than there are others.
  lemma RangesAreEven(n: nat, t: nat, u: nat)
    requires t < NUM_TASKS - 1 && u < NUM_TASKS - 1
    ensures var (r, s, last) := (TaskRange(n, t), TaskRange(n, u), TaskRange(n, NUM_TASKS - 1));
            r.end - r.begin == s.end - s.begin && last.end - last.begin < NUM_TASKS - 1
  {
  }

  // The tasks cover the points and do not overlap: point i belongs to one task and no other.
  lemma RangesPartition(n: nat, t: nat, i: nat)
    requires t < NUM_TASKS
    ensures InRange(TaskRange(n, t), i) <==> i < n && t == OwnerTask(n, i)
  {
    var q := n / (NUM_TASKS - 1);
    var last := NUM_TASKS - 1;
    assert n == last * q + n % last;
    if t < last {
      ProductOrder(t, last, q);
      if q > 0 {
        var p := i / q;
        QuotientBounds(i, q);
        if p < t {
          ProductOrder(p, t, q);
        } else if p > t {
          ProductOrder(t, p, q);
        }
        if i < last * q && p >= last {
          if p > last {
            ProductOrder(last, p, q);
          }
        }
      }
    } else if q > 0 && i < last * q {
      QuotientBounds(i, q);
    }
  }
}
