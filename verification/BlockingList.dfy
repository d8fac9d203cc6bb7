/** The linked queue behind the thread pool: cells linked from front to back, with a 32-bit size. */
module BlockingList {

  const SIZE_LIMIT: nat := 0x1_0000_0000

  class ListCell<T> {
    var next: ListCell?<T>
    const val: T

    constructor (next: ListCell?<T>, val: T)
      ensures this.next == next && this.val == val
    {
      this.next := next;
      this.val := val;
    }
  }

  // Every method runs under the list's mutex, so each is one atomic operation.
  class List<T(0)> {
    var front: ListCell?<T>
    var back: ListCell?<T>
    var size: nat
    ghost var cells: seq<ListCell<T>>

    ghost predicate Valid()
      reads this, cells
    {
      && (front == null <==> cells == [])
      && (cells == [] ==> back == null)
      && (cells != [] ==> front == cells[0] && back == cells[|cells| - 1] && back.next == null)
      && (forall i :: 0 <= i < |cells| - 1 ==> cells[i].next == cells[i+1])
      && (forall i, j :: 0 <= i < j < |cells| ==> cells[i] != cells[j])
      && size == |cells| % SIZE_LIMIT
    }

    // The values from front to back.
    ghost function Contents(): (s: seq<T>)
      reads this, cells
      ensures |s| == |cells|
    {
      seq(|cells|, i requires 0 <= i < |cells| reads this, cells => cells[i].val)
    }

    constructor ()
      ensures Valid() && cells == [] && Contents() == []
    {
      front := null;
      back := null;
      size := 0;
      cells := [];
    }

    method PushBack(other: T)
      requires Valid()
      modifies this, cells
      ensures Valid() && Contents() == old(Contents()) + [other]
      ensures fresh(cells[|cells| - 1]) && cells[..|cells| - 1] == old(cells)
    {
      size := (size + 1) % SIZE_LIMIT;
      var cell := new ListCell<T>(null, other);
      if front == null {
        front := cell;
        back := cell;
      } else {
        back.next := cell;
        back := cell;
      }
      cells := cells + [cell];
    }

    // Takes the front value, or reports an empty list and changes nothing.
    method PopFront(result0: T) returns (ok: bool, result: T)
      requires Valid()
      modifies this
      ensures Valid()
      ensures ok <==> old(Contents()) != []
      ensures ok ==> old(Contents()) == [result] + Contents()
      ensures !ok ==> result == result0 && Contents() == old(Contents())
      ensures ok ==> cells == old(cells)[1..]
    {
      if front == null {
        return false, result0;
      }
      size := (size + SIZE_LIMIT - 1) % SIZE_LIMIT;
      result := front.val;
      ok := true;
      cells := cells[1..];
      if front == back {
        front := null;
        back := null;
      } else {
        assert old(cells)[0].next == old(cells)[1];
        front := front.next;
      }
    }

    // The 32-bit size reads zero exactly when the length is a multiple of 2^32.
    method Empty() returns (e: bool)
      requires Valid()
      ensures e <==> |Contents()| % SIZE_LIMIT == 0
      ensures |Contents()| < SIZE_LIMIT ==> (e <==> Contents() == [])
    {
      e := !(size > 0);
    }

    method Size() returns (n: nat)
      requires Valid()
      ensures n == |Contents()| % SIZE_LIMIT
    {
      n := size;
    }
  }
}
