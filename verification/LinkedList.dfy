// The doubly linked list with a cached size.
module LinkedList {

  class Cell<T> {
    var previous: Cell?<T>
    var next: Cell?<T>
    var content: T

    constructor (content: T, next: Cell?<T>)
      ensures this.content == content && this.previous == null && this.next == next
    {
      this.content, this.previous, this.next := content, null, next;
    }
  }

  class List<T> {
    var head: Cell?<T>
    var tail: Cell?<T>
    var size: int
    ghost var cells: seq<Cell<T>>
    ghost var contents: seq<T>
    ghost var freed: set<Cell?<T>>
    ghost var repr: set<Cell<T>> // every cell the list has ever had

    // The links: each cell knows its neighbours, the ends have none, and the cells are distinct
    // and not freed.
    ghost predicate Linked()
      reads this, repr
    {
      && |contents| == |cells|
      && (forall i :: 0 <= i < |cells| ==> cells[i] in repr && cells[i] !in freed)
      && (forall i :: 0 <= i < |cells| ==> cells[i].content == contents[i])
      && (forall i, j :: 0 <= i < j < |cells| ==> cells[i] != cells[j])
      && head == (if cells == [] then null else cells[0])
      && tail == (if cells == [] then null else cells[|cells| - 1])
      && (forall i {:trigger cells[i].previous} :: 0 <= i < |cells| ==>
            cells[i].previous == if i == 0 then null else cells[i - 1])
      && (forall i {:trigger cells[i].next} :: 0 <= i < |cells| ==>
            cells[i].next == if i == |cells| - 1 then null else cells[i + 1])
    }

    ghost predicate Valid()
      reads this, repr
    {
      Linked() && size == |cells|
    }

    // init_list
    constructor ()
      ensures Valid() && contents == [] && cells == [] && repr == {}
    {
      head, tail, size := null, null, 0;
      cells, contents, freed, repr := [], [], {}, {};
    }

    method InsertHead(element: T)
      requires Valid()
      modifies this, repr
      ensures Valid() && contents == [element] + old(contents)
      ensures |cells| == |old(cells)| + 1 && cells[1..] == old(cells) && fresh(repr - old(repr))
    {
      var cell := new Cell(element, head);
      if head != null {
        head.previous := cell;
      }
      head := cell;
      if tail == null {
        tail := head;
      }
      size := size + 1;
      cells := [cell] + cells;
      repr := repr + {cell};
      contents := [element] + contents;
      assert cells[1..] == old(cells);
    }

    // The intent of extract_head: the content is read before the cell is freed, the new head
    // has no predecessor, the last cell leaves neither head nor tail, and the size goes down.
    method ExtractHead() returns (element: T)
      requires Valid() && contents != []
      modifies this, repr
      ensures Valid() && element == old(contents)[0] && contents == old(contents)[1..]
      ensures cells == old(cells)[1..] && repr == old(repr) && freed == old(freed) + {old(cells)[0]}
    {
      element := head.content;
      freed := freed + {head};
      if head.next == null {
        head, tail := null, null;
      } else {
        head := head.next;
        head.previous := null;
      }
      size := size - 1;
      cells := cells[1..];
      contents := contents[1..];
    }

    method ExtractTail() returns (element: T)
      requires Valid() && contents != []
      modifies this, repr
      ensures Valid() && element == old(contents)[|old(contents)| - 1]
      ensures contents == old(contents)[..|old(contents)| - 1]
      ensures cells == old(cells)[..|old(cells)| - 1] && repr == old(repr)
      ensures freed == old(freed) + {old(cells)[|old(cells)| - 1]}
    {
      element := tail.content;
      freed := freed + {tail};
      if tail.previous == null {
        head, tail := null, null;
      } else {
        tail := tail.previous;
        tail.next := null;
      }
      size := size - 1;
      cells := cells[..|cells| - 1];
      contents := contents[..|contents| - 1];
    }

    // list_size
    method Size() returns (n: int)
      requires Valid()
      ensures n == |contents|
    {
      n := size;
    }

    // The traversal that the cached size replaces.
    method CountCells() returns (n: int)
      requires Linked()
      ensures n == |contents|
    {
      n := 0;
      var cell := head;
      while cell != null
        invariant 0 <= n <= |cells|
        invariant cell == if n == |cells| then null else cells[n]
        decreases |cells| - n
      {
        n := n + 1;
        cell := cell.next;
      }
    }

    // extract_head as written, for every list it can be called on: it keeps the size, and it
    // leaves the list holding a freed cell, as its head or as the predecessor of its head. The element
    // is what that cell held when it was freed.
    method ExtractHeadAsWritten() returns (element: T)
      requires Valid() && contents != []
      modifies this
      ensures freed == old(freed) + {old(head)} && size == old(size)
      ensures cells == old(cells)[1..] && contents == old(contents)[1..] && repr == old(repr) && unchanged(old(repr))
      ensures head != null && (head in freed || head.previous in freed)
      ensures element == old(contents)[0] && tail == old(tail)
      ensures head == if old(head.next) == null then old(head) else old(head.next)
      ensures !Linked() && size != |cells|
    {
      var first := head;
      if head.next == null {
        freed := freed + {head};
      } else {
        head := head.next;
        freed := freed + {head.previous};
      }
      element := first.content;
      cells := cells[1..];
      contents := contents[1..];
    }

    // extract_tail as written.
    method ExtractTailAsWritten() returns (element: T)
      requires Valid() && contents != []
      modifies this
      ensures freed == old(freed) + {old(tail)} && size == old(size)
      ensures cells == old(cells)[..|old(cells)| - 1] && repr == old(repr) && unchanged(old(repr))
      ensures tail != null && (tail in freed || tail.next in freed)
      ensures element == old(contents)[|old(contents)| - 1] && head == old(head)
      ensures contents == old(contents)[..|old(contents)| - 1]
      ensures tail == if old(tail.previous) == null then old(tail) else old(tail.previous)
      ensures !Linked() && size != |cells|
    {
      var last := tail;
      if tail.previous == null {
        freed := freed + {tail};
      } else {
        tail := tail.previous;
        freed := freed + {tail.next};
      }
      element := last.content;
      cells := cells[..|cells| - 1];
      contents := contents[..|contents| - 1];
    }
  }
}
