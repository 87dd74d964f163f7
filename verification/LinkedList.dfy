/** The doubly linked ring behind the mempool's queue. */
module LinkedList {

  class Element<T(0)> {
    var prev: Element?<T>
    var next: Element?<T>
    var list: List?<T>
    const value: T

    constructor (value: T)
      ensures prev == null && next == null && list == null && this.value == value
    {
      prev, next, list := null, null, null;
      this.value := value;
    }
  }

  class List<T(0)> {
    const root: Element<T>
    var size: int
    ghost var elems: seq<Element<T>>

    /** The ring's nodes: the root, the elements in order, and the root again. */
    ghost function Node(k: int): Element<T>
      reads this
    {
      if 0 < k <= |elems| then elems[k - 1] else root
    }

    ghost predicate Linked(k: int)
      reads this, root, elems
    {
      Node(k).next == Node(k + 1) && Node(k + 1).prev == Node(k)
    }

    ghost predicate Ring()
      reads this, root, elems
    {
      forall k | 0 <= k <= |elems| :: Linked(k)
    }

    ghost predicate Valid()
      reads this, root, elems
    {
      && size == |elems| && root !in elems
      && (forall i, j | 0 <= i < j < |elems| :: elems[i] != elems[j])
      && (forall e | e in elems :: e.list == this)
      && (Ring() || (elems == [] && root.next == null))
    }

    /** The root holds the zero value, which nothing reads. */
    constructor ()
      ensures Valid() && elems == [] && fresh(root)
    {
      var zero: T := *;
      root := new Element(zero);
      size, elems := 0, [];
    }

    method Init()
      requires Valid() && root.next == null
      modifies root
      ensures Valid() && Ring()
    {
      assert !Linked(0);
      root.next := root;
      root.prev := root;
      assert Linked(0);
    }

    method InsertAfter(e: Element<T>, at: Element<T>, ghost k: nat)
      requires Valid() && Ring() && k <= |elems| && Node(k) == at
      requires e != root && e !in elems
      modifies this, root, elems, e
      ensures Valid() && Ring() && elems == old(elems)[..k] + [e] + old(elems)[k..]
    {
      assert Linked(k);
      e.prev := at;
      e.next := at.next;
      e.prev.next := e;
      e.next.prev := e;
      e.list := this;
      size := size + 1;
      elems := elems[..k] + [e] + elems[k..];
      forall j | 0 <= j <= |elems|
        ensures Linked(j)
      {
        assert old(Linked(if j <= k then j else j - 1));
      }
    }

    method RemoveAt(e: Element<T>, ghost k: nat)
      requires Valid() && Ring() && k < |elems| && elems[k] == e
      modifies this, root, elems
      ensures Valid() && Ring() && elems == old(elems)[..k] + old(elems)[k + 1..]
      ensures e.list == null && e.next == null && e.prev == null
    {
      assert Linked(k) && Linked(k + 1);
      e.prev.next := e.next;
      e.next.prev := e.prev;
      e.next := null;
      e.prev := null;
      e.list := null;
      size := size - 1;
      elems := elems[..k] + elems[k + 1..];
      forall j | 0 <= j <= |elems|
        ensures Linked(j)
      {
        assert old(Linked(if j <= k then j else j + 1));
      }
    }

    method First() returns (e: Element?<T>)
      requires Valid()
      ensures e == if elems == [] then null else elems[0]
    {
      if size == 0 {
        return null;
      }
      assert Linked(0);
      e := root.next;
    }

    method Last() returns (e: Element?<T>)
      requires Valid()
      ensures e == if elems == [] then null else elems[|elems| - 1]
    {
      if size == 0 {
        return null;
      }
      assert Linked(|elems|);
      e := root.prev;
    }

    method PushFront(v: T) returns (e: Element<T>)
      requires Valid()
      modifies this, root, elems
      ensures Valid() && fresh(e) && e.value == v && elems == [e] + old(elems)
    {
      if root.next == null {
        Init();
      }
      e := new Element(v);
      InsertAfter(e, root, 0);
    }

    method PushBack(v: T) returns (e: Element<T>)
      requires Valid()
      modifies this, root, elems
      ensures Valid() && fresh(e) && e.value == v && elems == old(elems) + [e]
    {
      if root.next == null {
        Init();
      }
      assert Linked(|elems|);
      e := new Element(v);
      InsertAfter(e, root.prev, |elems|);
    }

    /** Takes an element out of its place; an element of no list, or of another one, is left alone. */
    method Remove(e: Element<T>) returns (v: T)
      requires Valid() && (e.list == this ==> e in elems)
      modifies this, root, elems
      ensures Valid() && e !in elems && v == e.value
      ensures old(e.list) != this ==> elems == old(elems)
      ensures old(e.list) == this ==>
                exists k ::
                  && 0 <= k < |old(elems)| && old(elems)[k] == e
                  && elems == old(elems)[..k] + old(elems)[k + 1..]
    {
      if e.list == this {
        ghost var k :| 0 <= k < |elems| && elems[k] == e;
        assert Ring();
        RemoveAt(e, k);
      }
      v := e.value;
    }
  }
}
