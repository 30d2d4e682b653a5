/**
 The intrusive singly linked list (util/sl_list.c): pointers rewritten in place, proved
 against the sequence of its elements.
 */
module SlList {

  /** sl_list_t, the first member of whatever is listed. */
  class Element {
    var next: Element?

    constructor ()
    {
      next := null;
    }
  }

  function LastOf(s: seq<Element>): Element? { if s == [] then null else s[|s| - 1] }

  function FirstOf(s: seq<Element>): Element? { if s == [] then null else s[0] }

  /** The element after position `i`, or null at the end. */
  function Following(s: seq<Element>, i: nat): Element?
    requires i < |s|
  {
    if i + 1 < |s| then s[i + 1] else null
  }

  predicate Distinct(s: seq<Element>) { forall i, j | 0 <= i < j < |s| :: s[i] != s[j] }

  /** The elements are chained in order, and the last one ends the chain. */
  predicate Chained(s: seq<Element>)
    reads s
  {
    forall i {:trigger s[i].next} | 0 <= i < |s| :: s[i].next == Following(s, i)
  }

  /** sl_list_head_t; an iterator on the head is written `null`. */
  class Head {
    var next: Element?
    var last: Element?
    var size: nat
    ghost var items: seq<Element>

    ghost predicate Valid()
      reads this, items
    {
      && Distinct(items) && Chained(items)
      && next == FirstOf(items) && last == LastOf(items) && size == |items|
    }

    constructor Init()
      ensures Valid() && items == []
    {
      next, last, size, items := null, null, 0, [];
    }

    /** The link that follows position `i`, the head being at position -1. */
    ghost predicate At(h: Element?, i: int)
      reads this
    {
      if h == null then i == -1 else 0 <= i < |items| && h == items[i]
    }

    method NextOf(h: Element?, ghost i: int) returns (r: Element?)
      requires Valid() && At(h, i)
      ensures r == if i + 1 < |items| then items[i + 1] else null
    {
      r := if h == null then next else h.next;
    }

    method PushBack(element: Element)
      requires Valid() && element !in items
      modifies this, element, items
      ensures Valid() && items == old(items) + [element]
    {
      if next == null {
        next := element;
      } else {
        last.next := element;
      }
      last := element;
      element.next := null;
      size := size + 1;
      items := items + [element];
    }

    method PushFront(element: Element)
      requires Valid() && element !in items
      modifies this, element
      ensures Valid() && items == [element] + old(items)
    {
      element.next := next;
      next := element;
      if last == null {
        last := element;
      }
      size := size + 1;
      items := [element] + items;
    }

    /** The search for the link before a member, which is at position `k`. */
    method FindBefore(iter: Element, ghost k: nat) returns (h: Element?)
      requires Valid() && k < |items| && items[k] == iter
      ensures At(h, k - 1)
    {
      h := null;
      ghost var i := -1;
      var n := NextOf(h, i);
      while n != iter
        invariant At(h, i) && -1 <= i < k && n == items[i + 1]
        decreases k - i
      {
        h := n;
        i := i + 1;
        n := NextOf(h, i);
      }
      assert i + 1 == k;
    }

    /** `iter` is a member, at position `k`. */
    method PushBefore(iter: Element, element: Element, ghost k: nat)
      requires Valid() && element !in items && k < |items| && items[k] == iter
      modifies this, element, items
      ensures Valid() && items == old(items)[..k] + [element] + old(items)[k..]
    {
      var h := FindBefore(iter, k);
      Link(h, iter, element, k);
    }

    /** The element is put between `h` and the member at position `k`. */
    method Link(h: Element?, iter: Element, element: Element, ghost k: nat)
      requires Valid() && element !in items && k < |items| && items[k] == iter && At(h, k - 1)
      modifies this, element, items
      ensures Valid() && items == old(items)[..k] + [element] + old(items)[k..]
    {
      ghost var was := items;
      element.next := iter;
      if h == null {
        next := element;
      } else {
        h.next := element;
      }
      size := size + 1;
      items := was[..k] + [element] + was[k..];
      assert Chained(items) by {
        ChainedInsert(was, items, k, element);
      }
      assert Distinct(items) by {
        DistinctInsert(was, items, k, element);
      }
    }

    method PopBack() returns (r: Element?)
      requires Valid()
      modifies this, items
      ensures Valid()
      ensures if old(items) == [] then r == null && items == []
              else r == LastOf(old(items)) && r.next == null && items == old(items)[..|old(items)| - 1]
    {
      if next == null {
        return null;
      }
      var prev: Element? := null;
      var h := next;
      ghost var i := 0;
      var n := NextOf(h, i);
      while n != null
        invariant Valid() && 0 <= i < |items| && items == old(items) && h == items[i] && At(prev, i - 1)
        invariant n == Following(items, i)
        decreases |items| - i
      {
        prev := h;
        h := n;
        i := i + 1;
        n := NextOf(h, i);
      }
      CutLast(prev, h);
      r := h;
    }

    /** The last element `h`, which follows `prev`, is taken out. */
    method CutLast(prev: Element?, h: Element)
      requires Valid() && items != [] && h == LastOf(items) && At(prev, |items| - 2)
      modifies this, items
      ensures Valid() && items == old(items)[..|old(items)| - 1] && h.next == null
    {
      ghost var was := items;
      items := items[..|items| - 1];
      if prev == null {
        next := null;
      } else {
        prev.next := null;
      }
      size := size - 1;
      last := prev;
      h.next := null;
      assert Chained(items) by {
        ChainedFront(was, items);
      }
    }

    method PopFront() returns (r: Element?)
      requires Valid()
      modifies this, items
      ensures Valid()
      ensures if old(items) == [] then r == null && items == []
              else r == old(items)[0] && r.next == null && items == old(items)[1..]
    {
      r := next;
      if r == null {
        return;
      }
      size := size - 1;
      next := r.next;
      if next == null {
        last := null;
      }
      r.next := null;
      ghost var was := items;
      items := items[1..];
      assert forall j | 0 <= j < |items| :: items[j] == was[j + 1] && was[j + 1] != was[0];
    }

    /** sl_list_remove: returns the element, whether it was a member or not; its own link is left as it was. */
    method Remove(element: Element) returns (r: Element)
      requires Valid()
      modifies this, items
      ensures Valid() && r == element
      ensures element.next == old(element.next)
      ensures element !in old(items) ==> items == old(items)
      ensures element in old(items) ==>
                exists k :: 0 <= k < |old(items)| && old(items)[k] == element
                            && items == old(items)[..k] + old(items)[k + 1..]
    {
      var h: Element? := null;
      ghost var i := -1;
      var n := NextOf(h, i);
      while n != null
        invariant Valid() && At(h, i) && -1 <= i <= |items| && items == old(items)
        invariant element.next == old(element.next)
        invariant n == if i + 1 < |items| then items[i + 1] else null
        invariant forall j | 0 <= j <= i :: items[j] != element
        decreases |items| - i
      {
        if n == element {
          Unlink(h, element, i);
          return element;
        }
        h := n;
        i := i + 1;
        n := NextOf(h, i);
      }
      r := element;
    }

    /** The element after `h` is taken out. */
    method Unlink(h: Element?, element: Element, ghost i: int)
      requires Valid() && At(h, i) && i + 1 < |items| && items[i + 1] == element
      modifies this, items
      ensures Valid() && items == old(items)[..i + 1] + old(items)[i + 2..]
      ensures element.next == old(element.next)
    {
      ghost var was := items;
      if h == null {
        next := element.next;
      } else {
        h.next := element.next;
      }
      size := size - 1;
      if last == element {
        last := h;
      }
      items := was[..i + 1] + was[i + 2..];
      assert Chained(items) by {
        ChainedRemove(was, items, i + 1);
      }
      assert Distinct(items) by {
        DistinctRemove(was, items, i + 1);
      }
    }

    /** sl_list_pop: the link is cleared of an element that was no member as well. */
    method Pop(element: Element) returns (r: Element)
      requires Valid()
      modifies this, items, element
      ensures Valid() && r == element && element.next == null
      ensures element !in old(items) ==> items == old(items)
      ensures element in old(items) ==>
                exists k :: 0 <= k < |old(items)| && old(items)[k] == element
                            && items == old(items)[..k] + old(items)[k + 1..]
    {
      r := Remove(element);
      assert r !in items;
      r.next := null;
    }

    /** sl_list_at: null past the end, and for a negative index, which counts down for ever. */
    method ElementAt(idx: int) returns (r: Element?)
      requires Valid()
      ensures r == if 0 <= idx < |items| then items[idx] else null
    {
      var h, left := next, idx;
      ghost var i := 0;
      while h != null && left != 0
        invariant 0 <= i <= |items| && left == idx - i && (idx >= 0 ==> left >= 0)
        invariant h == if i < |items| then items[i] else null
        decreases |items| - i
      {
        h := h.next;
        left := left - 1;
        i := i + 1;
      }
      r := h;
    }

    method Contains(element: Element) returns (r: bool)
      requires Valid()
      ensures r == (element in items)
    {
      var x := next;
      ghost var i := 0;
      while x != null
        invariant 0 <= i <= |items| && x == if i < |items| then items[i] else null
        invariant forall j | 0 <= j < i :: items[j] != element
        decreases |items| - i
      {
        if x == element {
          return true;
        }
        x := x.next;
        i := i + 1;
      }
      r := false;
    }

    /**
     The first element after `start`, the link at position `i`, that matches, or null. The matcher may
     look into the elements and whatever hangs on them.
     */
    method Search(start: Element?, match_: Element ~> bool, ghost i: int) returns (r: Element?)
      requires Valid() && At(start, i)
      requires forall e | e in items :: match_.requires(e)
      ensures if r == null then forall j | i < j < |items| :: !match_(items[j])
              else exists k :: i < k < |items| && r == items[k] && match_(r)
                               && forall j | i < j < k :: !match_(items[j])
    {
      r := NextOf(start, i);
      ghost var k := i + 1;
      while r != null
        invariant i < k <= |items| && r == if k < |items| then items[k] else null
        invariant forall j | i < j < k :: !match_(items[j])
        decreases |items| - k
      {
        if match_(r) {
          return;
        }
        r := r.next;
        k := k + 1;
      }
    }

    method Swap(other: Head)
      requires Valid() && other.Valid()
      modifies this, other
      ensures Valid() && other.Valid() && items == old(other.items) && other.items == old(items)
    {
      var n, l, s := next, last, size;
      ghost var i := items;
      next, last, size, items := other.next, other.last, other.size, other.items;
      other.next, other.last, other.size, other.items := n, l, s, i;
    }
  }

  lemma ChainedInsert(was: seq<Element>, items: seq<Element>, k: nat, element: Element)
    requires k < |was| && items == was[..k] + [element] + was[k..] && element !in was && Distinct(was)
    requires element.next == was[k] && (k > 0 ==> was[k - 1].next == element)
    requires forall i | 0 <= i < |was| && i != k - 1 :: was[i].next == Following(was, i)
    ensures Chained(items)
  {
    forall j | 0 <= j < |items|
      ensures items[j].next == Following(items, j)
    {
      assert j < k ==> items[j] == was[j];
      assert j > k ==> items[j] == was[j - 1];
    }
  }

  lemma DistinctInsert(was: seq<Element>, items: seq<Element>, k: nat, element: Element)
    requires k < |was| && items == was[..k] + [element] + was[k..] && element !in was && Distinct(was)
    ensures Distinct(items)
  {
    forall i, j | 0 <= i < j < |items|
      ensures items[i] != items[j]
    {
      var at := t => if t < k then t else t - 1;
      assert i != k ==> items[i] == was[at(i)];
      assert j != k ==> items[j] == was[at(j)];
    }
  }

  lemma ChainedRemove(was: seq<Element>, items: seq<Element>, k: nat)
    requires k < |was| && items == was[..k] + was[k + 1..] && Distinct(was)
    requires k > 0 ==> was[k - 1].next == Following(was, k)
    requires forall i | 0 <= i < |was| && i != k - 1 :: was[i].next == Following(was, i)
    ensures Chained(items)
  {
    forall j | 0 <= j < |items|
      ensures items[j].next == Following(items, j)
    {
      if j < k {
        assert items[j] == was[j] && Following(was, j) == was[j + 1];
      } else {
        assert items[j] == was[j + 1];
      }
    }
  }

  lemma ChainedFront(was: seq<Element>, items: seq<Element>)
    requires was != [] && items == was[..|was| - 1]
    requires items != [] ==> LastOf(items).next == null
    requires forall i | 0 <= i < |items| - 1 :: was[i].next == Following(was, i)
    ensures Chained(items)
  {
    forall j | 0 <= j < |items|
      ensures items[j].next == Following(items, j)
    {
      assert items[j] == was[j];
    }
  }

  lemma DistinctRemove(was: seq<Element>, items: seq<Element>, k: nat)
    requires k < |was| && items == was[..k] + was[k + 1..] && Distinct(was)
    ensures Distinct(items)
  {
    forall i, j | 0 <= i < j < |items|
      ensures items[i] != items[j]
    {
      var at := t => if t < k then t else t + 1;
      assert items[i] == was[at(i)] && items[j] == was[at(j)];
    }
  }

  /** A chain cannot run in a circle: following it from any element reaches the end. */
  lemma {:induction false} Acyclic(s: seq<Element>, i: nat, steps: nat)
    requires Distinct(s) && Chained(s) && i + steps < |s|
    ensures Follow(s[i], steps, s) == s[i + steps]
    ensures steps > 0 ==> s[i + steps] != s[i]
    decreases steps
  {
    if steps > 0 {
      FollowStep(s, i, steps);
      Acyclic(s, i + 1, steps - 1);
    }
  }

  lemma FollowStep(s: seq<Element>, i: nat, steps: nat)
    requires Chained(s) && i + 1 < |s| && steps > 0
    ensures Follow(s[i], steps, s) == Follow(s[i + 1], steps - 1, s)
  {
    assert s[i].next == Following(s, i);
  }

  /** The element `steps` links further on; a link that leaves the list ends the walk. */
  function Follow(e: Element, steps: nat, s: seq<Element>): Element
    reads s
    decreases steps
  {
    if steps == 0 || e !in s || e.next == null then e else Follow(e.next, steps - 1, s)
  }
}
