/**
 * The bounded history buffer of CircularList.java: a linked list whose
 * `push` inserts at the head and, once the list is full, first drops the
 * tail. The list therefore holds the newest element at index 0.
 */
module History {

  /** The contents after `push(e)` on a list holding `s` with capacity `maxSize`. */
  function Pushed<E>(s: seq<E>, maxSize: int, e: E): (r: seq<E>)
    requires maxSize >= 1
    ensures |r| >= 1 && r[0] == e
    ensures |s| < maxSize ==> |r| == |s| + 1 && r[1..] == s
    ensures |s| >= maxSize ==> |r| == |s| && r[1..] == s[..|s| - 1]
  {
    var kept := if |s| >= maxSize then s[..|s| - 1] else s;
    [e] + kept
  }

  /** The contents after pushing `xs[0]`, `xs[1]`, ... in turn onto an empty list. */
  function PushAll<E>(maxSize: int, xs: seq<E>): seq<E>
    requires maxSize >= 1
  {
    if xs == [] then [] else Pushed(PushAll(maxSize, xs[..|xs| - 1]), maxSize, xs[|xs| - 1])
  }

  function Min(a: int, b: int): int { if a <= b then a else b }

  /**
   * Any number of pushes onto an empty list leaves at most `maxSize`
   * elements, and they are the newest ones, newest first: after pushing
   * x1..xk the list is [xk, xk-1, ...] cut to `maxSize` elements.
   */
  lemma {:induction false} PushAllWindow<E>(maxSize: int, xs: seq<E>)
    requires maxSize >= 1
    ensures |PushAll(maxSize, xs)| == Min(|xs|, maxSize)
    ensures forall j :: 0 <= j < |PushAll(maxSize, xs)| ==> PushAll(maxSize, xs)[j] == xs[|xs| - 1 - j]
  {
    if xs != [] {
      var init := xs[..|xs| - 1];
      PushAllWindow(maxSize, init);
      var r := PushAll(maxSize, xs);
      var p := PushAll(maxSize, init);
      forall j | 0 <= j < |r| ensures r[j] == xs[|xs| - 1 - j] {
        if j > 0 {
          assert r[j] == r[1..][j - 1];
          assert r[j] == p[j - 1];
          assert p[j - 1] == init[|init| - 1 - (j - 1)];
        }
      }
    }
  }

  /** The buffer: a list that `push` keeps within `maxSize` elements. */
  class CircularList<E> {
    var items: seq<E>
    const maxSize: int

    /** At most `maxSize` elements; a list with a capacity below one stays empty. */
    ghost predicate Valid()
      reads this
    {
      |items| <= maxSize || items == []
    }

    constructor (maxSize: int)
      ensures Valid() && this.maxSize == maxSize && items == []
    {
      this.maxSize := maxSize;
      items := [];
    }

    /** `size()` of the underlying list. */
    function Size(): (n: nat)
      reads this
      ensures n == |items|
    {
      |items|
    }

    /**
     * Drops the tail when the list is full, then inserts `e` at the head.
     * With a capacity below one the first push would call `removeLast`
     * on an empty list and fail, hence `maxSize >= 1`.
     */
    method Push(e: E)
      requires Valid() && maxSize >= 1
      modifies this
      ensures Valid()
      ensures items == Pushed(old(items), maxSize, e)
    {
      if |items| >= maxSize {
        items := items[..|items| - 1];
      }
      items := [e] + items;
    }
  }
}
