/**
 * Ordering todos by their `order` column: the database's
 * `ORDER BY order ASC` and the client's `sort((a, b) => a.order - b.order)`.
 */
module Ordering {
  import opened Schema

  /** Ascending by `order`. */
  ghost predicate SortedByOrder(s: seq<Todo>) {
    forall i, j | 0 <= i < j < |s| :: s[i].order <= s[j].order
  }

  /**
   * Places `t` into the sorted `s` just before the first element whose order
   * is not smaller, so that `t` precedes its equals.
   */
  function Insert(t: Todo, s: seq<Todo>): (r: seq<Todo>)
    requires SortedByOrder(s)
    ensures SortedByOrder(r)
    ensures multiset(r) == multiset(s) + multiset{t}
  {
    if |s| == 0 then [t]
    else if t.order <= s[0].order then [t] + s
    else
      var rest := Insert(t, s[1..]);
      HeadBelowRest(s, t, rest);
      assert s == [s[0]] + s[1..];
      [s[0]] + rest
  }

  /** Prepending the head of a sorted sequence to a permutation of its tail plus a larger `t` stays sorted. */
  lemma HeadBelowRest(s: seq<Todo>, t: Todo, rest: seq<Todo>)
    requires SortedByOrder(s) && |s| > 0 && s[0].order < t.order
    requires SortedByOrder(rest)
    requires multiset(rest) == multiset(s[1..]) + multiset{t}
    ensures SortedByOrder([s[0]] + rest)
  {
    forall i | 0 <= i < |rest|
      ensures s[0].order <= rest[i].order
    {
      assert rest[i] in multiset(rest);
      if rest[i] != t {
        assert rest[i] in multiset(s[1..]);
        assert rest[i] in s[1..];
      }
    }
  }

  /**
   * A stable sort of `s` by ascending `order`: an insertion sort, which keeps
   * equal orders in their input sequence like `Array.prototype.sort` does.
   */
  function SortByOrder(s: seq<Todo>): (r: seq<Todo>)
    ensures SortedByOrder(r)
    ensures multiset(r) == multiset(s)
  {
    if |s| == 0 then []
    else
      assert s == [s[0]] + s[1..];
      Insert(s[0], SortByOrder(s[1..]))
  }

  /** Sorting keeps the length and exactly the elements. */
  lemma SortKeepsElements(s: seq<Todo>)
    ensures |SortByOrder(s)| == |s|
    ensures forall x :: x in SortByOrder(s) <==> x in s
  {
    var r := SortByOrder(s);
    assert |multiset(r)| == |multiset(s)|;
    forall x
      ensures x in r <==> x in s
    {
      assert x in r <==> x in multiset(r);
      assert x in s <==> x in multiset(s);
    }
  }
}
