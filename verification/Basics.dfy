/** Stock types and order-preserving deduplication shared by every engine. */
module Basics {

  datatype Option<+T> = None | Some(value: T)

  datatype Result<+T, +E> = Ok(value: T) | Err(error: E)

  /** Two different inputs with one digest. */
  ghost predicate Collide<T>(digest: T -> string, a: T, b: T) {
    a != b && digest(a) == digest(b)
  }

  /** No value occurs twice. */
  ghost predicate NoDuplicates<T>(s: seq<T>) {
    forall i, j | 0 <= i < j < |s| :: s[i] != s[j]
  }

  /** The position at which x is first seen. */
  function FirstIndex<T(==)>(s: seq<T>, x: T): (i: nat)
    requires x in s
    ensures i < |s| && s[i] == x && x !in s[..i]
  {
    if s[0] == x then 0
    else
      assert s == [s[0]] + s[1..];
      var k := FirstIndex(s[1..], x);
      assert forall j | 0 <= j < k + 1 :: s[j] != x by {
        assert forall j | 0 < j < k + 1 :: s[j] == s[1..][..k][j - 1];
      }
      k + 1
  }

  /** Values in the order of their first occurrence, each once. */
  function OrderedUnique<T(==,!new)>(s: seq<T>): (r: seq<T>)
    ensures NoDuplicates(r)
    ensures forall x :: x in r <==> x in s
  {
    if s == [] then []
    else
      var front, last := s[..|s| - 1], s[|s| - 1];
      var r := OrderedUnique(front);
      assert s == front + [last];
      if last in r then r else r + [last]
  }

  /** The surviving values stand in the order in which they were first seen. */
  lemma {:induction false} OrderedUniqueKeepsOrder<T(!new)>(s: seq<T>, i: nat, j: nat)
    requires i < j < |OrderedUnique(s)|
    ensures FirstIndex(s, OrderedUnique(s)[i]) < FirstIndex(s, OrderedUnique(s)[j])
  {
    var front, last := s[..|s| - 1], s[|s| - 1];
    assert s == front + [last];
    var r := OrderedUnique(front);
    FirstIndexOfPrefix(front, last, OrderedUnique(s)[i]);
    if j < |r| {
      FirstIndexOfPrefix(front, last, r[j]);
      OrderedUniqueKeepsOrder(front, i, j);
    } else {
      assert OrderedUnique(s)[j] == last && last !in front;
    }
  }

  lemma FirstIndexOfPrefix<T>(front: seq<T>, last: T, x: T)
    requires x in front
    ensures FirstIndex(front + [last], x) == FirstIndex(front, x)
  {
    var a, b := FirstIndex(front, x), FirstIndex(front + [last], x);
    assert (front + [last])[a] == x && (front + [last])[..a] == front[..a];
    assert forall i | 0 <= i < b :: (front + [last])[..b][i] != x;
    assert forall i | 0 <= i < a :: front[..a][i] != x;
  }

  lemma OrderedUniqueAppend<T(!new)>(s: seq<T>, x: T)
    ensures OrderedUnique(s + [x]) == if x in s then OrderedUnique(s) else OrderedUnique(s) + [x]
  {
    assert (s + [x])[..|s|] == s;
  }

  lemma {:induction false} OrderedUniqueFixed<T(!new)>(s: seq<T>)
    requires NoDuplicates(s)
    ensures OrderedUnique(s) == s
  {
    if s != [] {
      var front := s[..|s| - 1];
      OrderedUniqueFixed(front);
      assert s == front + [s[|s| - 1]];
    }
  }

  /** Deduplicating early makes no difference. */
  lemma {:induction false} OrderedUniqueAbsorbs<T(!new)>(a: seq<T>, b: seq<T>)
    ensures OrderedUnique(OrderedUnique(a) + b) == OrderedUnique(a + b)
  {
    if b == [] {
      OrderedUniqueFixed(OrderedUnique(a));
      assert OrderedUnique(a) + b == OrderedUnique(a) && a + b == a;
    } else {
      var front, last := b[..|b| - 1], b[|b| - 1];
      OrderedUniqueAbsorbs(a, front);
      assert OrderedUnique(a) + b == (OrderedUnique(a) + front) + [last] && a + b == (a + front) + [last];
      OrderedUniqueAppend(OrderedUnique(a) + front, last);
      OrderedUniqueAppend(a + front, last);
    }
  }

  lemma {:induction false} OrderedUniqueAbsorbsRight<T(!new)>(a: seq<T>, b: seq<T>)
    ensures OrderedUnique(a + OrderedUnique(b)) == OrderedUnique(a + b)
  {
    if b == [] {
      assert a + OrderedUnique(b) == a + b;
    } else {
      var front, last := b[..|b| - 1], b[|b| - 1];
      OrderedUniqueAbsorbsRight(a, front);
      assert b == front + [last] && a + b == (a + front) + [last];
      OrderedUniqueAppend(front, last);
      OrderedUniqueAppend(a + front, last);
      if last !in front {
        assert a + OrderedUnique(b) == (a + OrderedUnique(front)) + [last];
        OrderedUniqueAppend(a + OrderedUnique(front), last);
      }
    }
  }

  lemma OrderedUniqueEmptyIff<T(!new)>(s: seq<T>)
    ensures OrderedUnique(s) == [] <==> s == []
  {
    if s != [] {
      assert s[0] in OrderedUnique(s);
    }
  }

  /** The values that are not the empty string. */
  function NonEmpty(values: seq<string>): (r: seq<string>)
    ensures forall x :: x in r <==> x in values && x != ""
  {
    if values == [] then []
    else NonEmpty(values[..|values| - 1]) + (if values[|values| - 1] == "" then [] else [values[|values| - 1]])
  }

  lemma {:induction false} NonEmptyOfNonEmpty(values: seq<string>)
    requires forall i | 0 <= i < |values| :: values[i] != ""
    ensures NonEmpty(values) == values
  {
    if values != [] {
      NonEmptyOfNonEmpty(values[..|values| - 1]);
      assert values == values[..|values| - 1] + [values[|values| - 1]];
    }
  }

  /** The loop with a `seen` set, which is how the repository writes it. */
  method CollectUnique<T(==,!new)>(values: seq<T>) returns (result: seq<T>)
    ensures result == OrderedUnique(values)
  {
    var seen: set<T> := {};
    result := [];
    for i := 0 to |values|
      invariant result == OrderedUnique(values[..i])
      invariant forall x :: x in seen <==> x in result
    {
      assert values[..i + 1] == values[..i] + [values[i]];
      OrderedUniqueAppend(values[..i], values[i]);
      if values[i] !in seen {
        seen := seen + {values[i]};
        result := result + [values[i]];
      }
    }
    assert values[..|values|] == values;
  }
}
