/** Sequence helpers mirroring the few `List<T>` operations the map engine relies on. */
module Lists {

  /** No element occurs twice. */
  predicate NoDups<T(==)>(s: seq<T>) {
    forall i, j :: 0 <= i < j < |s| ==> s[i] != s[j]
  }

  /** `List<T>.Remove(x)`: drops the FIRST occurrence of `x`, if any. */
  function RemoveFirst<T(==)>(s: seq<T>, x: T): (r: seq<T>)
    ensures x in s ==> |r| == |s| - 1
    ensures x !in s ==> r == s
  {
    if s == [] then []
    else if s[0] == x then s[1..] else [s[0]] + RemoveFirst(s[1..], x)
  }

  lemma {:induction false} RemoveFirstMultiset<T>(s: seq<T>, x: T)
    ensures multiset(RemoveFirst(s, x)) == multiset(s) - multiset{x}
  {
    if s != [] {
      assert s == [s[0]] + s[1..];
      if s[0] != x {
        RemoveFirstMultiset(s[1..], x);
      }
    }
  }

  lemma {:induction false} RemoveFirstMembers<T>(s: seq<T>, x: T)
    requires NoDups(s)
    ensures NoDups(RemoveFirst(s, x))
    ensures forall y :: y in RemoveFirst(s, x) <==> y in s && y != x
  {
    if s != [] && s[0] != x {
      assert NoDups(s[1..]) by {
        forall i, j | 0 <= i < j < |s[1..]| ensures s[1..][i] != s[1..][j] {
          assert s[1..][i] == s[i + 1] && s[1..][j] == s[j + 1];
        }
      }
      RemoveFirstMembers(s[1..], x);
      var t := RemoveFirst(s[1..], x);
      assert s[0] !in t by {
        assert forall k :: 1 <= k < |s| ==> s[k] != s[0];
        assert forall y :: y in s[1..] ==> y != s[0];
      }
      assert RemoveFirst(s, x) == [s[0]] + t;
      forall i, j | 0 <= i < j < |[s[0]] + t| ensures ([s[0]] + t)[i] != ([s[0]] + t)[j] {
        if i == 0 {
          assert ([s[0]] + t)[j] == t[j - 1];
          assert t[j - 1] in t;
        } else {
          assert ([s[0]] + t)[i] == t[i - 1] && ([s[0]] + t)[j] == t[j - 1];
        }
      }
    } else if s != [] {
      assert forall k :: 1 <= k < |s| ==> s[k] != s[0];
      assert forall y :: y in s[1..] ==> y != x;
    }
  }

  /** Whatever the list, an element other than `x` keeps its membership. */
  lemma {:induction false} RemoveFirstMembersAny<T>(s: seq<T>, x: T, y: T)
    ensures y in RemoveFirst(s, x) ==> y in s
    ensures y in s && y != x ==> y in RemoveFirst(s, x)
  {
    if s != [] && s[0] != x {
      RemoveFirstMembersAny(s[1..], x, y);
      assert s == [s[0]] + s[1..];
    }
  }

  /** Appending an absent element and then removing it gives back the list. */
  lemma AppendThenRemove<T>(s: seq<T>, x: T)
    requires x !in s
    ensures RemoveFirst(s + [x], x) == s
  {
    if s != [] {
      assert (s + [x])[1..] == s[1..] + [x];
      AppendThenRemove(s[1..], x);
    }
  }

  /** Removing the last element of a list without duplicates drops exactly that element. */
  lemma RemoveLast<T>(s: seq<T>)
    requires NoDups(s) && |s| > 0
    ensures var pre := s[..|s| - 1];
      && s == pre + [s[|s| - 1]]
      && RemoveFirst(s, s[|s| - 1]) == pre && NoDups(pre) && s[|s| - 1] !in pre
  {
    var c := s[|s| - 1];
    var pre := s[..|s| - 1];
    assert s == pre + [c];
    assert c !in pre by {
      forall i | 0 <= i < |pre| ensures pre[i] != c {
        assert pre[i] == s[i];
      }
    }
    AppendThenRemove(pre, c);
    assert NoDups(pre) by {
      forall i, j | 0 <= i < j < |pre| ensures pre[i] != pre[j] {
        assert pre[i] == s[i] && pre[j] == s[j];
      }
    }
  }

  /** Growing a prefix by one element adds exactly that element. */
  lemma PrefixNext<T>(s: seq<T>, i: nat)
    requires i < |s|
    ensures forall x :: x in s[..i + 1] <==> x in s[..i] || x == s[i]
  {
    assert s[..i + 1] == s[..i] + [s[i]];
  }

  lemma {:induction false} AppendNoDups<T>(s: seq<T>, x: T)
    requires NoDups(s) && x !in s
    ensures NoDups(s + [x])
  {
    forall i, j | 0 <= i < j < |s + [x]| ensures (s + [x])[i] != (s + [x])[j] {
      if j == |s| {
        assert (s + [x])[i] == s[i];
      } else {
        assert (s + [x])[i] == s[i] && (s + [x])[j] == s[j];
      }
    }
  }

  /** A list without duplicates has as many elements as its set. */
  lemma {:induction false} NoDupsCard<T>(s: seq<T>)
    requires NoDups(s)
    ensures |set x | x in s| == |s|
  {
    if s != [] {
      var t := s[1..];
      assert NoDups(t) by {
        forall i, j | 0 <= i < j < |t| ensures t[i] != t[j] {
          assert t[i] == s[i + 1] && t[j] == s[j + 1];
        }
      }
      NoDupsCard(t);
      assert s[0] !in t by {
        assert forall k :: 1 <= k < |s| ==> s[k] != s[0];
      }
      assert s == [s[0]] + t;
      assert (set x | x in s) == (set x | x in t) + {s[0]};
    }
  }

  /** The elements of `s` that satisfy `p`, in order (`Where` / `Intersect`). */
  function Filter<T(!new)>(s: seq<T>, p: T -> bool): (r: seq<T>)
    ensures |r| <= |s|
    ensures forall x :: x in r <==> x in s && p(x)
  {
    if s == [] then []
    else
      assert s == [s[0]] + s[1..];
      (if p(s[0]) then [s[0]] else []) + Filter(s[1..], p)
  }

  /** Element-wise image of a sequence (`Select`). */
  function MapSeq<T, U>(s: seq<T>, f: T -> U): (r: seq<U>)
    ensures |r| == |s|
    ensures forall i :: 0 <= i < |s| ==> r[i] == f(s[i])
  {
    seq(|s|, i requires 0 <= i < |s| => f(s[i]))
  }
}
