/** Tag collections of geographic features, and the sequence facts the rest
    of the model states its properties with. */
module Tags {
  import opened Wrappers

  /** One key/value tag of a feature. */
  datatype Tag = Tag(key: string, value: string)

  /** A feature's tags in their iteration order (a Python dict: distinct keys). */
  type Tags = seq<Tag>

  predicate UniqueKeys(tags: Tags) {
    forall i, j :: 0 <= i < j < |tags| ==> tags[i].key != tags[j].key
  }

  predicate HasKey(tags: Tags, k: string) {
    exists i :: 0 <= i < |tags| && tags[i].key == k
  }

  /** `tags.get(k)`: the value of the first tag with key `k`. */
  function Get(tags: Tags, k: string): (r: Option<string>)
    ensures r.Some? <==> HasKey(tags, k)
    ensures r.Some? ==> Tag(k, r.value) in tags
    ensures UniqueKeys(tags) ==> forall t :: t in tags && t.key == k ==> r == Some(t.value)
  {
    if tags == [] then None
    else if tags[0].key == k then Some(tags[0].value)
    else
      var r := Get(tags[1..], k);
      assert forall i :: 0 < i < |tags| ==> tags[i] == tags[1..][i - 1];
      r
  }

  /** A geographic feature as the field types see it: its tags, the type the
      classification derived for it (e.g. the highway class) and its name. */
  datatype Element = Element(tags: Tags, kind: string, name: string)

  /** `a` is `b` with some elements left out, order kept. */
  predicate Subseq<T(==)>(a: seq<T>, b: seq<T>)
    decreases |b|
  {
    a == [] || (b != [] && ((a[0] == b[0] && Subseq(a[1..], b[1..])) || Subseq(a, b[1..])))
  }

  lemma {:induction false} SubseqElements<T>(a: seq<T>, b: seq<T>)
    requires Subseq(a, b)
    ensures |a| <= |b|
    ensures forall x :: x in a ==> x in b
    decreases |b|
  {
    if a != [] {
      if a[0] == b[0] && Subseq(a[1..], b[1..]) {
        SubseqElements(a[1..], b[1..]);
        assert a == [a[0]] + a[1..] && b == [b[0]] + b[1..];
      } else {
        SubseqElements(a, b[1..]);
        assert b == [b[0]] + b[1..];
      }
    }
  }

  /** A subsequence as long as the whole is the whole. */
  lemma {:induction false} SubseqSameLength<T>(a: seq<T>, b: seq<T>)
    requires Subseq(a, b) && |a| == |b|
    ensures a == b
    decreases |b|
  {
    if a != [] {
      if a[0] == b[0] && Subseq(a[1..], b[1..]) {
        SubseqSameLength(a[1..], b[1..]);
        assert a == [a[0]] + a[1..];
      } else {
        SubseqElements(a, b[1..]);
        assert false;
      }
    }
  }

  /** Keeping the head of `b` keeps a subsequence of its tail a subsequence. */
  lemma SubseqPrepend<T>(b: seq<T>, x: seq<T>)
    requires b != [] && Subseq(x, b[1..])
    ensures Subseq([b[0]] + x, b)
  {
    assert ([b[0]] + x)[1..] == x;
  }

  /** A subsequence of a tag list with distinct keys has distinct keys. */
  lemma {:induction false} SubseqUniqueKeys(a: Tags, b: Tags)
    requires Subseq(a, b) && UniqueKeys(b)
    ensures UniqueKeys(a)
    decreases |b|
  {
    if a != [] {
      assert UniqueKeys(b[1..]) by {
        assert forall i :: 0 <= i < |b| - 1 ==> b[1..][i] == b[i + 1];
      }
      if a[0] == b[0] && Subseq(a[1..], b[1..]) {
        SubseqUniqueKeys(a[1..], b[1..]);
        SubseqElements(a[1..], b[1..]);
        forall j | 0 < j < |a|
          ensures a[0].key != a[j].key
        {
          assert a[j] == a[1..][j - 1];
          assert a[j] in a[1..];
          assert a[j] in b[1..];
          var k :| 0 <= k < |b[1..]| && b[1..][k] == a[j];
          assert b[k + 1] == a[j];
        }
        forall i, j | 0 <= i < j < |a|
          ensures a[i].key != a[j].key
        {
          if i > 0 {
            assert a[i] == a[1..][i - 1] && a[j] == a[1..][j - 1];
          }
        }
      } else {
        SubseqUniqueKeys(a, b[1..]);
      }
    }
  }

  /** The position of the first occurrence of `x` in `s`. */
  function IndexOf<T(==)>(s: seq<T>, x: T): (i: nat)
    requires x in s
    ensures i < |s| && s[i] == x && x !in s[..i]
  {
    if s[0] == x then 0
    else
      var i := 1 + IndexOf(s[1..], x);
      assert s[..i] == [s[0]] + s[1..][..i - 1];
      i
  }

  /** `r` lists its elements in the order of their first occurrences in `s`. */
  predicate FirstOccurrenceOrder<T(==)>(r: seq<T>, s: seq<T>) {
    && (forall x :: x in r ==> x in s)
    && (forall i, j :: 0 <= i < j < |r| && r[i] in s && r[j] in s ==> IndexOf(s, r[i]) < IndexOf(s, r[j]))
  }

  /** Two subsequences of a duplicate-free sequence with the same elements
      are the same sequence. */
  lemma {:induction false} SubseqSameElements<T>(a: seq<T>, b: seq<T>, s: seq<T>)
    requires Subseq(a, s) && Subseq(b, s) && Distinct(s)
    requires forall x :: x in a <==> x in b
    ensures a == b
    decreases |s|
  {
    if s == [] {
      assert a == [] && b == [];
    } else {
      var tail := s[1..];
      assert Distinct(tail) by {
        assert forall i :: 0 <= i < |tail| ==> tail[i] == s[i + 1];
      }
      assert s[0] !in tail by {
        assert forall i :: 0 <= i < |tail| ==> tail[i] == s[i + 1];
      }
      if s[0] in a {
        HeadFirst(a, s);
        HeadFirst(b, s);
        SubseqElements(a[1..], tail);
        SubseqElements(b[1..], tail);
        forall x
          ensures x in a[1..] <==> x in b[1..]
        {
          assert x in a <==> x == a[0] || x in a[1..];
          assert x in b <==> x == b[0] || x in b[1..];
        }
        SubseqSameElements(a[1..], b[1..], tail);
        assert a == [a[0]] + a[1..] && b == [b[0]] + b[1..];
      } else {
        SkipHead(a, s);
        SkipHead(b, s);
        SubseqSameElements(a, b, tail);
      }
    }
  }

  /** A subsequence that holds the head of a duplicate-free sequence starts
      with it. */
  lemma {:induction false} HeadFirst<T>(a: seq<T>, s: seq<T>)
    requires Subseq(a, s) && s != [] && s[0] in a && s[0] !in s[1..]
    ensures a != [] && a[0] == s[0] && Subseq(a[1..], s[1..])
  {
    if !(a[0] == s[0] && Subseq(a[1..], s[1..])) {
      SubseqElements(a, s[1..]);
    }
  }

  /** A subsequence that avoids the head of a sequence is one of its tail. */
  lemma {:induction false} SkipHead<T>(a: seq<T>, s: seq<T>)
    requires Subseq(a, s) && s != [] && s[0] !in a
    ensures Subseq(a, s[1..])
  {
    if a != [] {
      assert a[0] in a;
    }
  }

  /** Two lists in the order of first occurrences in the same sequence, with
      the same elements, are the same list. */
  lemma {:induction false} OrderedSameElements<T>(a: seq<T>, b: seq<T>, s: seq<T>)
    requires FirstOccurrenceOrder(a, s) && FirstOccurrenceOrder(b, s)
    requires forall x :: x in a <==> x in b
    ensures a == b
    decreases |a|
  {
    NonEmptyShared(a, b);
    if a != [] {
      OrderedHeadLeast(a, s);
      OrderedHeadLeast(b, s);
      assert IndexOf(s, a[0]) == IndexOf(s, b[0]);
      assert a[0] == b[0];
      OrderedTail(a, s);
      OrderedTail(b, s);
      forall x
        ensures x in a[1..] <==> x in b[1..]
      {
        assert x in a <==> x == a[0] || x in a[1..];
        assert x in b <==> x == b[0] || x in b[1..];
      }
      OrderedSameElements(a[1..], b[1..], s);
      assert a == [a[0]] + a[1..] && b == [b[0]] + b[1..];
    }
  }

  /** Lists with the same elements are empty together. */
  lemma {:induction false} NonEmptyShared<T>(a: seq<T>, b: seq<T>)
    requires forall x :: x in a <==> x in b
    ensures a == [] <==> b == []
  {
    assert Elems(a) == Elems(b);
    if a != [] {
      assert a[0] in Elems(a);
    }
    if b != [] {
      assert b[0] in Elems(b);
    }
  }

  /** The head of such a list occurs first in `s`. */
  lemma {:induction false} OrderedHeadLeast<T>(a: seq<T>, s: seq<T>)
    requires FirstOccurrenceOrder(a, s) && a != []
    ensures a[0] in s
    ensures forall x :: x in a ==> x in s && IndexOf(s, a[0]) <= IndexOf(s, x)
  {
    assert a[0] in a;
    forall x | x in a
      ensures x in s && IndexOf(s, a[0]) <= IndexOf(s, x)
    {
      var j :| 0 <= j < |a| && a[j] == x;
    }
  }

  /** The tail of such a list is one too, and no longer holds the head. */
  lemma {:induction false} OrderedTail<T>(a: seq<T>, s: seq<T>)
    requires FirstOccurrenceOrder(a, s) && a != []
    ensures FirstOccurrenceOrder(a[1..], s)
    ensures a[0] !in a[1..]
  {
    assert a[0] in a;
    forall x | x in a[1..]
      ensures x in s && x != a[0]
    {
      var j :| 0 <= j < |a[1..]| && a[1..][j] == x;
      assert a[j + 1] == x && a[j + 1] in a;
    }
    forall i, j | 0 <= i < j < |a[1..]|
      ensures IndexOf(s, a[1..][i]) < IndexOf(s, a[1..][j])
    {
      assert a[1..][i] == a[i + 1] && a[1..][j] == a[j + 1];
      assert a[i + 1] in a && a[j + 1] in a;
    }
  }

  /** No element occurs twice. */
  predicate Distinct<T(==)>(s: seq<T>) {
    forall i, j :: 0 <= i < j < |s| ==> s[i] != s[j]
  }

  lemma DistinctAppend<T>(a: seq<T>, b: seq<T>)
    requires Distinct(a) && Distinct(b)
    requires forall x :: x in a ==> x !in b
    ensures Distinct(a + b)
  {
    forall i, j | 0 <= i < j < |a + b|
      ensures (a + b)[i] != (a + b)[j]
    {
      if j >= |a| && i < |a| {
        assert (a + b)[i] in a;
        assert (a + b)[j] == b[j - |a|];
      }
    }
  }

  /** The set of elements of a sequence. */
  function Elems<T>(s: seq<T>): set<T> {
    set x | x in s
  }

  lemma ElemsCons<T>(s: seq<T>)
    requires s != []
    ensures Elems(s) == {s[0]} + Elems(s[1..])
  {
    assert s == [s[0]] + s[1..];
  }
}
