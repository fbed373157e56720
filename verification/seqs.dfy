/** Facts about sequences that the voxel map and the palette both rely on. */
module Seqs {

  /** No element occurs twice. */
  predicate NoDup<T(==)>(s: seq<T>)
  {
    forall i, j :: 0 <= i < j < |s| ==> s[i] != s[j]
  }

  /** A duplicate-free sequence has as many distinct elements as it has positions. */
  lemma {:induction false} NoDupCard<T>(s: seq<T>)
    requires NoDup(s)
    ensures |set x | x in s| == |s|
  {
    if s != [] {
      var rest := s[1..];
      assert NoDup(rest) by {
        forall i, j | 0 <= i < j < |rest| ensures rest[i] != rest[j] {
          assert rest[i] == s[i + 1] && rest[j] == s[j + 1];
        }
      }
      NoDupCard(rest);
      assert s[0] !in rest by {
        forall i | 0 <= i < |rest| ensures rest[i] != s[0] {
          assert rest[i] == s[i + 1];
        }
      }
      assert (set x | x in s) == {s[0]} + (set x | x in rest) by {
        forall x | x in s ensures x == s[0] || x in rest {
          var i :| 0 <= i < |s| && s[i] == x;
          if i > 0 { assert rest[i - 1] == x; }
        }
      }
    }
  }

  /** `s` with every occurrence of `x` taken out, the rest in their original order.
      The contract states which elements remain; their order is stated by
      `WithoutKeepsOrder`, for duplicate-free sequences only. */
  function Without<T(==,!new)>(s: seq<T>, x: T): (r: seq<T>)
    ensures forall y :: y in r <==> y in s && y != x
    ensures |r| <= |s|
    ensures NoDup(s) ==> NoDup(r)
    ensures x !in s ==> r == s
  {
    if s == [] then []
    else
      var rest := Without(s[1..], x);
      if s[0] == x then rest
      else
        assert NoDup(s) ==> NoDup(s[1..]) by {
          if NoDup(s) {
            NoDupTail(s);
          }
        }
        assert x !in s ==> s == [s[0]] + s[1..];
        assert NoDup(s) ==> s[0] !in rest;
        [s[0]] + rest
  }

  /** The tail of a duplicate-free sequence is duplicate-free and lacks the head. */
  lemma NoDupTail<T>(s: seq<T>)
    requires NoDup(s) && s != []
    ensures NoDup(s[1..]) && s[0] !in s[1..]
  {
    forall i, j | 0 <= i < j < |s[1..]| ensures s[1..][i] != s[1..][j] {
      assert s[1..][i] == s[i + 1] && s[1..][j] == s[j + 1];
    }
    forall i | 0 <= i < |s[1..]| ensures s[1..][i] != s[0] {
      assert s[1..][i] == s[i + 1];
    }
  }

  /** Taking an element out of a concatenation takes it out of each part. */
  lemma {:induction false} WithoutConcat<T(!new)>(a: seq<T>, b: seq<T>, x: T)
    ensures Without(a + b, x) == Without(a, x) + Without(b, x)
  {
    if a == [] {
      assert a + b == b;
    } else {
      assert (a + b)[0] == a[0];
      assert (a + b)[1..] == a[1..] + b;
      WithoutConcat(a[1..], b, x);
    }
  }

  /** Taking out an element that occurs only between `pre` and `post` leaves them joined. */
  lemma WithoutSplit<T(!new)>(pre: seq<T>, x: T, post: seq<T>)
    requires x !in pre && x !in post
    ensures Without(pre + [x] + post, x) == pre + post
  {
    assert pre + [x] + post == pre + ([x] + post);
    assert Without([x], x) == [] by {
      assert [x][1..] == [];
    }
    WithoutConcat(pre, [x] + post, x);
    WithoutConcat([x], post, x);
  }

  /** The element at position `i` of a duplicate-free sequence occurs neither before
      nor after it. */
  lemma NoDupAt<T>(s: seq<T>, i: nat)
    requires NoDup(s) && i < |s|
    ensures s[i] !in s[..i] && s[i] !in s[i + 1..]
  {
    var pre, post := s[..i], s[i + 1..];
    forall j | 0 <= j < |pre| ensures pre[j] != s[i] {
      assert pre[j] == s[j];
    }
    forall j | 0 <= j < |post| ensures post[j] != s[i] {
      assert post[j] == s[i + 1 + j];
    }
  }

  /** In a duplicate-free sequence, taking out the element at position `i` closes the
      gap there and keeps every other element in its original order. */
  lemma WithoutKeepsOrder<T(!new)>(s: seq<T>, i: nat)
    requires NoDup(s) && i < |s|
    ensures Without(s, s[i]) == s[..i] + s[i + 1..]
  {
    NoDupAt(s, i);
    SplitAt(s, i);
    WithoutSplit(s[..i], s[i], s[i + 1..]);
  }

  /** A sequence is the part before position `i`, the element there, and the rest. */
  lemma SplitAt<T>(s: seq<T>, i: nat)
    requires i < |s|
    ensures s == s[..i] + [s[i]] + s[i + 1..]
  {
  }

  /** Taking out the head of a sequence in which it does not recur leaves the tail. */
  lemma WithoutFirst<T(!new)>(x: T, t: seq<T>)
    requires x !in t
    ensures Without([x] + t, x) == t
  {
    assert ([x] + t)[1..] == t;
  }

  /** Position of the first occurrence of `x` in `s`. */
  function IndexOf<T(==)>(s: seq<T>, x: T): (i: nat)
    requires x in s
    ensures i < |s| && s[i] == x
    ensures forall j :: 0 <= j < i ==> s[j] != x
  {
    if s[0] == x then 0 else 1 + IndexOf(s[1..], x)
  }

  /** The elements of `s` without repetitions, each kept at its first occurrence. */
  function FirstOccurrences<T(==,!new)>(s: seq<T>): (d: seq<T>)
    ensures NoDup(d)
    ensures forall x :: x in d <==> x in s
    ensures |d| <= |s|
  {
    if s == [] then []
    else
      var pre := s[..|s| - 1];
      var d := FirstOccurrences(pre);
      assert forall x :: x in s <==> x in pre || x == s[|s| - 1] by {
        assert s == pre + [s[|s| - 1]];
      }
      if s[|s| - 1] in d then d else d + [s[|s| - 1]]
  }

  /** In a duplicate-free sequence the first occurrence of an element is its only one. */
  lemma IndexOfNoDup<T>(s: seq<T>, j: nat)
    requires NoDup(s) && j < |s|
    ensures IndexOf(s, s[j]) == j
  {
  }

  /** One more element extends the first occurrences by it exactly when it is new. */
  lemma FirstOccurrencesSnoc<T(!new)>(s: seq<T>, x: T)
    ensures FirstOccurrences(s + [x]) ==
      if x in FirstOccurrences(s) then FirstOccurrences(s) else FirstOccurrences(s) + [x]
  {
    assert (s + [x])[..|s|] == s;
  }

  /** Appending an element does not move the first occurrence of one already present. */
  lemma IndexOfAppend<T>(s: seq<T>, y: T, x: T)
    requires x in s
    ensures IndexOf(s + [y], x) == IndexOf(s, x)
  {
    assert (s + [y])[IndexOf(s, x)] == x;
  }

  /** `FirstOccurrences` lists the distinct elements in the order in which `s` first
      shows them. */
  lemma {:induction false} FirstOccurrencesOrder<T(!new)>(s: seq<T>)
    ensures forall i, j :: 0 <= i < j < |FirstOccurrences(s)| ==>
      IndexOf(s, FirstOccurrences(s)[i]) < IndexOf(s, FirstOccurrences(s)[j])
  {
    if s != [] {
      var pre, last := s[..|s| - 1], s[|s| - 1];
      assert s == pre + [last];
      FirstOccurrencesOrder(pre);
      var d, dp := FirstOccurrences(s), FirstOccurrences(pre);
      forall x | x in pre ensures IndexOf(s, x) == IndexOf(pre, x) {
        IndexOfAppend(pre, last, x);
      }
      forall i, j | 0 <= i < j < |d| ensures IndexOf(s, d[i]) < IndexOf(s, d[j]) {
        if last in dp {
          assert d == dp;
        } else {
          assert d == dp + [last];
          assert d[i] in pre;
          if j == |dp| {
            assert last !in pre;
            assert IndexOf(s, last) == |pre|;
          } else {
            assert d[j] in pre;
          }
        }
      }
    }
  }

  /** A non-empty sequence of one repeated element has that element as its only
      first occurrence. */
  lemma FirstOccurrencesConstant<T(!new)>(s: seq<T>, x: T)
    requires s != [] && forall i :: 0 <= i < |s| ==> s[i] == x
    ensures FirstOccurrences(s) == [x]
  {
    var d := FirstOccurrences(s);
    assert s[0] in s;
    assert forall i :: 0 <= i < |d| ==> d[i] == x by {
      forall i | 0 <= i < |d| ensures d[i] == x {
        assert d[i] in s;
      }
    }
    assert (set y | y in d) == {x};
    NoDupCard(d);
  }

  /** Two distinct elements are both first occurrences, in their order. */
  lemma FirstOccurrencesOfTwo<T(!new)>(a: T, b: T)
    requires a != b
    ensures FirstOccurrences([a, b]) == [a, b]
  {
    assert [a, b][..1] == [a];
    assert [a][..0] == [];
  }
}
