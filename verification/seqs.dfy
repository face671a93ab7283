/** Sequence helpers shared by the list-shaped operations of the model:
    order-preserving filtering, subsequences, duplicate removal in
    first-occurrence order (JavaScript's `[...new Set(xs)]`) and removal by
    index (`xs.filter((_, i) => i !== index)`). */
module Seqs {

  /** `a` can be obtained from `b` by deleting elements, keeping the order. */
  ghost predicate IsSubsequence<T>(a: seq<T>, b: seq<T>)
    decreases |b|
  {
    |a| == 0 ||
    (|b| > 0 && ((a[0] == b[0] && IsSubsequence(a[1..], b[1..])) || IsSubsequence(a, b[1..])))
  }

  lemma {:induction false} SubsequenceRefl<T>(s: seq<T>)
    ensures IsSubsequence(s, s)
    decreases |s|
  {
    if |s| > 0 {
      SubsequenceRefl(s[1..]);
    }
  }

  lemma {:induction false} SubsequenceTrans<T>(a: seq<T>, b: seq<T>, c: seq<T>)
    requires IsSubsequence(a, b) && IsSubsequence(b, c)
    ensures IsSubsequence(a, c)
    decreases |c|, |b|
  {
    if |a| == 0 {
    } else if |b| > 0 && a[0] == b[0] && IsSubsequence(a[1..], b[1..]) {
      // b is a subsequence of c: either b[0] == c[0], or b fits into c[1..]
      if c[0] == b[0] && IsSubsequence(b[1..], c[1..]) {
        SubsequenceTrans(a[1..], b[1..], c[1..]);
      } else {
        SubsequenceTrans(a, b, c[1..]);
      }
    } else {
      // a is a subsequence of b[1..], and b[1..] is a subsequence of c
      SubsequenceTail(b, c);
      SubsequenceTrans(a, b[1..], c);
    }
  }

  /** Dropping the head of a subsequence keeps it a subsequence. */
  lemma {:induction false} SubsequenceTail<T>(b: seq<T>, c: seq<T>)
    requires |b| > 0 && IsSubsequence(b, c)
    ensures IsSubsequence(b[1..], c)
    decreases |c|
  {
    if b[0] == c[0] && IsSubsequence(b[1..], c[1..]) {
      SubsequenceWeaken(b[1..], c);
    } else {
      SubsequenceTail(b, c[1..]);
      SubsequenceWeaken(b[1..], c);
    }
  }

  /** A subsequence of the tail is a subsequence of the whole. */
  lemma SubsequenceWeaken<T>(a: seq<T>, c: seq<T>)
    requires |c| > 0 && IsSubsequence(a, c[1..])
    ensures IsSubsequence(a, c)
  {
  }

  /** A prefix is a subsequence. */
  lemma {:induction false} PrefixIsSubsequence<T>(s: seq<T>, n: nat)
    requires n <= |s|
    ensures IsSubsequence(s[..n], s)
    decreases |s|
  {
    if n > 0 {
      assert s[..n][0] == s[0];
      assert s[..n][1..] == s[1..][..n - 1];
      PrefixIsSubsequence(s[1..], n - 1);
    }
  }

  /** A subsequence is no longer than the sequence it was taken from. */
  lemma {:induction false} SubsequenceLength<T>(a: seq<T>, b: seq<T>)
    requires IsSubsequence(a, b)
    ensures |a| <= |b|
    decreases |b|
  {
    if |a| > 0 {
      if a[0] == b[0] && IsSubsequence(a[1..], b[1..]) {
        SubsequenceLength(a[1..], b[1..]);
      } else {
        SubsequenceLength(a, b[1..]);
      }
    }
  }

  /** Every element of a subsequence occurs in the sequence it was taken from. */
  lemma {:induction false} SubsequenceMembers<T>(a: seq<T>, b: seq<T>)
    requires IsSubsequence(a, b)
    ensures forall x :: x in a ==> x in b
    decreases |b|
  {
    if |a| > 0 {
      if a[0] == b[0] && IsSubsequence(a[1..], b[1..]) {
        SubsequenceMembers(a[1..], b[1..]);
        assert forall x :: x in a ==> x == a[0] || x in a[1..];
      } else {
        SubsequenceMembers(a, b[1..]);
      }
    }
  }

  /** The elements of `s` that satisfy `p`, in their original order
      (JavaScript's `Array.prototype.filter`). */
  function Filter<T>(p: T -> bool, s: seq<T>): (r: seq<T>)
    ensures |r| <= |s|
    ensures forall i :: 0 <= i < |r| ==> r[i] in s && p(r[i])
    ensures forall i :: 0 <= i < |s| && p(s[i]) ==> s[i] in r
    ensures IsSubsequence(r, s)
    decreases |s|
  {
    if |s| == 0 then []
    else if p(s[0]) then [s[0]] + Filter(p, s[1..])
    else Filter(p, s[1..])
  }

  lemma {:induction false} FilterAppend<T>(p: T -> bool, a: seq<T>, b: seq<T>)
    ensures Filter(p, a + b) == Filter(p, a) + Filter(p, b)
    decreases |a|
  {
    if |a| == 0 {
      assert a + b == b;
    } else {
      assert (a + b)[0] == a[0];
      assert (a + b)[1..] == a[1..] + b;
      FilterAppend(p, a[1..], b);
    }
  }

  /** Filtering with a predicate every element satisfies changes nothing. */
  lemma {:induction false} FilterAll<T>(p: T -> bool, s: seq<T>)
    requires forall x :: x in s ==> p(x)
    ensures Filter(p, s) == s
    decreases |s|
  {
    if |s| > 0 {
      assert forall x :: x in s[1..] ==> x in s;
      FilterAll(p, s[1..]);
    }
  }

  predicate NoDuplicates<T(==)>(s: seq<T>) {
    forall i, j :: 0 <= i < j < |s| ==> s[i] != s[j]
  }

  /** The first occurrence of each element of `s`, in order of first
      occurrence: the value of `[...new Set(s)]` in JavaScript. */
  function Dedup<T(==)>(s: seq<T>): (r: seq<T>)
    ensures NoDuplicates(r)
    ensures forall i :: 0 <= i < |r| ==> r[i] in s
    ensures forall i :: 0 <= i < |s| ==> s[i] in r
    decreases |s|
  {
    if |s| == 0 then []
    else
      var d := Dedup(s[..|s| - 1]);
      assert s == s[..|s| - 1] + [s[|s| - 1]];
      if s[|s| - 1] in d then d else d + [s[|s| - 1]]
  }

  /** A sequence without duplicates is its own de-duplication. */
  lemma {:induction false} DedupOfDistinct<T>(s: seq<T>)
    requires NoDuplicates(s)
    ensures Dedup(s) == s
    decreases |s|
  {
    if |s| > 0 {
      var init := s[..|s| - 1];
      assert NoDuplicates(init);
      DedupOfDistinct(init);
      assert s[|s| - 1] !in init;
      assert s == init + [s[|s| - 1]];
    }
  }

  /** The test "does not occur in `a`", as a value that can be passed to Filter. */
  function NotIn<T(==)>(a: seq<T>): T -> bool {
    x => x !in a
  }

  lemma DedupMember<T>(s: seq<T>, x: T)
    ensures x in Dedup(s) <==> x in s
  {
    var d := Dedup(s);
    if x in d {
      var i :| 0 <= i < |d| && d[i] == x;
    }
    if x in s {
      var i :| 0 <= i < |s| && s[i] == x;
    }
  }

  /** Appending one element to the input of Dedup. */
  lemma DedupSnoc<T>(s: seq<T>, x: T)
    ensures Dedup(s + [x]) == if x in Dedup(s) then Dedup(s) else Dedup(s) + [x]
  {
    var t := s + [x];
    assert t[..|t| - 1] == s;
  }

  /** De-duplicating a concatenation keeps the de-duplicated first part and
      appends, in order, the new elements of the second part. */
  lemma {:induction false} DedupAppend<T>(a: seq<T>, b: seq<T>)
    ensures Dedup(a + b) == Dedup(a) + Dedup(Filter(NotIn(a), b))
    decreases |b|
  {
    if |b| == 0 {
      assert a + b == a;
    } else {
      var b' := b[..|b| - 1];
      var x := b[|b| - 1];
      assert b == b' + [x];
      assert a + b == (a + b') + [x];
      DedupAppend(a, b');
      DedupAppendStep(a, b', x);
    }
  }

  /** The inductive step of DedupAppend: one more element at the end. */
  lemma DedupAppendStep<T>(a: seq<T>, b: seq<T>, x: T)
    requires Dedup(a + b) == Dedup(a) + Dedup(Filter(NotIn(a), b))
    ensures Dedup((a + b) + [x]) == Dedup(a) + Dedup(Filter(NotIn(a), b + [x]))
  {
    DedupSnoc(a + b, x);
    FilterAppend(NotIn(a), b, [x]);
    FilterSingleton(NotIn(a), x);
    if x in a {
      StepSeen(a, b, x);
    } else {
      StepUnseen(a, b, x);
    }
  }

  lemma StepSeen<T>(a: seq<T>, b: seq<T>, x: T)
    requires x in a
    requires Dedup(a + b) == Dedup(a) + Dedup(Filter(NotIn(a), b))
    requires Dedup((a + b) + [x]) == if x in Dedup(a + b) then Dedup(a + b) else Dedup(a + b) + [x]
    requires Filter(NotIn(a), b + [x]) == Filter(NotIn(a), b)
    ensures Dedup((a + b) + [x]) == Dedup(a) + Dedup(Filter(NotIn(a), b + [x]))
  {
    DedupMember(a, x);
  }

  lemma StepUnseen<T>(a: seq<T>, b: seq<T>, x: T)
    requires x !in a
    requires Dedup(a + b) == Dedup(a) + Dedup(Filter(NotIn(a), b))
    requires Dedup((a + b) + [x]) == if x in Dedup(a + b) then Dedup(a + b) else Dedup(a + b) + [x]
    requires Filter(NotIn(a), b + [x]) == Filter(NotIn(a), b) + [x]
    ensures Dedup((a + b) + [x]) == Dedup(a) + Dedup(Filter(NotIn(a), b + [x]))
  {
    var f := Filter(NotIn(a), b);
    DedupMember(a, x);
    DedupSnoc(f, x);
    AppendUnseen(Dedup(a), Dedup(f), x);
  }

  /** Adding an element missing from `front` to `front + back`, unless
      already present, only affects `back`. */
  lemma AppendUnseen<T>(front: seq<T>, back: seq<T>, x: T)
    requires x !in front
    ensures (if x in front + back then front + back else (front + back) + [x])
         == front + (if x in back then back else back + [x])
  {
    if x !in back {
      assert (front + back) + [x] == front + (back + [x]);
    }
  }

  lemma FilterSingleton<T>(p: T -> bool, x: T)
    ensures Filter(p, [x]) == if p(x) then [x] else []
  {
    assert [x][1..] == [];
  }

  /** `s` without the element at position `index` (JavaScript's
      `s.filter((_, i) => i !== index)`); an index outside `s` removes nothing. */
  function RemoveAt<T>(s: seq<T>, index: int): (r: seq<T>)
    ensures 0 <= index < |s| ==> r == s[..index] + s[index + 1..]
    ensures !(0 <= index < |s|) ==> r == s
    decreases |s|
  {
    if |s| == 0 then []
    else (if index == 0 then [] else [s[0]]) + RemoveAt(s[1..], index - 1)
  }

  lemma RemoveAtIsSubsequence<T>(s: seq<T>, index: int)
    ensures IsSubsequence(RemoveAt(s, index), s)
    ensures 0 <= index < |s| ==> |RemoveAt(s, index)| == |s| - 1
  {
    var r := RemoveAt(s, index);
    if 0 <= index < |s| {
      RemoveSliceIsSubsequence(s, index);
    } else {
      SubsequenceRefl(s);
    }
  }

  lemma {:induction false} RemoveSliceIsSubsequence<T>(s: seq<T>, index: int)
    requires 0 <= index < |s|
    ensures IsSubsequence(s[..index] + s[index + 1..], s)
    decreases |s|
  {
    if index == 0 {
      assert s[..0] + s[1..] == s[1..];
      SubsequenceRefl(s[1..]);
    } else {
      var r := s[..index] + s[index + 1..];
      assert r[0] == s[0];
      assert r[1..] == s[1..][..index - 1] + s[1..][index..];
      RemoveSliceIsSubsequence(s[1..], index - 1);
    }
  }
}
