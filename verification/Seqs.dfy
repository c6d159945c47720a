// Subsequences, last elements and flattening: the vocabulary of the ordering results.
module Seqs {

  /** `a` can be obtained from `b` by deleting elements, keeping the order. */
  ghost predicate Subseq<T>(a: seq<T>, b: seq<T>) {
    || a == []
    || (b != [] && ((a[0] == b[0] && Subseq(a[1..], b[1..])) || Subseq(a, b[1..])))
  }

  function Flatten<T>(parts: seq<seq<T>>): seq<T> {
    if parts == [] then [] else parts[0] + Flatten(parts[1..])
  }

  /** The last `n` elements, or all of them when there are fewer. */
  function LastN<T>(s: seq<T>, n: nat): seq<T> {
    if |s| <= n then s else s[|s| - n..]
  }

  /** The elements at the positions marked `wanted`, in order. */
  function Pick<T>(s: seq<T>, marks: seq<bool>, wanted: bool): seq<T>
    requires |s| == |marks|
  {
    if s == [] then []
    else (if marks[0] == wanted then [s[0]] else []) + Pick(s[1..], marks[1..], wanted)
  }

  lemma {:induction false} PickMembers<T>(s: seq<T>, marks: seq<bool>, wanted: bool, x: T)
    requires |s| == |marks|
    ensures x in Pick(s, marks, wanted) <==> exists i :: 0 <= i < |s| && marks[i] == wanted && s[i] == x
  {
    if s != [] {
      PickMembers(s[1..], marks[1..], wanted, x);
      if i :| 0 <= i < |s[1..]| && marks[1..][i] == wanted && s[1..][i] == x {
        assert marks[i + 1] == wanted && s[i + 1] == x;
      }
      if i :| 0 <= i < |s| && marks[i] == wanted && s[i] == x {
        if i > 0 { assert marks[1..][i - 1] == wanted && s[1..][i - 1] == x; }
      }
    }
  }

  lemma {:induction false} PickAll<T>(s: seq<T>, marks: seq<bool>, wanted: bool)
    requires |s| == |marks| && forall i :: 0 <= i < |marks| ==> marks[i] == wanted
    ensures Pick(s, marks, wanted) == s && Pick(s, marks, !wanted) == []
  {
    if s != [] {
      PickAll(s[1..], marks[1..], wanted);
      assert s == [s[0]] + s[1..];
    }
  }

  lemma {:induction false} PickSnoc<T>(s: seq<T>, marks: seq<bool>, x: T, mark: bool, wanted: bool)
    requires |s| == |marks|
    ensures Pick(s + [x], marks + [mark], wanted) == Pick(s, marks, wanted) + (if mark == wanted then [x] else [])
  {
    if s == [] {
      assert s + [x] == [x] && marks + [mark] == [mark];
    } else {
      PickSnoc(s[1..], marks[1..], x, mark, wanted);
      var longer, longerMarks := s + [x], marks + [mark];
      assert longer[1..] == s[1..] + [x] && longerMarks[1..] == marks[1..] + [mark];
      var front := if marks[0] == wanted then [s[0]] else [];
      var rest, last := Pick(s[1..], marks[1..], wanted), if mark == wanted then [x] else [];
      assert Pick(longer, longerMarks, wanted) == front + Pick(longer[1..], longerMarks[1..], wanted);
      Regrouped(front, rest, last);
    }
  }

  lemma Regrouped<T>(a: seq<T>, b: seq<T>, c: seq<T>)
    ensures a + (b + c) == a + b + c
  {
  }

  lemma SubseqRefl<T>(a: seq<T>)
    ensures Subseq(a, a)
  {
    if a != [] { SubseqRefl(a[1..]); }
  }

  lemma SubseqSkip<T>(a: seq<T>, pre: seq<T>, b: seq<T>)
    requires Subseq(a, b)
    ensures Subseq(a, pre + b)
    decreases |pre|
  {
    if pre == [] {
      assert pre + b == b;
    } else {
      SubseqSkip(a, pre[1..], b);
      assert (pre + b)[1..] == pre[1..] + b;
    }
  }

  lemma SubseqConcat<T>(a: seq<T>, b: seq<T>, c: seq<T>, d: seq<T>)
    requires Subseq(a, b) && Subseq(c, d)
    ensures Subseq(a + c, b + d)
    decreases |b|
  {
    if a == [] {
      assert a + c == c;
      SubseqSkip(c, b, d);
    } else {
      assert (b + d)[1..] == b[1..] + d;
      if a[0] == b[0] && Subseq(a[1..], b[1..]) {
        SubseqConcat(a[1..], b[1..], c, d);
        assert (a + c)[1..] == a[1..] + c;
      } else {
        SubseqConcat(a, b[1..], c, d);
      }
    }
  }

  lemma SubseqSuffix<T>(a: seq<T>, k: nat)
    requires k <= |a|
    ensures Subseq(a[k..], a)
  {
    SubseqRefl(a[k..]);
    SubseqSkip(a[k..], a[..k], a[k..]);
    assert a[..k] + a[k..] == a;
  }

  lemma SubseqTrans<T>(a: seq<T>, b: seq<T>, c: seq<T>)
    requires Subseq(a, b) && Subseq(b, c)
    ensures Subseq(a, c)
    decreases |c|
  {
    if a != [] {
      if b[0] == c[0] && Subseq(b[1..], c[1..]) {
        if a[0] == b[0] && Subseq(a[1..], b[1..]) {
          SubseqTrans(a[1..], b[1..], c[1..]);
        } else {
          SubseqTrans(a, b[1..], c[1..]);
        }
      } else {
        SubseqTrans(a, b, c[1..]);
      }
    }
  }

  lemma SubseqMultiset<T>(a: seq<T>, b: seq<T>)
    requires Subseq(a, b)
    ensures multiset(a) <= multiset(b)
    decreases |b|
  {
    if a != [] {
      assert b == [b[0]] + b[1..];
      if a[0] == b[0] && Subseq(a[1..], b[1..]) {
        assert a == [a[0]] + a[1..];
        SubseqMultiset(a[1..], b[1..]);
      } else {
        SubseqMultiset(a, b[1..]);
      }
    }
  }

  /** Deleting inside the middle part of a sequence, or growing its end on both sides. */
  lemma SubseqMiddle<T>(pre: seq<T>, mid: seq<T>, mid': seq<T>, post: seq<T>, whole: seq<T>)
    requires Subseq(mid', mid) && Subseq(pre + mid + post, whole)
    ensures Subseq(pre + mid' + post, whole)
  {
    SubseqRefl(pre);
    SubseqRefl(post);
    SubseqConcat(pre, pre, mid', mid);
    SubseqConcat(pre + mid', pre + mid, post, post);
    SubseqTrans(pre + mid' + post, pre + mid + post, whole);
  }

  lemma FlattenSnoc<T>(parts: seq<seq<T>>, last: seq<T>)
    ensures Flatten(parts + [last]) == Flatten(parts) + last
  {
    if parts == [] {
      assert parts + [last] == [last];
      assert Flatten([last]) == last + Flatten([]);
    } else {
      assert (parts + [last])[1..] == parts[1..] + [last];
      FlattenSnoc(parts[1..], last);
    }
  }
}
