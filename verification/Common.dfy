/** Small facts about sequences that several components share. */
module Common {

  datatype Option<+T> = None | Some(value: T)

  /** The elements of s in the opposite order. */
  function Reversed<T>(s: seq<T>): (r: seq<T>)
    ensures |r| == |s|
  {
    if s == [] then [] else Reversed(s[1..]) + [s[0]]
  }

  lemma {:induction false} ReversedDropsLast<T>(s: seq<T>)
    requires s != []
    ensures Reversed(s) == [s[|s| - 1]] + Reversed(s[..|s| - 1])
  {
    if |s| > 1 {
      ReversedDropsLast(s[1..]);
      assert s[1..][..|s| - 2] == s[..|s| - 1][1..];
    }
  }

  /** The last n elements of s, or all of them when there are fewer. */
  function LastN<T>(s: seq<T>, n: nat): (r: seq<T>)
    ensures |r| <= n && |r| <= |s|
  {
    if |s| <= n then s else s[|s| - n..]
  }

  lemma LastNAppend<T>(s: seq<T>, t: seq<T>, n: nat)
    ensures LastN(LastN(s, n) + t, n) == LastN(s + t, n)
  {
  }

  /** a can be obtained from b by deleting elements. */
  predicate IsSubsequence<T(==)>(a: seq<T>, b: seq<T>)
    decreases |b|
  {
    if b == [] then a == []
    else
      || IsSubsequence(a, b[..|b| - 1])
      || (a != [] && a[|a| - 1] == b[|b| - 1] && IsSubsequence(a[..|a| - 1], b[..|b| - 1]))
  }

  lemma SubsequenceGrows<T>(a: seq<T>, b: seq<T>, x: T)
    requires IsSubsequence(a, b)
    ensures IsSubsequence(a, b + [x])
    ensures IsSubsequence(a + [x], b + [x])
  {
    assert (b + [x])[..|b|] == b && (a + [x])[..|a|] == a;
  }

  lemma {:induction false} SubsequenceOfPrefix<T>(a: seq<T>, b: seq<T>, c: seq<T>)
    requires IsSubsequence(a, b)
    ensures IsSubsequence(a, b + c)
  {
    if c == [] {
      assert b + c == b;
    } else {
      SubsequenceOfPrefix(a, b, c[..|c| - 1]);
      assert (b + c)[..|b + c| - 1] == b + c[..|c| - 1];
    }
  }

  predicate NoDuplicates<T(==)>(s: seq<T>) {
    forall i, j | 0 <= i < j < |s| :: s[i] != s[j]
  }

  lemma {:induction false} SubsequenceElements<T>(a: seq<T>, b: seq<T>)
    requires IsSubsequence(a, b)
    ensures forall x | x in a :: x in b
    decreases |b|
  {
    if b != [] {
      var init := b[..|b| - 1];
      if IsSubsequence(a, init) {
        SubsequenceElements(a, init);
      } else {
        SubsequenceElements(a[..|a| - 1], init);
        assert a == a[..|a| - 1] + [a[|a| - 1]];
      }
      assert b == init + [b[|b| - 1]];
    }
  }

  /** An element of b can follow a in the order of b exactly when nothing from it on is in a. */
  lemma {:induction false} MayFollowIff<T>(a: seq<T>, b: seq<T>, k: nat)
    requires NoDuplicates(b) && IsSubsequence(a, b) && k < |b| && b[k] !in a
    ensures IsSubsequence(a + [b[k]], b) <==> forall x | x in a :: x !in b[k..]
    decreases |b|
  {
    hide IsSubsequence;
    var last := |b| - 1;
    var init, next := b[..last], a + [b[k]];
    assert b == init + [b[last]];
    if b[last] in a {
      assert b[last] in b[k..] && b[last] in next;
      if IsSubsequence(next, b) {
        LastComesLast(next, b);
      }
    } else if k == last {
      LastIsUnused(a, b);
      SubsequenceGrows(a, init, b[k]);
      assert b[k..] == [b[k]];
    } else {
      LastIsUnused(a, b);
      MayFollowIff(a, init, k);
      assert b[k..] == init[k..] + [b[last]];
      if IsSubsequence(next, b) {
        LastIsUnused(next, b);
      } else if IsSubsequence(next, init) {
        SubsequenceOfPrefix(next, init, [b[last]]);
      }
    }
  }

  lemma LastIsUnused<T>(a: seq<T>, b: seq<T>)
    requires IsSubsequence(a, b) && b != [] && b[|b| - 1] !in a
    ensures IsSubsequence(a, b[..|b| - 1])
  {
  }

  lemma LastComesLast<T>(a: seq<T>, b: seq<T>)
    requires NoDuplicates(b) && IsSubsequence(a, b) && b != [] && b[|b| - 1] in a
    ensures a[|a| - 1] == b[|b| - 1]
  {
    if IsSubsequence(a, b[..|b| - 1]) {
      SubsequenceElements(a, b[..|b| - 1]);
      assert false;
    }
  }

  lemma NothingTwice<T>()
    ensures NoDuplicates<T>([])
  {
  }

  lemma FreshAtTheEnd<T>(s: seq<T>, x: T)
    requires NoDuplicates(s) && x !in s
    ensures NoDuplicates(s + [x])
  {
  }

  /** A separator that does not occur in the left parts fixes where they end. */
  lemma SplitAtSeparator<T>(sep: T, a1: seq<T>, b1: seq<T>, a2: seq<T>, b2: seq<T>)
    requires sep !in a1 && sep !in a2
    requires a1 + [sep] + b1 <= a2 + [sep] + b2
    ensures a1 == a2 && b1 <= b2
  {
    var s, t := a1 + [sep] + b1, a2 + [sep] + b2;
    assert s[|a1|] == sep && t[|a2|] == sep;
    assert forall i | 0 <= i < |a1| :: s[i] == a1[i];
    assert forall i | 0 <= i < |a2| :: t[i] == a2[i];
    assert |a1| == |a2|;
    assert s[..|a1|] == a1 && t[..|a2|] == a2;
    assert s[|a1| + 1..] == b1 && t[|a2| + 1..] == b2;
  }
}
