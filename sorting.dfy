/**
 * imageList.sort(Comparator.comparing(String::toLowerCase)): the paths ordered
 * by their lower-cased text, compared character by character as
 * String.compareTo does. List.sort is a stable sort, so paths whose keys are
 * equal keep their input order; the model is the stable insertion sort, and
 * its lemmas show it sorted, a permutation of its input, and stable.
 */
module Sorting {
  import opened Strings

  /** At the first index where `a` and `b` differ, `a` holds the smaller character. */
  ghost predicate SmallerAtFirstDifference(a: string, b: string)
  {
    exists k :: 0 <= k < |a| && k < |b| && a[..k] == b[..k] && a[k] < b[k]
  }

  /** Stripping a common first character keeps, or removes, a first smaller difference. */
  lemma SmallerAtFirstDifferenceTail(a: string, b: string)
    requires a != [] && b != [] && a[0] == b[0]
    ensures SmallerAtFirstDifference(a, b) <==> SmallerAtFirstDifference(a[1..], b[1..])
    ensures a <= b <==> a[1..] <= b[1..]
  {
    if SmallerAtFirstDifference(a, b) {
      var k :| 0 <= k < |a| && k < |b| && a[..k] == b[..k] && a[k] < b[k];
      assert k > 0;
      assert a[1..][..k - 1] == a[..k][1..] == b[..k][1..] == b[1..][..k - 1];
      assert a[1..][k - 1] < b[1..][k - 1];
    }
    if SmallerAtFirstDifference(a[1..], b[1..]) {
      var k :| 0 <= k < |a[1..]| && k < |b[1..]| && a[1..][..k] == b[1..][..k] && a[1..][k] < b[1..][k];
      assert a[..k + 1] == [a[0]] + a[1..][..k] == [b[0]] + b[1..][..k] == b[..k + 1];
      assert a[k + 1] < b[k + 1];
    }
    if a[1..] <= b[1..] {
      assert a == [a[0]] + a[1..] && b[..|a|] == [b[0]] + b[1..][..|a| - 1];
    }
  }

  /**
   * String.compareTo(a, b) <= 0: `a` is a prefix of `b`, or `a` has the smaller
   * character at the first index where they differ.
   */
  predicate LexLe(a: string, b: string)
    ensures LexLe(a, b) <==> a <= b || SmallerAtFirstDifference(a, b)
    decreases |a|
  {
    if a == [] then true
    else if b == [] then false
    else if a[0] < b[0] then assert a[..0] == b[..0]; true
    else if a[0] > b[0] then assert !(a <= b) && !SmallerAtFirstDifference(a, b); false
    else SmallerAtFirstDifferenceTail(a, b); LexLe(a[1..], b[1..])
  }

  lemma {:induction false} LexLeRefl(a: string)
    ensures LexLe(a, a)
    decreases |a|
  {
    if a != [] {
      LexLeRefl(a[1..]);
    }
  }

  /** Any two strings are comparable. */
  lemma {:induction false} LexLeTotal(a: string, b: string)
    ensures LexLe(a, b) || LexLe(b, a)
    decreases |a|
  {
    if a != [] && b != [] && a[0] == b[0] {
      LexLeTotal(a[1..], b[1..]);
    }
  }

  lemma {:induction false} LexLeTrans(a: string, b: string, c: string)
    requires LexLe(a, b) && LexLe(b, c)
    ensures LexLe(a, c)
    decreases |a|
  {
    if a != [] && a[0] == b[0] && b[0] == c[0] {
      LexLeTrans(a[1..], b[1..], c[1..]);
    }
  }

  lemma {:induction false} LexLeAntisym(a: string, b: string)
    requires LexLe(a, b) && LexLe(b, a)
    ensures a == b
    decreases |a|
  {
    if a != [] {
      LexLeAntisym(a[1..], b[1..]);
      assert a == [a[0]] + a[1..] && b == [b[0]] + b[1..];
    }
  }

  /** The sort key of a path: the path, lower-cased, so already its own key. */
  function Key(path: string): (r: string)
    ensures |r| == |path|
    ensures ToLower(r) == r
  {
    ToLowerLowers(path);
    ToLower(path)
  }

  predicate SortedByKey(s: seq<string>)
  {
    forall i, j :: 0 <= i < j < |s| ==> LexLe(Key(s[i]), Key(s[j]))
  }

  /** The paths of `s` whose key is `k`, in their order in `s`. */
  function WithKey(s: seq<string>, k: string): seq<string>
  {
    if s == [] then []
    else (if Key(s[0]) == k then [s[0]] else []) + WithKey(s[1..], k)
  }

  /** Puts `x` before the first path of `t` whose key is not below its own. */
  function Insert(x: string, t: seq<string>): (r: seq<string>)
    ensures |r| == |t| + 1
  {
    if t == [] || LexLe(Key(x), Key(t[0])) then [x] + t
    else [t[0]] + Insert(x, t[1..])
  }

  /** The processing order of the batch. */
  function SortByLowerKey(s: seq<string>): (r: seq<string>)
    ensures |r| == |s|
  {
    if s == [] then [] else Insert(s[0], SortByLowerKey(s[1..]))
  }

  lemma {:induction false} InsertPermutes(x: string, t: seq<string>)
    ensures multiset(Insert(x, t)) == multiset(t) + multiset{x}
  {
    if t != [] && !LexLe(Key(x), Key(t[0])) {
      InsertPermutes(x, t[1..]);
      assert t == [t[0]] + t[1..];
    }
  }

  /** A path whose key is below `x`'s and below every key of `t` is below every key of `Insert(x, t)`. */
  lemma {:induction false} BelowInserted(h: string, x: string, t: seq<string>)
    requires LexLe(Key(h), Key(x))
    requires forall m :: 0 <= m < |t| ==> LexLe(Key(h), Key(t[m]))
    ensures forall j :: 0 <= j < |Insert(x, t)| ==> LexLe(Key(h), Key(Insert(x, t)[j]))
  {
    var r := Insert(x, t);
    InsertPermutes(x, t);
    forall j | 0 <= j < |r| ensures LexLe(Key(h), Key(r[j])) {
      var y := r[j];
      assert y in multiset(r);
      assert y == x || y in t;
      if y != x {
        var m :| 0 <= m < |t| && t[m] == y;
      }
    }
  }

  lemma {:induction false} InsertSorted(x: string, t: seq<string>)
    requires SortedByKey(t)
    ensures SortedByKey(Insert(x, t))
  {
    if t == [] {
    } else if LexLe(Key(x), Key(t[0])) {
      var r := [x] + t;
      forall i, j | 0 <= i < j < |r| ensures LexLe(Key(r[i]), Key(r[j])) {
        if i == 0 && j > 1 {
          LexLeTrans(Key(x), Key(t[0]), Key(t[j - 1]));
        }
      }
    } else {
      LexLeTotal(Key(x), Key(t[0]));
      InsertSorted(x, t[1..]);
      assert forall m :: 0 <= m < |t[1..]| ==> LexLe(Key(t[0]), Key(t[1..][m])) by {
        forall m | 0 <= m < |t[1..]| ensures LexLe(Key(t[0]), Key(t[1..][m])) {
          assert t[1..][m] == t[m + 1];
        }
      }
      BelowInserted(t[0], x, t[1..]);
    }
  }

  /** Inserting `x` adds it, and only it, in front of the paths that share its key. */
  lemma {:induction false} InsertWithKey(x: string, t: seq<string>, k: string)
    ensures WithKey(Insert(x, t), k) == (if Key(x) == k then [x] else []) + WithKey(t, k)
  {
    if t == [] {
    } else if LexLe(Key(x), Key(t[0])) {
      assert ([x] + t)[1..] == t;
    } else {
      LexLeRefl(Key(x));
      InsertWithKey(x, t[1..], k);
      assert ([t[0]] + Insert(x, t[1..]))[1..] == Insert(x, t[1..]);
    }
  }

  /** The processing order is sorted by the lower-cased path. */
  lemma {:induction false} SortSorted(s: seq<string>)
    ensures SortedByKey(SortByLowerKey(s))
  {
    if s != [] {
      SortSorted(s[1..]);
      InsertSorted(s[0], SortByLowerKey(s[1..]));
    }
  }

  /** The processing order holds the same paths as the input, as many times each. */
  lemma {:induction false} SortPermutes(s: seq<string>)
    ensures multiset(SortByLowerKey(s)) == multiset(s)
  {
    if s != [] {
      SortPermutes(s[1..]);
      InsertPermutes(s[0], SortByLowerKey(s[1..]));
      assert s == [s[0]] + s[1..];
    }
  }

  /** Paths whose lower-cased texts are equal keep their input order (List.sort is stable). */
  lemma {:induction false} SortStable(s: seq<string>, k: string)
    ensures WithKey(SortByLowerKey(s), k) == WithKey(s, k)
  {
    if s != [] {
      SortStable(s[1..], k);
      InsertWithKey(s[0], SortByLowerKey(s[1..]), k);
    }
  }

  /** Worked case: upper-case initials do not sort before lower-case ones. */
  lemma SortExample()
    ensures SortByLowerKey(["B.jpg", "a.png", "C.bmp"]) == ["a.png", "B.jpg", "C.bmp"]
  {
    assert Key("B.jpg") == "b.jpg";
    assert Key("a.png") == "a.png";
    assert Key("C.bmp") == "c.bmp";
    assert ["B.jpg", "a.png", "C.bmp"][1..] == ["a.png", "C.bmp"];
    assert ["a.png", "C.bmp"][1..] == ["C.bmp"];
    assert ["C.bmp"][1..] == [];
  }
}
