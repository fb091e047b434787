/** The collection operations the model is built from: filtering and sorting
    (`filter`, `sorted(by:)`), used by the city directory, and removing and
    moving elements by offsets (`remove(atOffsets:)`, `move(fromOffsets:toOffset:)`),
    used to edit the selected-city list. */
module Seqs {

  /** `s.filter(p)`: the elements satisfying `p`, in their original order. */
  function Filter<T(!new)>(s: seq<T>, p: T -> bool): (r: seq<T>)
    ensures |r| <= |s|
    ensures forall x :: x in r <==> x in s && p(x)
    ensures forall x :: multiset(r)[x] == if p(x) then multiset(s)[x] else 0
  {
    if |s| == 0 then []
    else
      assert s == [s[0]] + s[1..];
      (if p(s[0]) then [s[0]] else []) + Filter(s[1..], p)
  }

  /** Filtering distributes over concatenation. */
  lemma {:induction false} FilterAppend<T(!new)>(a: seq<T>, b: seq<T>, p: T -> bool)
    ensures Filter(a + b, p) == Filter(a, p) + Filter(b, p)
    decreases |a|
  {
    if |a| == 0 {
      assert a + b == b && Filter(a, p) == [];
    } else {
      assert a + b == [a[0]] + (a[1..] + b);
      assert a == [a[0]] + a[1..];
      FilterCons(a[0], a[1..] + b, p);
      FilterCons(a[0], a[1..], p);
      FilterAppend(a[1..], b, p);
      ConcatAssoc(if p(a[0]) then [a[0]] else [], Filter(a[1..], p), Filter(b, p));
    }
  }

  /** One step of `Filter`: the head is kept exactly when it satisfies `p`. */
  lemma FilterCons<T(!new)>(x: T, s: seq<T>, p: T -> bool)
    ensures Filter([x] + s, p) == (if p(x) then [x] else []) + Filter(s, p)
  {
    assert ([x] + s)[0] == x && ([x] + s)[1..] == s;
  }

  lemma ConcatAssoc<T>(a: seq<T>, b: seq<T>, c: seq<T>)
    ensures a + (b + c) == (a + b) + c
  {}

  /** Filtering keeps order: each kept element lands right after the kept
      elements before it. */
  lemma FilterKeepsOrder<T(!new)>(s: seq<T>, p: T -> bool)
    ensures forall i :: 0 <= i < |s| && p(s[i]) ==>
              |Filter(s[..i], p)| < |Filter(s, p)| && Filter(s, p)[|Filter(s[..i], p)|] == s[i]
  {
    forall i | 0 <= i < |s| && p(s[i])
      ensures |Filter(s[..i], p)| < |Filter(s, p)| && Filter(s, p)[|Filter(s[..i], p)|] == s[i]
    {
      assert s == s[..i] + ([s[i]] + s[i + 1..]);
      FilterAppend(s[..i], [s[i]] + s[i + 1..], p);
      FilterCons(s[i], s[i + 1..], p);
    }
  }

  /** `less` is a strict partial order: irreflexive and transitive. */
  ghost predicate StrictOrder<T(!new)>(less: (T, T) -> bool) {
    && (forall a :: !less(a, a))
    && (forall a, b, c :: less(a, b) && less(b, c) ==> less(a, c))
  }

  /** No element is strictly less than one standing before it. */
  ghost predicate Sorted<T>(s: seq<T>, less: (T, T) -> bool) {
    forall i, j :: 0 <= i < j < |s| ==> !less(s[j], s[i])
  }

  /** Places `x` in front of the first element it is strictly less than. */
  function Insert<T>(x: T, s: seq<T>, less: (T, T) -> bool): (r: seq<T>)
    ensures multiset(r) == multiset(s) + multiset{x}
  {
    if |s| == 0 then [x]
    else if less(x, s[0]) then [x] + s
    else
      assert s == [s[0]] + s[1..];
      [s[0]] + Insert(x, s[1..], less)
  }

  /** Insertion sort: each element in turn is inserted into the sorted prefix. */
  function Sort<T>(s: seq<T>, less: (T, T) -> bool): (r: seq<T>)
    ensures multiset(r) == multiset(s)
  {
    if |s| == 0 then []
    else
      assert s == s[..|s| - 1] + [s[|s| - 1]];
      Insert(s[|s| - 1], Sort(s[..|s| - 1], less), less)
  }

  /** Putting `x` in front of a sorted sequence whose head it is less than
      keeps it sorted. */
  lemma InsertFrontSorted<T(!new)>(x: T, s: seq<T>, less: (T, T) -> bool)
    requires StrictOrder(less)
    requires Sorted(s, less)
    requires |s| > 0 && less(x, s[0])
    ensures Sorted([x] + s, less)
  {
    var r := [x] + s;
    forall i, j | 0 <= i < j < |r|
      ensures !less(r[j], r[i])
    {
      if i == 0 {
        assert r[j] == s[j - 1];
        assert j - 1 > 0 ==> !less(s[j - 1], s[0]);
        assert !less(s[0], s[0]);
      } else {
        assert r[i] == s[i - 1] && r[j] == s[j - 1];
      }
    }
  }

  /** Keeping the head in front of a sorted tail that holds nothing less than
      the head keeps the sequence sorted. */
  lemma ConsSorted<T(!new)>(h: T, t: seq<T>, less: (T, T) -> bool)
    requires Sorted(t, less)
    requires forall k :: 0 <= k < |t| ==> !less(t[k], h)
    ensures Sorted([h] + t, less)
  {
    var r := [h] + t;
    forall i, j | 0 <= i < j < |r|
      ensures !less(r[j], r[i])
    {
      if i == 0 {
        assert r[j] == t[j - 1];
      } else {
        assert r[i] == t[i - 1] && r[j] == t[j - 1];
      }
    }
  }

  lemma {:induction false} InsertSorted<T(!new)>(x: T, s: seq<T>, less: (T, T) -> bool)
    requires StrictOrder(less)
    requires Sorted(s, less)
    ensures Sorted(Insert(x, s, less), less)
  {
    if |s| > 0 {
      if less(x, s[0]) {
        InsertFrontSorted(x, s, less);
      } else {
        var t := Insert(x, s[1..], less);
        InsertSorted(x, s[1..], less);
        forall k | 0 <= k < |t|
          ensures !less(t[k], s[0])
        {
          assert t[k] in multiset(t);
          assert t[k] == x || t[k] in s[1..];
        }
        ConsSorted(s[0], t, less);
      }
    }
  }

  /** The result of Sort is sorted for any strict partial order. */
  lemma {:induction false} SortSorted<T(!new)>(s: seq<T>, less: (T, T) -> bool)
    requires StrictOrder(less)
    ensures Sorted(Sort(s, less), less)
  {
    if |s| > 0 {
      SortSorted(s[..|s| - 1], less);
      InsertSorted(s[|s| - 1], Sort(s[..|s| - 1], less), less);
    }
  }

  // ---------------------------------------------------------------------------
  // Removing and moving elements by offsets (`remove(atOffsets:)`, `move(fromOffsets:toOffset:)`)
  // ---------------------------------------------------------------------------

  /** The elements of s[lo..hi] whose index is (inOffsets) or is not (!inOffsets)
      in `offsets`, in their original order. */
  function Select<T>(s: seq<T>, offsets: set<int>, lo: int, hi: int, inOffsets: bool): (r: seq<T>)
    requires 0 <= lo <= hi <= |s|
    decreases hi - lo
  {
    if lo == hi then []
    else Select(s, offsets, lo, hi - 1, inOffsets) + (if (hi - 1 in offsets) == inOffsets then [s[hi - 1]] else [])
  }

  /** The selection over [lo, hi) is the selection over [lo, mid) followed by the one over [mid, hi). */
  lemma {:induction false} SelectSplit<T>(s: seq<T>, offsets: set<int>, lo: int, mid: int, hi: int, inOffsets: bool)
    requires 0 <= lo <= mid <= hi <= |s|
    ensures Select(s, offsets, lo, hi, inOffsets) ==
            Select(s, offsets, lo, mid, inOffsets) + Select(s, offsets, mid, hi, inOffsets)
    decreases hi - mid
  {
    if mid < hi {
      SelectSplit(s, offsets, lo, mid, hi - 1, inOffsets);
    }
  }

  /** A selected element lands right after the selected elements before it. */
  lemma SelectPosition<T>(s: seq<T>, offsets: set<int>, lo: int, hi: int, inOffsets: bool, i: int)
    requires 0 <= lo <= i < hi <= |s| && (i in offsets) == inOffsets
    ensures |Select(s, offsets, lo, i, inOffsets)| < |Select(s, offsets, lo, hi, inOffsets)|
    ensures Select(s, offsets, lo, hi, inOffsets)[|Select(s, offsets, lo, i, inOffsets)|] == s[i]
  {
    SelectSplit(s, offsets, lo, i, hi, inOffsets);
    SelectSplit(s, offsets, i, i + 1, hi, inOffsets);
    assert Select(s, offsets, i, i + 1, inOffsets) == [s[i]];
    var before, after := Select(s, offsets, lo, i, inOffsets), Select(s, offsets, i + 1, hi, inOffsets);
    assert Select(s, offsets, lo, hi, inOffsets) == before + [s[i]] + after;
  }

  /** Together, the two selections from the prefix s[..hi] hold every element of that prefix once. */
  lemma {:induction false} SelectComplement<T>(s: seq<T>, offsets: set<int>, hi: int)
    requires 0 <= hi <= |s|
    ensures multiset(Select(s, offsets, 0, hi, true)) + multiset(Select(s, offsets, 0, hi, false)) == multiset(s[..hi])
  {
    if 0 < hi {
      SelectComplement(s, offsets, hi - 1);
      ComplementStep(s, offsets, hi);
    } else {
      assert s[..0] == [];
    }
  }

  /** The complement property carries over from s[..hi - 1] to s[..hi]. */
  lemma ComplementStep<T>(s: seq<T>, offsets: set<int>, hi: int)
    requires 0 < hi <= |s|
    requires multiset(Select(s, offsets, 0, hi - 1, true)) + multiset(Select(s, offsets, 0, hi - 1, false)) == multiset(s[..hi - 1])
    ensures multiset(Select(s, offsets, 0, hi, true)) + multiset(Select(s, offsets, 0, hi, false)) == multiset(s[..hi])
  {
    assert s[..hi] == s[..hi - 1] + [s[hi - 1]];
    SelectLast(s, offsets, hi, true);
    SelectLast(s, offsets, hi, false);
    AddToOne(multiset(Select(s, offsets, 0, hi - 1, true)), multiset(Select(s, offsets, 0, hi - 1, false)),
             multiset(Select(s, offsets, 0, hi, true)), multiset(Select(s, offsets, 0, hi, false)),
             multiset(s[..hi - 1]), multiset(s[..hi]), s[hi - 1], hi - 1 in offsets);
  }

  /** The position hi - 1 joins exactly the selection its membership in `offsets` asks for. */
  lemma SelectLast<T>(s: seq<T>, offsets: set<int>, hi: int, inOffsets: bool)
    requires 0 < hi <= |s|
    ensures multiset(Select(s, offsets, 0, hi, inOffsets)) ==
            multiset(Select(s, offsets, 0, hi - 1, inOffsets)) + (if (hi - 1 in offsets) == inOffsets then multiset{s[hi - 1]} else multiset{})
  {
    if (hi - 1 in offsets) == inOffsets {
      assert Select(s, offsets, 0, hi, inOffsets) == Select(s, offsets, 0, hi - 1, inOffsets) + [s[hi - 1]];
    } else {
      assert Select(s, offsets, 0, hi, inOffsets) == Select(s, offsets, 0, hi - 1, inOffsets) + [];
    }
  }

  /** Adding one element to exactly one of two parts adds it to their sum. */
  lemma AddToOne<T>(a: multiset<T>, b: multiset<T>, a': multiset<T>, b': multiset<T>, whole: multiset<T>, whole': multiset<T>, x: T, c: bool)
    requires a' == a + (if c == true then multiset{x} else multiset{})
    requires b' == b + (if c == false then multiset{x} else multiset{})
    requires a + b == whole && whole' == whole + multiset{x}
    ensures a' + b' == whole'
  {}

  /** The offsets that fall in [lo, hi). */
  ghost function OffsetsIn(offsets: set<int>, lo: int, hi: int): set<int> {
    set i | i in offsets && lo <= i < hi
  }

  /** The selection of offsets is as long as the number of offsets in range. */
  lemma {:induction false} SelectCount<T>(s: seq<T>, offsets: set<int>, lo: int, hi: int)
    requires 0 <= lo <= hi <= |s|
    ensures |Select(s, offsets, lo, hi, true)| == |OffsetsIn(offsets, lo, hi)|
    ensures |Select(s, offsets, lo, hi, false)| == (hi - lo) - |OffsetsIn(offsets, lo, hi)|
    decreases hi - lo
  {
    if lo < hi {
      SelectCount(s, offsets, lo, hi - 1);
      if hi - 1 in offsets {
        assert OffsetsIn(offsets, lo, hi) == OffsetsIn(offsets, lo, hi - 1) + {hi - 1};
      } else {
        assert OffsetsIn(offsets, lo, hi) == OffsetsIn(offsets, lo, hi - 1);
      }
    } else {
      assert OffsetsIn(offsets, lo, hi) == {};
    }
  }

  /** `remove(atOffsets:)`: the elements whose positions are not in `offsets`. */
  function RemoveAtOffsets<T>(s: seq<T>, offsets: set<int>): seq<T> {
    Select(s, offsets, 0, |s|, false)
  }

  /** Removal drops exactly the elements at the offsets and keeps the others in
      order: each kept element lands right after the kept elements before it. */
  lemma RemoveAtOffsetsSpec<T>(s: seq<T>, offsets: set<int>)
    requires forall o :: o in offsets ==> 0 <= o < |s|
    ensures |RemoveAtOffsets(s, offsets)| == |s| - |offsets|
    ensures forall i :: 0 <= i < |s| && i !in offsets ==>
              |RemoveAtOffsets(s[..i], offsets)| < |RemoveAtOffsets(s, offsets)| &&
              RemoveAtOffsets(s, offsets)[|RemoveAtOffsets(s[..i], offsets)|] == s[i]
  {
    SelectCount(s, offsets, 0, |s|);
    assert OffsetsIn(offsets, 0, |s|) == offsets;
    forall i | 0 <= i < |s| && i !in offsets
      ensures |RemoveAtOffsets(s[..i], offsets)| < |RemoveAtOffsets(s, offsets)|
      ensures RemoveAtOffsets(s, offsets)[|RemoveAtOffsets(s[..i], offsets)|] == s[i]
    {
      SelectPosition(s, offsets, 0, |s|, false, i);
      SelectPrefix(s, offsets, i, false);
    }
  }

  /** Selecting from a prefix of `s` is selecting from `s` up to the prefix's end. */
  lemma {:induction false} SelectPrefix<T>(s: seq<T>, offsets: set<int>, hi: int, inOffsets: bool)
    requires 0 <= hi <= |s|
    ensures Select(s[..hi], offsets, 0, hi, inOffsets) == Select(s, offsets, 0, hi, inOffsets)
    decreases hi
  {
    if hi > 0 {
      SelectPrefix(s[..hi - 1], offsets, hi - 1, inOffsets);
      assert s[..hi][..hi - 1] == s[..hi - 1];
      SelectPrefix(s, offsets, hi - 1, inOffsets);
      SelectPrefixOf(s, offsets, hi - 1, hi, inOffsets);
    }
  }

  /** Selection over [0, hi) only looks at s[..m] when hi <= m. */
  lemma {:induction false} SelectPrefixOf<T>(s: seq<T>, offsets: set<int>, hi: int, m: int, inOffsets: bool)
    requires 0 <= hi <= m <= |s|
    ensures Select(s[..m], offsets, 0, hi, inOffsets) == Select(s, offsets, 0, hi, inOffsets)
    decreases hi
  {
    if hi > 0 {
      SelectPrefixOf(s, offsets, hi - 1, m, inOffsets);
    }
  }

  /** `move(fromOffsets:toOffset:)`: the unmoved elements before `destination`,
      then the moved elements in their order, then the unmoved rest. */
  function MoveOffsets<T>(s: seq<T>, offsets: set<int>, destination: int): seq<T>
    requires 0 <= destination <= |s|
  {
    Select(s, offsets, 0, destination, false) + Select(s, offsets, 0, |s|, true) +
    Select(s, offsets, destination, |s|, false)
  }

  /** A move rearranges the list: the same elements, each as often as before. */
  lemma MoveOffsetsPermutation<T>(s: seq<T>, offsets: set<int>, destination: int)
    requires 0 <= destination <= |s|
    ensures multiset(MoveOffsets(s, offsets, destination)) == multiset(s)
    ensures |MoveOffsets(s, offsets, destination)| == |s|
  {
    SelectSplit(s, offsets, 0, destination, |s|, false);
    SelectComplement(s, offsets, |s|);
    assert s[..|s|] == s;
  }
}
