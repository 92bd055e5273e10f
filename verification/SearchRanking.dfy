/** Python's `sorted(..., reverse=True)` on scored items, and slicing with `[:k]`. */
module SearchRanking {
  datatype Scored<T> = Scored(item: T, score: real)

  /** `s[:k]`, where a negative `k` counts from the end. */
  function Take<T>(s: seq<T>, k: int): seq<T> {
    if k >= 0 then s[..if k <= |s| then k else |s|]
    else s[..if |s| + k >= 0 then |s| + k else 0]
  }

  lemma TakeIsPrefix<T>(s: seq<T>, k: int)
    ensures Take(s, k) <= s
    ensures k >= 0 ==> |Take(s, k)| == if k <= |s| then k else |s|
    ensures k < 0 ==> |Take(s, k)| == if -k <= |s| then |s| + k else 0
  {
  }

  predicate Descending<T>(s: seq<Scored<T>>) {
    forall i, j :: 0 <= i < j < |s| ==> s[i].score >= s[j].score
  }

  /** Before the first item that does not score higher: items of equal score keep their order. */
  function Insert<T>(x: Scored<T>, s: seq<Scored<T>>): seq<Scored<T>> {
    if s == [] || s[0].score <= x.score then [x] + s else [s[0]] + Insert(x, s[1..])
  }

  /** Highest score first, stable. */
  function SortDescending<T>(s: seq<Scored<T>>): seq<Scored<T>> {
    if s == [] then [] else Insert(s[0], SortDescending(s[1..]))
  }

  lemma {:induction false} InsertPermutes<T>(x: Scored<T>, s: seq<Scored<T>>)
    ensures multiset(Insert(x, s)) == multiset(s) + multiset{x}
  {
    if s == [] {
    } else {
      assert s == [s[0]] + s[1..];
      InsertPermutes(x, s[1..]);
    }
  }

  lemma {:induction false} InsertDescending<T>(x: Scored<T>, s: seq<Scored<T>>)
    requires Descending(s)
    ensures Descending(Insert(x, s))
    ensures s != [] && s[0].score > x.score ==> Insert(x, s)[0] == s[0]
    ensures forall i :: 0 <= i < |Insert(x, s)| ==>
              Insert(x, s)[i].score <= if s != [] && s[0].score > x.score then s[0].score else x.score
  {
    if s == [] || s[0].score <= x.score {
    } else {
      InsertDescending(x, s[1..]);
    }
  }

  /** Sorting permutes the list and puts higher scores first. */
  lemma {:induction false} SortSorts<T>(s: seq<Scored<T>>)
    ensures multiset(SortDescending(s)) == multiset(s) && Descending(SortDescending(s))
  {
    if s == [] {
    } else {
      assert s == [s[0]] + s[1..];
      SortSorts(s[1..]);
      InsertPermutes(s[0], SortDescending(s[1..]));
      InsertDescending(s[0], SortDescending(s[1..]));
    }
  }

  /** The items of one score, in their order. */
  function WithScore<T>(s: seq<Scored<T>>, score: real): seq<Scored<T>> {
    if s == [] then []
    else if s[0].score == score then [s[0]] + WithScore(s[1..], score)
    else WithScore(s[1..], score)
  }

  lemma {:induction false} InsertStable<T>(x: Scored<T>, s: seq<Scored<T>>, score: real)
    ensures WithScore(Insert(x, s), score) == (if x.score == score then [x] else []) + WithScore(s, score)
  {
    if s == [] || s[0].score <= x.score {
      assert ([x] + s)[1..] == s;
    } else {
      InsertStable(x, s[1..], score);
      assert ([s[0]] + Insert(x, s[1..]))[1..] == Insert(x, s[1..]);
    }
  }

  /** Sorting keeps the order of items with equal score. */
  lemma {:induction false} SortStable<T>(s: seq<Scored<T>>, score: real)
    ensures WithScore(SortDescending(s), score) == WithScore(s, score)
  {
    if s == [] {
    } else {
      SortStable(s[1..], score);
      InsertStable(s[0], SortDescending(s[1..]), score);
    }
  }

  /** Slicing a slice gives a prefix of the direct slice, whatever the two bounds. */
  lemma SliceOfSliceIsPrefix<T>(s: seq<T>, cachedAt: int, k: int)
    ensures Take(Take(s, cachedAt), k) <= Take(s, k)
  {
  }

  /**
    It is the direct slice exactly if the first slice is the whole list, or holds all that is asked
    for, or nothing is asked for because a negative bound drops everything.
  */
  lemma SliceOfSliceIff<T>(s: seq<T>, cachedAt: int, k: int)
    ensures var first := Take(s, cachedAt);
      Take(first, k) == Take(s, k) <==> first == s || (if k >= 0 then k <= |first| else |s| + k <= 0)
  {
    var first := Take(s, cachedAt);
    if |first| == |s| {
      assert first == s;
    } else if 0 <= k <= |first| {
      assert first[..k] == s[..k];
    }
  }
}
