/**
  The merge pass of memory consolidation. In every tier an entry absorbs the later entries whose
  contents are similar; the absorbed entries are then deleted from the store.

  `Tokenizer` stands for `set(text.lower().split())`; the results hold for every tokenizer.
*/
module MemoryConsolidation {
  import opened Sequences

  type Tokenizer = string -> set<string>

  datatype Entry = Entry(id: string, content: string, score: real, useCount: int)

  datatype Tier = Working | Episodic | Semantic | Procedural | Project

  const TIERS := [Working, Episodic, Semantic, Procedural, Project]

  // ---- similarity ---------------------------------------------------------------------------------

  function Jaccard(a: set<string>, b: set<string>): real {
    if a == {} || b == {} then 0.0 else |a * b| as real / |a + b| as real
  }

  /** The quotient of the common words and all words; 0 as soon as one side has none. */
  lemma JaccardInCounts(a: set<string>, b: set<string>)
    ensures a == {} || b == {} ==> Jaccard(a, b) == 0.0
    ensures a != {} && b != {} ==>
              var all := |a - b| + |b - a| + |a * b|;
              all > 0 && Jaccard(a, b) * all as real == |a * b| as real
  {
    if a != {} && b != {} {
      assert a + b == (a - b) + (b - a) + a * b;
      assert a - b !! b - a && (a - b) + (b - a) !! a * b;
      var x :| x in a;
      assert x in a + b;
    }
  }

  /** More than four fifths of the words of two texts, both with words, are common to them. */
  predicate WordsAlike(a: set<string>, b: set<string>) {
    a != {} && b != {} && 10 * |a * b| > 8 * (|a - b| + |b - a| + |a * b|)
  }

  predicate Alike(tok: Tokenizer, e: Entry, f: Entry) {
    WordsAlike(tok(e.content), tok(f.content))
  }

  lemma JaccardAbove(a: set<string>, b: set<string>)
    ensures Jaccard(a, b) > 0.8 <==> WordsAlike(a, b)
  {
    JaccardInCounts(a, b);
    if a != {} && b != {} {
      var all, common := (|a - b| + |b - a| + |a * b|) as real, |a * b| as real;
      Quotient(Jaccard(a, b), all, common);
    }
  }

  lemma Quotient(q: real, d: real, n: real)
    requires d > 0.0 && q * d == n
    ensures q > 0.8 <==> n > 0.8 * d
  {
  }

  predicate Similar(tok: Tokenizer, e: Entry, f: Entry): (similar: bool)
    ensures similar <==> Alike(tok, e, f)
  {
    JaccardAbove(tok(e.content), tok(f.content));
    Jaccard(tok(e.content), tok(f.content)) > 0.8
  }

  lemma JaccardSymmetric(a: set<string>, b: set<string>)
    ensures Jaccard(a, b) == Jaccard(b, a)
  {
    assert a * b == b * a && a + b == b + a;
  }

  // ---- the pass as a function -----------------------------------------------------------------------

  function Max(a: real, b: real): real {
    if a >= b then a else b
  }

  function Combine(e: Entry, f: Entry): Entry {
    e.(score := Max(e.score, f.score), useCount := e.useCount + f.useCount)
  }

  /** `e` absorbs what is similar to it in `rest`; the second part is what is left of `rest`. */
  function Absorb(tok: Tokenizer, e: Entry, rest: seq<Entry>): (r: (Entry, seq<Entry>))
    ensures r.0.id == e.id && r.0.content == e.content && |r.1| <= |rest|
    decreases |rest|
  {
    if rest == [] then (e, [])
    else if Similar(tok, e, rest[0]) then Absorb(tok, Combine(e, rest[0]), rest[1..])
    else
      var (e', kept) := Absorb(tok, e, rest[1..]);
      (e', [rest[0]] + kept)
  }

  function Merge(tok: Tokenizer, es: seq<Entry>): seq<Entry>
    decreases |es|
  {
    if es == [] then []
    else
      var (e, kept) := Absorb(tok, es[0], es[1..]);
      [e] + Merge(tok, kept)
  }

  // ---- properties of the pass -----------------------------------------------------------------------

  function Ids(es: seq<Entry>): set<string> {
    set e | e in es :: e.id
  }

  predicate UniqueIds(es: seq<Entry>) {
    forall i, j :: 0 <= i < j < |es| ==> es[i].id != es[j].id
  }

  predicate Dissimilar(tok: Tokenizer, es: seq<Entry>) {
    forall i, j :: 0 <= i < |es| && 0 <= j < |es| && i != j ==> !Alike(tok, es[i], es[j])
  }

  function TotalUse(es: seq<Entry>): int {
    if es == [] then 0 else es[0].useCount + TotalUse(es[1..])
  }

  /** The largest score, at least `floor`. */
  function MaxScore(es: seq<Entry>, floor: real): real {
    if es == [] then floor else MaxScore(es[1..], Max(floor, es[0].score))
  }

  /** It is the floor or the score of an entry, and neither the floor nor any entry exceeds it. */
  lemma {:induction false} MaxScoreIsLargest(es: seq<Entry>, floor: real)
    ensures var m := MaxScore(es, floor);
      && m >= floor && (forall e :: e in es ==> e.score <= m)
      && (m == floor || exists e :: e in es && e.score == m)
  {
    if es == [] {
    } else {
      MaxScoreIsLargest(es[1..], Max(floor, es[0].score));
      assert forall e :: e in es <==> e == es[0] || e in es[1..];
    }
  }

  predicate SameText(e: Entry, f: Entry) {
    e.id == f.id && e.content == f.content
  }

  lemma {:induction false} AbsorbKeeps(tok: Tokenizer, e: Entry, rest: seq<Entry>)
    ensures forall f :: f in Absorb(tok, e, rest).1 <==> f in rest && !Alike(tok, e, f)
    ensures TotalUse([Absorb(tok, e, rest).0] + Absorb(tok, e, rest).1) == e.useCount + TotalUse(rest)
    decreases |rest|
  {
    var (e', kept) := Absorb(tok, e, rest);
    assert ([e'] + kept)[1..] == kept;
    if rest == [] {
    } else {
      assert forall f :: f in rest <==> f == rest[0] || f in rest[1..];
      if Alike(tok, e, rest[0]) {
        var c := Combine(e, rest[0]);
        AbsorbKeeps(tok, c, rest[1..]);
        assert forall f :: Alike(tok, c, f) <==> Alike(tok, e, f);
      } else {
        AbsorbKeeps(tok, e, rest[1..]);
        var (e1, kept1) := Absorb(tok, e, rest[1..]);
        assert ([e1] + kept1)[1..] == kept1 && kept[1..] == kept1;
      }
    }
  }

  lemma {:induction false} MergeText(tok: Tokenizer, es: seq<Entry>, m: Entry)
    requires m in Merge(tok, es)
    ensures exists e :: e in es && SameText(e, m)
    decreases |es|
  {
    if es == [] {
    } else {
      var (e, kept) := Absorb(tok, es[0], es[1..]);
      AbsorbKeeps(tok, es[0], es[1..]);
      if m == e {
        assert es[0] in es && SameText(es[0], m);
      } else {
        MergeText(tok, kept, m);
        var f :| f in kept && SameText(f, m);
        assert f in es;
      }
    }
  }

  lemma DissimilarCons(tok: Tokenizer, e: Entry, rest: seq<Entry>)
    requires Dissimilar(tok, rest)
    requires forall j :: 0 <= j < |rest| ==> !Alike(tok, e, rest[j]) && !Alike(tok, rest[j], e)
    ensures Dissimilar(tok, [e] + rest)
  {
    var es := [e] + rest;
    forall i, j | 0 <= i < |es| && 0 <= j < |es| && i != j
      ensures !Alike(tok, es[i], es[j])
    {
      if i > 0 && j > 0 {
        assert es[i] == rest[i - 1] && es[j] == rest[j - 1];
      }
    }
  }

  /** The survivors of a tier are pairwise at similarity at most 0.8. */
  lemma {:induction false} MergeDissimilar(tok: Tokenizer, es: seq<Entry>)
    ensures Dissimilar(tok, Merge(tok, es))
    decreases |es|
  {
    if es == [] {
    } else {
      var (e, kept) := Absorb(tok, es[0], es[1..]);
      var rest := Merge(tok, kept);
      AbsorbKeeps(tok, es[0], es[1..]);
      MergeDissimilar(tok, kept);
      forall j | 0 <= j < |rest|
        ensures !Alike(tok, e, rest[j]) && !Alike(tok, rest[j], e)
      {
        MergeText(tok, kept, rest[j]);
        var f :| f in kept && SameText(f, rest[j]);
        assert !Alike(tok, es[0], f);
        JaccardSymmetric(tok(e.content), tok(f.content));
      }
      DissimilarCons(tok, e, rest);
    }
  }

  /** `a` stands before `b` in `es`. */
  ghost predicate Before(es: seq<Entry>, a: Entry, b: Entry) {
    exists i, j :: 0 <= i < j < |es| && es[i] == a && es[j] == b
  }

  lemma {:induction false} AbsorbKeepsOrder(tok: Tokenizer, e: Entry, rest: seq<Entry>, a: Entry, b: Entry)
    requires Before(Absorb(tok, e, rest).1, a, b)
    ensures Before(rest, a, b)
    decreases |rest|
  {
    if rest == [] {
    } else if Alike(tok, e, rest[0]) {
      AbsorbKeepsOrder(tok, Combine(e, rest[0]), rest[1..], a, b);
      BeforeTail(rest, a, b);
    } else {
      AbsorbKeeps(tok, e, rest[1..]);
      if Before(Absorb(tok, e, rest[1..]).1, a, b) {
        AbsorbKeepsOrder(tok, e, rest[1..], a, b);
      }
      BeforeCons(rest, Absorb(tok, e, rest[1..]).1, a, b);
    }
  }

  lemma BeforeCons(es: seq<Entry>, kept: seq<Entry>, a: Entry, b: Entry)
    requires es != [] && Before([es[0]] + kept, a, b) && (forall f :: f in kept ==> f in es[1..])
    requires Before(kept, a, b) ==> Before(es[1..], a, b)
    ensures Before(es, a, b)
  {
    var i, j :| 0 <= i < j < |[es[0]] + kept| && ([es[0]] + kept)[i] == a && ([es[0]] + kept)[j] == b;
    assert kept[j - 1] == b;
    if i == 0 {
      assert b in es[1..];
      var k :| 0 <= k < |es[1..]| && es[1..][k] == b;
      assert es[0] == a && es[k + 1] == b;
    } else {
      assert kept[i - 1] == a;
      BeforeTail(es, a, b);
    }
  }

  lemma BeforeTail(es: seq<Entry>, a: Entry, b: Entry)
    requires es != [] && Before(es[1..], a, b)
    ensures Before(es, a, b)
  {
    var i, j :| 0 <= i < j < |es[1..]| && es[1..][i] == a && es[1..][j] == b;
    assert es[i + 1] == a && es[j + 1] == b;
  }

  /** `e` survives, stands before `f`, and is similar to it. */
  ghost predicate Covers(tok: Tokenizer, es: seq<Entry>, survivors: seq<Entry>, e: Entry, f: Entry) {
    e in es && e.id in Ids(survivors) && Before(es, e, f) && Alike(tok, e, f)
  }

  /** Every entry survives or has an earlier similar entry of its tier that survives. */
  lemma {:induction false} MergeCovers(tok: Tokenizer, es: seq<Entry>, f: Entry)
    requires f in es
    ensures f.id in Ids(Merge(tok, es)) || exists e :: Covers(tok, es, Merge(tok, es), e, f)
    decreases |es|
  {
    var (h, kept) := Absorb(tok, es[0], es[1..]);
    AbsorbKeeps(tok, es[0], es[1..]);
    MergeHead(tok, es);
    if f == es[0] {
    } else if Alike(tok, es[0], f) {
      var j :| 0 <= j < |es| && es[j] == f;
      assert Before(es, es[0], f);
      assert Covers(tok, es, Merge(tok, es), es[0], f);
    } else {
      assert f in kept;
      MergeCovers(tok, kept, f);
      if f.id !in Ids(Merge(tok, kept)) {
        var e :| Covers(tok, kept, Merge(tok, kept), e, f);
        AbsorbKeepsOrder(tok, es[0], es[1..], e, f);
        BeforeTail(es, e, f);
        assert Covers(tok, es, Merge(tok, es), e, f);
      }
    }
  }

  lemma MergeHead(tok: Tokenizer, es: seq<Entry>)
    requires es != []
    ensures es[0].id in Ids(Merge(tok, es))
    ensures Ids(Merge(tok, Absorb(tok, es[0], es[1..]).1)) <= Ids(Merge(tok, es))
  {
    var (h, kept) := Absorb(tok, es[0], es[1..]);
    var m := Merge(tok, es);
    assert h in m && forall e :: e in Merge(tok, kept) ==> e in m;
  }

  /** The pass conserves the total use count of a tier ... */
  lemma {:induction false} MergeConservesUse(tok: Tokenizer, es: seq<Entry>)
    ensures TotalUse(Merge(tok, es)) == TotalUse(es)
    decreases |es|
  {
    if es == [] {
    } else {
      var (e, kept) := Absorb(tok, es[0], es[1..]);
      AbsorbKeeps(tok, es[0], es[1..]);
      assert ([e] + kept)[1..] == kept;
      MergeConservesUse(tok, kept);
    }
  }

  lemma {:induction false} AbsorbConservesScore(tok: Tokenizer, e: Entry, rest: seq<Entry>, floor: real)
    ensures var (e', kept) := Absorb(tok, e, rest);
      MaxScore(kept, Max(floor, e'.score)) == MaxScore(rest, Max(floor, e.score))
    decreases |rest|
  {
    if rest == [] {
    } else {
      if Alike(tok, e, rest[0]) {
        AbsorbConservesScore(tok, Combine(e, rest[0]), rest[1..], floor);
        assert Max(floor, Combine(e, rest[0]).score) == Max(Max(floor, e.score), rest[0].score);
      } else {
        var (e', kept) := Absorb(tok, e, rest[1..]);
        AbsorbConservesScore(tok, e, rest[1..], Max(floor, rest[0].score));
        assert ([rest[0]] + kept)[1..] == kept;
        assert Max(Max(floor, rest[0].score), e.score) == Max(Max(floor, e.score), rest[0].score);
        assert Max(Max(floor, rest[0].score), e'.score) == Max(Max(floor, e'.score), rest[0].score);
      }
    }
  }

  /** ... and its maximum effectiveness score. */
  lemma {:induction false} MergeConservesMaxScore(tok: Tokenizer, es: seq<Entry>, floor: real)
    ensures MaxScore(Merge(tok, es), floor) == MaxScore(es, floor)
    decreases |es|
  {
    if es == [] {
    } else {
      var (e, kept) := Absorb(tok, es[0], es[1..]);
      AbsorbConservesScore(tok, es[0], es[1..], floor);
      MergeConservesMaxScore(tok, kept, Max(floor, e.score));
      assert ([e] + Merge(tok, kept))[1..] == Merge(tok, kept);
    }
  }

  lemma {:induction false} NothingToAbsorb(tok: Tokenizer, e: Entry, rest: seq<Entry>)
    requires forall f :: f in rest ==> !Alike(tok, e, f)
    ensures Absorb(tok, e, rest) == (e, rest)
    decreases |rest|
  {
    if rest == [] {
    } else {
      assert rest[0] in rest && !Alike(tok, e, rest[0]);
      NothingToAbsorb(tok, e, rest[1..]);
      assert [rest[0]] + rest[1..] == rest;
    }
  }

  lemma {:induction false} DissimilarUnchanged(tok: Tokenizer, es: seq<Entry>)
    requires Dissimilar(tok, es)
    ensures Merge(tok, es) == es
    decreases |es|
  {
    if es == [] {
    } else {
      forall f | f in es[1..]
        ensures !Alike(tok, es[0], f)
      {
        var j :| 0 <= j < |es[1..]| && es[1..][j] == f;
        assert es[j + 1] == f;
      }
      NothingToAbsorb(tok, es[0], es[1..]);
      DissimilarUnchanged(tok, es[1..]);
    }
  }

  /** Repeating the pass changes nothing. */
  lemma MergeIdempotent(tok: Tokenizer, es: seq<Entry>)
    ensures Merge(tok, Merge(tok, es)) == Merge(tok, es)
  {
    MergeDissimilar(tok, es);
    DissimilarUnchanged(tok, Merge(tok, es));
  }

  // ---- the pass in place ------------------------------------------------------------------------------

  /** `[e for e in es if e.id not in gone]`. */
  function Keep(es: seq<Entry>, gone: set<string>): seq<Entry> {
    if es == [] then []
    else (if es[0].id in gone then [] else [es[0]]) + Keep(es[1..], gone)
  }

  lemma {:induction false} KeepConcat(a: seq<Entry>, b: seq<Entry>, gone: set<string>)
    ensures Keep(a + b, gone) == Keep(a, gone) + Keep(b, gone)
  {
    if a == [] {
      assert a + b == b;
    } else {
      assert (a + b)[1..] == a[1..] + b;
      KeepConcat(a[1..], b, gone);
    }
  }

  lemma {:induction false} KeepSame(es: seq<Entry>, gone: set<string>, gone': set<string>)
    requires forall e :: e in es ==> (e.id in gone <==> e.id in gone')
    ensures Keep(es, gone) == Keep(es, gone')
  {
    if es == [] {
    } else {
      assert es[0] in es;
      KeepSame(es[1..], gone, gone');
    }
  }

  lemma {:induction false} KeepAll(es: seq<Entry>, gone: set<string>)
    requires forall e :: e in es ==> e.id !in gone
    ensures Keep(es, gone) == es
  {
    if es == [] {
    } else {
      assert es[0] in es;
      KeepAll(es[1..], gone);
      assert [es[0]] + es[1..] == es;
    }
  }

  lemma {:induction false} KeepTwice(es: seq<Entry>, gone: set<string>, more: set<string>)
    ensures Keep(Keep(es, gone), more) == Keep(es, gone + more)
  {
    if es == [] {
    } else {
      KeepTwice(es[1..], gone, more);
      var first := if es[0].id in gone then [] else [es[0]];
      KeepConcat(first, Keep(es[1..], gone), more);
      if es[0].id !in gone {
        assert [es[0]][1..] == [];
      }
    }
  }

  lemma {:induction false} KeepMembers(es: seq<Entry>, gone: set<string>)
    ensures forall e :: e in Keep(es, gone) <==> e in es && e.id !in gone
  {
    if es == [] {
    } else {
      KeepMembers(es[1..], gone);
      assert forall e :: e in es <==> e == es[0] || e in es[1..];
    }
  }

  /**
    The inner loop: `e` takes over the unmerged entries of `rest` that are similar to it, and their
    ids are merged. Nothing is assumed of the ids, which may be repeated.
  */
  function TakeOver(tok: Tokenizer, e: Entry, rest: seq<Entry>, merged: set<string>): (r: (Entry, set<string>))
    ensures SameText(r.0, e) && merged <= r.1
    decreases |rest|
  {
    if rest == [] then (e, merged)
    else if rest[0].id !in merged && Similar(tok, e, rest[0]) then
      TakeOver(tok, Combine(e, rest[0]), rest[1..], merged + {rest[0].id})
    else TakeOver(tok, e, rest[1..], merged)
  }

  /** The outer loop: the entries of a tier after it, and the merged ids. */
  function Mark(tok: Tokenizer, es: seq<Entry>, merged: set<string>): (r: (seq<Entry>, set<string>))
    ensures merged <= r.1
    decreases |es|
  {
    if es == [] then ([], merged)
    else
      var (e, merged1) := if es[0].id in merged then (es[0], merged) else TakeOver(tok, es[0], es[1..], merged);
      var (rest, merged2) := Mark(tok, es[1..], merged1);
      ([e] + rest, merged2)
  }

  /** The ids of the entries of a tier that another entry can absorb. */
  function TailIds(es: seq<Entry>): set<string> {
    if es == [] then {} else Ids(es[1..])
  }

  lemma IdsSplit(es: seq<Entry>)
    requires es != []
    ensures Ids(es) == {es[0].id} + Ids(es[1..])
  {
    assert forall e :: e in es <==> e == es[0] || e in es[1..];
  }

  /** Exactly the unmerged similar entries are taken over. */
  lemma {:induction false} TakeOverIds(tok: Tokenizer, e: Entry, rest: seq<Entry>, merged: set<string>)
    ensures TakeOver(tok, e, rest, merged).1 == merged + set f | f in rest && Alike(tok, e, f) :: f.id
    decreases |rest|
  {
    if rest == [] {
    } else {
      assert forall f :: f in rest <==> f == rest[0] || f in rest[1..];
      if rest[0].id !in merged && Alike(tok, e, rest[0]) {
        var c := Combine(e, rest[0]);
        TakeOverIds(tok, c, rest[1..], merged + {rest[0].id});
        assert forall f :: Alike(tok, c, f) <==> Alike(tok, e, f);
      } else {
        TakeOverIds(tok, e, rest[1..], merged);
      }
    }
  }

  /** The entries keep their ids and contents, and the merged ids are those of entries behind the head. */
  lemma MarkKeepsText(tok: Tokenizer, es: seq<Entry>, merged: set<string>)
    ensures var (es', merged') := Mark(tok, es, merged);
      && |es'| == |es| && (forall k :: 0 <= k < |es| ==> SameText(es'[k], es[k]))
      && merged' - merged <= TailIds(es)
  {
    MarkTexts(tok, es, merged);
    MarkIds(tok, es, merged);
  }

  lemma {:induction false} MarkTexts(tok: Tokenizer, es: seq<Entry>, merged: set<string>)
    ensures var es' := Mark(tok, es, merged).0;
      |es'| == |es| && forall k :: 0 <= k < |es| ==> SameText(es'[k], es[k])
    decreases |es|
  {
    if es == [] {
    } else {
      var taken := if es[0].id in merged then (es[0], merged) else TakeOver(tok, es[0], es[1..], merged);
      MarkTexts(tok, es[1..], taken.1);
      MarkCons(tok, es, merged, taken);
    }
  }

  lemma {:induction false} MarkIds(tok: Tokenizer, es: seq<Entry>, merged: set<string>)
    ensures Mark(tok, es, merged).1 - merged <= TailIds(es)
    decreases |es|
  {
    if es == [] {
    } else {
      var taken := if es[0].id in merged then (es[0], merged) else TakeOver(tok, es[0], es[1..], merged);
      TakenIds(tok, es[0], es[1..], merged);
      MarkIds(tok, es[1..], taken.1);
      MarkCons(tok, es, merged, taken);
      if es[1..] != [] {
        IdsSplit(es[1..]);
      }
    }
  }

  /** Of two similar entries of a tier at least one has a merged id, whatever the ids. */
  lemma {:induction false} MarkSeparates(tok: Tokenizer, es: seq<Entry>, merged: set<string>, i: nat, j: nat)
    requires i < j < |es| && Alike(tok, es[i], es[j])
    ensures es[i].id in Mark(tok, es, merged).1 || es[j].id in Mark(tok, es, merged).1
    decreases |es|
  {
    var merged1 := if es[0].id in merged then merged else TakeOver(tok, es[0], es[1..], merged).1;
    if i == 0 {
      TakeOverIds(tok, es[0], es[1..], merged);
      assert es[j] == es[1..][j - 1];
    } else {
      MarkSeparates(tok, es[1..], merged1, i - 1, j - 1);
    }
  }

  lemma {:induction false} NothingToTakeOver(tok: Tokenizer, e: Entry, rest: seq<Entry>, merged: set<string>)
    requires forall f :: f in rest ==> !Alike(tok, e, f)
    ensures TakeOver(tok, e, rest, merged) == (e, merged)
    decreases |rest|
  {
    if rest == [] {
    } else {
      assert rest[0] in rest;
      NothingToTakeOver(tok, e, rest[1..], merged);
    }
  }

  lemma {:induction false} NothingToMark(tok: Tokenizer, es: seq<Entry>, merged: set<string>)
    requires Dissimilar(tok, es)
    ensures Mark(tok, es, merged) == (es, merged)
    decreases |es|
  {
    if es == [] {
    } else {
      forall f | f in es[1..]
        ensures !Alike(tok, es[0], f)
      {
        var j :| 0 <= j < |es[1..]| && es[1..][j] == f;
        assert es[j + 1] == f;
      }
      NothingToTakeOver(tok, es[0], es[1..], merged);
      NothingToMark(tok, es[1..], merged);
      assert [es[0]] + es[1..] == es;
    }
  }

  // ---- with unique ids the loops compute the merge ------------------------------------------------------

  lemma AbsorbFirst(tok: Tokenizer, e: Entry, f: Entry, rest: seq<Entry>)
    ensures Absorb(tok, e, [f] + rest) ==
              if Alike(tok, e, f) then Absorb(tok, Combine(e, f), rest)
              else (Absorb(tok, e, rest).0, [f] + Absorb(tok, e, rest).1)
  {
    assert ([f] + rest)[1..] == rest;
  }

  lemma UniqueTail(es: seq<Entry>)
    requires UniqueIds(es) && es != []
    ensures UniqueIds(es[1..]) && es[0].id !in Ids(es[1..])
  {
  }

  lemma KeepCons(es: seq<Entry>, gone: set<string>)
    requires es != []
    ensures Keep(es, gone) == if es[0].id in gone then Keep(es[1..], gone) else [es[0]] + Keep(es[1..], gone)
  {
  }

  /** Merging ids that do not occur in `es` leaves it alone. */
  lemma KeepOthers(es: seq<Entry>, gone: set<string>, more: set<string>)
    requires Ids(es) !! more
    ensures Keep(es, gone + more) == Keep(es, gone)
  {
    assert forall e :: e in es ==> e.id in Ids(es);
    KeepSame(es, gone, gone + more);
  }

  lemma TakenIds(tok: Tokenizer, e: Entry, rest: seq<Entry>, merged: set<string>)
    ensures TakeOver(tok, e, rest, merged).1 - merged <= Ids(rest)
  {
    TakeOverIds(tok, e, rest, merged);
  }

  lemma {:induction false} TakeOverAbsorbs(tok: Tokenizer, e: Entry, rest: seq<Entry>, merged: set<string>)
    requires UniqueIds(rest)
    ensures var r := TakeOver(tok, e, rest, merged);
      Absorb(tok, e, Keep(rest, merged)) == (r.0, Keep(rest, r.1))
    decreases |rest|
  {
    if rest == [] {
    } else {
      UniqueTail(rest);
      KeepCons(rest, merged);
      KeepCons(rest, TakeOver(tok, e, rest, merged).1);
      AbsorbFirst(tok, e, rest[0], Keep(rest[1..], merged));
      if rest[0].id !in merged && Alike(tok, e, rest[0]) {
        TakeOverAbsorbs(tok, Combine(e, rest[0]), rest[1..], merged + {rest[0].id});
        KeepOthers(rest[1..], merged, {rest[0].id});
      } else {
        TakeOverAbsorbs(tok, e, rest[1..], merged);
        TakenIds(tok, e, rest[1..], merged);
      }
    }
  }

  /** What is left of a tier with unique ids when the marked entries leave is the merge of its unmerged entries. */
  lemma {:induction false} MarkIsMerge(tok: Tokenizer, es: seq<Entry>, merged: set<string>)
    requires UniqueIds(es)
    ensures Keep(Mark(tok, es, merged).0, Mark(tok, es, merged).1) == Merge(tok, Keep(es, merged))
    decreases |es|
  {
    if es == [] {
    } else {
      UniqueTail(es);
      KeepCons(es, merged);
      var r := Mark(tok, es, merged);
      if es[0].id in merged {
        MarkIsMerge(tok, es[1..], merged);
        MarkHead(tok, es, merged, (es[0], merged));
      } else {
        var taken := TakeOver(tok, es[0], es[1..], merged);
        MarkIsMerge(tok, es[1..], taken.1);
        MarkHead(tok, es, merged, taken);
        HeadStays(tok, es, merged);
        TakeOverAbsorbs(tok, es[0], es[1..], merged);
        MergeFirst(tok, es[0], Keep(es[1..], merged));
      }
    }
  }

  lemma MarkCons(tok: Tokenizer, es: seq<Entry>, merged: set<string>, taken: (Entry, set<string>))
    requires es != []
    requires taken == if es[0].id in merged then (es[0], merged) else TakeOver(tok, es[0], es[1..], merged)
    ensures var r, rest := Mark(tok, es, merged), Mark(tok, es[1..], taken.1);
      r.0 == [taken.0] + rest.0 && r.1 == rest.1
  {
  }

  lemma MarkHead(tok: Tokenizer, es: seq<Entry>, merged: set<string>, taken: (Entry, set<string>))
    requires es != []
    requires taken == if es[0].id in merged then (es[0], merged) else TakeOver(tok, es[0], es[1..], merged)
    ensures var r, rest := Mark(tok, es, merged), Mark(tok, es[1..], taken.1);
      r.1 == rest.1
      && Keep(r.0, r.1) == if es[0].id in r.1 then Keep(rest.0, rest.1) else [taken.0] + Keep(rest.0, rest.1)
  {
    MarkCons(tok, es, merged, taken);
    var rest := Mark(tok, es[1..], taken.1);
    assert ([taken.0] + rest.0)[1..] == rest.0;
  }

  lemma MergeFirst(tok: Tokenizer, e: Entry, rest: seq<Entry>)
    ensures Merge(tok, [e] + rest) == [Absorb(tok, e, rest).0] + Merge(tok, Absorb(tok, e, rest).1)
  {
    assert ([e] + rest)[1..] == rest;
  }

  lemma HeadStays(tok: Tokenizer, es: seq<Entry>, merged: set<string>)
    requires UniqueIds(es) && es != [] && es[0].id !in merged
    ensures es[0].id !in Mark(tok, es, merged).1
  {
    UniqueTail(es);
    MarkKeepsText(tok, es, merged);
  }

  // ---- the loops ----------------------------------------------------------------------------------------

  lemma OneMore(s: set<string>, x: string)
    requires x !in s
    ensures |s + {x}| == |s| + 1
  {
  }

  /** The inner loop: the entry at `i` absorbs the later unmerged entries that are similar to it. */
  method AbsorbLater(tok: Tokenizer, entries: seq<Entry>, i: nat, merged: set<string>, count: nat)
    returns (entries': seq<Entry>, merged': set<string>, count': nat)
    requires i < |entries|
    ensures var taken := TakeOver(tok, entries[i], entries[i + 1..], merged);
      entries' == entries[i := taken.0] && merged' == taken.1
    ensures count' + |merged| == count + |merged'|
  {
    var entry1 := entries[i];
    merged', count' := merged, count;
    for j := i + 1 to |entries|
      invariant TakeOver(tok, entry1, entries[j..], merged') == TakeOver(tok, entries[i], entries[i + 1..], merged)
      invariant count' + |merged| == count + |merged'|
    {
      var entry2 := entries[j];
      assert entries[j..][1..] == entries[j + 1..];
      if entry2.id !in merged' && Similar(tok, entry1, entry2) {
        entry1 := Combine(entry1, entry2);
        OneMore(merged', entry2.id);
        merged' := merged' + {entry2.id};
        count' := count' + 1;
      }
    }
    entries' := entries[i := entry1];
  }

  /** With the entries before `i` done, the loop ends as it would have from the start. */
  ghost predicate HalfMarked(tok: Tokenizer, es0: seq<Entry>, merged0: set<string>,
                             es: seq<Entry>, i: nat, merged: set<string>)
    requires i <= |es|
  {
    var whole, ahead := Mark(tok, es0, merged0), Mark(tok, es[i..], merged);
    whole.0 == es[..i] + ahead.0 && whole.1 == ahead.1
  }

  lemma MarkStart(tok: Tokenizer, es: seq<Entry>, merged: set<string>)
    ensures HalfMarked(tok, es, merged, es, 0, merged)
  {
    assert es[0..] == es && es[..0] == [];
  }

  lemma MarkStep(tok: Tokenizer, es0: seq<Entry>, merged0: set<string>, es: seq<Entry>, i: nat, merged: set<string>,
                 taken: (Entry, set<string>))
    requires i < |es| && HalfMarked(tok, es0, merged0, es, i, merged)
    requires taken == if es[i].id in merged then (es[i], merged) else TakeOver(tok, es[i], es[i + 1..], merged)
    ensures HalfMarked(tok, es0, merged0, es[i := taken.0], i + 1, taken.1)
  {
    SplitAt(es, i, taken.0);
    MarkCons(tok, es[i..], merged, taken);
    Regroup(es[..i], taken.0, Mark(tok, es[i + 1..], taken.1).0);
  }

  lemma SplitAt(es: seq<Entry>, i: nat, e: Entry)
    requires i < |es|
    ensures es[i..] != [] && es[i..][0] == es[i] && es[i..][1..] == es[i + 1..]
    ensures es[i := e][i + 1..] == es[i + 1..] && es[i := e][..i + 1] == es[..i] + [e]
  {
  }

  lemma Regroup(a: seq<Entry>, e: Entry, b: seq<Entry>)
    ensures a + ([e] + b) == a + [e] + b
  {
  }

  lemma MarkEnd(tok: Tokenizer, es0: seq<Entry>, merged0: set<string>, es: seq<Entry>, merged: set<string>)
    requires HalfMarked(tok, es0, merged0, es, |es|, merged)
    ensures Mark(tok, es0, merged0) == (es, merged)
  {
    var whole := Mark(tok, es0, merged0);
    assert es[|es|..] == [] && es[..|es|] + [] == es;
    assert whole == (whole.0, whole.1);
  }

  /** One tier of the pass: nested loops over the entries with a set of merged ids. */
  method MergeTier(tok: Tokenizer, entries: seq<Entry>, merged: set<string>, count: nat)
    returns (entries': seq<Entry>, merged': set<string>, count': nat)
    ensures (entries', merged') == Mark(tok, entries, merged)
    ensures count' + |merged| == count + |merged'|
    ensures UniqueIds(entries) && Ids(entries) !! merged ==> Keep(entries', merged') == Merge(tok, entries)
  {
    entries', merged', count' := entries, merged, count;
    MarkStart(tok, entries, merged);
    for i := 0 to |entries|
      invariant |entries'| == |entries| && HalfMarked(tok, entries, merged, entries', i, merged')
      invariant count' + |merged| == count + |merged'|
    {
      if entries'[i].id in merged' {
        MarkStep(tok, entries, merged, entries', i, merged', (entries'[i], merged'));
        assert entries'[i := entries'[i]] == entries';
      } else {
        MarkStep(tok, entries, merged, entries', i, merged', TakeOver(tok, entries'[i], entries'[i + 1..], merged'));
        entries', merged', count' := AbsorbLater(tok, entries', i, merged', count');
      }
    }
    MarkEnd(tok, entries, merged, entries', merged');
    UnmergedTier(tok, entries, merged);
  }

  lemma UnmergedTier(tok: Tokenizer, es: seq<Entry>, merged: set<string>)
    ensures UniqueIds(es) && Ids(es) !! merged ==>
              Keep(Mark(tok, es, merged).0, Mark(tok, es, merged).1) == Merge(tok, es)
  {
    if UniqueIds(es) && Ids(es) !! merged {
      assert forall e :: e in es ==> e.id in Ids(es);
      MarkIsMerge(tok, es, merged);
      KeepAll(es, merged);
    }
  }

  // ---- the store ---------------------------------------------------------------------------------------

  /** The position of a tier in TIERS. */
  function Rank(t: Tier): (i: nat)
    ensures i < |TIERS| && TIERS[i] == t
  {
    match t
    case Working => 0
    case Episodic => 1
    case Semantic => 2
    case Procedural => 3
    case Project => 4
  }

  lemma RankAt(i: nat)
    requires i < |TIERS|
    ensures Rank(TIERS[i]) == i
  {
  }

  type Memories = m: map<Tier, seq<Entry>> | forall t: Tier :: t in m
    witness map t: Tier | Rank(t) >= 0 :: []

  function WithTier(m: Memories, t: Tier, es: seq<Entry>): (r: Memories)
    ensures r[t] == es && forall u :: u != t ==> r[u] == m[u]
  {
    m[t := es]
  }

  /** The ids merged before the tier at position `i` is reached; all tiers share one set. */
  function MergedBefore(tok: Tokenizer, m: Memories, i: nat): set<string>
    requires i <= |TIERS|
  {
    if i == 0 then {} else Mark(tok, m[TIERS[i - 1]], MergedBefore(tok, m, i - 1)).1
  }

  function MergedIds(tok: Tokenizer, m: Memories): set<string> {
    MergedBefore(tok, m, |TIERS|)
  }

  /** The entries of a tier after the merge loops. */
  function Marked(tok: Tokenizer, m: Memories, t: Tier): seq<Entry> {
    Mark(tok, m[t], MergedBefore(tok, m, Rank(t))).0
  }

  /** A tier after the whole pass: the entries with a merged id, wherever it was merged, are deleted. */
  function Consolidated(tok: Tokenizer, m: Memories, t: Tier): seq<Entry> {
    Keep(Marked(tok, m, t), MergedIds(tok, m))
  }

  lemma {:induction false} MergedGrows(tok: Tokenizer, m: Memories, i: nat, j: nat)
    requires i <= j <= |TIERS|
    ensures MergedBefore(tok, m, i) <= MergedBefore(tok, m, j)
    decreases j
  {
    if i == j {
    } else {
      MergedGrows(tok, m, i, j - 1);
    }
  }

  lemma {:induction false} MergedFrom(tok: Tokenizer, m: Memories, i: nat, j: nat, id: string)
    requires i <= j <= |TIERS| && id in MergedBefore(tok, m, j) - MergedBefore(tok, m, i)
    ensures exists t :: i <= Rank(t) < j && id in TailIds(m[t])
    decreases j
  {
    if i == j {
      assert false;
    } else {
      RankAt(j - 1);
      if id in MergedBefore(tok, m, j - 1) {
        MergedFrom(tok, m, i, j - 1, id);
        var t :| i <= Rank(t) < j - 1 && id in TailIds(m[t]);
      } else {
        MarkKeepsText(tok, m[TIERS[j - 1]], MergedBefore(tok, m, j - 1));
        assert id in TailIds(m[TIERS[j - 1]]);
      }
    }
  }

  lemma MarkedIds(tok: Tokenizer, m: Memories, t: Tier)
    ensures Ids(Consolidated(tok, m, t)) == Ids(m[t]) - MergedIds(tok, m)
  {
    MarkKeepsText(tok, m[t], MergedBefore(tok, m, Rank(t)));
    SameTextsSameIds(Marked(tok, m, t), m[t]);
    KeepIds(Marked(tok, m, t), MergedIds(tok, m));
  }

  lemma SameTextsSameIds(a: seq<Entry>, b: seq<Entry>)
    requires |a| == |b| && forall k :: 0 <= k < |a| ==> SameText(a[k], b[k])
    ensures Ids(a) == Ids(b)
  {
    forall id
      ensures id in Ids(a) <==> id in Ids(b)
    {
      if k :| 0 <= k < |a| && a[k].id == id {
        assert a[k] in a && b[k] in b;
      }
    }
  }

  lemma KeepIds(es: seq<Entry>, gone: set<string>)
    ensures Ids(Keep(es, gone)) == Ids(es) - gone
  {
    KeepMembers(es, gone);
  }

  lemma TierMarked(tok: Tokenizer, m: Memories, t: Tier)
    ensures Mark(tok, m[t], MergedBefore(tok, m, Rank(t))).1 == MergedBefore(tok, m, Rank(t) + 1)
    ensures MergedBefore(tok, m, Rank(t) + 1) <= MergedIds(tok, m)
  {
    MergedGrows(tok, m, Rank(t) + 1, |TIERS|);
  }

  lemma MergedFromStore(tok: Tokenizer, m: Memories)
    ensures forall id :: id in MergedIds(tok, m) ==> exists t :: id in Ids(m[t])
  {
    forall id | id in MergedIds(tok, m)
      ensures exists t :: id in Ids(m[t])
    {
      MergedFrom(tok, m, 0, |TIERS|, id);
      var t :| 0 <= Rank(t) < |TIERS| && id in TailIds(m[t]);
      IdsSplit(m[t]);
    }
  }

  // ---- what holds of every store --------------------------------------------------------------------------

  lemma {:induction false} KeepDissimilar(tok: Tokenizer, es: seq<Entry>, gone: set<string>)
    requires forall i, j :: 0 <= i < j < |es| && Alike(tok, es[i], es[j]) ==> es[i].id in gone || es[j].id in gone
    ensures Dissimilar(tok, Keep(es, gone))
  {
    if es == [] {
    } else {
      var rest := Keep(es[1..], gone);
      KeepDissimilar(tok, es[1..], gone);
      if es[0].id !in gone {
        forall j | 0 <= j < |rest|
          ensures !Alike(tok, es[0], rest[j]) && !Alike(tok, rest[j], es[0])
        {
          KeepMembers(es[1..], gone);
          assert rest[j] in rest;
          var k :| 0 <= k < |es[1..]| && es[1..][k] == rest[j];
          assert es[k + 1] == rest[j];
          JaccardSymmetric(tok(es[0].content), tok(rest[j].content));
        }
        DissimilarCons(tok, es[0], rest);
      }
    }
  }

  /** Whatever the ids, the entries of a tier are pairwise at similarity at most 0.8 after the pass. */
  lemma ConsolidatedDissimilar(tok: Tokenizer, m: Memories, t: Tier)
    ensures Dissimilar(tok, Consolidated(tok, m, t))
  {
    var es, merged := m[t], MergedBefore(tok, m, Rank(t));
    var es' := Marked(tok, m, t);
    MarkKeepsText(tok, es, merged);
    TierMarked(tok, m, t);
    forall i, j | 0 <= i < j < |es'| && Alike(tok, es'[i], es'[j])
      ensures es'[i].id in MergedIds(tok, m) || es'[j].id in MergedIds(tok, m)
    {
      MarkSeparates(tok, es, merged, i, j);
    }
    KeepDissimilar(tok, es', MergedIds(tok, m));
  }

  lemma {:induction false} NothingMerged(tok: Tokenizer, m: Memories, i: nat)
    requires i <= |TIERS| && forall t :: Rank(t) < i ==> Dissimilar(tok, m[t])
    ensures MergedBefore(tok, m, i) == {}
  {
    if i == 0 {
    } else {
      RankAt(i - 1);
      NothingMerged(tok, m, i - 1);
      NothingToMark(tok, m[TIERS[i - 1]], {});
    }
  }

  /** Whatever the ids, repeating the pass merges nothing and changes nothing. */
  lemma ConsolidateTwice(tok: Tokenizer, m: Memories, m': Memories, t: Tier)
    requires forall u :: m'[u] == Consolidated(tok, m, u)
    ensures Consolidated(tok, m', t) == m'[t] && MergedIds(tok, m') == {}
  {
    forall u
      ensures Dissimilar(tok, m'[u])
    {
      ConsolidatedDissimilar(tok, m, u);
    }
    NothingMerged(tok, m', |TIERS|);
    NothingMerged(tok, m', Rank(t));
    NothingToMark(tok, m'[t], {});
    KeepAll(m'[t], {});
  }

  // ---- exactly when the pass is the merge -------------------------------------------------------------------

  /** An id is found twice in the store only at the heads of two tiers. */
  ghost predicate OnlyHeadsShare(m: Memories) {
    && (forall t :: UniqueIds(m[t]))
    && (forall t, u :: t != u ==> Ids(m[t]) !! TailIds(m[u]))
  }

  /** Then every tier becomes its merge, so all that is proved of the merge holds of the pass. */
  lemma ConsolidatedIsMerge(tok: Tokenizer, m: Memories, t: Tier)
    requires OnlyHeadsShare(m)
    ensures Consolidated(tok, m, t) == Merge(tok, m[t])
  {
    var before, after := MergedBefore(tok, m, Rank(t)), MergedBefore(tok, m, Rank(t) + 1);
    OthersMergeOtherIds(tok, m, t);
    TierMarked(tok, m, t);
    UnmergedTier(tok, m[t], before);
    MarkKeepsText(tok, m[t], before);
    SameTextsSameIds(Marked(tok, m, t), m[t]);
    KeepOthers(Marked(tok, m, t), after, MergedIds(tok, m) - after);
    assert after + (MergedIds(tok, m) - after) == MergedIds(tok, m);
  }

  /** The ids merged in other tiers do not occur in this one. */
  lemma OthersMergeOtherIds(tok: Tokenizer, m: Memories, t: Tier)
    requires OnlyHeadsShare(m)
    ensures Ids(m[t]) !! MergedBefore(tok, m, Rank(t))
    ensures Ids(m[t]) !! MergedIds(tok, m) - MergedBefore(tok, m, Rank(t) + 1)
  {
    forall id | id in MergedBefore(tok, m, Rank(t))
      ensures id !in Ids(m[t])
    {
      MergedElsewhere(tok, m, t, 0, Rank(t), id);
    }
    forall id | id in MergedIds(tok, m) - MergedBefore(tok, m, Rank(t) + 1)
      ensures id !in Ids(m[t])
    {
      MergedElsewhere(tok, m, t, Rank(t) + 1, |TIERS|, id);
    }
  }

  lemma MergedElsewhere(tok: Tokenizer, m: Memories, t: Tier, i: nat, j: nat, id: string)
    requires OnlyHeadsShare(m) && i <= j <= |TIERS| && !(i <= Rank(t) < j)
    requires id in MergedBefore(tok, m, j) - MergedBefore(tok, m, i)
    ensures id !in Ids(m[t])
  {
    MergedFrom(tok, m, i, j, id);
  }

  /** Two stores with the same ids in the same places. */
  ghost predicate SameShape(m: Memories, m': Memories) {
    forall t :: |m'[t]| == |m[t]| && forall k :: 0 <= k < |m[t]| ==> m'[t][k].id == m[t][k].id
  }

  ghost predicate PassIsMerge(tok: Tokenizer, m: Memories) {
    forall t :: Consolidated(tok, m, t) == Merge(tok, m[t])
  }

  /** The entries at the head and at position `i` of tier `t` have the text `text`, all others the text `blank`. */
  function Rewritten(m: Memories, t: Tier, i: nat, text: string, blank: string): Memories {
    map u: Tier | Rank(u) >= 0 ::
      seq(|m[u]|, k requires 0 <= k < |m[u]| =>
        Entry(m[u][k].id, if u == t && (k == 0 || k == i) then text else blank, 0.0, 1))
  }

  lemma BlankIsDissimilar(tok: Tokenizer, es: seq<Entry>)
    requires forall k :: 0 <= k < |es| ==> tok(es[k].content) == {}
    ensures Dissimilar(tok, es)
  {
  }

  /** If the id of an entry behind a head is found elsewhere, some contents make the pass lose an entry. */
  lemma SharedIdLoses(tok: Tokenizer, m: Memories, t: Tier, i: nat, u: Tier, j: nat, text: string, blank: string)
    requires tok(text) != {} && tok(blank) == {}
    requires 0 < i < |m[t]| && j < |m[u]| && m[t][i].id == m[u][j].id && (t != u || i != j)
    ensures SameShape(m, Rewritten(m, t, i, text, blank)) && !PassIsMerge(tok, Rewritten(m, t, i, text, blank))
  {
    var m' := Rewritten(m, t, i, text, blank);
    RewrittenMerges(tok, m, t, i, text, blank);
    MarkedIds(tok, m', u);
    var f := m'[u][j];
    assert f in m'[u];
    MergeCovers(tok, m'[u], f);
    MergeHead(tok, m'[u]);
    assert f.id in Ids(Merge(tok, m'[u]));
  }

  lemma RewrittenMerges(tok: Tokenizer, m: Memories, t: Tier, i: nat, text: string, blank: string)
    requires tok(text) != {} && tok(blank) == {} && 0 < i < |m[t]|
    ensures m[t][i].id in MergedIds(tok, Rewritten(m, t, i, text, blank))
  {
    var m' := Rewritten(m, t, i, text, blank);
    forall v | Rank(v) < Rank(t)
      ensures Dissimilar(tok, m'[v])
    {
      BlankIsDissimilar(tok, m'[v]);
    }
    NothingMerged(tok, m', Rank(t));
    TextSimilarToItself(tok(text));
    HeadMerges(tok, m', t, i);
  }

  lemma HeadMerges(tok: Tokenizer, m: Memories, t: Tier, i: nat)
    requires 0 < i < |m[t]| && Alike(tok, m[t][0], m[t][i]) && MergedBefore(tok, m, Rank(t)) == {}
    ensures m[t][i].id in MergedIds(tok, m)
  {
    TakeOverIds(tok, m[t][0], m[t][1..], {});
    assert m[t][1..][i - 1] == m[t][i];
    TierMarked(tok, m, t);
  }

  lemma TextSimilarToItself(words: set<string>)
    requires words != {}
    ensures Jaccard(words, words) == 1.0
  {
    assert words * words == words && words + words == words;
  }

  /**
    For given ids the pass computes the merge of every tier, whatever the texts, scores and use
    counts, exactly if an id is found twice only at the heads of two tiers. The tokenizer has a
    text with words and one without.
  */
  lemma PassIsMergeIff(tok: Tokenizer, m: Memories, text: string, blank: string)
    requires tok(text) != {} && tok(blank) == {}
    ensures (forall m' :: SameShape(m, m') ==> PassIsMerge(tok, m')) <==> OnlyHeadsShare(m)
  {
    if OnlyHeadsShare(m) {
      forall m' | SameShape(m, m')
        ensures PassIsMerge(tok, m')
      {
        ShapeShares(m, m');
        forall t
          ensures Consolidated(tok, m', t) == Merge(tok, m'[t])
        {
          ConsolidatedIsMerge(tok, m', t);
        }
      }
    } else {
      var t, i, u, j := SharedTwice(m);
      SharedIdLoses(tok, m, t, i, u, j, text, blank);
      assert !PassIsMerge(tok, Rewritten(m, t, i, text, blank));
    }
  }

  lemma ShapeShares(m: Memories, m': Memories)
    requires SameShape(m, m') && OnlyHeadsShare(m)
    ensures OnlyHeadsShare(m')
  {
    forall t
      ensures Ids(m'[t]) == Ids(m[t]) && TailIds(m'[t]) == TailIds(m[t]) && UniqueIds(m'[t])
    {
      SameIds(m[t], m'[t]);
      if m[t] != [] {
        SameIds(m[t][1..], m'[t][1..]);
      }
    }
  }

  lemma SameIds(a: seq<Entry>, b: seq<Entry>)
    requires |a| == |b| && forall k :: 0 <= k < |a| ==> a[k].id == b[k].id
    ensures Ids(a) == Ids(b)
  {
    forall id
      ensures id in Ids(a) <==> id in Ids(b)
    {
      if k :| 0 <= k < |a| && a[k].id == id {
        assert a[k] in a && b[k] in b;
      }
    }
  }

  /** An entry behind the head of its tier and another entry with its id. */
  lemma SharedTwice(m: Memories) returns (t: Tier, i: nat, u: Tier, j: nat)
    requires !OnlyHeadsShare(m)
    ensures 0 < i < |m[t]| && j < |m[u]| && m[t][i].id == m[u][j].id && (t != u || i != j)
  {
    if v :| !UniqueIds(m[v]) {
      t, u := v, v;
      j, i :| 0 <= j < i < |m[v]| && m[v][j].id == m[v][i].id;
    } else {
      u, t :| u != t && !(Ids(m[u]) !! TailIds(m[t]));
      i, j := SharedAcross(m[u], m[t]);
    }
  }

  lemma SharedAcross(a: seq<Entry>, b: seq<Entry>) returns (i: nat, j: nat)
    requires !(Ids(a) !! TailIds(b))
    ensures 0 < i < |b| && j < |a| && b[i].id == a[j].id
  {
    var id :| id in Ids(a) && id in TailIds(b);
    j :| 0 <= j < |a| && a[j].id == id;
    var k :| 0 <= k < |b[1..]| && b[1..][k].id == id;
    i := k + 1;
  }

  /** For instance, entries of a tier with the same id and similar texts all vanish from the store. */
  lemma RepeatedIdVanishes(tok: Tokenizer, m: Memories, t: Tier, i: nat, j: nat, u: Tier)
    requires i < j < |m[t]| && m[t][i].id == m[t][j].id && Alike(tok, m[t][i], m[t][j])
    ensures m[t][i].id !in Ids(Consolidated(tok, m, u))
  {
    MarkSeparates(tok, m[t], MergedBefore(tok, m, Rank(t)), i, j);
    TierMarked(tok, m, t);
    MarkedIds(tok, m, u);
  }

  /** The merge loops have dealt with the tiers before position `i`. */
  ghost predicate TiersMarked(tok: Tokenizer, start: Memories, now: Memories, i: nat, merged: set<string>) {
    && i <= |TIERS| && merged == MergedBefore(tok, start, i)
    && forall t :: now[t] == if Rank(t) < i then Marked(tok, start, t) else start[t]
  }

  lemma NoneMarked(tok: Tokenizer, start: Memories)
    ensures TiersMarked(tok, start, start, 0, {})
  {
  }

  lemma AllMarked(tok: Tokenizer, start: Memories, now: Memories, merged: set<string>)
    requires TiersMarked(tok, start, now, |TIERS|, merged)
    ensures Merged(tok, start, now, merged)
  {
  }

  /** All tiers are marked, and these ids are merged. */
  ghost predicate Merged(tok: Tokenizer, start: Memories, now: Memories, merged: set<string>) {
    merged == MergedIds(tok, start) && forall t :: now[t] == Marked(tok, start, t)
  }

  lemma TierAhead(tok: Tokenizer, start: Memories, now: Memories, i: nat, merged: set<string>)
    requires i < |TIERS| && TiersMarked(tok, start, now, i, merged)
    ensures now[TIERS[i]] == start[TIERS[i]] && Marked(tok, start, TIERS[i]) == Mark(tok, start[TIERS[i]], merged).0
    ensures MergedBefore(tok, start, i + 1) == Mark(tok, start[TIERS[i]], merged).1
  {
    RankAt(i);
  }

  lemma MarkNext(tok: Tokenizer, start: Memories, now: Memories, i: nat, entries: seq<Entry>, merged: set<string>)
    requires i < |TIERS| && TiersMarked(tok, start, now, i, MergedBefore(tok, start, i))
    requires entries == Marked(tok, start, TIERS[i]) && merged == MergedBefore(tok, start, i + 1)
    ensures TiersMarked(tok, start, WithTier(now, TIERS[i], entries), i + 1, merged)
  {
    RankAt(i);
    forall t | Rank(t) == i
      ensures t == TIERS[i]
    {
    }
  }

  /** The entries with an id in `gone` have left the tiers before position `i`. */
  ghost predicate Swept(start: Memories, now: Memories, i: nat, gone: set<string>) {
    forall t :: now[t] == if Rank(t) < i then Keep(start[t], gone) else start[t]
  }

  lemma SweptStep(start: Memories, now: Memories, i: nat, gone: set<string>)
    requires i < |TIERS| && Swept(start, now, i, gone)
    ensures Swept(start, WithTier(now, TIERS[i], Keep(now[TIERS[i]], gone)), i + 1, gone)
  {
    RankAt(i);
    forall t | Rank(t) == i
      ensures t == TIERS[i]
    {
    }
  }

  lemma SweptAll(start: Memories, now: Memories, gone: set<string>)
    requires Swept(start, now, |TIERS|, gone)
    ensures forall t :: now[t] == Keep(start[t], gone)
  {
  }

  /** Exactly the entries with an id in `gone` have left the store. */
  ghost predicate Deleted(start: Memories, now: Memories, gone: set<string>) {
    forall t :: now[t] == Keep(start[t], gone)
  }

  lemma NothingDeleted(start: Memories)
    ensures Deleted(start, start, {})
  {
    forall t
      ensures Keep(start[t], {}) == start[t]
    {
      KeepAll(start[t], {});
    }
  }

  lemma DeletedNext(start: Memories, now: Memories, next: Memories, gone: set<string>, id: string)
    requires Deleted(start, now, gone) && Deleted(now, next, {id})
    ensures Deleted(start, next, gone + {id})
  {
    forall t
      ensures next[t] == Keep(start[t], gone + {id})
    {
      KeepTwice(start[t], gone, {id});
    }
  }

  /** The evicted ids are those of `gone`, each once. */
  ghost predicate Evicts(evicted: seq<string>, gone: set<string>) {
    NoDup(evicted) && Elements(evicted) == gone && |evicted| == |gone|
  }

  lemma EvictsNext(evicted: seq<string>, gone: set<string>, id: string)
    requires Evicts(evicted, gone) && id !in gone
    ensures Evicts(evicted + [id], gone + {id})
  {
    assert id !in Elements(evicted);
    AppendNew(evicted, id);
  }

  class MemoryStore {
    const tok: Tokenizer
    var memories: Memories

    constructor (tok: Tokenizer)
      ensures this.tok == tok && forall t :: memories[t] == []
    {
      this.tok := tok;
      memories := map t: Tier | Rank(t) >= 0 :: [];
    }

    /** The merging part of `consolidate`; `evicted` is its `evicted_memory_ids`. */
    method MergeSimilar() returns (evicted: seq<string>, mergedCount: nat)
      modifies this
      ensures forall t :: memories[t] == Consolidated(tok, old(memories), t)
      ensures forall t :: Dissimilar(tok, memories[t])
      ensures NoDup(evicted) && mergedCount == |evicted|
      ensures forall id :: id in evicted <==> exists t :: id in Ids(old(memories)[t]) && id !in Ids(memories[t])
      ensures OnlyHeadsShare(old(memories)) ==> forall t :: memories[t] == Merge(tok, old(memories)[t])
    {
      var mergedIds;
      mergedIds, mergedCount := MergeTiers();
      evicted := DeleteMerged(mergedIds);
      assert forall id :: id in evicted <==> id in mergedIds;
      MergedFromStore(tok, old(memories));
      forall t
        ensures Ids(memories[t]) == Ids(old(memories)[t]) - mergedIds && Dissimilar(tok, memories[t])
        ensures OnlyHeadsShare(old(memories)) ==> memories[t] == Merge(tok, old(memories)[t])
      {
        MarkedIds(tok, old(memories), t);
        ConsolidatedDissimilar(tok, old(memories), t);
        if OnlyHeadsShare(old(memories)) {
          ConsolidatedIsMerge(tok, old(memories), t);
        }
      }
    }

    /** The merge loops over all tiers, which share one set of merged ids. */
    method MergeTiers() returns (mergedIds: set<string>, mergedCount: nat)
      modifies this
      ensures Merged(tok, old(memories), memories, mergedIds) && mergedCount == |mergedIds|
    {
      mergedIds, mergedCount := {}, 0;
      ghost var start := memories;
      NoneMarked(tok, start);
      for i := 0 to |TIERS|
        invariant TiersMarked(tok, start, memories, i, mergedIds) && mergedCount == |mergedIds|
      {
        mergedIds, mergedCount := MergeAt(start, i, mergedIds, mergedCount);
      }
      AllMarked(tok, start, memories, mergedIds);
    }

    /** The loop body, for the tier at position `i`. */
    method MergeAt(ghost start: Memories, i: nat, mergedIds: set<string>, mergedCount: nat)
      returns (mergedIds': set<string>, mergedCount': nat)
      requires i < |TIERS| && TiersMarked(tok, start, memories, i, mergedIds) && mergedCount == |mergedIds|
      modifies this
      ensures TiersMarked(tok, start, memories, i + 1, mergedIds') && mergedCount' == |mergedIds'|
    {
      var tier := TIERS[i];
      TierAhead(tok, start, memories, i, mergedIds);
      var entries;
      entries, mergedIds', mergedCount' := MergeTier(tok, memories[tier], mergedIds, mergedCount);
      MarkNext(tok, start, memories, i, entries, mergedIds');
      memories := WithTier(memories, tier, entries);
    }

    /** The deletion loops. */
    method DeleteMerged(mergedIds: set<string>) returns (evicted: seq<string>)
      modifies this
      ensures forall t :: memories[t] == Keep(old(memories[t]), mergedIds)
      ensures NoDup(evicted) && Elements(evicted) == mergedIds && |evicted| == |mergedIds|
    {
      evicted := [];
      var left := mergedIds;
      ghost var start := memories;
      NothingDeleted(start);
      assert mergedIds - left == {};
      while left != {}
        invariant left <= mergedIds && Evicts(evicted, mergedIds - left)
        invariant Deleted(start, memories, mergedIds - left)
        decreases left
      {
        var mid :| mid in left;
        ghost var now, gone := memories, mergedIds - left;
        DeleteEverywhere(mid);
        DeletedNext(start, now, memories, gone, mid);
        EvictsNext(evicted, gone, mid);
        evicted := evicted + [mid];
        left := left - {mid};
        assert gone + {mid} == mergedIds - left;
      }
      assert mergedIds - left == mergedIds;
    }

    method DeleteEverywhere(mid: string)
      modifies this
      ensures forall t :: memories[t] == Keep(old(memories[t]), {mid})
    {
      ghost var start := memories;
      for i := 0 to |TIERS|
        invariant Swept(start, memories, i, {mid})
      {
        var tier := TIERS[i];
        SweptStep(start, memories, i, {mid});
        memories := WithTier(memories, tier, Keep(memories[tier], {mid}));
      }
      SweptAll(start, memories, {mid});
    }
  }
}
