/** What the three ranking loops share: the order produced by
    `np.argsort(similaridades)[::-1]`, extending a record with its
    `relevancia`, and the thresholded top-n selection that corrigido.py and
    MinhaTentativa.py both run. */
module Ranking {
  import opened Json

  /** The key every ranking loop adds to a selected record. */
  const Relevancia: string := "relevancia"

  function Min(a: int, b: int): int
  {
    if a <= b then a else b
  }

  /** How many records a ranking loop keeps at most when told `limit`.
      The loops append first and only then test `len(...) >= limit`, so a
      limit of zero or less still lets one record through. */
  function Cap(limit: int): nat
  {
    if limit <= 0 then 1 else limit
  }

  /** The first `k` entries of `s`, or all of them when `s` is shorter. */
  function Take(s: seq<nat>, k: nat): seq<nat>
  {
    s[..Min(|s|, k)]
  }

  /** `{**rec, "relevancia": float(score)}` */
  function WithRelevance(rec: Record, score: real): (r: Record)
    ensures Relevancia in r && r[Relevancia] == Float(score)
    ensures r.Keys == rec.Keys + {Relevancia}
    ensures forall k :: k in rec && k != Relevancia ==> r[k] == rec[k]
  {
    rec[Relevancia := Float(score)]
  }

  predicate InRange(idx: seq<nat>, n: nat)
  {
    forall k :: 0 <= k < |idx| ==> idx[k] < n
  }

  predicate Distinct(idx: seq<nat>)
  {
    forall i, j :: 0 <= i < j < |idx| ==> idx[i] != idx[j]
  }

  /** What `np.argsort` guarantees: every position 0..n-1 exactly once. */
  predicate IsPermutation(order: seq<nat>, n: nat)
  {
    && |order| == n
    && InRange(order, n)
    && Distinct(order)
    && forall p :: 0 <= p < n ==> p in order
  }

  /** Reversing an ascending argsort: scores never increase along `idx`.
      Ties may come in any order; the default argsort is not stable. */
  predicate Descending(idx: seq<nat>, scores: seq<real>)
    requires InRange(idx, |scores|)
  {
    forall i, j :: 0 <= i < j < |idx| ==> scores[idx[i]] >= scores[idx[j]]
  }

  /** The records at positions `idx`, in that order, each carrying its score. */
  function Attach(items: seq<Record>, scores: seq<real>, idx: seq<nat>): seq<Record>
    requires |scores| == |items| && InRange(idx, |items|)
  {
    seq(|idx|, k requires 0 <= k < |idx| => WithRelevance(items[idx[k]], scores[idx[k]]))
  }

  /** Relevance values never increase along a ranked list. */
  predicate NonIncreasingRelevance(ranked: seq<Record>)
  {
    forall i, j :: 0 <= i < j < |ranked| ==>
      Relevancia in ranked[i] && Relevancia in ranked[j] &&
      ranked[i][Relevancia].Float? && ranked[j][Relevancia].Float? &&
      ranked[i][Relevancia].f >= ranked[j][Relevancia].f
  }

  /** Attaching scores along a descending index list gives a list ranked by
      non-increasing `relevancia`, where each entry is its source record with
      only `relevancia` added or overwritten. */
  lemma AttachRanked(items: seq<Record>, scores: seq<real>, idx: seq<nat>)
    requires |scores| == |items| && InRange(idx, |items|)
    requires Descending(idx, scores)
    ensures NonIncreasingRelevance(Attach(items, scores, idx))
  {
  }

  /** The entries of `idx`, in order, whose score reaches `floor`: the
      `if similaridade >= similaridade_minima` test of the loop. */
  function Qualifying(scores: seq<real>, idx: seq<nat>, floor: real): (q: seq<nat>)
    requires InRange(idx, |scores|)
    ensures |q| <= |idx|
    ensures InRange(q, |scores|)
    ensures forall k :: 0 <= k < |q| ==> scores[q[k]] >= floor
    decreases |idx|
  {
    if idx == [] then []
    else
      var rest := Qualifying(scores, idx[..|idx| - 1], floor);
      var last := idx[|idx| - 1];
      if scores[last] >= floor then rest + [last] else rest
  }

  /** Exactly the entries of `idx` whose score reaches the floor qualify. */
  lemma {:induction false} QualifyingMembers(scores: seq<real>, idx: seq<nat>, floor: real, p: nat)
    requires InRange(idx, |scores|)
    ensures p in Qualifying(scores, idx, floor) <==> p in idx && p < |scores| && scores[p] >= floor
    decreases |idx|
  {
    if idx != [] {
      var init := idx[..|idx| - 1];
      QualifyingMembers(scores, init, floor, p);
      assert idx == init + [idx[|idx| - 1]];
    }
  }

  /** No position qualifies twice when `idx` lists each position once. */
  lemma {:induction false} QualifyingDistinct(scores: seq<real>, idx: seq<nat>, floor: real)
    requires InRange(idx, |scores|) && Distinct(idx)
    ensures Distinct(Qualifying(scores, idx, floor))
    decreases |idx|
  {
    if idx != [] {
      var init := idx[..|idx| - 1];
      var last := idx[|idx| - 1];
      QualifyingDistinct(scores, init, floor);
      if scores[last] >= floor {
        var rest := Qualifying(scores, init, floor);
        forall k | 0 <= k < |rest| ensures rest[k] != last {
          QualifyingMembers(scores, init, floor, rest[k]);
        }
      }
    }
  }

  /** When every entry reaches the floor, nothing is filtered out. */
  lemma {:induction false} QualifyingAll(scores: seq<real>, idx: seq<nat>, floor: real)
    requires InRange(idx, |scores|)
    requires forall k :: 0 <= k < |idx| ==> scores[idx[k]] >= floor
    ensures Qualifying(scores, idx, floor) == idx
    decreases |idx|
  {
    if idx != [] {
      QualifyingAll(scores, idx[..|idx| - 1], floor);
      assert idx == idx[..|idx| - 1] + [idx[|idx| - 1]];
    }
  }

  /** Along a descending order the qualifying positions are a prefix of it:
      once one score is below the floor, so is every later one. */
  lemma {:induction false} QualifyingIsPrefix(scores: seq<real>, idx: seq<nat>, floor: real)
    requires InRange(idx, |scores|) && Descending(idx, scores)
    ensures Qualifying(scores, idx, floor) == idx[..|Qualifying(scores, idx, floor)|]
    decreases |idx|
  {
    if idx != [] {
      var init := idx[..|idx| - 1];
      var last := idx[|idx| - 1];
      assert Qualifying(scores, idx, floor) ==
        Qualifying(scores, init, floor) + (if scores[last] >= floor then [last] else []);
      if scores[last] >= floor {
        forall k | 0 <= k < |init| ensures scores[init[k]] >= floor {
          assert scores[idx[k]] >= scores[idx[|idx| - 1]];
        }
        QualifyingAll(scores, init, floor);
        assert idx == init + [last];
      } else {
        assert Descending(init, scores) by {
          forall i, j | 0 <= i < j < |init| ensures scores[init[i]] >= scores[init[j]] {
            assert init[i] == idx[i] && init[j] == idx[j];
          }
        }
        QualifyingIsPrefix(scores, init, floor);
        var q := Qualifying(scores, init, floor);
        assert init[..|q|] == idx[..|q|];
      }
    }
  }

  /** The positions qualifying among the first `j` entries are a prefix of
      those qualifying among all of them. */
  lemma {:induction false} QualifyingGrows(scores: seq<real>, idx: seq<nat>, floor: real, j: nat)
    requires InRange(idx, |scores|) && j <= |idx|
    ensures var q := Qualifying(scores, idx, floor);
      var qj := Qualifying(scores, idx[..j], floor);
      |qj| <= |q| && qj == q[..|qj|]
    decreases |idx|
  {
    if j < |idx| {
      var init := idx[..|idx| - 1];
      assert idx[..j] == init[..j];
      QualifyingGrows(scores, init, floor, j);
    } else {
      assert idx[..j] == idx;
    }
  }

  /** Extending the index list by one position extends the result by that
      position's record. */
  lemma AttachSnoc(items: seq<Record>, scores: seq<real>, idx: seq<nat>, p: nat)
    requires |scores| == |items| && InRange(idx, |items|) && p < |items|
    ensures Attach(items, scores, idx + [p]) ==
      Attach(items, scores, idx) + [WithRelevance(items[p], scores[p])]
  {
  }

  /** One more step of the loop over `order` adds at most its position. */
  lemma QualifyingStep(scores: seq<real>, order: seq<nat>, floor: real, i: nat)
    requires InRange(order, |scores|) && i < |order|
    ensures Qualifying(scores, order[..i + 1], floor) ==
      Qualifying(scores, order[..i], floor) + (if scores[order[i]] >= floor then [order[i]] else [])
  {
    assert order[..i + 1][..i] == order[..i];
  }

  /** What `buscar_materia` returns: the first `Cap(topn)` qualifying
      positions of `order`, each record extended with its score. */
  function Selected(items: seq<Record>, scores: seq<real>, order: seq<nat>, topn: int, floor: real): (r: seq<Record>)
    requires |scores| == |items| && InRange(order, |items|)
    ensures |r| <= Cap(topn) && |r| <= |order|
    ensures forall k :: 0 <= k < |r| ==>
      Relevancia in r[k] && r[k][Relevancia].Float? && r[k][Relevancia].f >= floor
  {
    Attach(items, scores, Take(Qualifying(scores, order, floor), Cap(topn)))
  }

  /** The loop of `buscar_materia`: walk `order`, skip scores below the
      floor, extend each kept record with `relevancia`, and stop as soon as
      `len(resultados) >= topn` after an append. */
  method SelectAboveFloor(items: seq<Record>, scores: seq<real>, order: seq<nat>, topn: int, floor: real)
    returns (resultados: seq<Record>)
    requires |scores| == |items| && IsPermutation(order, |items|)
    ensures resultados == Selected(items, scores, order, topn, floor)
  {
    resultados := [];
    ghost var q: seq<nat> := [];
    var i := 0;
    while i < |order|
      invariant 0 <= i <= |order|
      invariant q == Qualifying(scores, order[..i], floor)
      invariant resultados == Attach(items, scores, q)
      invariant |q| < Cap(topn)
    {
      var indx := order[i];
      var similaridade := scores[indx];
      QualifyingStep(scores, order, floor, i);
      if similaridade >= floor {
        AttachSnoc(items, scores, q, indx);
        q := q + [indx];
        resultados := resultados + [WithRelevance(items[indx], similaridade)];
        if |resultados| >= topn {
          QualifyingGrows(scores, order, floor, i + 1);
          return;
        }
      }
      i := i + 1;
    }
    assert order[..i] == order;
  }

  /** Every selected record carries a `relevancia` at or above the floor,
      at most `Cap(topn)` of them are selected and no more than qualify,
      and they come in non-increasing `relevancia` as a prefix of the order. */
  lemma SelectedProperties(items: seq<Record>, scores: seq<real>, order: seq<nat>, topn: int, floor: real)
    requires |scores| == |items| && IsPermutation(order, |items|)
    requires Descending(order, scores)
    ensures var r := Selected(items, scores, order, topn, floor);
      var q := Qualifying(scores, order, floor);
      && |r| == Min(Cap(topn), |q|)
      && q == order[..|q|]
      && r == Attach(items, scores, order[..|r|])
      && NonIncreasingRelevance(r)
      && (forall k :: 0 <= k < |r| ==>
            Relevancia in r[k] && r[k][Relevancia].Float? && r[k][Relevancia].f >= floor)
  {
    var q := Qualifying(scores, order, floor);
    QualifyingIsPrefix(scores, order, floor);
    var t := Take(q, Cap(topn));
    assert t == order[..|t|];
    var r: seq<Record> := Selected(items, scores, order, topn, floor);
    AttachRanked(items, scores, t);
    forall k | 0 <= k < |r|
      ensures Relevancia in r[k] && r[k][Relevancia].Float? && r[k][Relevancia].f >= floor
    {
      assert r[k] == WithRelevance(items[t[k]], scores[t[k]]);
      assert t[k] == q[k];
    }
  }

  /** Over a permutation, a position qualifies exactly when its score
      reaches the floor, and none is selected twice. */
  lemma QualifyingOfPermutation(scores: seq<real>, order: seq<nat>, floor: real)
    requires IsPermutation(order, |scores|)
    ensures var q := Qualifying(scores, order, floor);
      && Distinct(q)
      && forall p :: 0 <= p < |scores| ==> (p in q <==> scores[p] >= floor)
  {
    QualifyingDistinct(scores, order, floor);
    forall p | 0 <= p < |scores|
      ensures p in Qualifying(scores, order, floor) <==> scores[p] >= floor
    {
      QualifyingMembers(scores, order, floor, p);
    }
  }

  /** The selection is empty exactly when no score reaches the floor. */
  lemma SelectedEmpty(items: seq<Record>, scores: seq<real>, order: seq<nat>, topn: int, floor: real)
    requires |scores| == |items| && IsPermutation(order, |items|)
    ensures Selected(items, scores, order, topn, floor) == [] <==>
      forall p :: 0 <= p < |scores| ==> scores[p] < floor
  {
    var q := Qualifying(scores, order, floor);
    QualifyingOfPermutation(scores, order, floor);
    if q != [] {
      assert q[0] in q;
    }
  }
}
