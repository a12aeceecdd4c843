/** Reciprocal rank fusion: how the coordinator merges the answers of the searchers. */
module RankFusion {
  import opened Prelude
  import opened TopK

  type Answer = seq<DocId>

  const RRF: real := 60.0

  /** The score of zero-based rank r. */
  function GetScore(r: nat): (s: real)
    ensures s > 0.0
  {
    1.0 / (RRF + r as real + 1.0)
  }

  /** Rank zero scores 1/61, rank one 1/62, and so on. */
  lemma {:induction false} ScoreOfRank(r: nat)
    ensures GetScore(r) * (61.0 + r as real) == 1.0
  {
    assert RRF + r as real + 1.0 == 61.0 + r as real;
  }

  lemma {:induction false} Reciprocal(a: real, b: real)
    requires 0.0 < a < b
    ensures 1.0 / a > 1.0 / b
  {
    assert 1.0 / a - 1.0 / b == (b - a) / (a * b);
  }

  lemma {:induction false} EarlierScoresHigher(r: nat, s: nat)
    requires r < s
    ensures GetScore(r) > GetScore(s)
  {
    Reciprocal(RRF + r as real + 1.0, RRF + s as real + 1.0);
  }

  // ---------------------------------------------------------------------- scores

  /** What the first n ranks of an answer give the id. */
  function PartScore(a: Answer, n: nat, x: DocId): real
    requires n <= |a|
  {
    if n == 0 then 0.0 else PartScore(a, n - 1, x) + (if a[n - 1] == x then GetScore(n - 1) else 0.0)
  }

  function AnswerScore(a: Answer, x: DocId): real {
    PartScore(a, |a|, x)
  }

  /** The score of an id: what all answers give it. */
  function Score(rs: seq<Answer>, x: DocId): real {
    if rs == [] then 0.0 else Score(rs[..|rs| - 1], x) + AnswerScore(rs[|rs| - 1], x)
  }

  ghost function Ids(rs: seq<Answer>): set<DocId> {
    if rs == [] then {} else Ids(rs[..|rs| - 1]) + Elems(rs[|rs| - 1])
  }

  ghost predicate Mentioned(rs: seq<Answer>, x: DocId) {
    exists i :: 0 <= i < |rs| && x in rs[i]
  }

  lemma {:induction false} IdsMentioned(rs: seq<Answer>, x: DocId)
    ensures x in Ids(rs) <==> Mentioned(rs, x)
  {
    if rs != [] {
      var n := |rs| - 1;
      IdsMentioned(rs[..n], x);
      if i :| 0 <= i < |rs| && x in rs[i] {
        if i < n {
          assert rs[..n][i] == rs[i];
        }
      }
    }
  }

  // -------------------------------------------------------------- scores rank by rank

  /** How many answers have the id at rank n. */
  ghost function Placed(rs: seq<Answer>, x: DocId, n: nat): nat {
    if rs == [] then 0
    else
      var a := rs[|rs| - 1];
      Placed(rs[..|rs| - 1], x, n) + if n < |a| && a[n] == x then 1 else 0
  }

  /** What the first n ranks give an id: at each rank 1/(61 + rank) for every answer that has it there. */
  ghost function RankSum(rs: seq<Answer>, x: DocId, n: nat): real {
    if n == 0 then 0.0 else RankSum(rs, x, n - 1) + Placed(rs, x, n - 1) as real / (60 + n) as real
  }

  lemma {:induction false} RankSumNext(rs: seq<Answer>, x: DocId, n: nat)
    requires rs != []
    ensures
      var a := rs[|rs| - 1];
      RankSum(rs, x, n) == RankSum(rs[..|rs| - 1], x, n) + PartScore(a, Min(n, |a|), x)
  {
    if n > 0 {
      var a := rs[|rs| - 1];
      RankSumNext(rs, x, n - 1);
      PartNext(a, n, x);
      OneRank(Placed(rs[..|rs| - 1], x, n - 1), n, n - 1 < |a| && a[n - 1] == x);
    }
  }

  lemma {:induction false} PartNext(a: Answer, n: nat, x: DocId)
    requires n > 0
    ensures PartScore(a, Min(n, |a|), x) ==
      PartScore(a, Min(n - 1, |a|), x) + if n - 1 < |a| && a[n - 1] == x then GetScore(n - 1) else 0.0
  {
  }

  lemma {:induction false} OneRank(before: nat, n: nat, held: bool)
    requires n > 0
    ensures (before + if held then 1 else 0) as real / (60 + n) as real ==
      before as real / (60 + n) as real + if held then GetScore(n - 1) else 0.0
  {
    ScoreOfRank(n - 1);
    var d := (60 + n) as real;
    assert d == 61.0 + (n - 1) as real;
    assert (before + 1) as real / d == before as real / d + 1.0 / d;
  }

  /** Summing answer by answer and rank by rank gives the same: the score of an id is the sum over all ranks of
      1/(61 + rank), once for every answer that has the id at that rank. */
  lemma {:induction false} ScoreByRank(rs: seq<Answer>, x: DocId, n: nat)
    requires forall i :: 0 <= i < |rs| ==> |rs[i]| <= n
    ensures Score(rs, x) == RankSum(rs, x, n)
  {
    if rs == [] {
      NothingPlaced(x, n);
    } else {
      ScoreByRank(rs[..|rs| - 1], x, n);
      RankSumNext(rs, x, n);
    }
  }

  lemma {:induction false} NothingPlaced(x: DocId, n: nat)
    ensures RankSum([], x, n) == 0.0
  {
    if n > 0 {
      NothingPlaced(x, n - 1);
      assert Placed([], x, n - 1) as real / (60 + n) as real == 0.0;
    }
  }

  // ----------------------------------------------------------------- the algorithm

  /** The first min(n, ids) ids in order of falling score, ties in any order. */
  ghost predicate Fused(rs: seq<Answer>, n: nat, out: Answer) {
    && Distinct(out)
    && |out| == Min(n, |Ids(rs)|)
    && (forall i :: 0 <= i < |out| ==> out[i] in Ids(rs))
    && (forall i, j :: 0 <= i < j < |out| ==> Score(rs, out[i]) >= Score(rs, out[j]))
    && (forall i, x :: 0 <= i < |out| && x in Ids(rs) && x !in out ==> Score(rs, out[i]) >= Score(rs, x))
  }

  /** The table holds the ids seen and what they have scored so far. */
  ghost predicate Tallied(tally: map<DocId, real>, rs: seq<Answer>, a: Answer, n: nat)
    requires n <= |a|
  {
    && tally.Keys == Ids(rs) + Elems(a[..n])
    && forall x :: x in tally ==> tally[x] == Score(rs, x) + PartScore(a, n, x)
  }

  lemma {:induction false} Unmentioned(rs: seq<Answer>, x: DocId)
    requires x !in Ids(rs)
    ensures Score(rs, x) == 0.0
  {
    if rs != [] {
      Unmentioned(rs[..|rs| - 1], x);
      NotRanked(rs[|rs| - 1], |rs[|rs| - 1]|, x);
    }
  }

  lemma {:induction false} NotRanked(a: Answer, n: nat, x: DocId)
    requires n <= |a| && x !in a[..n]
    ensures PartScore(a, n, x) == 0.0
  {
    if n > 0 {
      assert a[..n] == a[..n - 1] + [a[n - 1]];
      NotRanked(a, n - 1, x);
    }
  }

  method TallyAnswer(tally: map<DocId, real>, a: Answer, ghost rs: seq<Answer>) returns (tally': map<DocId, real>)
    requires Tallied(tally, rs, [], 0)
    ensures Tallied(tally', rs, a, |a|)
  {
    tally' := tally;
    var n := 0;
    while n < |a|
      invariant 0 <= n <= |a|
      invariant Tallied(tally', rs, a, n)
    {
      var score, x := GetScore(n), a[n];
      assert a[..n + 1] == a[..n] + [x];
      if x in tally' {
        tally' := tally'[x := tally'[x] + score];
      } else {
        Unmentioned(rs, x);
        NotRanked(a, n, x);
        tally' := tally'[x := score];
      }
      n := n + 1;
    }
  }

  method Tally(rs: seq<Answer>) returns (tally: map<DocId, real>)
    ensures tally.Keys == Ids(rs)
    ensures forall x :: x in tally ==> tally[x] == Score(rs, x)
  {
    tally := map[];
    var i := 0;
    assert rs[..0] == [];
    while i < |rs|
      invariant 0 <= i <= |rs|
      invariant Tallied(tally, rs[..i], [], 0)
    {
      tally := TallyAnswer(tally, rs[i], rs[..i]);
      assert rs[..i + 1][..i] == rs[..i] && rs[i][..|rs[i]|] == rs[i];
      i := i + 1;
    }
    assert rs[..|rs|] == rs;
  }

  function ScoreIn(tally: map<DocId, real>, x: DocId): real {
    if x in tally then tally[x] else 0.0
  }

  method SortByScore(tally: map<DocId, real>) returns (sorted: Answer)
    ensures Distinct(sorted) && Elems(sorted) == tally.Keys
    ensures forall i, j :: 0 <= i < j < |sorted| ==> ScoreIn(tally, sorted[i]) >= ScoreIn(tally, sorted[j])
  {
    var atLeast := (x: DocId, y: DocId) => ScoreIn(tally, x) >= ScoreIn(tally, y);
    sorted := Arrange(tally.Keys, atLeast);
    forall i, j | 0 <= i < j < |sorted| ensures ScoreIn(tally, sorted[i]) >= ScoreIn(tally, sorted[j]) {
      assert atLeast(sorted[i], sorted[j]);
    }
  }

  /** `MergeSearcherAnswers` */
  method MergeSearcherAnswers(rs: seq<Answer>, numRequested: nat) returns (out: Answer)
    ensures Fused(rs, numRequested, out)
    ensures forall x :: x in out ==> Mentioned(rs, x)
    ensures |out| < numRequested ==> forall x :: Mentioned(rs, x) ==> x in out
  {
    var tally := Tally(rs);
    var sorted := SortByScore(tally);
    assert forall i :: 0 <= i < |sorted| ==> sorted[i] in Elems(sorted);
    CutIsFused(rs, numRequested, sorted);
    out := Best(sorted, numRequested);
    forall x ensures x in Ids(rs) <==> Mentioned(rs, x) {
      IdsMentioned(rs, x);
    }
    assert |out| < numRequested ==> out == sorted;
  }

  method Best(sorted: Answer, numRequested: nat) returns (out: Answer)
    ensures out == sorted[..Min(numRequested, |sorted|)]
  {
    out := [];
    var i := 0;
    while i < |sorted| && i < numRequested
      invariant 0 <= i <= Min(numRequested, |sorted|)
      invariant out == sorted[..i]
    {
      out := out + [sorted[i]];
      i := i + 1;
    }
  }

  lemma {:induction false} CutIsFused(rs: seq<Answer>, n: nat, sorted: Answer)
    requires Elems(sorted) == Ids(rs) && Distinct(sorted)
    requires forall i, j :: 0 <= i < j < |sorted| ==> Score(rs, sorted[i]) >= Score(rs, sorted[j])
    ensures Fused(rs, n, sorted[..Min(n, |sorted|)])
  {
    var k := Min(n, |sorted|);
    var out := sorted[..k];
    DistinctCount(sorted);
    forall i | 0 <= i < |out| ensures out[i] in Ids(rs) {
      assert sorted[i] in Elems(sorted);
    }
    forall i, x | 0 <= i < |out| && x in Ids(rs) && x !in out ensures Score(rs, out[i]) >= Score(rs, x) {
      CutOffLower(rs, sorted, k, i, x);
    }
  }

  lemma {:induction false} CutOffLower(rs: seq<Answer>, sorted: Answer, k: nat, i: nat, x: DocId)
    requires forall i, j :: 0 <= i < j < |sorted| ==> Score(rs, sorted[i]) >= Score(rs, sorted[j])
    requires i < k <= |sorted| && x in Elems(sorted) && x !in sorted[..k]
    ensures Score(rs, sorted[i]) >= Score(rs, x)
  {
    var j :| 0 <= j < |sorted| && sorted[j] == x;
    assert k <= j;
  }
}
