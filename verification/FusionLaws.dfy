/** What fused scores say about the answers they came from. */
module FusionLaws {
  import opened Prelude
  import opened RankFusion

  // ------------------------------------------------------ the order of the answers

  lemma {:induction false} ScoreConcat(ps: seq<Answer>, qs: seq<Answer>, x: DocId)
    ensures Score(ps + qs, x) == Score(ps, x) + Score(qs, x)
  {
    if qs == [] {
      assert ps + qs == ps;
    } else {
      var n := |qs| - 1;
      assert (ps + qs)[..|ps + qs| - 1] == ps + qs[..n];
      ScoreConcat(ps, qs[..n], x);
    }
  }

  lemma {:induction false} TakeOut(rs: seq<Answer>, i: nat, x: DocId)
    requires i < |rs|
    ensures Score(rs, x) == Score(rs[..i] + rs[i + 1..], x) + AnswerScore(rs[i], x)
  {
    ScoreConcat(rs[..i], rs[i + 1..], x);
    ScoreConcat(rs[..i + 1], rs[i + 1..], x);
    assert rs == rs[..i + 1] + rs[i + 1..] && rs[..i + 1][..i] == rs[..i];
  }

  /** The score of an id does not depend on the order the answers came in. */
  lemma {:induction false} ScoreIgnoresOrder(rs: seq<Answer>, ss: seq<Answer>, x: DocId)
    requires multiset(rs) == multiset(ss)
    ensures Score(rs, x) == Score(ss, x)
    decreases |rs|
  {
    assert |multiset(rs)| == |rs| && |multiset(ss)| == |ss|;
    if rs != [] {
      var n := |rs| - 1;
      assert rs[n] in multiset(ss);
      var i :| 0 <= i < |ss| && ss[i] == rs[n];
      WithoutOne(rs, n);
      WithoutOne(ss, i);
      assert rs[..n] + rs[n + 1..] == rs[..n];
      ScoreIgnoresOrder(rs[..n], ss[..i] + ss[i + 1..], x);
      TakeOut(ss, i, x);
    }
  }

  lemma {:induction false} WithoutOne<T>(s: seq<T>, i: nat)
    requires i < |s|
    ensures multiset(s[..i] + s[i + 1..]) == multiset(s) - multiset{s[i]}
  {
    assert s == s[..i] + [s[i]] + s[i + 1..];
  }

  // ----------------------------------------------------------- duplicate-free answers

  ghost predicate DuplicateFree(rs: seq<Answer>) {
    forall i :: 0 <= i < |rs| ==> Distinct(rs[i])
  }

  lemma {:induction false} RankedPart(a: Answer, n: nat, r: nat)
    requires Distinct(a) && r < n <= |a|
    ensures PartScore(a, n, a[r]) == GetScore(r)
  {
    if r == n - 1 {
      NotRanked(a, n - 1, a[r]);
    } else {
      RankedPart(a, n - 1, r);
    }
  }

  /** An answer gives an id the score of its rank, and nothing when it lacks the id. */
  lemma {:induction false} RankScore(a: Answer, x: DocId)
    requires Distinct(a)
    ensures forall r :: 0 <= r < |a| && a[r] == x ==> AnswerScore(a, x) == GetScore(r)
    ensures x !in a ==> AnswerScore(a, x) == 0.0
  {
    forall r | 0 <= r < |a| && a[r] == x ensures AnswerScore(a, x) == GetScore(r) {
      RankedPart(a, |a|, r);
    }
    if x !in a {
      assert a[..|a|] == a;
      NotRanked(a, |a|, x);
    }
  }

  lemma {:induction false} LoneIds(a: Answer)
    requires Distinct(a)
    ensures Ids([a]) == Elems(a) && |Ids([a])| == |a|
    ensures forall r :: 0 <= r < |a| ==> Score([a], a[r]) == GetScore(r)
  {
    assert [a][..0] == [];
    DistinctCount(a);
    forall r | 0 <= r < |a| ensures Score([a], a[r]) == GetScore(r) {
      RankScore(a, a[r]);
    }
  }

  /** The ids of out come from a, the best-scored first, and a is in order of falling score. */
  ghost predicate BestOf(a: Answer, out: Answer, score: DocId -> real) {
    && Distinct(a) && Distinct(out)
    && (forall r, s :: 0 <= r < s < |a| ==> score(a[r]) > score(a[s]))
    && (forall i :: 0 <= i < |out| ==> out[i] in a)
    && (forall i, m :: 0 <= i < m < |out| ==> score(out[i]) >= score(out[m]))
    && (forall i, x :: 0 <= i < |out| && x in a && x !in out ==> score(out[i]) >= score(x))
  }

  lemma {:induction false} BestIsPrefix(a: Answer, out: Answer, score: DocId -> real, k: nat)
    requires BestOf(a, out, score) && k <= |out| <= |a|
    ensures out[..k] == a[..k]
  {
    if k > 0 {
      BestIsPrefix(a, out, score, k - 1);
      NextIsNext(a, out, score, k - 1);
    }
  }

  /** Were the next id of the output not the next id of the answer, that one would score higher. */
  lemma {:induction false} NextIsNext(a: Answer, out: Answer, score: DocId -> real, i: nat)
    requires BestOf(a, out, score) && i < |out| <= |a| && out[..i] == a[..i]
    ensures out[i] == a[i]
  {
    assert forall m :: 0 <= m < i ==> out[m] == out[..i][m] == a[m];
    var j :| 0 <= j < |a| && a[j] == out[i];
    assert i <= j;
    assert score(a[j]) >= score(a[i]);
  }

  /** A lone duplicate-free answer comes back as its own prefix. */
  lemma {:induction false} LoneAnswerReturned(a: Answer, n: nat, out: Answer)
    requires Distinct(a) && Fused([a], n, out)
    ensures out == a[..Min(n, |a|)]
  {
    LoneIds(a);
    var score := (x: DocId) => Score([a], x);
    forall r, s | 0 <= r < s < |a| ensures score(a[r]) > score(a[s]) {
      EarlierScoresHigher(r, s);
    }
    BestIsPrefix(a, out, score, |out|);
    assert out[..|out|] == out;
  }

  // ------------------------------------------------------------------- dominance

  /** x stands before y in every answer that holds y. */
  ghost predicate Dominates(rs: seq<Answer>, x: DocId, y: DocId) {
    forall i, s :: 0 <= i < |rs| && 0 <= s < |rs[i]| && rs[i][s] == y ==> x in rs[i][..s]
  }

  lemma {:induction false} AnswerDominated(a: Answer, x: DocId, y: DocId)
    requires Distinct(a)
    requires forall s :: 0 <= s < |a| && a[s] == y ==> x in a[..s]
    ensures AnswerScore(a, x) >= AnswerScore(a, y)
    ensures y in a ==> AnswerScore(a, x) > AnswerScore(a, y)
  {
    RankScore(a, x);
    RankScore(a, y);
    if y in a {
      var s :| 0 <= s < |a| && a[s] == y;
      var r :| 0 <= r < s && a[..s][r] == x;
      assert a[r] == x;
      EarlierScoresHigher(r, s);
    } else if x in a {
      var r :| 0 <= r < |a| && a[r] == x;
    }
  }

  lemma {:induction false} DominatesScores(rs: seq<Answer>, x: DocId, y: DocId)
    requires DuplicateFree(rs) && Dominates(rs, x, y)
    ensures Score(rs, x) >= Score(rs, y)
    ensures y in Ids(rs) ==> x in Ids(rs) && Score(rs, x) > Score(rs, y)
  {
    if rs != [] {
      var n := |rs| - 1;
      var last := rs[n];
      assert Dominates(rs[..n], x, y) by {
        assert forall i :: 0 <= i < n ==> rs[..n][i] == rs[i];
      }
      DominatesScores(rs[..n], x, y);
      AnswerDominated(last, x, y);
      if y in last {
        var s :| 0 <= s < |last| && last[s] == y;
        assert x in rs[n][..s];
      }
    }
  }

  /** An id that stands before another in every answer holding the other precedes it in the fusion. */
  lemma {:induction false} DominatorPrecedes(rs: seq<Answer>, n: nat, out: Answer, x: DocId, q: nat)
    requires DuplicateFree(rs) && Fused(rs, n, out) && q < |out|
    requires Dominates(rs, x, out[q])
    ensures x in out[..q]
  {
    DominatesScores(rs, x, out[q]);
    var p :| 0 <= p < |out| && out[p] == x;
    assert p < q;
    assert out[..q][p] == x;
  }

  // ----------------------------------------------------------- many answers beat few

  /** In how many answers the id stands at rank r or before. */
  ghost function Within(rs: seq<Answer>, x: DocId, r: nat): nat {
    if rs == [] then 0 else
      Within(rs[..|rs| - 1], x, r) + (if x in rs[|rs| - 1][..Min(r + 1, |rs[|rs| - 1]|)] then 1 else 0)
  }

  /** In how many answers the id stands at all. */
  ghost function Holding(rs: seq<Answer>, x: DocId): nat {
    if rs == [] then 0 else Holding(rs[..|rs| - 1], x) + (if x in rs[|rs| - 1] then 1 else 0)
  }

  /** n times the score, as a sum. */
  ghost function Times(n: nat, s: real): real {
    if n == 0 then 0.0 else Times(n - 1, s) + s
  }

  lemma {:induction false} TimesIsProduct(n: nat, s: real)
    ensures Times(n, s) == n as real * s
  {
    if n > 0 {
      TimesIsProduct(n - 1, s);
      assert n as real * s == (n - 1) as real * s + s;
    }
  }

  lemma {:induction false} MoreTimes(m: nat, n: nat, s: real)
    requires m <= n && s > 0.0
    ensures Times(m, s) <= Times(n, s)
  {
    if m < n {
      MoreTimes(m, n - 1, s);
    }
  }

  lemma {:induction false} NoRankScoresLower(r: nat, s: nat)
    requires r <= s
    ensures GetScore(r) >= GetScore(s)
  {
    if r < s {
      EarlierScoresHigher(r, s);
    }
  }

  lemma {:induction false} RankWithin(a: Answer, x: DocId, r: nat)
    requires Distinct(a)
    ensures AnswerScore(a, x) >= 0.0
    ensures x in a[..Min(r + 1, |a|)] ==> AnswerScore(a, x) >= GetScore(r)
  {
    RankScore(a, x);
    if x in a {
      var i :| 0 <= i < |a| && a[i] == x;
      if x in a[..Min(r + 1, |a|)] {
        var j :| 0 <= j < Min(r + 1, |a|) && a[..Min(r + 1, |a|)][j] == x;
        assert a[j] == x;
        NoRankScoresLower(j, r);
      }
    }
  }

  lemma {:induction false} WithinScoresLeast(rs: seq<Answer>, x: DocId, r: nat)
    requires DuplicateFree(rs)
    ensures Score(rs, x) >= Times(Within(rs, x, r), GetScore(r))
  {
    if rs != [] {
      var n := |rs| - 1;
      WithinScoresLeast(rs[..n], x, r);
      RankWithin(rs[n], x, r);
    }
  }

  lemma {:induction false} HoldingScoresMost(rs: seq<Answer>, x: DocId)
    requires DuplicateFree(rs)
    ensures Score(rs, x) <= Times(Holding(rs, x), GetScore(0))
  {
    if rs != [] {
      var n := |rs| - 1;
      HoldingScoresMost(rs[..n], x);
      RankScore(rs[n], x);
      if x in rs[n] {
        var i :| 0 <= i < |rs[n]| && rs[n][i] == x;
        NoRankScoresLower(0, i);
      }
    }
  }

  /** m + 1 scores of rank r against m scores of rank 0. */
  lemma {:induction false} Break(m: nat, r: nat)
    ensures Times(m + 1, GetScore(r)) > Times(m, GetScore(0)) <==> m * r < 61
  {
    TimesIsProduct(m + 1, GetScore(r));
    TimesIsProduct(m, GetScore(0));
    ScoreOfRank(r);
    ScoreOfRank(0);
    Cross(m, r, GetScore(r), GetScore(0));
  }

  lemma {:induction false} Cross(m: nat, r: nat, u: real, v: real)
    requires u * (61.0 + r as real) == 1.0 && v * 61.0 == 1.0
    ensures (m + 1) as real * u > m as real * v <==> m * r < 61
  {
    var d := 61.0 + r as real;
    Cancel((m + 1) as real, u, d);
    assert m as real * v * d == m as real * d / 61.0;
    assert m as real * d == 61.0 * m as real + (m * r) as real;
    Scale((m + 1) as real * u, m as real * v, d);
  }

  lemma {:induction false} Cancel(a: real, u: real, d: real)
    requires u * d == 1.0
    ensures a * u * d == a
  {
    assert a * u * d == a * (u * d);
  }

  lemma {:induction false} Scale(a: real, b: real, c: real)
    requires c > 0.0
    ensures a > b <==> a * c > b * c
  {
    assert a * c - b * c == (a - b) * c;
  }

  /** x is in more than m answers at ranks up to r, y in at most m answers. */
  ghost predicate Outnumbers(rs: seq<Answer>, x: DocId, y: DocId, m: nat, r: nat) {
    DuplicateFree(rs) && Within(rs, x, r) >= m + 1 && Holding(rs, y) <= m
  }

  lemma {:induction false} MoreAnswersOutscore(rs: seq<Answer>, x: DocId, y: DocId, m: nat, r: nat)
    requires Outnumbers(rs, x, y, m, r) && m * r < 61
    ensures Score(rs, x) > Score(rs, y)
  {
    WithinScoresLeast(rs, x, r);
    HoldingScoresMost(rs, y);
    Break(m, r);
    MoreTimes(m + 1, Within(rs, x, r), GetScore(r));
    MoreTimes(Holding(rs, y), m, GetScore(0));
  }

  // ---------------------------------------------------------- where the bound breaks

  /** A filler id, unlike any id of one character. */
  function Filler(i: nat): DocId {
    seq(i + 2, _ => 'f')
  }

  /** An answer led by the given id, with "x" at rank r. */
  function Led(first: DocId, r: nat): Answer
    requires r >= 1
  {
    seq(r + 1, (i: nat) => if i == 0 then first else if i == r then "x" else Filler(i))
  }

  lemma {:induction false} LedShape(first: DocId, r: nat)
    requires r >= 1 && |first| == 1 && first != "x"
    ensures Distinct(Led(first, r))
    ensures first in Led(first, r) && "x" in Led(first, r)[..r + 1]
  {
    var a := Led(first, r);
    assert a[0] == first && a[..r + 1][r] == "x";
    forall i, j | 0 <= i < j < |a| ensures a[i] != a[j] {
      assert 0 < i < r ==> |a[i]| == i + 2;
      assert j < r ==> |a[j]| == j + 2;
    }
  }

  lemma {:induction false} LedLacks(first: DocId, r: nat, y: DocId)
    requires r >= 1 && |first| == 1 && |y| == 1 && y != first && y != "x"
    ensures y !in Led(first, r)
  {
    var a := Led(first, r);
    forall i | 0 <= i < |a| ensures a[i] != y {
      assert 0 < i < r ==> |a[i]| == i + 2;
    }
  }

  lemma {:induction false} LedScores(first: DocId, r: nat)
    requires r >= 1 && |first| == 1 && first != "x"
    ensures AnswerScore(Led(first, r), "x") == GetScore(r)
    ensures AnswerScore(Led(first, r), first) == GetScore(0)
  {
    LedShape(first, r);
    RankScore(Led(first, r), Led(first, r)[r]);
    RankScore(Led(first, r), Led(first, r)[0]);
  }

  /** m answers led by "y", each with "x" at rank r. */
  function Rivals(m: nat, r: nat): seq<Answer>
    requires r >= 1
  {
    if m == 0 then [] else Rivals(m - 1, r) + [Led("y", r)]
  }

  lemma {:induction false} RivalScore(m: nat, r: nat, x: DocId, s: real)
    requires r >= 1 && AnswerScore(Led("y", r), x) == s
    ensures Score(Rivals(m, r), x) == Times(m, s)
  {
    if m > 0 {
      RivalScore(m - 1, r, x, s);
      var rs := Rivals(m, r);
      assert rs[..|rs| - 1] == Rivals(m - 1, r) && rs[|rs| - 1] == Led("y", r);
    }
  }

  lemma {:induction false} RivalsDuplicateFree(m: nat, r: nat)
    requires r >= 1
    ensures DuplicateFree(Rivals(m, r))
  {
    if m > 0 {
      RivalsDuplicateFree(m - 1, r);
      LedShape("y", r);
    }
  }

  lemma {:induction false} RivalsWithin(m: nat, r: nat)
    requires r >= 1
    ensures Within(Rivals(m, r), "x", r) == m
  {
    if m > 0 {
      RivalsWithin(m - 1, r);
      LedShape("y", r);
      var rs := Rivals(m, r);
      assert rs[..|rs| - 1] == Rivals(m - 1, r) && rs[|rs| - 1] == Led("y", r);
    }
  }

  lemma {:induction false} RivalsHolding(m: nat, r: nat)
    requires r >= 1
    ensures Holding(Rivals(m, r), "y") == m
  {
    if m > 0 {
      RivalsHolding(m - 1, r);
      LedShape("y", r);
      var rs := Rivals(m, r);
      assert rs[..|rs| - 1] == Rivals(m - 1, r) && rs[|rs| - 1] == Led("y", r);
    }
  }

  /** From m * r = 61 on, m rivals and one answer without "y" score "x" no higher than "y". */
  lemma {:induction false} BoundIsTight(m: nat, r: nat) returns (rs: seq<Answer>)
    requires m * r >= 61
    ensures Outnumbers(rs, "x", "y", m, r)
    ensures Score(rs, "x") <= Score(rs, "y")
  {
    LedScores("y", r);
    LedScores("z", r);
    LedShape("z", r);
    LedLacks("z", r, "y");
    RivalsDuplicateFree(m, r);
    RivalsWithin(m, r);
    RivalsHolding(m, r);
    RivalScore(m, r, "x", GetScore(r));
    RivalScore(m, r, "y", GetScore(0));
    var a := Led("z", r);
    rs := Rivals(m, r) + [a];
    assert rs[..|rs| - 1] == Rivals(m, r) && rs[|rs| - 1] == a;
    RankScore(a, "y");
    Break(m, r);
  }

  /** Being in more than m answers at ranks up to r beats being in m of them exactly when m * r < 61. */
  lemma {:induction false} MoreAnswersWinIff(m: nat, r: nat)
    ensures (forall rs, x, y :: Outnumbers(rs, x, y, m, r) ==> Score(rs, x) > Score(rs, y)) <==> m * r < 61
  {
    if m * r < 61 {
      forall rs, x, y | Outnumbers(rs, x, y, m, r) ensures Score(rs, x) > Score(rs, y) {
        MoreAnswersOutscore(rs, x, y, m, r);
      }
    } else {
      var rs := BoundIsTight(m, r);
    }
  }
}
