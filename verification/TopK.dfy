/** Ordered containers as the program uses them: sorting, and the bounded `std::set` that keeps the k best hits. */
module TopK {
  import opened Prelude

  ghost predicate TotalPreorder<T(!new)>(leq: (T, T) -> bool) {
    && (forall x, y :: leq(x, y) || leq(y, x))
    && (forall x, y, z :: leq(x, y) && leq(y, z) ==> leq(x, z))
  }

  ghost predicate Sorted<T>(leq: (T, T) -> bool, s: seq<T>) {
    forall i, j :: 0 <= i < j < |s| ==> leq(s[i], s[j])
  }

  ghost predicate Least<T>(leq: (T, T) -> bool, x: T, s: set<T>) {
    x in s && forall y :: y in s ==> leq(x, y)
  }

  lemma {:induction false} LeastExists<T(!new)>(s: set<T>, leq: (T, T) -> bool) returns (best: T)
    requires s != {}
    requires TotalPreorder(leq)
    ensures Least(leq, best, s)
  {
    best :| best in s;
    assert leq(best, best);
    if s != {best} {
      var x, rest := best, s - {best};
      var m := LeastExists(rest, leq);
      best := if leq(x, m) then x else m;
      forall y | y in s ensures leq(best, y) {
        if y != x {
          assert leq(m, y);
        }
      }
    }
  }

  lemma {:induction false} Snoc<T>(leq: (T, T) -> bool, s: seq<T>, x: T)
    requires Sorted(leq, s) && Distinct(s) && x !in Elems(s) && forall y :: y in s ==> leq(y, x)
    ensures Sorted(leq, s + [x]) && Distinct(s + [x]) && Elems(s + [x]) == Elems(s) + {x}
  {
    assert forall i :: 0 <= i < |s| ==> s[i] in Elems(s);
  }

  /** A sort: some arrangement of the elements in order. Elements that tie may come in any order,
      as after `std::sort` over a vector filled in hash order. */
  method Arrange<T(!new, ==)>(s: set<T>, leq: (T, T) -> bool) returns (out: seq<T>)
    requires TotalPreorder(leq)
    ensures |out| == |s|
    ensures Elems(out) == s
    ensures Distinct(out)
    ensures Sorted(leq, out)
  {
    out := [];
    var rest := s;
    while rest != {}
      invariant Elems(out) + rest == s
      invariant Elems(out) !! rest
      invariant |out| + |rest| == |s|
      invariant Distinct(out)
      invariant Sorted(leq, out)
      invariant forall x, y :: x in out && y in rest ==> leq(x, y)
      decreases |rest|
    {
      ghost var least := LeastExists(rest, leq);
      var x :| x in rest && forall y :: y in rest ==> leq(x, y);
      Snoc(leq, out, x);
      out, rest := out + [x], rest - {x};
    }
  }

  /** `SearchResult`: a document and its distance from the query. */
  datatype Hit = Hit(dist: real, id: DocId)

  predicate HitLess(x: Hit, y: Hit) {
    x.dist < y.dist || (x.dist == y.dist && Less(x.id, y.id))
  }

  predicate HitLeq(x: Hit, y: Hit) {
    x == y || HitLess(x, y)
  }

  /** The nearer hit comes first, and at equal distance the one whose id precedes. */
  ghost predicate Before(x: Hit, y: Hit) {
    x.dist < y.dist || (x.dist == y.dist && Precedes(x.id, y.id))
  }

  /** `operator<` on results is a strict total order, which `std::set` relies on. */
  lemma {:induction false} HitOrder(x: Hit, y: Hit, z: Hit)
    ensures HitLess(x, y) <==> Before(x, y)
    ensures !HitLess(x, x)
    ensures HitLess(x, y) || x == y || HitLess(y, x)
    ensures HitLess(x, y) && HitLess(y, z) ==> HitLess(x, z)
    ensures HitLess(x, y) ==> !HitLess(y, x)
  {
    LessIsPrecedes(x.id, y.id);
    LessIrreflexive(x.id);
    LessTotal(x.id, y.id);
    if Less(x.id, y.id) && Less(y.id, z.id) {
      LessTransitive(x.id, y.id, z.id);
    }
    if Less(x.id, y.id) && Less(y.id, x.id) {
      LessTransitive(x.id, y.id, x.id);
    }
  }

  lemma {:induction false} HitLeqPreorder()
    ensures TotalPreorder(HitLeq)
  {
    forall x, y ensures HitLeq(x, y) || HitLeq(y, x) {
      HitOrder(x, y, x);
    }
    forall x, y, z | HitLeq(x, y) && HitLeq(y, z) ensures HitLeq(x, z) {
      HitOrder(x, y, z);
    }
  }

  /** `kept` are the k least elements of `all`, or all of them when there are fewer. */
  ghost predicate KLeast(kept: set<Hit>, all: set<Hit>, k: nat) {
    && kept <= all
    && |kept| == Min(k, |all|)
    && forall x, y :: x in kept && y in all - kept ==> HitLess(x, y)
  }

  lemma {:induction false} WorstExists(kept: set<Hit>) returns (worst: Hit)
    requires kept != {}
    ensures worst in kept && forall y :: y in kept ==> HitLeq(y, worst)
  {
    HitLeqPreorder();
    worst := LeastExists(kept, (a: Hit, b: Hit) => HitLeq(b, a));
  }

  /** `emplace` followed by dropping `*rbegin()` when more than k are held. */
  method Offer(kept: set<Hit>, x: Hit, k: nat, ghost all: set<Hit>) returns (kept': set<Hit>)
    requires KLeast(kept, all, k)
    ensures KLeast(kept', all + {x}, k)
  {
    kept' := kept + {x};
    if |kept'| > k {
      ghost var most := WorstExists(kept');
      var worst :| worst in kept' && forall y :: y in kept' ==> HitLeq(y, worst);
      kept' := kept' - {worst};
      OfferDropsWorst(kept, all, x, k, worst);
    } else {
      OfferKeepsAll(kept, all, x, k);
    }
  }

  lemma {:induction false} OfferKeepsAll(kept: set<Hit>, all: set<Hit>, x: Hit, k: nat)
    requires KLeast(kept, all, k)
    requires |kept + {x}| <= k
    ensures KLeast(kept + {x}, all + {x}, k)
  {
    if x in kept {
      assert kept + {x} == kept;
      assert all + {x} == all;
    } else {
      assert |kept| < k;
      SubsetCount(kept, all);
      assert kept == all;
    }
  }

  lemma {:induction false} OfferDropsWorst(kept: set<Hit>, all: set<Hit>, x: Hit, k: nat, worst: Hit)
    requires KLeast(kept, all, k)
    requires |kept + {x}| > k
    requires worst in kept + {x}
    requires forall y :: y in kept + {x} ==> HitLeq(y, worst)
    ensures KLeast(kept + {x} - {worst}, all + {x}, k)
  {
    assert x !in kept;
    assert |kept| == k;
    var kept' := kept + {x} - {worst};
    SubsetCount(kept, all);
    SubsetCount(all, all + {x});
    assert |kept'| == k;
    forall a, b | a in kept' && b in (all + {x}) - kept' ensures HitLess(a, b) {
      HitOrder(a, b, worst);
      HitOrder(a, worst, b);
      assert HitLeq(a, worst) && a != worst;
      if b != worst {
        assert b in all - kept;
        if a == x {
          assert worst in kept;
          assert HitLess(worst, b);
        }
      }
    }
  }
}
