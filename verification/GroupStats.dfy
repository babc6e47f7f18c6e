/**
 verl/utils/groupwise.py, group_mean_std: mean and Bessel variance by group from one pass of scattered sums,
 over the reals. The square root is a parameter.
 */
module GroupStats {
  import opened Rows
  import opened Wrappers

  datatype Stats = Stats(mean: seq<real>, std: seq<real>, count: seq<real>)

  datatype StatsError = LengthMismatch

  // ---------------------------------------------------------------- the textbook definitions

  /** The scores of group g, in row order. */
  function Members(scores: seq<real>, gidx: seq<nat>, g: nat): seq<real>
    requires |scores| == |gidx|
  {
    if scores == [] then []
    else
      var m := |scores| - 1;
      Members(scores[..m], gidx[..m], g) + if gidx[m] == g then [scores[m]] else []
  }

  function Sum(xs: seq<real>): real {
    if xs == [] then 0.0 else Sum(xs[..|xs| - 1]) + xs[|xs| - 1]
  }

  function Square(x: real): real {
    x * x
  }

  function SumOfSquares(xs: seq<real>): real {
    if xs == [] then 0.0 else SumOfSquares(xs[..|xs| - 1]) + Square(xs[|xs| - 1])
  }

  /** The second pass: squared distances from a centre. */
  function SquaredDistances(xs: seq<real>, centre: real): real {
    if xs == [] then 0.0
    else SquaredDistances(xs[..|xs| - 1], centre) + Square(xs[|xs| - 1] - centre)
  }

  function Ratio(a: real, b: real): real
    requires b != 0.0
  {
    a / b
  }

  function Mean(xs: seq<real>): real
    requires xs != []
  {
    Ratio(Sum(xs), |xs| as real)
  }

  function BesselVariance(xs: seq<real>): real
    requires |xs| >= 2
  {
    Ratio(SquaredDistances(xs, Mean(xs)), (|xs| - 1) as real)
  }

  function MeanOf(xs: seq<real>): real {
    if |xs| <= 1 then 0.0 else Mean(xs)
  }

  /** torch.sqrt of the variance, clamped from below; `sqrt` stands for it. */
  function StdOf(xs: seq<real>, eps: real, sqrt: real -> real): real {
    if |xs| <= 1 then 1.0 else sqrt(ClampMin(BesselVariance(xs), eps))
  }

  function ClampMin(x: real, least: real): (r: real)
    ensures r >= x && r >= least && (r == x || r == least)
  {
    if x < least then least else x
  }

  function GroupCount(gidx: seq<nat>): nat {
    if gidx == [] then 0 else MaxOf(gidx) + 1
  }

  /** What group_mean_std is documented to compute. */
  function TrueStats(scores: seq<real>, gidx: seq<nat>, eps: real, sqrt: real -> real): Stats
    requires |scores| == |gidx|
  {
    var n := GroupCount(gidx);
    Stats(seq(n, g requires 0 <= g < n => MeanOf(Members(scores, gidx, g))),
          seq(n, g requires 0 <= g < n => StdOf(Members(scores, gidx, g), eps, sqrt)),
          seq(n, g requires 0 <= g < n => |Members(scores, gidx, g)| as real))
  }

  // ---------------------------------------------------------------- the one pass

  function GroupSum(values: seq<real>, gidx: seq<nat>, g: nat): real
    requires |values| == |gidx|
  {
    if values == [] then 0.0
    else
      var m := |values| - 1;
      GroupSum(values[..m], gidx[..m], g) + if gidx[m] == g then values[m] else 0.0
  }

  /** `zeros(n).index_add_(0, gidx, values)` */
  method IndexAdd(n: nat, gidx: seq<nat>, values: seq<real>) returns (sums: seq<real>)
    requires |values| == |gidx| && forall i :: 0 <= i < |gidx| ==> gidx[i] < n
    ensures |sums| == n && forall g :: 0 <= g < n ==> sums[g] == GroupSum(values, gidx, g)
  {
    var output := new real[n](_ => 0.0);
    for i := 0 to |gidx|
      invariant forall g :: 0 <= g < n ==> output[g] == GroupSum(values[..i], gidx[..i], g)
    {
      assert values[..i + 1][..i] == values[..i] && gidx[..i + 1][..i] == gidx[..i];
      output[gidx[i]] := output[gidx[i]] + values[i];
    }
    assert values[..|gidx|] == values && gidx[..|gidx|] == gidx;
    sums := output[..];
  }

  function Ones(n: nat): seq<real> {
    seq(n, _ => 1.0)
  }

  function Squares(xs: seq<real>): seq<real> {
    seq(|xs|, i requires 0 <= i < |xs| => Square(xs[i]))
  }

  function OnePassMean(count: real, s1: real): real {
    Ratio(s1, ClampMin(count, 1.0))
  }

  function Numerator(count: real, s1: real, s2: real): real
    requires count != 0.0
  {
    s2 - Ratio(Square(s1), count)
  }

  /** The variance as the source computes it from the three sums. */
  function OnePassVariance(count: real, s1: real, s2: real): real {
    Ratio(Numerator(ClampMin(count, 1.0), s1, s2), ClampMin(count - 1.0, 1.0))
  }

  method GroupMeanStd(scores: seq<real>, gidx: seq<nat>, eps: real, sqrt: real -> real)
    returns (r: Result<Stats, StatsError>)
    ensures r == if |scores| != |gidx| then Err(LengthMismatch) else Ok(TrueStats(scores, gidx, eps, sqrt))
  {
    if |scores| != |gidx| { return Err(LengthMismatch); }
    var n := GroupCount(gidx);
    if n == 0 {
      assert TrueStats(scores, gidx, eps, sqrt) == Stats([], [], []);
      return Ok(Stats([], [], []));
    }
    var count := IndexAdd(n, gidx, Ones(|scores|));
    var s1 := IndexAdd(n, gidx, scores);
    var s2 := IndexAdd(n, gidx, Squares(scores));
    var mean, std := FromSums(count, s1, s2, eps, sqrt);
    forall g: nat | g < n
      ensures mean[g] == MeanOf(Members(scores, gidx, g))
      ensures std[g] == StdOf(Members(scores, gidx, g), eps, sqrt)
      ensures count[g] == |Members(scores, gidx, g)| as real
    {
      GroupSumsAre(scores, gidx, g);
      GroupResult(Members(scores, gidx, g), eps, sqrt);
    }
    var stats := Stats(mean, std, count);
    ghost var expected := TrueStats(scores, gidx, eps, sqrt);
    assert mean == expected.mean && std == expected.std && count == expected.count;
    return Ok(stats);
  }

  /** The elementwise formulas, and then the overwriting of the groups with fewer than two rows. */
  method FromSums(count: seq<real>, s1: seq<real>, s2: seq<real>, eps: real, sqrt: real -> real)
    returns (mean: seq<real>, std: seq<real>)
    requires |count| == |s1| == |s2|
    ensures |mean| == |std| == |count|
    ensures forall g :: 0 <= g < |count| ==> mean[g] == if count[g] <= 1.0 then 0.0 else OnePassMean(count[g], s1[g])
    ensures forall g :: 0 <= g < |count| ==>
              std[g] == if count[g] <= 1.0 then 1.0 else sqrt(ClampMin(OnePassVariance(count[g], s1[g], s2[g]), eps))
  {
    mean := seq(|count|, g requires 0 <= g < |count| => OnePassMean(count[g], s1[g]));
    std := seq(|count|, g requires 0 <= g < |count| => sqrt(ClampMin(OnePassVariance(count[g], s1[g], s2[g]), eps)));
    for h := 0 to |count|
      invariant |mean| == |std| == |count|
      invariant forall g :: 0 <= g < |count| ==>
                  mean[g] == if g < h && count[g] <= 1.0 then 0.0 else OnePassMean(count[g], s1[g])
      invariant forall g :: 0 <= g < |count| ==>
                  std[g] == if g < h && count[g] <= 1.0 then 1.0
                            else sqrt(ClampMin(OnePassVariance(count[g], s1[g], s2[g]), eps))
    {
      if count[h] <= 1.0 { mean, std := mean[h := 0.0], std[h := 1.0]; }
    }
  }

  lemma {:induction false} GroupSumsAre(scores: seq<real>, gidx: seq<nat>, g: nat)
    requires |scores| == |gidx|
    ensures var xs := Members(scores, gidx, g);
            && GroupSum(Ones(|scores|), gidx, g) == |xs| as real
            && GroupSum(scores, gidx, g) == Sum(xs)
            && GroupSum(Squares(scores), gidx, g) == SumOfSquares(xs)
  {
    if scores != [] {
      var m := |scores| - 1;
      GroupSumsAre(scores[..m], gidx[..m], g);
      assert Ones(|scores|)[..m] == Ones(m) && Squares(scores)[..m] == Squares(scores[..m]);
      var before, xs := Members(scores[..m], gidx[..m], g), Members(scores, gidx, g);
      if gidx[m] == g {
        SumsAppend(before, scores[m]);
      } else {
        assert xs == before;
      }
    }
  }

  lemma SumsAppend(xs: seq<real>, x: real)
    ensures Sum(xs + [x]) == Sum(xs) + x && SumOfSquares(xs + [x]) == SumOfSquares(xs) + Square(x)
  {
    assert (xs + [x])[..|xs|] == xs;
  }

  // ---------------------------------------------------------------- one pass is two passes

  function Expansion(s2: real, s1: real, n: real, c: real): real {
    s2 - 2.0 * c * s1 + n * c * c
  }

  lemma {:induction false} DistancesExpand(xs: seq<real>, c: real)
    ensures SquaredDistances(xs, c) == Expansion(SumOfSquares(xs), Sum(xs), |xs| as real, c)
    ensures SquaredDistances(xs, c) >= 0.0
  {
    if xs != [] {
      var x, rest := xs[|xs| - 1], xs[..|xs| - 1];
      DistancesExpand(rest, c);
      SquareExpands(x, c);
      assert 2.0 * c * Sum(xs) == 2.0 * c * Sum(rest) + 2.0 * c * x;
      assert |xs| as real * c * c == |rest| as real * c * c + c * c;
    }
  }

  lemma SquareExpands(x: real, c: real)
    ensures Square(x - c) == Square(x) - 2.0 * c * x + c * c
    ensures Square(x - c) >= 0.0
  {
    var d := x - c;
    if d >= 0.0 {
      assert d * d >= 0.0;
    } else {
      assert d * d == (-d) * (-d) >= 0.0;
    }
  }

  /** The numerator from the scattered sums is the sum of squared distances from the mean, so it is never negative. */
  lemma NumeratorIsTwoPass(xs: seq<real>)
    requires xs != []
    ensures Numerator(|xs| as real, Sum(xs), SumOfSquares(xs)) == SquaredDistances(xs, Mean(xs))
    ensures SquaredDistances(xs, Mean(xs)) >= 0.0
  {
    DistancesExpand(xs, Mean(xs));
    CompleteSquare(SumOfSquares(xs), Sum(xs), |xs| as real);
  }

  lemma CompleteSquare(s2: real, s1: real, n: real)
    requires n > 0.0
    ensures Expansion(s2, s1, n, Ratio(s1, n)) == Numerator(n, s1, s2)
  {
    var c := Ratio(s1, n);
    assert n * c == s1;
    assert Ratio(Square(s1), n) == c * s1;
    assert n * c * c == s1 * c;
  }

  lemma OnePassIsTwoPass(xs: seq<real>)
    requires |xs| >= 2
    ensures OnePassVariance(|xs| as real, Sum(xs), SumOfSquares(xs)) == BesselVariance(xs)
    ensures BesselVariance(xs) >= 0.0
  {
    NumeratorIsTwoPass(xs);
    var n := |xs| as real;
    assert ClampMin(n, 1.0) == n && ClampMin(n - 1.0, 1.0) == n - 1.0 == (|xs| - 1) as real;
    RatioIsNonnegative(SquaredDistances(xs, Mean(xs)), (|xs| - 1) as real);
  }

  lemma RatioIsNonnegative(x: real, d: real)
    requires x >= 0.0 && d > 0.0
    ensures Ratio(x, d) >= 0.0
  {
  }

  /** What the elementwise formulas and the overwriting of small groups leave for one group. */
  lemma GroupResult(xs: seq<real>, eps: real, sqrt: real -> real)
    ensures var n, s1, s2 := |xs| as real, Sum(xs), SumOfSquares(xs);
            && MeanOf(xs) == (if n <= 1.0 then 0.0 else OnePassMean(n, s1))
            && StdOf(xs, eps, sqrt) == if n <= 1.0 then 1.0 else sqrt(ClampMin(OnePassVariance(n, s1, s2), eps))
  {
    if |xs| >= 2 { OnePassIsTwoPass(xs); }
  }

  // ---------------------------------------------------------------- rows are only counted once

  lemma {:induction false} MembersOutside(scores: seq<real>, gidx: seq<nat>, g: nat)
    requires |scores| == |gidx| && g !in gidx
    ensures Members(scores, gidx, g) == []
  {
    if scores != [] {
      var m := |scores| - 1;
      assert gidx[m] in gidx && forall j :: 0 <= j < m ==> gidx[..m][j] in gidx;
      MembersOutside(scores[..m], gidx[..m], g);
    }
  }

  function TotalMembers(scores: seq<real>, gidx: seq<nat>, n: nat): nat
    requires |scores| == |gidx|
  {
    if n == 0 then 0 else TotalMembers(scores, gidx, n - 1) + |Members(scores, gidx, n - 1)|
  }

  /** Every row is in exactly one of the groups. */
  lemma CountsAddUp(scores: seq<real>, gidx: seq<nat>)
    requires |scores| == |gidx|
    ensures TotalMembers(scores, gidx, GroupCount(gidx)) == |scores|
  {
    CountsBelow(scores, gidx, GroupCount(gidx));
  }

  lemma {:induction false} CountsBelow(scores: seq<real>, gidx: seq<nat>, n: nat)
    requires |scores| == |gidx| && forall i :: 0 <= i < |gidx| ==> gidx[i] < n
    ensures TotalMembers(scores, gidx, n) == |scores|
    decreases |scores|
  {
    if scores == [] {
      NoMembers(n);
    } else {
      var m := |scores| - 1;
      CountsBelow(scores[..m], gidx[..m], n);
      OneMoreRow(scores, gidx, n);
    }
  }

  lemma {:induction false} NoMembers(n: nat)
    ensures TotalMembers([], [], n) == 0
  {
    if n > 0 { NoMembers(n - 1); }
  }

  lemma {:induction false} OneMoreRow(scores: seq<real>, gidx: seq<nat>, n: nat)
    requires |scores| == |gidx| && scores != []
    ensures TotalMembers(scores, gidx, n)
         == TotalMembers(scores[..|scores| - 1], gidx[..|gidx| - 1], n) + if gidx[|gidx| - 1] < n then 1 else 0
  {
    if n > 0 { OneMoreRow(scores, gidx, n - 1); }
  }

  // ---------------------------------------------------------------- the order of the rows does not matter

  function Pairs(scores: seq<real>, gidx: seq<nat>): seq<(real, nat)>
    requires |scores| == |gidx|
  {
    seq(|scores|, i requires 0 <= i < |scores| => (scores[i], gidx[i]))
  }

  lemma {:induction false} MembersAsBag(scores: seq<real>, gidx: seq<nat>, g: nat, x: real)
    requires |scores| == |gidx|
    ensures multiset(Members(scores, gidx, g))[x] == multiset(Pairs(scores, gidx))[(x, g)]
  {
    if scores != [] {
      var m := |scores| - 1;
      MembersAsBag(scores[..m], gidx[..m], g, x);
      assert Pairs(scores, gidx) == Pairs(scores[..m], gidx[..m]) + [(scores[m], gidx[m])];
    }
  }

  lemma {:induction false} SumsOfBag(a: seq<real>, b: seq<real>)
    requires multiset(a) == multiset(b)
    ensures |a| == |b| && Sum(a) == Sum(b) && SumOfSquares(a) == SumOfSquares(b)
    decreases |a|
  {
    assert |multiset(a)| == |multiset(b)|;
    if a != [] {
      var m := |a| - 1;
      var k := TakeOut(a, b);
      var rest := b[..k] + b[k + 1..];
      SumsOfBag(a[..m], rest);
      SumsInsert(b[..k], b[k], b[k + 1..]);
      assert b == b[..k] + [b[k]] + b[k + 1..];
    }
  }

  lemma TakeOut(a: seq<real>, b: seq<real>) returns (k: nat)
    requires a != [] && multiset(a) == multiset(b)
    ensures k < |b| && b[k] == a[|a| - 1] && multiset(a[..|a| - 1]) == multiset(b[..k] + b[k + 1..])
  {
    var m, x := |a| - 1, a[|a| - 1];
    assert x in multiset(a);
    assert x in b;
    k :| 0 <= k < |b| && b[k] == x;
    assert a == a[..m] + [x] + a[m + 1..] && a[..m] + a[m + 1..] == a[..m];
    BagWithout(a, m);
    BagWithout(b, k);
  }

  lemma BagWithout(s: seq<real>, k: nat)
    requires k < |s|
    ensures multiset(s[..k] + s[k + 1..]) == multiset(s) - multiset{s[k]}
  {
    assert s == s[..k] + [s[k]] + s[k + 1..];
  }

  lemma {:induction false} SumsInsert(a: seq<real>, x: real, b: seq<real>)
    ensures Sum(a + [x] + b) == Sum(a + b) + x
    ensures SumOfSquares(a + [x] + b) == SumOfSquares(a + b) + Square(x)
    decreases |b|
  {
    if b == [] {
      assert a + b == a && (a + [x] + b)[..|a|] == a;
    } else {
      var m := |b| - 1;
      SumsInsert(a, x, b[..m]);
      assert (a + [x] + b)[..|a| + 1 + m] == a + [x] + b[..m];
      assert (a + b)[..|a| + m] == a + b[..m];
    }
  }

  lemma SameGroup(a: seq<real>, b: seq<real>, eps: real, sqrt: real -> real)
    requires multiset(a) == multiset(b)
    ensures |a| == |b| && MeanOf(a) == MeanOf(b) && StdOf(a, eps, sqrt) == StdOf(b, eps, sqrt)
  {
    SumsOfBag(a, b);
    GroupResult(a, eps, sqrt);
    GroupResult(b, eps, sqrt);
  }

  lemma SameMembers(s1: seq<real>, g1: seq<nat>, s2: seq<real>, g2: seq<nat>, g: nat)
    requires |s1| == |g1| && |s2| == |g2| && multiset(Pairs(s1, g1)) == multiset(Pairs(s2, g2))
    ensures multiset(Members(s1, g1, g)) == multiset(Members(s2, g2, g))
  {
    forall x: real
      ensures multiset(Members(s1, g1, g))[x] == multiset(Members(s2, g2, g))[x]
    {
      MembersAsBag(s1, g1, g, x);
      MembersAsBag(s2, g2, g, x);
    }
  }

  lemma SameIndices(s1: seq<real>, g1: seq<nat>, s2: seq<real>, g2: seq<nat>, i: nat)
    requires |s1| == |g1| && |s2| == |g2| && multiset(Pairs(s1, g1)) == multiset(Pairs(s2, g2)) && i < |g1|
    ensures g1[i] in g2
  {
    assert Pairs(s1, g1)[i] in multiset(Pairs(s1, g1));
    assert Pairs(s1, g1)[i] in Pairs(s2, g2);
  }

  /** Permuting the rows permutes nothing in the result. */
  lemma OrderDoesNotMatter(s1: seq<real>, g1: seq<nat>, s2: seq<real>, g2: seq<nat>, eps: real, sqrt: real -> real)
    requires |s1| == |g1| && |s2| == |g2| && multiset(Pairs(s1, g1)) == multiset(Pairs(s2, g2))
    ensures TrueStats(s1, g1, eps, sqrt) == TrueStats(s2, g2, eps, sqrt)
  {
    forall i: nat | i < |g1| ensures g1[i] in g2 { SameIndices(s1, g1, s2, g2, i); }
    forall i: nat | i < |g2| ensures g2[i] in g1 { SameIndices(s2, g2, s1, g1, i); }
    assert GroupCount(g1) == GroupCount(g2);
    forall g: nat | g < GroupCount(g1)
      ensures var a, b := Members(s1, g1, g), Members(s2, g2, g);
              |a| == |b| && MeanOf(a) == MeanOf(b) && StdOf(a, eps, sqrt) == StdOf(b, eps, sqrt)
    {
      SameMembers(s1, g1, s2, g2, g);
      SameGroup(Members(s1, g1, g), Members(s2, g2, g), eps, sqrt);
    }
  }

  /** Groups without rows, and with a single one, get mean 0 and standard deviation 1. */
  lemma SmallGroups(scores: seq<real>, gidx: seq<nat>, eps: real, sqrt: real -> real, g: nat)
    requires |scores| == |gidx| && g < GroupCount(gidx)
    requires forall i, j :: 0 <= i < j < |gidx| ==> !(gidx[i] == g && gidx[j] == g)
    ensures TrueStats(scores, gidx, eps, sqrt).mean[g] == 0.0 && TrueStats(scores, gidx, eps, sqrt).std[g] == 1.0
  {
    AtMostOneMember(scores, gidx, g);
  }

  lemma {:induction false} AtMostOneMember(scores: seq<real>, gidx: seq<nat>, g: nat)
    requires |scores| == |gidx|
    requires forall i, j :: 0 <= i < j < |gidx| ==> !(gidx[i] == g && gidx[j] == g)
    ensures |Members(scores, gidx, g)| <= 1
  {
    if scores != [] {
      var m := |scores| - 1;
      if gidx[m] == g {
        assert forall j :: 0 <= j < m ==> gidx[..m][j] == gidx[j] != g;
        MembersOutside(scores[..m], gidx[..m], g);
      } else {
        AtMostOneMember(scores[..m], gidx[..m], g);
      }
    }
  }

  // ---------------------------------------------------------------- two instances of the definitions

  lemma SumOfPair(x: real, y: real)
    ensures Sum([x, y]) == x + y && forall c :: SquaredDistances([x, y], c) == Square(x - c) + Square(y - c)
  {
    assert [x, y][..1] == [x] && [x][..0] == [];
    assert Sum([x]) == x;
    forall c ensures SquaredDistances([x, y], c) == Square(x - c) + Square(y - c) {
      assert SquaredDistances([x], c) == Square(x - c);
    }
  }

  /** A group of two has its midpoint as mean and half the square of the difference as variance. */
  lemma PairStats(x: real, y: real)
    ensures Mean([x, y]) == (x + y) / 2.0 && BesselVariance([x, y]) == Square(x - y) / 2.0
  {
    SumOfPair(x, y);
    var m, d := (x + y) / 2.0, (x - y) / 2.0;
    assert x - m == d && y - m == -d;
    assert Square(x - y) == 4.0 * Square(d);
  }

  lemma {:induction false} EqualScoresSum(xs: seq<real>, x: real)
    requires forall i :: 0 <= i < |xs| ==> xs[i] == x
    ensures Sum(xs) == |xs| as real * x && SquaredDistances(xs, x) == 0.0
  {
    if xs != [] { EqualScoresSum(xs[..|xs| - 1], x); }
  }

  /** A group of equal scores has them as its mean, and no variance but the least that is allowed. */
  lemma EqualScores(xs: seq<real>, x: real, eps: real, sqrt: real -> real)
    requires |xs| >= 2 && eps > 0.0 && forall i :: 0 <= i < |xs| ==> xs[i] == x
    ensures MeanOf(xs) == x && StdOf(xs, eps, sqrt) == sqrt(eps)
  {
    EqualScoresSum(xs, x);
    var n := |xs| as real;
    assert n * x / n == x;
  }
}
