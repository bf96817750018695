/**
 * The cost-of-fractions helpers: the candidate fraction counts, the OAR BED of
 * a static-dose treatment, the equal-fraction tumour dose, the linear cost of
 * extra fractions added to a BED table, the search for the costs that make a
 * target number of fractions optimal, and the fitted OAR BED model.
 */
module ConstEval {
  import opened Wrappers
  import opened NumpyOps
  import opened Bed

  /** `fractions`: the candidate numbers of fractions, `np.arange(2, n_max + 1)`. */
  function Fractions(nMax: int): (r: seq<int>)
    ensures |r| == if nMax >= 2 then nMax - 1 else 0
  {
    if nMax < 2 then [] else seq(nMax - 1, k requires 0 <= k < nMax - 1 => k + 2)
  }

  /**
   * The candidates are exactly the counts from 2 to `n_max`, in increasing
   * order, one fraction apart.
   */
  lemma FractionsRange(nMax: int)
    ensures forall n :: n in Fractions(nMax) <==> 2 <= n <= nMax
    ensures nMax >= 2 ==> Fractions(nMax)[0] == 2 && Fractions(nMax)[nMax - 2] == nMax
    ensures forall k :: 0 <= k < |Fractions(nMax)| - 1 ==> Fractions(nMax)[k + 1] == Fractions(nMax)[k] + 1
  {
    var r := Fractions(nMax);
    forall n | 2 <= n <= nMax
      ensures n in r
    {
      assert r[n - 2] == n;
    }
  }

  /**
   * The per-fraction OAR BEDs of the static dose `d`: the first (planning)
   * sparing factor is dropped, each remaining one is charged
   * `sf * d * (1 + sf * d / abn)`.
   */
  function StaticBeds(sf: seq<real>, d: real, abn: real): (bs: seq<real>)
    requires abn != 0.0
    ensures |bs| == if |sf| == 0 then 0 else |sf| - 1
  {
    if |sf| == 0 then []
    else seq(|sf| - 1, k requires 0 <= k < |sf| - 1 => BedCalc0(d, abn, sf[k + 1]))
  }

  /** `B_noaft`: OAR BED of a treatment that gives the same dose in every fraction. */
  function BNoAft(sf: seq<real>, d: real, abn: real): real
    requires abn != 0.0
  {
    Sum(StaticBeds(sf, d, abn))
  }

  /**
   * The static-dose sum charges every treatment fraction the BED of `d` at its
   * sparing factor: one more observed sparing factor adds exactly its BED, and
   * the planning sparing factor alone costs nothing.
   */
  lemma BNoAftAppend(sf: seq<real>, x: real, d: real, abn: real)
    requires abn != 0.0 && |sf| > 0
    ensures |sf| == 1 ==> BNoAft(sf, d, abn) == 0.0
    ensures BNoAft(sf + [x], d, abn) == BNoAft(sf, d, abn) + BedCalc0(d, abn, x)
  {
    var longer := sf + [x];
    var bs := StaticBeds(longer, d, abn);
    var shorter := StaticBeds(sf, d, abn);
    forall k | 0 <= k < |shorter|
      ensures bs[k] == shorter[k]
    {
      assert longer[k + 1] == sf[k + 1];
    }
    assert bs[..|bs| - 1] == shorter;
    assert bs[|bs| - 1] == BedCalc0(d, abn, x) by { assert longer[|sf|] == x; }
  }

  /** The planning sparing factor does not enter the sum. */
  lemma BNoAftIgnoresPlanning(p: real, q: real, rest: seq<real>, d: real, abn: real)
    requires abn != 0.0
    ensures BNoAft([p] + rest, d, abn) == BNoAft([q] + rest, d, abn)
  {
    var withP, withQ := [p] + rest, [q] + rest;
    forall k | 0 <= k < |rest|
      ensures StaticBeds(withP, d, abn)[k] == StaticBeds(withQ, d, abn)[k]
    {
      assert withP[k + 1] == rest[k] == withQ[k + 1];
    }
    assert StaticBeds(withP, d, abn) == StaticBeds(withQ, d, abn);
  }

  /** With a constant sparing factor every fraction after the planning scan has the same BED. */
  lemma StaticBedsConstant(p: real, s: real, n: nat, d: real, abn: real)
    requires abn != 0.0
    ensures StaticBeds([p] + Full(n, s), d, abn) == Full(n, BedCalc0(d, abn, s))
  {
    var sf := [p] + Full(n, s);
    forall k | 0 <= k < n
      ensures StaticBeds(sf, d, abn)[k] == Full(n, BedCalc0(d, abn, s))[k]
    {
      assert sf[k + 1] == s;
    }
  }

  /** With a constant sparing factor the static-dose OAR BED is `n` times the BED of one fraction. */
  lemma BNoAftConstant(p: real, s: real, n: nat, abn: real)
    requires abn != 0.0
    ensures forall d {:trigger BNoAft([p] + Full(n, s), d, abn)} ::
      BNoAft([p] + Full(n, s), d, abn) == n as real * BedCalc0(d, abn, s)
  {
    forall d
      ensures BNoAft([p] + Full(n, s), d, abn) == n as real * BedCalc0(d, abn, s)
    {
      StaticBedsConstant(p, s, n, d, abn);
      SumFull(n, BedCalc0(d, abn, s));
    }
  }

  /** `d_T`: the tumour dose per fraction that reaches `goal` in `n` equal fractions. */
  function DT(sqrt: real -> real, n: real, abt: real, goal: real): real
    requires n != 0.0
  {
    (sqrt(n * abt * (n * abt + 4.0 * goal)) - n * abt) / (2.0 * n)
  }

  /** The root `d` of `d_T` satisfies the quadratic `n d^2 + n abt d == abt goal`. */
  lemma DTQuadratic(sqrt: real -> real, n: real, abt: real, goal: real)
    requires IsSqrt(sqrt)
    requires n > 0.0 && abt > 0.0 && goal >= 0.0
    ensures var d := DT(sqrt, n, abt, goal);
      d >= 0.0 && n * d * d + n * abt * d == abt * goal
  {
    var na := n * abt;
    var arg := n * abt * (n * abt + 4.0 * goal);
    assert na > 0.0;
    assert arg >= 0.0 by { MulMonotone(0.0, na, 0.0, na + 4.0 * goal); }
    var q := sqrt(arg);
    assert q >= 0.0 && q * q == arg;
    var d := DT(sqrt, n, abt, goal);
    assert d == (q - na) / (2.0 * n);
    assert (2.0 * n) * d == q - na;
    assert arg == na * na + 4.0 * n * (abt * goal);
    calc {
      4.0 * n * (n * d * d + n * abt * d);
      (2.0 * n * d) * (2.0 * n * d) + 2.0 * (2.0 * n * d) * na;
      (2.0 * n * d + na) * (2.0 * n * d + na) - na * na;
      q * q - na * na;
      arg - na * na;
      4.0 * n * (abt * goal);
    }
    CancelPositive(n * d * d + n * abt * d, abt * goal, 4.0 * n);
    assert q * q >= na * na by { MulMonotone(0.0, na, 0.0, na); }
    SquareOrder(q, na);
    assert q - na >= 0.0;
    QuotientSign(q - na, 2.0 * n);
  }

  /**
   * `n` fractions of `d_T` deliver the tumour goal exactly, and `d_T` is the
   * largest dose that `n` equal fractions can give without exceeding it.
   */
  lemma DTSolves(sqrt: real -> real, n: real, abt: real, goal: real)
    requires IsSqrt(sqrt)
    requires n > 0.0 && abt > 0.0 && goal >= 0.0
    ensures DT(sqrt, n, abt, goal) >= 0.0
    ensures n * BedCalc0(DT(sqrt, n, abt, goal), abt, 1.0) == goal
    ensures forall x :: x >= 0.0 ==>
      (n * BedCalc0(x, abt, 1.0) <= goal <==> x <= DT(sqrt, n, abt, goal))
  {
    var d := DT(sqrt, n, abt, goal);
    DTQuadratic(sqrt, n, abt, goal);
    var share := goal / n;
    assert n * share == goal;
    calc {
      n * (d * d + d * abt);
      n * d * d + n * abt * d;
      abt * goal;
      n * (share * abt);
    }
    CancelPositive(d * d + d * abt, share * abt, n);
    LqOfQuadratic(d, abt, share);
    BedIsLq(d, abt, 1.0);
    assert BedCalc0(d, abt, 1.0) == share;
    forall x | x >= 0.0
      ensures n * BedCalc0(x, abt, 1.0) <= goal <==> x <= d
    {
      if x <= d {
        BedMonotone(x, d, abt, 1.0, 1.0);
        MulMonotone(0.0, n, BedCalc0(x, abt, 1.0), BedCalc0(d, abt, 1.0));
      } else {
        BedStrictInDose(d, x, abt, 1.0);
        BedMonotone(0.0, d, abt, 1.0, 1.0);
        MulStrict(BedCalc0(d, abt, 1.0), BedCalc0(x, abt, 1.0), n);
      }
    }
  }

  /** `Cn`: the cost `c * k` of treating in `k` fractions, for every candidate `k`. */
  function Cn(nMax: int, c: real): (r: seq<real>)
    ensures |r| == |Fractions(nMax)|
  {
    var lin := Fractions(nMax);
    seq(|lin|, k requires 0 <= k < |lin| => c * lin[k] as real)
  }

  /** Each additional fraction costs exactly `c` more, starting from `2 c`. */
  lemma CnMarginal(nMax: int, c: real)
    ensures nMax >= 2 ==> Cn(nMax, c)[0] == 2.0 * c
    ensures forall k :: 0 <= k < |Cn(nMax, c)| - 1 ==> Cn(nMax, c)[k + 1] == Cn(nMax, c)[k] + c
  {
    FractionsRange(nMax);
  }

  /** A BED table: row 0 the fraction counts, rows 1 and 2 a BED per count. */
  predicate Shaped(bed: seq<seq<real>>, nMax: int) {
    |bed| >= 3 && forall i :: 0 <= i < |bed| ==> |bed[i]| == |Fractions(nMax)|
  }

  /** The row update `row += C`. */
  function Charged(row: seq<real>, cost: seq<real>): (r: seq<real>)
    requires |row| == |cost|
    ensures |r| == |row|
  {
    seq(|row|, k requires 0 <= k < |row| => row[k] + cost[k])
  }

  /** The cost table of `Fn`: rows 1 and 2 charged `Cn`, every other row as it was. */
  function TotalCost(bed: seq<seq<real>>, nMax: int, c: real): (t: seq<seq<real>>)
    requires Shaped(bed, nMax)
    ensures Shaped(t, nMax)
  {
    seq(|bed|, i requires 0 <= i < |bed| =>
      if i == 1 || i == 2 then Charged(bed[i], Cn(nMax, c)) else bed[i])
  }

  /**
   * The cost table keeps the fraction counts of row 0 and every row after the
   * two BED rows, and charges both BED rows `c` per fraction.
   */
  lemma TotalCostSpec(bed: seq<seq<real>>, nMax: int, c: real)
    requires Shaped(bed, nMax)
    ensures TotalCost(bed, nMax, c)[0] == bed[0]
    ensures forall i, k :: 1 <= i <= 2 && 0 <= k < |bed[i]| ==>
      TotalCost(bed, nMax, c)[i][k] == bed[i][k] + c * Fractions(nMax)[k] as real
    ensures forall i :: 3 <= i < |bed| ==> TotalCost(bed, nMax, c)[i] == bed[i]
  {
  }

  /** Row `i` of a two-dimensional array. */
  function Row(a: array2<real>, i: nat): (r: seq<real>)
    requires i < a.Length0
    reads a
    ensures |r| == a.Length1
  {
    seq(a.Length1, k requires 0 <= k < a.Length1 reads a => a[i, k])
  }

  /** The rows of a two-dimensional array. */
  function Rows(a: array2<real>): (rs: seq<seq<real>>)
    reads a
    ensures |rs| == a.Length0
  {
    seq(a.Length0, i requires 0 <= i < a.Length0 reads a => Row(a, i))
  }

  /** `Fn`: a copy of the BED table with the fraction cost added in place to rows 1 and 2. */
  method Fn(nMax: int, c: real, bed: array2<real>) returns (totalCost: array2<real>)
    requires Shaped(Rows(bed), nMax)
    ensures fresh(totalCost)
    ensures Rows(totalCost) == TotalCost(Rows(bed), nMax, c)
  {
    var cost := Cn(nMax, c);
    assert bed.Length1 == |cost| by { assert |Rows(bed)[0]| == bed.Length1; }
    totalCost := new real[bed.Length0, bed.Length1];
    forall i, k | 0 <= i < bed.Length0 && 0 <= k < bed.Length1 {
      totalCost[i, k] := bed[i, k];
    }
    forall k | 0 <= k < bed.Length1 {
      totalCost[1, k] := totalCost[1, k] + cost[k];
    }
    forall k | 0 <= k < bed.Length1 {
      totalCost[2, k] := totalCost[2, k] + cost[k];
    }
    var expected := TotalCost(Rows(bed), nMax, c);
    forall i | 0 <= i < bed.Length0
      ensures Rows(totalCost)[i] == expected[i]
    {
      forall k | 0 <= k < bed.Length1
        ensures Row(totalCost, i)[k] == expected[i][k]
      {
        assert Rows(bed)[i][k] == bed[i, k];
      }
    }
  }

  /**
   * The number of fractions `c_find` selects for the cost `c` on BED row
   * `row`: the count in row 0 at the first minimum of the total cost.
   */
  function Selected(bed: seq<seq<real>>, nMax: int, c: real, row: nat): real
    requires Shaped(bed, nMax) && 1 <= row <= 2 && nMax >= 2
  {
    bed[0][ArgMin(Charged(bed[row], Cn(nMax, c)))]
  }

  /**
   * The selected count is the count of a cheapest entry of the cost row, and
   * no earlier entry is as cheap.
   */
  lemma SelectedIsFirstCheapest(bed: seq<seq<real>>, nMax: int, c: real, row: nat)
    requires Shaped(bed, nMax) && 1 <= row <= 2 && nMax >= 2
    ensures var cost := TotalCost(bed, nMax, c)[row];
      exists i :: 0 <= i < |cost| && Selected(bed, nMax, c, row) == bed[0][i] &&
        (forall k :: 0 <= k < |cost| ==> cost[i] <= cost[k]) &&
        (forall k :: 0 <= k < i ==> cost[i] < cost[k])
  {
    var cost := TotalCost(bed, nMax, c)[row];
    var i := ArgMin(cost);
    assert Selected(bed, nMax, c, row) == bed[0][i];
  }

  /** `f` applied to every entry of `cs`, in order. */
  function Map(cs: seq<real>, f: real -> real): (r: seq<real>)
    ensures |r| == |cs| && forall j :: 0 <= j < |cs| ==> r[j] == f(cs[j])
  {
    seq(|cs|, j requires 0 <= j < |cs| => f(cs[j]))
  }

  /** The selection of one BED row as a function of the cost. */
  function Pick(bed: seq<seq<real>>, nMax: int, row: nat): real -> real
    requires Shaped(bed, nMax) && 1 <= row <= 2 && nMax >= 2
  {
    c => Selected(bed, nMax, c, row)
  }

  /** `f` selects like row `row` of `bed` for every cost. */
  ghost predicate Picks(f: real -> real, bed: seq<seq<real>>, nMax: int, row: nat)
    requires Shaped(bed, nMax) && 1 <= row <= 2 && nMax >= 2
  {
    forall c {:trigger Selected(bed, nMax, c, row)} :: f(c) == Selected(bed, nMax, c, row)
  }

  /** The selected counts for every cost in the list, in list order. */
  function SelectedList(cs: seq<real>, bed: seq<seq<real>>, nMax: int, row: nat): (ns: seq<real>)
    requires Shaped(bed, nMax) && 1 <= row <= 2 && nMax >= 2
  {
    Map(cs, Pick(bed, nMax, row))
  }

  /** The mask `n_list == n_targ`. */
  function Hits(ns: seq<real>, nTarg: real): (m: seq<bool>)
    ensures |m| == |ns| && forall j :: 0 <= j < |ns| ==> (m[j] <==> ns[j] == nTarg)
  {
    seq(|ns|, j requires 0 <= j < |ns| => ns[j] == nTarg)
  }

  /**
   * `np.nonzero(n_list == n_targ)` lists exactly the indices whose selected
   * count is `nTarg`, in increasing order.
   */
  lemma HitIndices(ns: seq<real>, nTarg: real)
    ensures var idx := Nonzero(Hits(ns, nTarg));
      (forall j :: 0 <= j < |ns| ==> (j in idx <==> ns[j] == nTarg)) &&
      (forall i :: 0 <= i < |idx| ==> idx[i] < |ns| && ns[idx[i]] == nTarg) &&
      (forall i, i' :: 0 <= i < i' < |idx| ==> idx[i] < idx[i'])
  {
  }

  /** `c_list[mask][[0, -1]]`: the first and the last masked cost, if there is one. */
  function FirstLast(cs: seq<real>, mask: seq<bool>): Option<(real, real)>
    requires |mask| == |cs|
  {
    var kept := Masked(cs, mask);
    if |kept| == 0 then None else Some((kept[0], kept[|kept| - 1]))
  }

  /**
   * `cs[j]` and `cs[j']` are the costs at the first and the last index whose
   * selected count is `nTarg`.
   */
  predicate FirstAndLastHit(cs: seq<real>, ns: seq<real>, nTarg: real, pair: seq<real>)
    requires |ns| == |cs|
  {
    exists j, j' :: 0 <= j <= j' < |cs| && pair == [cs[j], cs[j']] &&
      ns[j] == nTarg && ns[j'] == nTarg &&
      (forall k :: 0 <= k < j ==> ns[k] != nTarg) && (forall k :: j' < k < |cs| ==> ns[k] != nTarg)
  }

  /**
   * `c_list[n_list == n_targ][[0, -1]]` exists exactly when some selected
   * count is `nTarg`, and is then the first and the last such cost.
   */
  lemma FirstLastHits(cs: seq<real>, ns: seq<real>, nTarg: real)
    requires |ns| == |cs|
    ensures FirstLast(cs, Hits(ns, nTarg)).Some? <==> exists j :: 0 <= j < |cs| && ns[j] == nTarg
    ensures FirstLast(cs, Hits(ns, nTarg)).Some? ==>
      var v := FirstLast(cs, Hits(ns, nTarg)).value;
      FirstAndLastHit(cs, ns, nTarg, [v.0, v.1])
  {
    var mask := Hits(ns, nTarg);
    if |Nonzero(mask)| > 0 {
      HitEnds(cs, ns, nTarg);
    }
  }

  /** When some count is `nTarg`, the masked costs start and end at the first and the last hit. */
  lemma HitEnds(cs: seq<real>, ns: seq<real>, nTarg: real)
    requires |ns| == |cs| && |Nonzero(Hits(ns, nTarg))| > 0
    ensures FirstLast(cs, Hits(ns, nTarg)).Some?
    ensures var v := FirstLast(cs, Hits(ns, nTarg)).value;
      FirstAndLastHit(cs, ns, nTarg, [v.0, v.1])
  {
    var mask := Hits(ns, nTarg);
    var idx := Nonzero(mask);
    NonzeroEnds(mask);
    var j, j' := idx[0], idx[|idx| - 1];
    assert j <= j' by {
      if |idx| > 1 {
        assert idx[0] < idx[|idx| - 1];
      }
    }
    var kept := Masked(cs, mask);
    assert kept[0] == cs[j] && kept[|kept| - 1] == cs[j'];
    var v := FirstLast(cs, mask).value;
    assert [v.0, v.1] == [cs[j], cs[j']];
    assert ns[j] == nTarg && ns[j'] == nTarg;
    assert forall k :: 0 <= k < j ==> ns[k] != nTarg by {
      assert forall k :: 0 <= k < j ==> !mask[k];
    }
    assert forall k :: j' < k < |cs| ==> ns[k] != nTarg by {
      assert forall k :: j' < k < |cs| ==> !mask[k];
    }
  }

  datatype CFindError = NoMatch

  /**
   * The table `c_find` builds from the selected counts: row 0 zeros, then the
   * first and the last cost whose count is `nTarg` in each list; no such cost
   * in either list is an error.
   */
  function Found(cs: seq<real>, nsNoaft: seq<real>, nsAft: seq<real>, nTarg: real): Result<seq<seq<real>>, CFindError>
    requires |nsNoaft| == |cs| && |nsAft| == |cs|
  {
    var noaft := FirstLast(cs, Hits(nsNoaft, nTarg));
    var aft := FirstLast(cs, Hits(nsAft, nTarg));
    if noaft.None? || aft.None? then Failure(NoMatch)
    else Success([[0.0, 0.0], [noaft.value.0, noaft.value.1], [aft.value.0, aft.value.1]])
  }

  /** What `c_find` returns for a cost list and a BED table. */
  function CFindSpec(cs: seq<real>, bed: seq<seq<real>>, nMax: int, nTarg: real): Result<seq<seq<real>>, CFindError>
    requires Shaped(bed, nMax) && nMax >= 2
  {
    Found(cs, SelectedList(cs, bed, nMax, 1), SelectedList(cs, bed, nMax, 2), nTarg)
  }

  /**
   * The table succeeds exactly when both lists contain `nTarg`; on success
   * row 0 is zero and rows 1 and 2 hold the first and the last cost whose
   * count is `nTarg` in the first and in the second list.
   */
  lemma FoundMeaning(cs: seq<real>, nsNoaft: seq<real>, nsAft: seq<real>, nTarg: real)
    requires |nsNoaft| == |cs| && |nsAft| == |cs|
    ensures Found(cs, nsNoaft, nsAft, nTarg).Success? <==>
      (exists j :: 0 <= j < |cs| && nsNoaft[j] == nTarg) && (exists j :: 0 <= j < |cs| && nsAft[j] == nTarg)
    ensures Found(cs, nsNoaft, nsAft, nTarg).Success? ==>
      var found := Found(cs, nsNoaft, nsAft, nTarg).value;
      found[0] == [0.0, 0.0] &&
      FirstAndLastHit(cs, nsNoaft, nTarg, found[1]) && FirstAndLastHit(cs, nsAft, nTarg, found[2])
  {
    FirstLastHits(cs, nsNoaft, nTarg);
    FirstLastHits(cs, nsAft, nTarg);
  }

  /**
   * `c_find` succeeds exactly when both rows select `nTarg` for some cost; on
   * success row 0 is zero and rows 1 and 2 hold the first and the last such
   * cost of the no-adaptation and of the adaptive row.
   */
  lemma CFindSpecMeaning(cs: seq<real>, bed: seq<seq<real>>, nMax: int, nTarg: real)
    requires Shaped(bed, nMax) && nMax >= 2
    ensures var noaft, aft := SelectedList(cs, bed, nMax, 1), SelectedList(cs, bed, nMax, 2);
      CFindSpec(cs, bed, nMax, nTarg).Success? <==>
        (exists j :: 0 <= j < |cs| && noaft[j] == nTarg) && (exists j :: 0 <= j < |cs| && aft[j] == nTarg)
    ensures var noaft, aft := SelectedList(cs, bed, nMax, 1), SelectedList(cs, bed, nMax, 2);
      CFindSpec(cs, bed, nMax, nTarg).Success? ==>
        var found := CFindSpec(cs, bed, nMax, nTarg).value;
        found[0] == [0.0, 0.0] &&
        FirstAndLastHit(cs, noaft, nTarg, found[1]) && FirstAndLastHit(cs, aft, nTarg, found[2])
  {
    FoundMeaning(cs, SelectedList(cs, bed, nMax, 1), SelectedList(cs, bed, nMax, 2), nTarg);
  }

  /** The loop body of `c_find` for one cost: the count each BED row selects. */
  method SelectFor(nMax: int, c: real, bed: array2<real>, ghost pick1: real -> real, ghost pick2: real -> real)
    returns (nNoaft: real, nAft: real)
    requires Shaped(Rows(bed), nMax) && nMax >= 2
    requires Picks(pick1, Rows(bed), nMax, 1) && Picks(pick2, Rows(bed), nMax, 2)
    ensures nNoaft == pick1(c) && nAft == pick2(c)
  {
    var fn := Fn(nMax, c, bed);
    assert Row(fn, 0) == Rows(bed)[0] by { assert Rows(fn)[0] == Row(fn, 0); }
    assert Row(fn, 1) == TotalCost(Rows(bed), nMax, c)[1] by { assert Rows(fn)[1] == Row(fn, 1); }
    assert Row(fn, 2) == TotalCost(Rows(bed), nMax, c)[2] by { assert Rows(fn)[2] == Row(fn, 2); }
    var iNoaft := ArgMin(Row(fn, 1));
    var iAft := ArgMin(Row(fn, 2));
    nAft := fn[0, iAft];
    nNoaft := fn[0, iNoaft];
    assert nNoaft == Selected(Rows(bed), nMax, c, 1);
    assert nAft == Selected(Rows(bed), nMax, c, 2);
  }

  /**
   * The loop of `c_find`: the counts selected for every cost, in two fresh
   * lists; `pick1` and `pick2` stand for the selections of rows 1 and 2.
   */
  method SelectAll(nMax: int, cList: array<real>, bed: array2<real>, ghost pick1: real -> real, ghost pick2: real -> real)
    returns (nListNoaft: array<real>, nListAft: array<real>)
    requires Shaped(Rows(bed), nMax) && nMax >= 2
    requires Picks(pick1, Rows(bed), nMax, 1) && Picks(pick2, Rows(bed), nMax, 2)
    ensures fresh(nListNoaft) && fresh(nListAft)
    ensures nListNoaft[..] == Map(cList[..], pick1) && nListAft[..] == Map(cList[..], pick2)
  {
    var m := cList.Length;
    nListAft := new real[m](_ => 0.0);
    nListNoaft := new real[m](_ => 0.0);
    for j := 0 to m
      invariant forall k {:trigger nListNoaft[k]} :: 0 <= k < j ==> nListNoaft[k] == pick1(cList[k])
      invariant forall k {:trigger nListAft[k]} :: 0 <= k < j ==> nListAft[k] == pick2(cList[k])
    {
      nListNoaft[j], nListAft[j] := SelectFor(nMax, cList[j], bed, pick1, pick2);
    }
  }

  /** The end of `c_find`: the first and the last matching cost of each list, in a fresh 3 x 2 table. */
  method Collect(cList: array<real>, nListNoaft: array<real>, nListAft: array<real>, nTarg: real)
    returns (r: Result<array2<real>, CFindError>)
    requires nListNoaft.Length == cList.Length && nListAft.Length == cList.Length
    ensures r.Success? <==> Found(cList[..], nListNoaft[..], nListAft[..], nTarg).Success?
    ensures r.Success? ==>
      fresh(r.value) && Rows(r.value) == Found(cList[..], nListNoaft[..], nListAft[..], nTarg).value
  {
    var noaft := FirstLast(cList[..], Hits(nListNoaft[..], nTarg));
    var aft := FirstLast(cList[..], Hits(nListAft[..], nTarg));
    if noaft.None? || aft.None? {
      return Failure(NoMatch);
    }
    var found := new real[3, 2]((_, _) => 0.0);
    found[1, 0], found[1, 1] := noaft.value.0, noaft.value.1;
    found[2, 0], found[2, 1] := aft.value.0, aft.value.1;
    ghost var expected := [[0.0, 0.0], [noaft.value.0, noaft.value.1], [aft.value.0, aft.value.1]];
    forall i | 0 <= i < 3
      ensures Rows(found)[i] == expected[i]
    {
      assert Row(found, i) == expected[i];
    }
    assert Rows(found) == expected;
    r := Success(found);
  }

  /**
   * `c_find`: for every cost, the counts the two rows select, then the first
   * and the last cost that selects `nTarg` in each row.
   */
  method CFind(nMax: int, nTarg: real, cList: array<real>, bed: array2<real>)
    returns (r: Result<array2<real>, CFindError>)
    requires Shaped(Rows(bed), nMax) && nMax >= 2
    ensures r.Success? <==> CFindSpec(cList[..], Rows(bed), nMax, nTarg).Success?
    ensures r.Success? ==>
      fresh(r.value) && Rows(r.value) == CFindSpec(cList[..], Rows(bed), nMax, nTarg).value
  {
    ghost var pick1, pick2 := Pick(Rows(bed), nMax, 1), Pick(Rows(bed), nMax, 2);
    var nListNoaft, nListAft := SelectAll(nMax, cList, bed, pick1, pick2);
    r := Collect(cList, nListNoaft, nListAft, nTarg);
  }

  /** The fit parameters of `fitclass`. */
  datatype FitParams = FitParams(tumorGoal: real, abt: real, abn: real)

  /** The closed form `B_func` evaluates for `n` fractions of tumour dose `d`. */
  function FittedBed(n: real, d: real, sf: real, goal: real, abt: real, abn: real): real
    requires sf != 0.0 && abn != 0.0
  {
    sf * sf * n * d * (1.0 / sf - abt / abn) + sf * sf * goal * abt / abn
  }

  /**
   * `fitclass.B_func`: the fitted OAR BED of `n` fractions at sparing factor
   * `sf`, plus the fraction cost `c * n` when a cost is given.
   */
  function BFunc(sqrt: real -> real, fit: FitParams, n: real, sf: real, c: Option<real>): real
    requires n != 0.0 && sf != 0.0 && fit.abn != 0.0
  {
    var goal := fit.tumorGoal;
    var abt := fit.abt;
    var abn := fit.abn;
    var bed := FittedBed(n, DT(sqrt, n, abt, goal), sf, goal, abt, abn);
    match c
    case None => bed
    case Some(cost) => bed + cost * n
  }

  /**
   * The fitted closed form equals `n` times the BED at sparing `sf` of a
   * dose `d` that solves the equal-fraction quadratic.
   */
  lemma FitIdentity(n: real, sf: real, goal: real, abt: real, abn: real)
    requires sf != 0.0 && abn != 0.0
    ensures forall d {:trigger FittedBed(n, d, sf, goal, abt, abn)} :: n * d * d + n * abt * d == abt * goal ==>
      FittedBed(n, d, sf, goal, abt, abn) == n * BedCalc0(d, abn, sf)
  {
    forall d | n * d * d + n * abt * d == abt * goal
      ensures FittedBed(n, d, sf, goal, abt, abn) == n * BedCalc0(d, abn, sf)
    {
      FitIdentityAt(n, d, sf, goal, abt, abn);
    }
  }

  /** `FitIdentity` at one solution `d` of the quadratic. */
  lemma FitIdentityAt(n: real, d: real, sf: real, goal: real, abt: real, abn: real)
    requires sf != 0.0 && abn != 0.0
    requires n * d * d + n * abt * d == abt * goal
    ensures FittedBed(n, d, sf, goal, abt, abn) == n * BedCalc0(d, abn, sf)
  {
    var r := 1.0 / sf;
    var a := abt / abn;
    var q := (sf * d) / abn;
    assert sf * r == 1.0;
    assert a * abn == abt;
    assert q * abn == sf * d;
    assert sf * sf * goal * abt / abn == sf * sf * goal * a by {
      assert (sf * sf * goal * a) * abn == sf * sf * goal * abt;
    }
    FitCore(n, d, sf, goal, abt, abn, r, a, q);
  }

  /** The polynomial core of `FitIdentityAt`, with the quotients named. */
  lemma FitCore(n: real, d: real, sf: real, goal: real, abt: real, abn: real, r: real, a: real, q: real)
    requires abn != 0.0 && sf * r == 1.0 && a * abn == abt && q * abn == sf * d
    requires n * d * d + n * abt * d == abt * goal
    ensures sf * sf * n * d * (r - a) + sf * sf * goal * a == n * (sf * d * (1.0 + q))
  {
    var s2 := sf * sf;
    var x := s2 * goal * a - s2 * n * d * a;
    assert s2 * n * d * r == sf * n * d by {
      assert s2 * n * d * r == (sf * r) * (sf * n * d);
    }
    assert x * abn == s2 * (abt * goal - abt * n * d);
    assert abt * goal - abt * n * d == n * d * d;
    assert (n * sf * d * q) * abn == s2 * (n * d * d);
    assert x * abn == (n * sf * d * q) * abn;
    CancelNonzero(x, n * sf * d * q, abn);
  }

  lemma CancelNonzero(x: real, y: real, k: real)
    requires k != 0.0 && x * k == y * k
    ensures x == y
  {
    assert (x - y) * k == 0.0;
  }

  /**
   * The fitted model is the OAR BED of `n` equal fractions of `d_T` at the
   * constant sparing factor `sf`, plus `c * n` when a cost is given.
   */
  lemma BFuncIsFittedBed(sqrt: real -> real, fit: FitParams, n: real, sf: real, c: Option<real>)
    requires IsSqrt(sqrt)
    requires n > 0.0 && fit.abt > 0.0 && fit.tumorGoal >= 0.0 && sf != 0.0 && fit.abn != 0.0
    ensures BFunc(sqrt, fit, n, sf, None) == n * BedCalc0(DT(sqrt, n, fit.abt, fit.tumorGoal), fit.abn, sf)
    ensures c.Some? ==> BFunc(sqrt, fit, n, sf, c) == BFunc(sqrt, fit, n, sf, None) + c.value * n
  {
    DTQuadratic(sqrt, n, fit.abt, fit.tumorGoal);
    FitIdentity(n, sf, fit.tumorGoal, fit.abt, fit.abn);
  }

  /**
   * Without a cost, the fitted model is `B_noaft` of a treatment whose
   * sparing factors after the planning scan all equal `sf`, each fraction
   * delivering `d_T`.
   */
  lemma BFuncIsStaticOarBed(sqrt: real -> real, fit: FitParams, n: nat, p: real, sf: real)
    requires IsSqrt(sqrt)
    requires n > 0 && fit.abt > 0.0 && fit.tumorGoal >= 0.0 && sf != 0.0 && fit.abn != 0.0
    ensures BFunc(sqrt, fit, n as real, sf, None) == BNoAft([p] + Full(n, sf), DT(sqrt, n as real, fit.abt, fit.tumorGoal), fit.abn)
  {
    var d := DT(sqrt, n as real, fit.abt, fit.tumorGoal);
    BFuncIsFittedBed(sqrt, fit, n as real, sf, None);
    BNoAftConstant(p, sf, n, fit.abn);
    assert BNoAft([p] + Full(n, sf), d, fit.abn) == n as real * BedCalc0(d, fit.abn, sf);
  }
}
