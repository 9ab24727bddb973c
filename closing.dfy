/**
 * Closing the books (pages/TutupBukuPage.tsx): the profit still available for distribution,
 * the split of a profit into a member pool and a reserve pool, each member's pro-rata share,
 * the simulation table and the arguments `executeDistribution` hands to distributeSHU.
 */
module Closing {
  import opened Wrappers
  import opened Types
  import opened Lists
  import opened Ledger
  import opened LoanMath
  import opened Distribution

  // ---------------------------------------------------------------------------
  // Available profit (fetchData)
  // ---------------------------------------------------------------------------

  /** totalInterestCollected: the interest earned so far on every loan. */
  function InterestSum(loans: seq<Pinjaman>): Money {
    Sum(loans, InterestPart)
  }

  predicate IsProfitShare(x: Transaksi) {
    x.jenis == BagiHasil
  }

  function Magnitude(x: Transaksi): Money {
    Abs(x.nominal)
  }

  /** totalDistributed: the magnitudes of all BAGI_HASIL transactions (they are stored negative). */
  function Distributed(trx: seq<Transaksi>): (r: Money)
    ensures r >= 0.0
  {
    SumNonneg(Filter(trx, IsProfitShare), Magnitude);
    Sum(Filter(trx, IsProfitShare), Magnitude)
  }

  /** The profit left to share: interest earned less profit already shared, never negative. */
  function Available(collected: Money, distributed: Money): (r: Money)
    ensures r >= 0.0 && r >= collected - distributed
    ensures collected >= distributed ==> r == collected - distributed
    ensures collected <= distributed ==> r == 0.0
  {
    Max(0.0, collected - distributed)
  }

  datatype Finances = Finances(accumulatedInterest: Money, distributedSHU: Money, availableProfit: Money)

  /** fetchData's figures: the loan loop accumulates the interest earned, loan by loan. */
  method FetchFinances(loans: seq<Pinjaman>, trx: seq<Transaksi>) returns (f: Finances)
    ensures f.accumulatedInterest == InterestSum(loans)
    ensures f.distributedSHU == Distributed(trx)
    ensures f.availableProfit == Available(InterestSum(loans), Distributed(trx))
  {
    var totalInterestCollected := 0.0;
    for i := 0 to |loans|
      invariant totalInterestCollected == InterestSum(loans[..i])
    {
      var loan := loans[i];
      var totalBunga := loan.jumlahPinjaman * (loan.bungaPersen / 100.0) * loan.tenorBulan as real;
      var totalTagihan := loan.jumlahPinjaman + totalBunga;
      var sisa := Max(0.0, loan.sisaPinjaman);
      var terbayar := totalTagihan - sisa;
      if totalTagihan > 0.0 {
        var interestPart := (totalBunga / totalTagihan) * terbayar;
        totalInterestCollected := totalInterestCollected + interestPart;
      }
      InterestSumStep(loans, i);
    }
    assert loans[..|loans|] == loans;
    var totalDistributed := Distributed(trx);
    f := Finances(totalInterestCollected, totalDistributed, Available(totalInterestCollected, totalDistributed));
  }

  lemma InterestSumStep(loans: seq<Pinjaman>, i: nat)
    requires i < |loans|
    ensures InterestSum(loans[..i + 1]) == InterestSum(loans[..i]) + InterestPart(loans[i])
  {
    assert loans[..i + 1][..i] == loans[..i];
  }

  /** A loan is well-formed when its terms are non-negative and its balance lies between 0 and its debt. */
  predicate WellFormedLoan(l: Pinjaman) {
    l.jumlahPinjaman >= 0.0 && l.bungaPersen >= 0.0 && l.tenorBulan >= 0 && 0.0 <= l.sisaPinjaman <= Debt(l)
  }

  function FlatInterest(l: Pinjaman): Money {
    TotalBunga(l.jumlahPinjaman, l.bungaPersen, l.tenorBulan)
  }

  /** Over well-formed loans the interest earned is between nothing and the total flat interest. */
  lemma InterestSumBounds(loans: seq<Pinjaman>)
    requires forall i :: 0 <= i < |loans| ==> WellFormedLoan(loans[i])
    ensures 0.0 <= InterestSum(loans) <= Sum(loans, FlatInterest)
  {
    forall i | 0 <= i < |loans| ensures 0.0 <= InterestPart(loans[i]) <= FlatInterest(loans[i]) {
      InterestPartBounds(loans[i]);
    }
    SumNonneg(loans, InterestPart);
    SumMono(loans, InterestPart, FlatInterest);
  }

  // ---------------------------------------------------------------------------
  // Pools, basis and shares
  // ---------------------------------------------------------------------------

  datatype Pools = Pools(anggota: Money, koperasi: Money)

  /** danaAnggota = floor(profit × pct / 100); danaKoperasi is the rest. */
  function SplitProfit(profit: Money, persen: real): (r: Pools)
    ensures r.anggota + r.koperasi == profit
    ensures r.anggota <= profit * (persen / 100.0) < r.anggota + 1.0
    ensures r.anggota == r.anggota.Floor as real
    ensures profit >= 0.0 && 0.0 <= persen <= 100.0 ==> 0.0 <= r.anggota && 0.0 <= r.koperasi
  {
    var anggota := Floor(profit * (persen / 100.0)) as real;
    assert profit >= 0.0 && 0.0 <= persen <= 100.0 ==> profit * (persen / 100.0) <= profit by {
      if profit >= 0.0 && 0.0 <= persen <= 100.0 {
        ScaleAtMost(profit, persen / 100.0);
      }
    }
    Pools(anggota, profit - anggota)
  }

  /** The members that share: everyone but the reserve account. */
  function ActiveMembers(ns: seq<Member>): (r: seq<Member>)
    ensures forall i :: 0 <= i < |r| ==> r[i].idNasabah != KOPERASI && r[i] in ns
    ensures forall i :: 0 <= i < |ns| && ns[i].idNasabah != KOPERASI ==> ns[i] in r
  {
    Filter(ns, (n: Member) => n.idNasabah != KOPERASI)
  }

  /** totalSimpananBasis: pokok + wajib + sukarela over the sharing members. */
  function Basis(ns: seq<Member>): Money {
    Sum(ActiveMembers(ns), Savings)
  }

  /** A member's contribution to the basis: its savings, nothing for the reserve account. */
  function BasisPart(n: Member): Money {
    if n.idNasabah != KOPERASI then Savings(n) else 0.0
  }

  lemma BasisAsSum(ns: seq<Member>)
    ensures Basis(ns) == Sum(ns, BasisPart)
  {
    SumFilter(ns, (n: Member) => n.idNasabah != KOPERASI, Savings, BasisPart);
  }

  /** The savings basis looks neither at SHU nor at the reserve account: two member lists that agree
      on ids and on everyone else's savings have the same basis. */
  lemma BasisIgnoresShuAndReserve(a: seq<Member>, b: seq<Member>)
    requires |a| == |b|
    requires forall k :: 0 <= k < |a| ==> a[k].idNasabah == b[k].idNasabah
    requires forall k :: 0 <= k < |a| && a[k].idNasabah != KOPERASI ==> Savings(a[k]) == Savings(b[k])
    ensures Basis(a) == Basis(b)
  {
    BasisAsSum(a);
    BasisAsSum(b);
    BasisPartsAgree(a, b);
  }

  lemma {:induction false} BasisPartsAgree(a: seq<Member>, b: seq<Member>)
    requires |a| == |b|
    requires forall k :: 0 <= k < |a| ==> BasisPart(a[k]) == BasisPart(b[k])
    ensures Sum(a, BasisPart) == Sum(b, BasisPart)
    decreases |a|
  {
    if |a| > 0 {
      BasisPartsAgree(a[..|a| - 1], b[..|b| - 1]);
    }
  }

  /** Appending the reserve account leaves the basis as it was. */
  lemma BasisIgnoresAppendedReserve(ns: seq<Member>, m: Member)
    requires m.idNasabah == KOPERASI
    ensures Basis(ns + [m]) == Basis(ns)
  {
    BasisAsSum(ns);
    BasisAsSum(ns + [m]);
    assert (ns + [m])[..|ns|] == ns;
  }

  /** One member's share of a pool: floor(savings / basis × pool), nothing when the basis is not positive. */
  function Share(savings: Money, basis: Money, pool: Money): (r: Money)
    ensures basis <= 0.0 ==> r == 0.0
    ensures basis > 0.0 ==> r <= savings / basis * pool < r + 1.0
    ensures r == r.Floor as real
  {
    if basis > 0.0 then Floor(savings / basis * pool) as real else 0.0
  }

  /** One allocation per sharing member, in order, with its share of the real and of the full pool. */
  function Allocations(ns: seq<Member>, realPool: Money, fullPool: Money): (r: seq<Allocation>)
    ensures |r| == |ActiveMembers(ns)|
    ensures forall i :: 0 <= i < |r| ==> r[i].idNasabah == ActiveMembers(ns)[i].idNasabah && r[i].idNasabah != KOPERASI
    ensures forall i :: 0 <= i < |r| ==>
              && r[i].realNominal == Share(Savings(ActiveMembers(ns)[i]), Basis(ns), realPool)
              && r[i].fullNominal == Share(Savings(ActiveMembers(ns)[i]), Basis(ns), fullPool)
  {
    var members := ActiveMembers(ns);
    var basis := Basis(ns);
    seq(|members|, i requires 0 <= i < |members| =>
      Allocation(members[i].idNasabah, Share(Savings(members[i]), basis, realPool), Share(Savings(members[i]), basis, fullPool)))
  }

  function MemberSharePart(ns: seq<Member>, pool: Money): Member -> Money {
    (m: Member) => Share(Savings(m), Basis(ns), pool)
  }

  function RealPart(a: Allocation): Money {
    a.realNominal
  }

  function FullPart(a: Allocation): Money {
    a.fullNominal
  }

  /** The floored shares never add up to more than the pool they are cut from. */
  lemma SharesWithinPool(ns: seq<Member>, pool: Money)
    requires pool >= 0.0
    ensures Sum(ActiveMembers(ns), MemberSharePart(ns, pool)) <= pool
  {
    var members := ActiveMembers(ns);
    var basis := Basis(ns);
    var share := MemberSharePart(ns, pool);
    if basis > 0.0 {
      var exact := (m: Member) => Savings(m) / basis * pool;
      forall i | 0 <= i < |members| ensures exact(members[i]) == Savings(members[i]) * (pool / basis) {
        Rescale(Savings(members[i]), basis, pool);
      }
      SumScale(members, Savings, exact, pool / basis);
      assert Sum(members, exact) == pool;
      forall i | 0 <= i < |members| ensures share(members[i]) <= exact(members[i]) {
        var _ := Share(Savings(members[i]), basis, pool);
      }
      SumMono(members, share, exact);
    } else {
      SumZero(members, share);
    }
  }

  lemma Rescale(x: real, basis: real, pool: real)
    requires basis > 0.0
    ensures x / basis * pool == x * (pool / basis)
  {
  }

  /** Both nominal columns stay within their pools. */
  lemma AllocationsWithinPools(ns: seq<Member>, realPool: Money, fullPool: Money)
    requires realPool >= 0.0 && fullPool >= 0.0
    ensures Sum(Allocations(ns, realPool, fullPool), RealPart) <= realPool
    ensures Sum(Allocations(ns, realPool, fullPool), FullPart) <= fullPool
  {
    var members := ActiveMembers(ns);
    var r := Allocations(ns, realPool, fullPool);
    SharesWithinPool(ns, realPool);
    SharesWithinPool(ns, fullPool);
    SumMonoPair(r, members, RealPart, MemberSharePart(ns, realPool));
    SumMonoPair(r, members, FullPart, MemberSharePart(ns, fullPool));
  }

  lemma MulMono(q: real, a: real, b: real)
    requires q >= 0.0 && a <= b
    ensures q * a <= q * b && a * q <= b * q
  {
    var d := b - a;
    assert q * d >= 0.0;
    assert q * b == q * a + q * d;
  }

  /** Of two whole numbers less than 1 apart, the first is at most the second. */
  lemma IntValued(a: real, b: real)
    requires a == a.Floor as real && b == b.Floor as real
    requires a < b + 1.0
    ensures a <= b
  {
    var x, y := a.Floor, b.Floor;
    assert x as real < (y + 1) as real;
    assert x <= y;
    assert x as real <= y as real;
  }

  /** A larger pool never gives a member with non-negative savings a smaller share. */
  lemma ShareMono(savings: Money, basis: Money, pool: Money, larger: Money)
    requires savings >= 0.0 && pool <= larger
    ensures Share(savings, basis, pool) <= Share(savings, basis, larger)
  {
    if basis > 0.0 {
      var q := savings / basis;
      assert q >= 0.0;
      MulMono(q, pool, larger);
      assert Share(savings, basis, pool) <= q * pool;
      assert q * larger < Share(savings, basis, larger) + 1.0;
      IntValued(Share(savings, basis, pool), Share(savings, basis, larger));
    }
  }

  /** With a non-negative manual profit and rate the full member pool is at least the real one. */
  lemma FullPoolCoversReal(realProfit: Money, manualProfit: Money, persen: real)
    requires manualProfit >= 0.0 && persen >= 0.0
    ensures SplitProfit(realProfit, persen).anggota <= SplitProfit(realProfit + manualProfit, persen).anggota
  {
    MulMono(persen / 100.0, realProfit, realProfit + manualProfit);
    IntValued(SplitProfit(realProfit, persen).anggota, SplitProfit(realProfit + manualProfit, persen).anggota);
  }

  /** With a non-negative manual profit, every member with non-negative savings gets at least its
      real nominal in full. */
  lemma FullCoversReal(ns: seq<Member>, realProfit: Money, manualProfit: Money, persen: real)
    requires manualProfit >= 0.0 && persen >= 0.0
    requires forall k :: 0 <= k < |ns| ==> Savings(ns[k]) >= 0.0
    ensures var realPool := SplitProfit(realProfit, persen).anggota;
            var fullPool := SplitProfit(realProfit + manualProfit, persen).anggota;
            forall i :: 0 <= i < |Allocations(ns, realPool, fullPool)| ==>
              Allocations(ns, realPool, fullPool)[i].realNominal <= Allocations(ns, realPool, fullPool)[i].fullNominal
  {
    var realPool := SplitProfit(realProfit, persen).anggota;
    var fullPool := SplitProfit(realProfit + manualProfit, persen).anggota;
    FullPoolCoversReal(realProfit, manualProfit, persen);
    var members := ActiveMembers(ns);
    var r := Allocations(ns, realPool, fullPool);
    forall i | 0 <= i < |r| ensures r[i].realNominal <= r[i].fullNominal {
      assert members[i] in ns;
      ShareMono(Savings(members[i]), Basis(ns), realPool, fullPool);
    }
  }

  // ---------------------------------------------------------------------------
  // executeDistribution
  // ---------------------------------------------------------------------------

  /** The arguments executeDistribution passes to distributeSHU. */
  datatype Plan = Plan(allocations: seq<Allocation>, totalReal: Money, reserveReal: Money,
                       totalFull: Money, reserveFull: Money, actor: string)

  /** The real column shares the available profit, the full column that profit plus the manual
      one; each column's reserve is what its floored member pool leaves over. */
  function ExecutePlan(ns: seq<Member>, available: Money, manualProfit: Money, persen: real, user: Option<User>): (r: Plan)
    ensures r.totalReal == available && r.totalFull == available + manualProfit
    ensures |r.allocations| == |ActiveMembers(ns)|
    ensures r.allocations == Allocations(ns, SplitProfit(available, persen).anggota, SplitProfit(available + manualProfit, persen).anggota)
    ensures r.reserveReal == SplitProfit(available, persen).koperasi
    ensures r.reserveFull == SplitProfit(available + manualProfit, persen).koperasi
    ensures r.actor == UsernameOr(user, "admin")
  {
    var realPools := SplitProfit(available, persen);
    var fullPools := SplitProfit(available + manualProfit, persen);
    Plan(Allocations(ns, realPools.anggota, fullPools.anggota), available, realPools.koperasi,
         available + manualProfit, fullPools.koperasi, UsernameOr(user, "admin"))
  }

  /** What the plan hands out never exceeds the profit it shares: the members' nominals plus the
      reserve amount stay within the real profit, and within the full profit for the full column. */
  lemma PlanWithinProfit(ns: seq<Member>, available: Money, manualProfit: Money, persen: real, user: Option<User>)
    requires available >= 0.0 && manualProfit >= 0.0 && 0.0 <= persen <= 100.0
    ensures var plan := ExecutePlan(ns, available, manualProfit, persen, user);
            && Sum(plan.allocations, RealPart) + plan.reserveReal <= plan.totalReal
            && Sum(plan.allocations, FullPart) + plan.reserveFull <= plan.totalFull
            && plan.reserveReal >= 0.0 && plan.reserveFull >= 0.0
  {
    var realPools := SplitProfit(available, persen);
    var fullPools := SplitProfit(available + manualProfit, persen);
    AllocationsWithinPools(ns, realPools.anggota, fullPools.anggota);
  }

  /** 100,000 at 70% between two members with equal savings: 35,000 each and 30,000 for the reserve. */
  lemma PlanExample(a: Member, b: Member)
    requires a.idNasabah != KOPERASI && b.idNasabah != KOPERASI
    requires Savings(a) == Savings(b) && Savings(a) > 0.0
    ensures var plan := ExecutePlan([a, b], 100000.0, 0.0, 70.0, None);
            && plan.allocations == [Allocation(a.idNasabah, 35000.0, 35000.0), Allocation(b.idNasabah, 35000.0, 35000.0)]
            && plan.reserveReal == 30000.0 && plan.reserveFull == 30000.0 && plan.actor == "admin"
  {
    var ns := [a, b];
    assert ns[..1] == [a];
    assert [a][..0] == [];
    assert ActiveMembers(ns) == ns;
    assert Basis(ns) == Savings(a) + Savings(b) by {
      BasisAsSum(ns);
      assert Sum([a], BasisPart) == BasisPart(a);
      assert Sum(ns, BasisPart) == Sum([a], BasisPart) + BasisPart(b);
    }
    Half(Savings(a));
    assert Savings(a) / Basis(ns) == 0.5;
    assert SplitProfit(100000.0, 70.0).anggota == 70000.0;
    assert Share(Savings(a), Basis(ns), 70000.0) == 35000.0;
  }

  lemma Half(x: real)
    requires x > 0.0
    ensures x / (x + x) == 0.5
  {
    assert x + x == 2.0 * x;
  }

  /** 100 at 70% between three members with equal savings: 23 each and 30 for the reserve, so the
      run records 99 and one unit of the profit it shared stays available for the next run. */
  lemma RemainderExample(a: Member, b: Member, c: Member)
    requires a.idNasabah != KOPERASI && b.idNasabah != KOPERASI && c.idNasabah != KOPERASI
    requires Savings(a) == Savings(b) == Savings(c) && Savings(a) > 0.0
    ensures var plan := ExecutePlan([a, b, c], 100.0, 0.0, 70.0, None);
            && plan.allocations == [Allocation(a.idNasabah, 23.0, 23.0), Allocation(b.idNasabah, 23.0, 23.0),
                                    Allocation(c.idNasabah, 23.0, 23.0)]
            && plan.reserveReal == 30.0
            && Sum(plan.allocations, RealPart) + plan.reserveReal == 99.0 < plan.totalReal
  {
    var ns := [a, b, c];
    assert ns[..2] == [a, b];
    assert [a, b][..1] == [a];
    assert [a][..0] == [];
    assert ActiveMembers(ns) == ns;
    assert Basis(ns) == Savings(a) + Savings(b) + Savings(c) by {
      BasisAsSum(ns);
      assert Sum([a], BasisPart) == BasisPart(a);
      assert Sum([a, b], BasisPart) == Sum([a], BasisPart) + BasisPart(b);
      assert Sum(ns, BasisPart) == Sum([a, b], BasisPart) + BasisPart(c);
    }
    Third(Savings(a));
    assert SplitProfit(100.0, 70.0).anggota == 70.0;
    assert Share(Savings(a), Basis(ns), 70.0) == 23.0;
    var plan := ExecutePlan(ns, 100.0, 0.0, 70.0, None);
    var x := Allocation(a.idNasabah, 23.0, 23.0);
    var y := Allocation(b.idNasabah, 23.0, 23.0);
    var z := Allocation(c.idNasabah, 23.0, 23.0);
    assert plan.allocations == [x, y, z];
    assert [x, y, z][..2] == [x, y] && [x, y][..1] == [x] && [x][..0] == [];
    assert Sum([x], RealPart) == 23.0;
    assert Sum([x, y], RealPart) == 46.0;
    assert Sum([x, y, z], RealPart) == 69.0;
  }

  lemma Third(x: real)
    requires x > 0.0
    ensures x / (x + x + x) * 70.0 == 70.0 / 3.0
  {
    assert x + x + x == 3.0 * x;
  }

  // ---------------------------------------------------------------------------
  // What a run adds to the distributed total
  // ---------------------------------------------------------------------------

  /** Appending BAGI_HASIL rows adds their magnitudes to the distributed total. */
  lemma DistributedAppend(trx: seq<Transaksi>, rows: seq<Transaksi>)
    requires forall k :: 0 <= k < |rows| ==> rows[k].jenis == BagiHasil
    ensures Distributed(trx + rows) == Distributed(trx) + Sum(rows, Magnitude)
  {
    FilterAppendPassing(trx, rows, IsProfitShare);
    SumAppend(Filter(trx, IsProfitShare), rows, Magnitude);
  }

  /** What an allocation can add to the distributed total: its real nominal when positive. */
  function PositiveReal(a: Allocation): Money {
    Max(0.0, a.realNominal)
  }

  /** One more allocation adds its positive real nominal to the loop's rows when its member was found. */
  lemma LoopRowsLast(initial: seq<Member>, active: seq<Allocation>, stamp: nat -> Stamp)
    requires |active| > 0
    ensures var a := active[|active| - 1];
            Sum(LoopRows(initial, active, stamp), Magnitude)
            == Sum(LoopRows(initial, active[..|active| - 1], stamp), Magnitude) + if FoundIn(initial)(a) then PositiveReal(a) else 0.0
  {
    var a := active[|active| - 1];
    var step := if HasMember(initial, a.idNasabah) && a.realNominal > 0.0
                then [ShareRow(a.idNasabah, a.realNominal, MemberShareNote, stamp(|active| - 1))] else [];
    SumAppend(LoopRows(initial, active[..|active| - 1], stamp), step, Magnitude);
    assert step != [] ==> step[..0] == [];
  }

  /** The magnitudes of the loop's rows add up to the positive real nominals of the allocations
      whose member was found. */
  lemma {:induction false} LoopRowsTotal(initial: seq<Member>, active: seq<Allocation>, stamp: nat -> Stamp)
    ensures Sum(LoopRows(initial, active, stamp), Magnitude) == Sum(Filter(active, FoundIn(initial)), PositiveReal)
    decreases |active|
  {
    if |active| > 0 {
      LoopRowsTotal(initial, active[..|active| - 1], stamp);
      LoopRowsLast(initial, active, stamp);
      SumFilterLast(active, FoundIn(initial), PositiveReal);
    }
  }

  /** A run adds to the distributed total the positive real nominals of the active allocations
      whose member was found, plus the reserve's real amount when positive. */
  lemma RunDistributed(t: Tables, allocations: seq<Allocation>, totalReal: Money, reserveReal: Money,
                       totalFull: Money, reserveFull: Money, stamp: nat -> Stamp, actor: string)
    requires UniqueIds(t.nasabah)
    ensures Distributed(DistributeSHU(t, allocations, totalReal, reserveReal, totalFull, reserveFull, stamp, actor).transaksi)
            == Distributed(t.transaksi) + Sum(Filter(ActiveAllocations(allocations), FoundIn(t.nasabah)), PositiveReal)
               + Max(0.0, reserveReal)
  {
    var active := ActiveAllocations(allocations);
    DistributionRows(t, allocations, totalReal, reserveReal, totalFull, reserveFull, stamp, actor);
    RunRowsTotal(t.nasabah, active, reserveReal, stamp);
    DistributedAppend(t.transaksi, RunRows(t.nasabah, active, reserveReal, stamp));
    LoopRowsTotal(t.nasabah, active, stamp);
  }

  /** The run's rows are BAGI_HASIL rows: the loop's, and the reserve's real amount when positive. */
  lemma RunRowsTotal(initial: seq<Member>, active: seq<Allocation>, reserveReal: Money, stamp: nat -> Stamp)
    ensures var rows := RunRows(initial, active, reserveReal, stamp);
            && (forall k :: 0 <= k < |rows| ==> rows[k].jenis == BagiHasil)
            && Sum(rows, Magnitude) == Sum(LoopRows(initial, active, stamp), Magnitude) + Max(0.0, reserveReal)
  {
    var loop := LoopRows(initial, active, stamp);
    var tail := if reserveReal > 0.0 then [ShareRow(KOPERASI, reserveReal, ReserveShareNote, stamp(|active|))] else [];
    SumAppend(loop, tail, Magnitude);
    assert tail != [] ==> tail[..0] == [];
  }

  /** A share of a non-negative pool for non-negative savings is not negative. */
  lemma ShareNonneg(savings: Money, basis: Money, pool: Money)
    requires savings >= 0.0 && pool >= 0.0
    ensures Share(savings, basis, pool) >= 0.0
  {
    if basis > 0.0 {
      var q := savings / basis;
      assert q >= 0.0;
      MulMono(q, 0.0, pool);
      IntValued(0.0, Share(savings, basis, pool));
    }
  }

  /** With non-negative savings and a non-negative pool every real nominal is non-negative. */
  lemma AllocationsNonneg(ns: seq<Member>, realPool: Money, fullPool: Money)
    requires forall k :: 0 <= k < |ns| ==> Savings(ns[k]) >= 0.0
    requires realPool >= 0.0
    ensures var allocations := Allocations(ns, realPool, fullPool);
            forall k :: 0 <= k < |allocations| ==> allocations[k].realNominal >= 0.0
  {
    var allocations := Allocations(ns, realPool, fullPool);
    forall k | 0 <= k < |allocations| ensures allocations[k].realNominal >= 0.0 {
      var m := ActiveMembers(ns)[k];
      assert m in ns;
      ShareNonneg(Savings(m), Basis(ns), realPool);
    }
  }

  /** Every allocation names a member of the list it was computed from. */
  lemma AllocationsFound(ns: seq<Member>, realPool: Money, fullPool: Money)
    ensures var allocations := Allocations(ns, realPool, fullPool);
            forall k :: 0 <= k < |allocations| ==> HasMember(ns, allocations[k].idNasabah)
  {
    var allocations := Allocations(ns, realPool, fullPool);
    forall k | 0 <= k < |allocations| ensures HasMember(ns, allocations[k].idNasabah) {
      var m := ActiveMembers(ns)[k];
      assert m in ns;
      var j :| 0 <= j < |ns| && ns[j] == m;
      assert MemberIs(m.idNasabah)(ns[j]);
    }
  }

  /** Over allocations that all name a found member and have non-negative real nominals, what the
      run adds for the members is the real column of the active ones, at most the whole column. */
  lemma ActiveRealTotal(initial: seq<Member>, allocations: seq<Allocation>)
    requires forall k :: 0 <= k < |allocations| ==> HasMember(initial, allocations[k].idNasabah)
    requires forall k :: 0 <= k < |allocations| ==> allocations[k].realNominal >= 0.0
    ensures Sum(Filter(ActiveAllocations(allocations), FoundIn(initial)), PositiveReal)
            == Sum(ActiveAllocations(allocations), RealPart)
    ensures Sum(ActiveAllocations(allocations), RealPart) <= Sum(allocations, RealPart)
  {
    ActiveAllFound(initial, allocations);
    ActivePositiveReal(allocations);
    ActiveWithinAll(allocations);
  }

  /** When every allocation names a found member, so does every active one. */
  lemma ActiveAllFound(initial: seq<Member>, allocations: seq<Allocation>)
    requires forall k :: 0 <= k < |allocations| ==> HasMember(initial, allocations[k].idNasabah)
    ensures Filter(ActiveAllocations(allocations), FoundIn(initial)) == ActiveAllocations(allocations)
  {
    var active := ActiveAllocations(allocations);
    forall i | 0 <= i < |active| ensures FoundIn(initial)(active[i]) {
      var j :| 0 <= j < |allocations| && allocations[j] == active[i];
    }
  }

  /** Over non-negative real nominals the positive part is the nominal itself. */
  lemma ActivePositiveReal(allocations: seq<Allocation>)
    requires forall k :: 0 <= k < |allocations| ==> allocations[k].realNominal >= 0.0
    ensures Sum(ActiveAllocations(allocations), PositiveReal) == Sum(ActiveAllocations(allocations), RealPart)
  {
    var active := ActiveAllocations(allocations);
    forall i | 0 <= i < |active| ensures PositiveReal(active[i]) == RealPart(active[i]) {
      var j :| 0 <= j < |allocations| && allocations[j] == active[i];
    }
    SumMono(active, PositiveReal, RealPart);
    SumMono(active, RealPart, PositiveReal);
  }

  /** The real column of the active allocations is at most the whole column when it is non-negative. */
  lemma ActiveWithinAll(allocations: seq<Allocation>)
    requires forall k :: 0 <= k < |allocations| ==> allocations[k].realNominal >= 0.0
    ensures Sum(ActiveAllocations(allocations), RealPart) <= Sum(allocations, RealPart)
  {
    var idle := (a: Allocation) => !IsActiveAllocation(a);
    SumFilterSplit(allocations, IsActiveAllocation, idle, RealPart);
    SumNonneg(Filter(allocations, idle), RealPart);
  }

  /** Sharing out the plan for the current member table records, as BAGI_HASIL, the real nominals
      of the members with a positive full nominal and the real reserve; with non-negative savings,
      profits and rate that never exceeds the real profit the plan shares. */
  lemma PlanRecorded(t: Tables, available: Money, manualProfit: Money, persen: real, user: Option<User>,
                     stamp: nat -> Stamp)
    requires UniqueIds(t.nasabah)
    requires forall k :: 0 <= k < |t.nasabah| ==> Savings(t.nasabah[k]) >= 0.0
    requires available >= 0.0 && manualProfit >= 0.0 && 0.0 <= persen <= 100.0
    ensures var plan := ExecutePlan(t.nasabah, available, manualProfit, persen, user);
            var after := DistributeSHU(t, plan.allocations, plan.totalReal, plan.reserveReal, plan.totalFull,
                                       plan.reserveFull, stamp, plan.actor);
            && Distributed(after.transaksi)
               == Distributed(t.transaksi) + Sum(ActiveAllocations(plan.allocations), RealPart) + plan.reserveReal
            && Distributed(after.transaksi) <= Distributed(t.transaksi) + plan.totalReal
  {
    var plan := ExecutePlan(t.nasabah, available, manualProfit, persen, user);
    var realPool := SplitProfit(available, persen).anggota;
    var fullPool := SplitProfit(available + manualProfit, persen).anggota;
    assert plan.allocations == Allocations(t.nasabah, realPool, fullPool);
    RunDistributed(t, plan.allocations, plan.totalReal, plan.reserveReal, plan.totalFull, plan.reserveFull, stamp, plan.actor);
    PlanWithinProfit(t.nasabah, available, manualProfit, persen, user);
    AllocationsNonneg(t.nasabah, realPool, fullPool);
    AllocationsFound(t.nasabah, realPool, fullPool);
    ActiveRealTotal(t.nasabah, plan.allocations);
  }

  /** The re-run remainder: three members with equal savings share 100 at 70%. The run records 99,
      so a page that had 100 available shows 1 available afterwards. */
  lemma RemainderStaysAvailable(t: Tables, a: Member, b: Member, c: Member, collected: Money, stamp: nat -> Stamp)
    requires t.nasabah == [a, b, c] && UniqueIds(t.nasabah)
    requires a.idNasabah != KOPERASI && b.idNasabah != KOPERASI && c.idNasabah != KOPERASI
    requires Savings(a) == Savings(b) == Savings(c) && Savings(a) > 0.0
    requires collected == Distributed(t.transaksi) + 100.0
    ensures Available(collected, Distributed(t.transaksi)) == 100.0
    ensures var plan := ExecutePlan(t.nasabah, 100.0, 0.0, 70.0, None);
            var after := DistributeSHU(t, plan.allocations, plan.totalReal, plan.reserveReal, plan.totalFull,
                                       plan.reserveFull, stamp, plan.actor);
            && Distributed(after.transaksi) == Distributed(t.transaksi) + 99.0
            && Available(collected, Distributed(after.transaksi)) == 1.0
  {
    RemainderActive(t.nasabah, a, b, c);
    PlanRecorded(t, 100.0, 0.0, 70.0, None, stamp);
    ghost var plan := ExecutePlan(t.nasabah, 100.0, 0.0, 70.0, None);
    ghost var after := DistributeSHU(t, plan.allocations, plan.totalReal, plan.reserveReal, plan.totalFull,
                                     plan.reserveFull, stamp, plan.actor);
    assert Distributed(after.transaksi) == Distributed(t.transaksi) + 99.0;
  }

  /** In the remainder example every allocation is active, so the run records 69 for the members
      and 30 for the reserve. */
  lemma RemainderActive(ns: seq<Member>, a: Member, b: Member, c: Member)
    requires ns == [a, b, c]
    requires a.idNasabah != KOPERASI && b.idNasabah != KOPERASI && c.idNasabah != KOPERASI
    requires Savings(a) == Savings(b) == Savings(c) && Savings(a) > 0.0
    ensures forall k :: 0 <= k < |ns| ==> Savings(ns[k]) >= 0.0
    ensures var plan := ExecutePlan(ns, 100.0, 0.0, 70.0, None);
            Sum(ActiveAllocations(plan.allocations), RealPart) + plan.reserveReal == 99.0
  {
    var plan := ExecutePlan(ns, 100.0, 0.0, 70.0, None);
    RemainderExample(a, b, c);
    assert forall k :: 0 <= k < |plan.allocations| ==> IsActiveAllocation(plan.allocations[k]);
  }

  // ---------------------------------------------------------------------------
  // The simulation table
  // ---------------------------------------------------------------------------

  datatype SimRow = SimRow(member: Member, totalShu: Money)

  datatype Simulation = Simulation(totalProfit: Money, danaAnggota: Money, danaKoperasi: Money,
                                   totalSimpananBasis: Money, results: seq<SimRow>)

  predicate SortedDesc(rows: seq<SimRow>) {
    forall j, k :: 0 <= j < k < |rows| ==> rows[j].totalShu >= rows[k].totalShu
  }

  /** Insert a row after every row with at least its share. */
  function InsertDesc(x: SimRow, rows: seq<SimRow>): (r: seq<SimRow>)
    requires SortedDesc(rows)
    ensures SortedDesc(r)
    ensures multiset(r) == multiset(rows) + multiset{x}
    decreases |rows|
  {
    if |rows| == 0 then [x]
    else if rows[0].totalShu >= x.totalShu then
      var rest := InsertDesc(x, rows[1..]);
      assert rows == [rows[0]] + rows[1..];
      HeadAtLeast(rows[0], rows[1..], x, rest);
      [rows[0]] + rest
    else [x] + rows
  }

  lemma HeadAtLeast(h: SimRow, tail: seq<SimRow>, x: SimRow, rest: seq<SimRow>)
    requires forall k :: 0 <= k < |tail| ==> h.totalShu >= tail[k].totalShu
    requires h.totalShu >= x.totalShu
    requires multiset(rest) == multiset(tail) + multiset{x}
    requires SortedDesc(rest)
    ensures SortedDesc([h] + rest)
  {
    forall k | 0 <= k < |rest| ensures h.totalShu >= rest[k].totalShu {
      assert rest[k] in multiset(rest);
      if rest[k] != x {
        assert rest[k] in multiset(tail);
      }
    }
  }

  /** `results.sort((a, b) => b.totalSHU - a.totalSHU)`: the rows by non-increasing share, as a
      permutation. Later rows go after earlier rows with an equal share, as a stable sort keeps them. */
  function SortDesc(rows: seq<SimRow>): (r: seq<SimRow>)
    ensures SortedDesc(r)
    ensures multiset(r) == multiset(rows)
    decreases |rows|
  {
    if |rows| == 0 then []
    else
      var front := rows[..|rows| - 1];
      assert rows == front + [rows[|rows| - 1]];
      InsertDesc(rows[|rows| - 1], SortDesc(front))
  }

  /** The unsorted table: one row per sharing member, in order, with its share of `pool`. */
  function MemberRows(ns: seq<Member>, pool: Money): (r: seq<SimRow>)
    ensures |r| == |ActiveMembers(ns)|
    ensures forall i :: 0 <= i < |r| ==>
              r[i] == SimRow(ActiveMembers(ns)[i], Share(Savings(ActiveMembers(ns)[i]), Basis(ns), pool))
  {
    var members := ActiveMembers(ns);
    seq(|members|, i requires 0 <= i < |members| => SimRow(members[i], Share(Savings(members[i]), Basis(ns), pool)))
  }

  /** calculateSimulation: the whole profit split by the percentage, and the members' rows, each
      with its share of the floored member pool, sorted by share. */
  function Simulate(ns: seq<Member>, available: Money, manualProfit: Money, persen: real): (r: Simulation)
    ensures r.totalProfit == available + manualProfit
    ensures r.danaAnggota == SplitProfit(r.totalProfit, persen).anggota
    ensures r.danaKoperasi == SplitProfit(r.totalProfit, persen).koperasi
    ensures r.danaAnggota + r.danaKoperasi == r.totalProfit
    ensures r.totalSimpananBasis == Basis(ns)
    ensures SortedDesc(r.results)
    ensures multiset(r.results) == multiset(MemberRows(ns, r.danaAnggota))
    ensures |r.results| == |ActiveMembers(ns)|
  {
    var totalProfit := available + manualProfit;
    var pools := SplitProfit(totalProfit, persen);
    var rows := MemberRows(ns, pools.anggota);
    var sorted := SortDesc(rows);
    assert |sorted| == |multiset(sorted)| == |multiset(rows)| == |rows|;
    Simulation(totalProfit, pools.anggota, pools.koperasi, Basis(ns), sorted)
  }

  /** What the simulation shows is what the members get in full: every row is a sharing member,
      and its share is that member's full nominal in the plan for the same inputs. */
  lemma SimulationMatchesPlan(ns: seq<Member>, available: Money, manualProfit: Money, persen: real, user: Option<User>, k: nat)
    requires k < |Simulate(ns, available, manualProfit, persen).results|
    ensures var row := Simulate(ns, available, manualProfit, persen).results[k];
            var plan := ExecutePlan(ns, available, manualProfit, persen, user);
            exists i :: 0 <= i < |plan.allocations| && ActiveMembers(ns)[i] == row.member
                        && plan.allocations[i].idNasabah == row.member.idNasabah
                        && plan.allocations[i].fullNominal == row.totalShu
  {
    var sim := Simulate(ns, available, manualProfit, persen);
    var plan := ExecutePlan(ns, available, manualProfit, persen, user);
    var pools := SplitProfit(available + manualProfit, persen);
    var rows := MemberRows(ns, pools.anggota);
    assert sim.results == SortDesc(rows);
    var row := sim.results[k];
    assert row in multiset(rows);
    var i :| 0 <= i < |rows| && rows[i] == row;
    assert plan.allocations[i].fullNominal == row.totalShu;
  }
}
