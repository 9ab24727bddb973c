/**
 * The dashboard figures of pages/Dashboard.tsx (fetchData): the role scoping of the three
 * collections, the capital and loan totals, the loan loop with its three accumulators, the net
 * interest still available, the cash balance and today's money in and out.
 */
module Dashboard {
  import opened Wrappers
  import opened Types
  import opened Lists
  import opened LoanMath
  import opened Closing

  // ---------------------------------------------------------------------------
  // Role scoping
  // ---------------------------------------------------------------------------

  /** A logged-in member (role NASABAH) sees only their own records. */
  predicate IsMemberUser(user: Option<User>) {
    user.Some? && user.value.role == Nasabah
  }

  /** The data the dashboard works on. */
  datatype Scope = Scope(nasabah: seq<MemberView>, transaksi: seq<Transaksi>, pinjaman: seq<Pinjaman>)

  /** `x.id_nasabah === user.id_nasabah`; a member user without a member id matches nothing. */
  predicate Owns(owner: Option<string>, id: string) {
    owner == Some(id)
  }

  function ViewOwnedBy(owner: Option<string>): MemberView -> bool {
    (v: MemberView) => Owns(owner, v.member.idNasabah)
  }

  function TrxOwnedBy(owner: Option<string>): Transaksi -> bool {
    (x: Transaksi) => Owns(owner, x.idNasabah)
  }

  function LoanOwnedBy(owner: Option<string>): Pinjaman -> bool {
    (l: Pinjaman) => Owns(owner, l.idNasabah)
  }

  /** Staff see everything; a member sees exactly the records carrying their own member id. */
  function ScopeFor(user: Option<User>, ns: seq<MemberView>, trx: seq<Transaksi>, loans: seq<Pinjaman>): (r: Scope)
    ensures !IsMemberUser(user) ==> r == Scope(ns, trx, loans)
    ensures IsMemberUser(user) ==>
              var owner := user.value.idNasabah;
              && (forall i :: 0 <= i < |r.nasabah| ==> r.nasabah[i] in ns && Owns(owner, r.nasabah[i].member.idNasabah))
              && (forall i :: 0 <= i < |ns| && Owns(owner, ns[i].member.idNasabah) ==> ns[i] in r.nasabah)
              && (forall i :: 0 <= i < |r.transaksi| ==> r.transaksi[i] in trx && Owns(owner, r.transaksi[i].idNasabah))
              && (forall i :: 0 <= i < |trx| && Owns(owner, trx[i].idNasabah) ==> trx[i] in r.transaksi)
              && (forall i :: 0 <= i < |r.pinjaman| ==> r.pinjaman[i] in loans && Owns(owner, r.pinjaman[i].idNasabah))
              && (forall i :: 0 <= i < |loans| && Owns(owner, loans[i].idNasabah) ==> loans[i] in r.pinjaman)
  {
    if IsMemberUser(user) then
      var owner := user.value.idNasabah;
      Scope(Filter(ns, ViewOwnedBy(owner)), Filter(trx, TrxOwnedBy(owner)), Filter(loans, LoanOwnedBy(owner)))
    else Scope(ns, trx, loans)
  }

  // ---------------------------------------------------------------------------
  // The figures
  // ---------------------------------------------------------------------------

  datatype Stats = Stats(
    totalNasabah: nat,
    totalSimpanan: Money,
    totalPinjaman: Money,
    netBalance: Money,
    liquidBalance: Money,
    interestRevenue: Money,
    totalTransaksiHariIni: nat,
    uangMasukHariIni: Money,
    uangKeluarHariIni: Money)

  /** A member's capital: pokok + wajib + sukarela, without SHU. */
  function Capital(v: MemberView): Money {
    Savings(v.member)
  }

  function LoanBalance(v: MemberView): Money {
    v.totalPinjaman
  }

  function Principal(l: Pinjaman): Money {
    l.jumlahPinjaman
  }

  /** What is still owed on a loan, an overpaid balance counting as nothing. */
  function StillOwed(l: Pinjaman): Money {
    Max(0.0, l.sisaPinjaman)
  }

  /** `tanggal.startsWith(today)`, `today` being the date part of the current ISO time. */
  predicate OnDay(today: string, x: Transaksi) {
    today <= x.tanggal
  }

  function OnDayOf(today: string): Transaksi -> bool {
    (x: Transaksi) => OnDay(today, x)
  }

  /** Withdrawals and profit shares leave the cooperative's cash. */
  predicate IsOutflow(x: Transaksi) {
    IsExpense(x.jenis)
  }

  predicate IsInflow(x: Transaksi) {
    !IsExpense(x.jenis)
  }

  /** The loan loop: principal lent, repayments received (principal and interest) and the interest
      earned, accumulated loan by loan. */
  method LoanTotals(loans: seq<Pinjaman>) returns (principal: Money, repaid: Money, grossInterest: Money)
    ensures principal == Sum(loans, Principal)
    ensures repaid == Sum(loans, Paid)
    ensures grossInterest == InterestSum(loans)
  {
    principal, repaid, grossInterest := 0.0, 0.0, 0.0;
    for i := 0 to |loans|
      invariant principal == Sum(loans[..i], Principal)
      invariant repaid == Sum(loans[..i], Paid)
      invariant grossInterest == InterestSum(loans[..i])
    {
      var loan := loans[i];
      var totalBunga := loan.jumlahPinjaman * (loan.bungaPersen / 100.0) * loan.tenorBulan as real;
      var totalTagihan := loan.jumlahPinjaman + totalBunga;
      var sisa := Max(0.0, loan.sisaPinjaman);
      var terbayar := totalTagihan - sisa;
      principal := principal + loan.jumlahPinjaman;
      repaid := repaid + terbayar;
      var ratioBunga := if totalTagihan > 0.0 then totalBunga / totalTagihan else 0.0;
      grossInterest := grossInterest + terbayar * ratioBunga;
      assert terbayar == Paid(loan) && terbayar * ratioBunga == InterestPart(loan) by {
        LoanFigures(loan, totalBunga, totalTagihan, terbayar, ratioBunga);
      }
      LoanTotalsStep(loans, i);
    }
    assert loans[..|loans|] == loans;
  }

  /** The loop body's figures for one loan are the paid amount and the interest earned on it. */
  lemma LoanFigures(loan: Pinjaman, totalBunga: Money, totalTagihan: Money, terbayar: Money, ratioBunga: real)
    requires totalBunga == TotalBunga(loan.jumlahPinjaman, loan.bungaPersen, loan.tenorBulan)
    requires totalTagihan == loan.jumlahPinjaman + totalBunga
    requires terbayar == totalTagihan - Max(0.0, loan.sisaPinjaman)
    requires ratioBunga == if totalTagihan > 0.0 then totalBunga / totalTagihan else 0.0
    ensures terbayar == Paid(loan)
    ensures terbayar * ratioBunga == InterestPart(loan)
  {
    assert totalTagihan == Debt(loan);
  }

  lemma LoanTotalsStep(loans: seq<Pinjaman>, i: nat)
    requires i < |loans|
    ensures Sum(loans[..i + 1], Principal) == Sum(loans[..i], Principal) + Principal(loans[i])
    ensures Sum(loans[..i + 1], Paid) == Sum(loans[..i], Paid) + Paid(loans[i])
    ensures InterestSum(loans[..i + 1]) == InterestSum(loans[..i]) + InterestPart(loans[i])
  {
    assert loans[..i + 1][..i] == loans[..i];
  }

  /** fetchData: every figure from the scoped collections; the member and loan totals come from
      getNasabah's derived fields. */
  method FetchStats(user: Option<User>, ns: seq<MemberView>, trx: seq<Transaksi>, loans: seq<Pinjaman>, today: string)
    returns (s: Stats)
    ensures var sc := ScopeFor(user, ns, trx, loans);
            && s.totalNasabah == |sc.nasabah|
            && s.totalSimpanan == Sum(sc.nasabah, Capital)
            && s.totalPinjaman == Sum(sc.nasabah, LoanBalance)
            && s.netBalance == s.totalSimpanan - s.totalPinjaman
            && s.interestRevenue == Available(InterestSum(sc.pinjaman), Distributed(sc.transaksi))
            && s.liquidBalance == s.totalSimpanan - Sum(sc.pinjaman, StillOwed) + Sum(sc.pinjaman, FlatInterest)
                                  - Distributed(sc.transaksi)
            && s.totalTransaksiHariIni == |Filter(sc.transaksi, OnDayOf(today))|
            && s.uangMasukHariIni == Sum(Filter(Filter(sc.transaksi, OnDayOf(today)), IsInflow), Magnitude)
            && s.uangKeluarHariIni == Sum(Filter(Filter(sc.transaksi, OnDayOf(today)), IsOutflow), Magnitude)
            && s.uangMasukHariIni + s.uangKeluarHariIni == Sum(Filter(sc.transaksi, OnDayOf(today)), Magnitude)
            && s.uangMasukHariIni >= 0.0 && s.uangKeluarHariIni >= 0.0
    ensures !IsMemberUser(user) ==> s.interestRevenue == Available(InterestSum(loans), Distributed(trx))
  {
    var sc := ScopeFor(user, ns, trx, loans);
    var todayTrx := Filter(sc.transaksi, OnDayOf(today));
    var totalModalSimpanan := Sum(sc.nasabah, Capital);
    var totalPinjaman := Sum(sc.nasabah, LoanBalance);
    var netBalance := totalModalSimpanan - totalPinjaman;
    var totalPrincipalDisbursed, totalRepaymentReceived, grossInterest := LoanTotals(sc.pinjaman);
    var totalShuDistributed := Distributed(sc.transaksi);
    var netInterestRevenue := Max(0.0, grossInterest - totalShuDistributed);
    var liquidBalance := totalModalSimpanan - totalPrincipalDisbursed + totalRepaymentReceived - totalShuDistributed;
    LiquidBalanceMeaning(sc.pinjaman);
    var uangMasuk := Sum(Filter(todayTrx, IsInflow), Magnitude);
    var uangKeluar := Sum(Filter(todayTrx, IsOutflow), Magnitude);
    TodaySplit(todayTrx);
    s := Stats(|sc.nasabah|, totalModalSimpanan, totalPinjaman, netBalance, liquidBalance, netInterestRevenue,
               |todayTrx|, uangMasuk, uangKeluar);
  }

  // ---------------------------------------------------------------------------
  // What the figures mean
  // ---------------------------------------------------------------------------

  /** Principal lent less repayments received is what is still owed less the flat interest: the
      cash balance is capital, minus outstanding balances, plus all the flat interest, minus SHU paid. */
  lemma {:induction false} LiquidBalanceMeaning(loans: seq<Pinjaman>)
    ensures Sum(loans, Principal) - Sum(loans, Paid) == Sum(loans, StillOwed) - Sum(loans, FlatInterest)
    decreases |loans|
  {
    if |loans| > 0 {
      var l := loans[|loans| - 1];
      LiquidBalanceMeaning(loans[..|loans| - 1]);
      assert Principal(l) - Paid(l) == StillOwed(l) - FlatInterest(l);
    }
  }

  /** Money in and money out today split every transaction of the day between them, by magnitude. */
  lemma TodaySplit(todayTrx: seq<Transaksi>)
    ensures Sum(Filter(todayTrx, IsInflow), Magnitude) + Sum(Filter(todayTrx, IsOutflow), Magnitude)
            == Sum(todayTrx, Magnitude)
    ensures Sum(Filter(todayTrx, IsInflow), Magnitude) >= 0.0
    ensures Sum(Filter(todayTrx, IsOutflow), Magnitude) >= 0.0
  {
    SumFilterSplit(todayTrx, IsInflow, IsOutflow, Magnitude);
    SumNonneg(Filter(todayTrx, IsInflow), Magnitude);
    SumNonneg(Filter(todayTrx, IsOutflow), Magnitude);
  }

  /** On well-formed loans the dashboard's net interest never exceeds the total flat interest. */
  lemma NetInterestBounded(loans: seq<Pinjaman>, trx: seq<Transaksi>)
    requires forall i :: 0 <= i < |loans| ==> WellFormedLoan(loans[i])
    ensures 0.0 <= Available(InterestSum(loans), Distributed(trx)) <= Sum(loans, FlatInterest)
  {
    InterestSumBounds(loans);
  }
}
