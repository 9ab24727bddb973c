/**
 * Flat-interest loan arithmetic of pages/PinjamanPage.tsx: the quote shown while a loan is
 * entered, the record `handleCreate` builds, and the per-loan paid / progress / status display.
 * The interest already earned on a loan, which the closing and dashboard pages both compute,
 * is defined here once.
 */
module LoanMath {
  import opened Wrappers
  import opened Types

  /** Flat interest over the whole term: principal × monthly rate (in percent) × months. */
  function TotalBunga(jumlah: Money, bungaPersen: real, tenor: int): (r: Money)
    ensures jumlah >= 0.0 && bungaPersen >= 0.0 && tenor >= 0 ==> r >= 0.0
    ensures jumlah == 0.0 || bungaPersen == 0.0 || tenor == 0 ==> r == 0.0
  {
    jumlah * (bungaPersen / 100.0) * tenor as real
  }

  /** Principal plus the flat interest: what the member owes at the start. */
  function TotalHutang(jumlah: Money, bungaPersen: real, tenor: int): (r: Money)
    ensures jumlah >= 0.0 && bungaPersen >= 0.0 && tenor >= 0 ==> r >= jumlah
    ensures bungaPersen == 0.0 || tenor == 0 ==> r == jumlah
  {
    jumlah + TotalBunga(jumlah, bungaPersen, tenor)
  }

  /** `Math.ceil(totalHutang / tenor)`. A zero tenor has no finite instalment (JS yields Infinity or NaN). */
  function Instalment(hutang: Money, tenor: int): (r: Option<int>)
    ensures r.None? <==> tenor == 0
    ensures r.Some? && tenor > 0 ==> r.value as real * tenor as real >= hutang
    ensures r.Some? && tenor > 0 ==> (r.value - 1) as real * tenor as real < hutang
  {
    if tenor == 0 then None
    else
      var x := hutang / tenor as real;
      var c := Ceil(x);
      assert x * tenor as real == hutang;
      assert tenor > 0 ==> c as real * tenor as real >= x * tenor as real;
      assert tenor > 0 ==> (c - 1) as real * tenor as real < hutang by {
        if tenor > 0 {
          var t := tenor as real;
          assert (c - 1) as real < x;
          MultiplyStrict((c - 1) as real, x, t);
        }
      }
      Some(c)
  }

  lemma MultiplyStrict(a: real, b: real, t: real)
    requires a < b && t > 0.0
    ensures a * t < b * t
  {
  }

  /** The three figures of the entry form. */
  datatype Quote = Quote(totalBunga: Money, totalHutang: Money, angsuran: int)

  function QuoteFor(jumlah: Money, bungaPersen: real, tenor: int): (r: Option<Quote>)
    ensures r.None? <==> tenor == 0
    ensures r.Some? ==> && r.value.totalBunga == TotalBunga(jumlah, bungaPersen, tenor)
                        && r.value.totalHutang == jumlah + r.value.totalBunga
                        && Some(r.value.angsuran) == Instalment(r.value.totalHutang, tenor)
  {
    var hutang := TotalHutang(jumlah, bungaPersen, tenor);
    match Instalment(hutang, tenor)
    case None => None
    case Some(a) => Some(Quote(TotalBunga(jumlah, bungaPersen, tenor), hutang, a))
  }

  /** `estimasi`: an empty or zero tenor field counts as 12 months (`Number(x) || 12`),
      so the estimate always exists. */
  function Estimasi(pokok: Money, bungaPersen: real, tenorField: int): (r: Quote)
    ensures var tenor := if tenorField == 0 then 12 else tenorField;
            QuoteFor(pokok, bungaPersen, tenor) == Some(r)
  {
    QuoteFor(pokok, bungaPersen, if tenorField == 0 then 12 else tenorField).value
  }

  /** The loan form. `jumlahText` is the raw principal field, whose emptiness the guard tests;
      `jumlah` is its numeric value. */
  datatype LoanForm = LoanForm(idNasabah: string, jumlahText: string, jumlah: Money, bungaPersen: real, tenor: int)

  /** `handleCreate`: nothing is submitted without a member or a principal; the new loan owes its
      whole debt and repays it in the instalment ceil(debt / tenor), which covers the debt. The status is set by
      createPinjaman (see Ledger.CreatePinjaman). */
  function NewLoan(form: LoanForm, loanId: string): (r: Option<Pinjaman>)
    ensures r.None? <==> form.idNasabah == "" || form.jumlahText == "" || form.tenor == 0
    ensures r.Some? ==> && r.value.idPinjaman == loanId
                        && r.value.idNasabah == form.idNasabah
                        && r.value.jumlahPinjaman == form.jumlah
                        && r.value.bungaPersen == form.bungaPersen
                        && r.value.tenorBulan == form.tenor
                        && r.value.sisaPinjaman == TotalHutang(form.jumlah, form.bungaPersen, form.tenor)
    ensures r.Some? ==> r.value.angsuranBulanan
                        == Instalment(TotalHutang(form.jumlah, form.bungaPersen, form.tenor), form.tenor).value as real
    ensures r.Some? && form.tenor > 0 ==> r.value.angsuranBulanan * form.tenor as real >= r.value.sisaPinjaman
  {
    if form.idNasabah == "" || form.jumlahText == "" then None
    else match QuoteFor(form.jumlah, form.bungaPersen, form.tenor)
      case None => None
      case Some(q) =>
        Some(Pinjaman(loanId, form.idNasabah, form.jumlah, form.bungaPersen, form.tenor,
                      q.angsuran as real, q.totalHutang, Aktif))
  }

  /** 1,000,000 at 2% a month for 12 months. */
  lemma QuoteExample()
    ensures QuoteFor(1000000.0, 2.0, 12) == Some(Quote(240000.0, 1240000.0, 103334))
  {
    var c := Ceil(1240000.0 / 12.0);
    assert 103333.0 < 1240000.0 / 12.0 < 103334.0;
    assert c == 103334;
  }

  // ---------------------------------------------------------------------------
  // Per-loan display
  // ---------------------------------------------------------------------------

  function Debt(l: Pinjaman): Money {
    TotalHutang(l.jumlahPinjaman, l.bungaPersen, l.tenorBulan)
  }

  /** `terbayar`: the debt less what is still owed, an overpaid (negative) balance counting as 0. */
  function Paid(l: Pinjaman): (r: Money)
    ensures l.sisaPinjaman <= 0.0 ==> r == Debt(l)
    ensures 0.0 <= l.sisaPinjaman <= Debt(l) ==> 0.0 <= r <= Debt(l)
  {
    Debt(l) - Max(0.0, l.sisaPinjaman)
  }

  /** The progress bar, in percent. */
  function ProgressPercent(l: Pinjaman): (r: real)
    ensures 0.0 <= r <= 100.0
    ensures Debt(l) <= 0.0 ==> r == 0.0
    ensures Debt(l) > 0.0 && l.sisaPinjaman <= 0.0 ==> r == 100.0
    ensures Debt(l) > 0.0 && 0.0 <= l.sisaPinjaman <= Debt(l) ==> r == Paid(l) / Debt(l) * 100.0
  {
    var raw := if Debt(l) > 0.0 then Paid(l) / Debt(l) * 100.0 else 0.0;
    assert Debt(l) > 0.0 && 0.0 <= l.sisaPinjaman <= Debt(l) ==> 0.0 <= raw <= 100.0 by {
      if Debt(l) > 0.0 && 0.0 <= l.sisaPinjaman <= Debt(l) {
        PercentBounds(Paid(l), Debt(l));
      }
    }
    assert Debt(l) > 0.0 && l.sisaPinjaman <= 0.0 ==> raw == 100.0 by {
      if Debt(l) > 0.0 && l.sisaPinjaman <= 0.0 {
        PercentBounds(Paid(l), Debt(l));
      }
    }
    Min(Max(raw, 0.0), 100.0)
  }

  lemma DivideAtMostOne(a: real, b: real)
    requires 0.0 <= a <= b && b > 0.0
    ensures 0.0 <= a / b <= 1.0
  {
  }

  lemma PercentBounds(a: real, b: real)
    requires 0.0 <= a <= b && b > 0.0
    ensures 0.0 <= a / b * 100.0 <= 100.0
    ensures a == b ==> a / b * 100.0 == 100.0
  {
    DivideAtMostOne(a, b);
  }

  /** The badge: `lunas` exactly when nothing is owed any more. */
  function ShownStatus(l: Pinjaman): (r: LoanStatus)
    ensures r == Lunas <==> l.sisaPinjaman <= 0.0
  {
    if l.sisaPinjaman <= 0.0 then Lunas else Aktif
  }

  /** A freshly created loan with a positive debt shows nothing paid, 0% and `aktif`. */
  lemma NewLoanShowsNothingPaid(form: LoanForm, loanId: string)
    requires NewLoan(form, loanId).Some?
    requires TotalHutang(form.jumlah, form.bungaPersen, form.tenor) > 0.0
    ensures var l := NewLoan(form, loanId).value;
            Paid(l) == 0.0 && ProgressPercent(l) == 0.0 && ShownStatus(l) == Aktif
  {
    var l := NewLoan(form, loanId).value;
    assert Debt(l) == l.sisaPinjaman;
  }

  // ---------------------------------------------------------------------------
  // Interest earned so far
  // ---------------------------------------------------------------------------

  /** The interest share of what has been repaid: `(totalBunga / totalTagihan) × terbayar`,
      nothing for a loan whose total bill is not positive. */
  function InterestPart(l: Pinjaman): (r: Money)
    ensures Debt(l) <= 0.0 ==> r == 0.0
    ensures Debt(l) > 0.0 && l.sisaPinjaman <= 0.0 ==> r == TotalBunga(l.jumlahPinjaman, l.bungaPersen, l.tenorBulan)
    ensures Debt(l) > 0.0 && l.sisaPinjaman == Debt(l) ==> r == 0.0
  {
    var bunga := TotalBunga(l.jumlahPinjaman, l.bungaPersen, l.tenorBulan);
    if Debt(l) > 0.0 then
      assert l.sisaPinjaman <= 0.0 ==> (bunga / Debt(l)) * Paid(l) == bunga;
      (bunga / Debt(l)) * Paid(l)
    else 0.0
  }

  /** On a loan with non-negative terms whose balance is between 0 and its debt, the interest earned
      lies between nothing and the whole flat interest. */
  lemma InterestPartBounds(l: Pinjaman)
    requires l.jumlahPinjaman >= 0.0 && l.bungaPersen >= 0.0 && l.tenorBulan >= 0
    requires 0.0 <= l.sisaPinjaman <= Debt(l)
    ensures 0.0 <= InterestPart(l) <= TotalBunga(l.jumlahPinjaman, l.bungaPersen, l.tenorBulan)
  {
    var bunga := TotalBunga(l.jumlahPinjaman, l.bungaPersen, l.tenorBulan);
    if Debt(l) > 0.0 {
      DivideAtMostOne(Paid(l), Debt(l));
      assert InterestPart(l) == bunga * (Paid(l) / Debt(l));
      ScaleAtMost(bunga, Paid(l) / Debt(l));
    }
  }

  lemma ScaleAtMost(a: real, f: real)
    requires a >= 0.0 && 0.0 <= f <= 1.0
    ensures 0.0 <= a * f <= a
  {
  }
}
