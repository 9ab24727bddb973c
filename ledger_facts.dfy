/**
 * What the transaction engine and the repayment rule of services/mockDatabase.ts guarantee.
 */
module LedgerFacts {
  import opened Wrappers
  import opened Types
  import opened Lists
  import opened Ledger

  predicate NonNegative(m: Member) {
    m.simpananPokok >= 0.0 && m.simpananWajib >= 0.0 && m.simpananSukarela >= 0.0 && m.shu >= 0.0
  }

  /** Savings and SHU are never negative (the data model's invariant). */
  predicate BalancesNonNegative(ms: seq<Member>) {
    forall i :: 0 <= i < |ms| ==> NonNegative(ms[i])
  }

  // ---------------------------------------------------------------------------
  // Member ids: no ledger write renames or removes a member
  // ---------------------------------------------------------------------------

  lemma {:induction false} FindIndexSameIds(a: seq<Member>, b: seq<Member>, id: string)
    requires Ids(a) == Ids(b)
    ensures FindIndex(a, MemberIs(id)) == FindIndex(b, MemberIs(id))
    decreases |a|
  {
    assert |a| == |Ids(a)| == |Ids(b)| == |b|;
    if |a| > 0 {
      assert a[0].idNasabah == Ids(a)[0] == Ids(b)[0] == b[0].idNasabah;
      assert Ids(a[1..]) == Ids(a)[1..];
      assert Ids(b[1..]) == Ids(b)[1..];
      FindIndexSameIds(a[1..], b[1..], id);
    }
  }

  lemma MergeKeepsIds(ms: seq<Member>, i: nat, p: MemberPatch)
    requires i < |ms|
    ensures Ids(ms[i := Merge(ms[i], p)]) == Ids(ms)
  {
  }

  lemma UpdateFirstKeepsIds(ms: seq<Member>, id: string, p: MemberPatch)
    ensures Ids(UpdateFirst(ms, MemberIs(id), (m: Member) => Merge(m, p))) == Ids(ms)
  {
  }

  lemma AddTransaksiKeepsIds(t: Tables, req: TxRequest, stamp: Stamp, actor: string)
    requires AddTransaksi(t, req, stamp, actor).Success?
    ensures Ids(AddTransaksi(t, req, stamp, actor).value.nasabah) == Ids(t.nasabah)
  {
  }

  // ---------------------------------------------------------------------------
  // addTransaksi
  // ---------------------------------------------------------------------------

  /** An unknown member id throws before anything is written. */
  lemma UnknownMemberThrows(t: Tables, req: TxRequest, stamp: Stamp, actor: string)
    requires forall k :: 0 <= k < |t.nasabah| ==> t.nasabah[k].idNasabah != req.idNasabah
    ensures AddTransaksi(t, req, stamp, actor) == Failure(NasabahNotFound(req.idNasabah))
  {
  }

  /** A deposit adds |nominal| to exactly the matching savings field of the first member with that id. */
  lemma DepositCreditsOneField(t: Tables, req: TxRequest, stamp: Stamp, actor: string, i: nat)
    requires req.jenis in {SimpananPokok, SimpananWajib, SimpananSukarela}
    requires FindIndex(t.nasabah, MemberIs(req.idNasabah)) == Some(i)
    ensures AddTransaksi(t, req, stamp, actor).Success?
    ensures var r := AddTransaksi(t, req, stamp, actor).value;
            var a := Abs(req.nominal);
            var n, n' := t.nasabah[i], r.nasabah[i];
            && |r.nasabah| == |t.nasabah|
            && (forall k :: 0 <= k < |t.nasabah| && k != i ==> r.nasabah[k] == t.nasabah[k])
            && n'.simpananPokok == n.simpananPokok + (if req.jenis == SimpananPokok then a else 0.0)
            && n'.simpananWajib == n.simpananWajib + (if req.jenis == SimpananWajib then a else 0.0)
            && n'.simpananSukarela == n.simpananSukarela + (if req.jenis == SimpananSukarela then a else 0.0)
            && n'.shu == n.shu
            && n'.idNasabah == n.idNasabah && n'.nama == n.nama && n'.nik == n.nik
            && n'.alamat == n.alamat && n'.noHp == n.noHp && n'.koordinator == n.koordinator
            && r.pinjaman == t.pinjaman && r.users == t.users
  {
  }

  /** A withdrawal throws, changing nothing, exactly when voluntary savings are below |nominal|;
      otherwise only voluntary savings decrease, by |nominal|. */
  lemma WithdrawalRule(t: Tables, req: TxRequest, stamp: Stamp, actor: string, i: nat)
    requires req.jenis == Penarikan
    requires FindIndex(t.nasabah, MemberIs(req.idNasabah)) == Some(i)
    ensures var r := AddTransaksi(t, req, stamp, actor);
            r.Failure? <==> t.nasabah[i].simpananSukarela < Abs(req.nominal)
    ensures var r := AddTransaksi(t, req, stamp, actor);
            r.Failure? ==> r.error == SaldoSukarelaKurang(t.nasabah[i].simpananSukarela)
    ensures var r := AddTransaksi(t, req, stamp, actor);
            r.Success? ==>
              && r.value.nasabah == t.nasabah[i := t.nasabah[i].(simpananSukarela := t.nasabah[i].simpananSukarela - Abs(req.nominal))]
              && r.value.pinjaman == t.pinjaman && r.value.users == t.users
  {
  }

  /** The stored nominal is -|nominal| for withdrawals and profit shares and +|nominal| otherwise;
      the new transaction is appended after the existing ones. */
  lemma StoredSign(t: Tables, req: TxRequest, stamp: Stamp, actor: string)
    requires AddTransaksi(t, req, stamp, actor).Success?
    ensures var r := AddTransaksi(t, req, stamp, actor).value;
            var a := Abs(req.nominal);
            && |r.transaksi| == |t.transaksi| + 1
            && r.transaksi[..|t.transaksi|] == t.transaksi
            && r.transaksi[|t.transaksi|].idTransaksi == stamp.id
            && r.transaksi[|t.transaksi|].idNasabah == req.idNasabah
            && r.transaksi[|t.transaksi|].jenis == req.jenis
            && r.transaksi[|t.transaksi|].nominal == (if IsExpense(req.jenis) then -a else a)
  {
    var r := AddTransaksi(t, req, stamp, actor).value;
    assert r.transaksi[..|t.transaksi|] == t.transaksi;
  }

  /** addTransaksi keeps every balance non-negative when the amount's magnitude is added or checked. */
  lemma {:induction false} AddTransaksiKeepsNonNegative(t: Tables, req: TxRequest, stamp: Stamp, actor: string)
    requires BalancesNonNegative(t.nasabah)
    requires AddTransaksi(t, req, stamp, actor).Success?
    ensures BalancesNonNegative(AddTransaksi(t, req, stamp, actor).value.nasabah)
  {
    var i := FindIndex(t.nasabah, MemberIs(req.idNasabah)).value;
    var r := AddTransaksi(t, req, stamp, actor).value;
    assert NonNegative(t.nasabah[i]);
    forall k | 0 <= k < |r.nasabah| ensures NonNegative(r.nasabah[k]) {
      if k != i {
        assert r.nasabah[k] == t.nasabah[k];
      }
    }
  }

  // ---------------------------------------------------------------------------
  // deleteTransaksi
  // ---------------------------------------------------------------------------

  /** Deleting an unknown id writes nothing, not even a log entry. */
  lemma DeleteUnknownIsNoOp(t: Tables, id: string, actor: string)
    requires forall k :: 0 <= k < |t.transaksi| ==> t.transaksi[k].idTransaksi != id
    ensures DeleteTransaksi(t, id, actor) == t
  {
  }

  /** Deleting reverts the first transaction with that id on its member's current record:
      deposits and profit shares are subtracted floored at 0, a withdrawal is added back,
      an instalment reverts nothing (the loan is not reopened); every transaction with that id
      is removed. */
  lemma DeleteReverts(t: Tables, id: string, actor: string, j: nat, i: nat)
    requires FindIndex(t.transaksi, (x: Transaksi) => x.idTransaksi == id) == Some(j)
    requires FindIndex(t.nasabah, MemberIs(t.transaksi[j].idNasabah)) == Some(i)
    ensures var trx, r := t.transaksi[j], DeleteTransaksi(t, id, actor);
            var a, n, n' := Abs(trx.nominal), t.nasabah[i], r.nasabah[i];
            && |r.nasabah| == |t.nasabah|
            && (forall k :: 0 <= k < |t.nasabah| && k != i ==> r.nasabah[k] == t.nasabah[k])
            && n'.simpananPokok == (if trx.jenis == SimpananPokok then Max(0.0, n.simpananPokok - a) else n.simpananPokok)
            && n'.simpananWajib == (if trx.jenis == SimpananWajib then Max(0.0, n.simpananWajib - a) else n.simpananWajib)
            && n'.simpananSukarela == (match trx.jenis
                                       case SimpananSukarela => Max(0.0, n.simpananSukarela - a)
                                       case Penarikan => n.simpananSukarela + a
                                       case _ => n.simpananSukarela)
            && n'.shu == (if trx.jenis == BagiHasil then Max(0.0, n.shu - a) else n.shu)
            && n'.idNasabah == n.idNasabah
            && n'.nama == n.nama && n'.nik == n.nik && n'.alamat == n.alamat && n'.noHp == n.noHp
            && n'.koordinator == n.koordinator
            && n' == Merge(n, RevertUpdates(n, trx.jenis, a))
            && r.transaksi == Filter(t.transaksi, (x: Transaksi) => x.idTransaksi != id)
            && (forall k :: 0 <= k < |r.transaksi| ==> r.transaksi[k].idTransaksi != id)
            && (forall k :: 0 <= k < |t.transaksi| && t.transaksi[k].idTransaksi != id ==> t.transaksi[k] in r.transaksi)
            && r.pinjaman == t.pinjaman && r.users == t.users
  {
  }

  /** Deleting never drives a balance below 0. */
  lemma {:induction false} DeleteKeepsNonNegative(t: Tables, id: string, actor: string)
    requires BalancesNonNegative(t.nasabah)
    ensures BalancesNonNegative(DeleteTransaksi(t, id, actor).nasabah)
  {
    var r := DeleteTransaksi(t, id, actor);
    match Find(t.transaksi, (x: Transaksi) => x.idTransaksi == id)
    case None =>
    case Some(trx) =>
      match FindIndex(t.nasabah, MemberIs(trx.idNasabah))
      case None =>
      case Some(i) =>
        assert NonNegative(t.nasabah[i]);
        RevertKeepsNonNegative(t.nasabah[i], trx.jenis, Abs(trx.nominal));
        forall k | 0 <= k < |r.nasabah| ensures NonNegative(r.nasabah[k]) {
          if k != i {
            assert r.nasabah[k] == t.nasabah[k];
          }
        }
  }

  /** The revert object of a non-negative member leaves it non-negative. */
  lemma RevertKeepsNonNegative(n: Member, jenis: Jenis, amount: Money)
    requires NonNegative(n) && amount >= 0.0
    ensures NonNegative(Merge(n, RevertUpdates(n, jenis, amount)))
  {
  }

  /** Round trip: recording a transaction of any kind but an instalment and deleting it again
      restores the members and the transaction list exactly, provided the id is fresh and the
      balances were non-negative (the floor at 0 is then never reached). */
  lemma AddThenDeleteRestores(t: Tables, req: TxRequest, stamp: Stamp, actor: string, actor2: string)
    requires BalancesNonNegative(t.nasabah)
    requires forall k :: 0 <= k < |t.transaksi| ==> t.transaksi[k].idTransaksi != stamp.id
    requires req.jenis != Angsuran
    requires AddTransaksi(t, req, stamp, actor).Success?
    ensures var r := DeleteTransaksi(AddTransaksi(t, req, stamp, actor).value, stamp.id, actor2);
            r.nasabah == t.nasabah && r.transaksi == t.transaksi && r.pinjaman == t.pinjaman && r.users == t.users
  {
    var i := FindIndex(t.nasabah, MemberIs(req.idNasabah)).value;
    var t1 := AddTransaksi(t, req, stamp, actor).value;
    var trx := Transaksi(stamp.id, stamp.time, req.idNasabah, req.jenis, StoredNominal(req.jenis, Abs(req.nominal)),
                         req.koordinator, req.keterangan);
    Recorded(t, req, stamp, actor, i);
    assert NonNegative(t.nasabah[i]);
    DeleteUndoes(t1, t.transaksi, trx, i, t.nasabah[i], actor2);
    assert t.nasabah[i := t.nasabah[i]] == t.nasabah;
  }

  /** What a successful non-instalment addTransaksi leaves behind: the new transaction last, and
      the member patched by the kind's effect at the index it is still found at. */
  lemma Recorded(t: Tables, req: TxRequest, stamp: Stamp, actor: string, i: nat)
    requires FindIndex(t.nasabah, MemberIs(req.idNasabah)) == Some(i)
    requires req.jenis != Angsuran
    requires AddTransaksi(t, req, stamp, actor).Success?
    ensures var t1 := AddTransaksi(t, req, stamp, actor).value;
            var a := Abs(req.nominal);
            && t1.transaksi == t.transaksi + [Transaksi(stamp.id, stamp.time, req.idNasabah, req.jenis, StoredNominal(req.jenis, a),
                                                       req.koordinator, req.keterangan)]
            && t1.nasabah == t.nasabah[i := Effect(t.nasabah[i], req.jenis, a)]
            && FindIndex(t1.nasabah, MemberIs(req.idNasabah)) == Some(i)
            && t1.pinjaman == t.pinjaman && t1.users == t.users
  {
    var t1 := AddTransaksi(t, req, stamp, actor).value;
    AddTransaksiKeepsIds(t, req, stamp, actor);
    FindIndexSameIds(t1.nasabah, t.nasabah, req.idNasabah);
  }

  /** deleteTransaksi of the last-recorded transaction `trx`, whose id is fresh in `before`, gives back
      `before` and reverts its member's balance to `n`, when `n` had non-negative balances. */
  lemma DeleteUndoes(t1: Tables, before: seq<Transaksi>, trx: Transaksi, i: nat, n: Member, actor: string)
    requires t1.transaksi == before + [trx]
    requires forall k :: 0 <= k < |before| ==> before[k].idTransaksi != trx.idTransaksi
    requires FindIndex(t1.nasabah, MemberIs(trx.idNasabah)) == Some(i)
    requires trx.jenis != Angsuran && NonNegative(n)
    requires t1.nasabah[i] == Effect(n, trx.jenis, Abs(trx.nominal))
    ensures var r := DeleteTransaksi(t1, trx.idTransaksi, actor);
            r.nasabah == t1.nasabah[i := n] && r.transaksi == before && r.pinjaman == t1.pinjaman && r.users == t1.users
  {
    var isId := (x: Transaksi) => x.idTransaksi == trx.idTransaksi;
    assert Find(t1.transaksi, isId) == Some(trx) by {
      var j := |before|;
      assert isId(t1.transaksi[j]);
      assert forall k :: 0 <= k < j ==> !isId(t1.transaksi[k]);
      assert FindIndex(t1.transaksi, isId) == Some(j);
    }
    var revert := RevertUpdates(t1.nasabah[i], trx.jenis, Abs(trx.nominal));
    assert revert != NoChange && Merge(t1.nasabah[i], revert) == n;
    FilterDropsLast(before, trx, trx.idTransaksi);
  }

  lemma FilterDropsLast(s: seq<Transaksi>, trx: Transaksi, id: string)
    requires forall k :: 0 <= k < |s| ==> s[k].idTransaksi != id
    requires trx.idTransaksi == id
    ensures Filter(s + [trx], (x: Transaksi) => x.idTransaksi != id) == s
  {
    assert (s + [trx])[..|s|] == s;
  }

  // ---------------------------------------------------------------------------
  // Deposits then a withdrawal of the same total
  // ---------------------------------------------------------------------------

  /** `amounts` deposited one after another as voluntary savings of member `id`. */
  ghost function DepositSukarela(t: Tables, id: string, amounts: seq<Money>, stamp: Stamp, actor: string): Tables
    decreases |amounts|
  {
    if |amounts| == 0 then t
    else
      var t' := DepositSukarela(t, id, amounts[..|amounts| - 1], stamp, actor);
      var r := AddTransaksi(t', TxRequest(id, SimpananSukarela, amounts[|amounts| - 1], actor, "-"), stamp, actor);
      if r.Success? then r.value else t'
  }

  function SumAmounts(amounts: seq<Money>): Money {
    Sum(amounts, (x: Money) => x)
  }

  lemma {:induction false} DepositSukarelaAdds(t: Tables, id: string, amounts: seq<Money>, stamp: Stamp, actor: string, i: nat)
    requires FindIndex(t.nasabah, MemberIs(id)) == Some(i)
    requires forall k :: 0 <= k < |amounts| ==> amounts[k] >= 0.0
    ensures var t' := DepositSukarela(t, id, amounts, stamp, actor);
            && Ids(t'.nasabah) == Ids(t.nasabah)
            && |t'.nasabah| == |t.nasabah|
            && t'.nasabah[i].simpananSukarela == t.nasabah[i].simpananSukarela + SumAmounts(amounts)
    decreases |amounts|
  {
    if |amounts| > 0 {
      var front := amounts[..|amounts| - 1];
      DepositSukarelaAdds(t, id, front, stamp, actor, i);
      var t' := DepositSukarela(t, id, front, stamp, actor);
      FindIndexSameIds(t'.nasabah, t.nasabah, id);
      var req := TxRequest(id, SimpananSukarela, amounts[|amounts| - 1], actor, "-");
      DepositCreditsOneField(t', req, stamp, actor, i);
      AddTransaksiKeepsIds(t', req, stamp, actor);
    }
  }

  /** Deposits totalling T into empty voluntary savings, then a withdrawal of T, leave 0;
      a withdrawal of T + 1 instead throws and leaves the savings at T. */
  lemma DepositsThenWithdraw(t: Tables, id: string, amounts: seq<Money>, stamp: Stamp, actor: string, i: nat)
    requires FindIndex(t.nasabah, MemberIs(id)) == Some(i)
    requires t.nasabah[i].simpananSukarela == 0.0
    requires forall k :: 0 <= k < |amounts| ==> amounts[k] >= 0.0
    ensures var t' := DepositSukarela(t, id, amounts, stamp, actor);
            var total := SumAmounts(amounts);
            var w := AddTransaksi(t', TxRequest(id, Penarikan, total, actor, "-"), stamp, actor);
            var w1 := AddTransaksi(t', TxRequest(id, Penarikan, total + 1.0, actor, "-"), stamp, actor);
            && w.Success? && i < |w.value.nasabah| && w.value.nasabah[i].simpananSukarela == 0.0
            && w1 == Failure(SaldoSukarelaKurang(total))
  {
    var t' := DepositSukarela(t, id, amounts, stamp, actor);
    var total := SumAmounts(amounts);
    assert total >= 0.0 && t'.nasabah[i].simpananSukarela == total
           && FindIndex(t'.nasabah, MemberIs(id)) == Some(i) by {
      DepositSukarelaAdds(t, id, amounts, stamp, actor, i);
      SumNonneg(amounts, (x: Money) => x);
      FindIndexSameIds(t'.nasabah, t.nasabah, id);
    }
    var req := TxRequest(id, Penarikan, total, actor, "-");
    var req1 := TxRequest(id, Penarikan, total + 1.0, actor, "-");
    assert Abs(req.nominal) == total;
    assert Abs(req1.nominal) == total + 1.0;
    var w := AddTransaksi(t', req, stamp, actor);
    assert w.Success? && w.value.nasabah == t'.nasabah[i := t'.nasabah[i].(simpananSukarela := 0.0)] by {
      WithdrawalRule(t', req, stamp, actor, i);
    }
    assert AddTransaksi(t', req1, stamp, actor) == Failure(SaldoSukarelaKurang(total)) by {
      WithdrawalRule(t', req1, stamp, actor, i);
    }
  }

  // ---------------------------------------------------------------------------
  // bayarAngsuran
  // ---------------------------------------------------------------------------

  predicate UniqueLoanIds(loans: seq<Pinjaman>) {
    forall j, k :: 0 <= j < k < |loans| ==> loans[j].idPinjaman != loans[k].idPinjaman
  }

  /** A loan is settled exactly when nothing is owed, and nothing negative is owed. */
  predicate LoanConsistent(l: Pinjaman) {
    l.sisaPinjaman >= 0.0 && (l.status == Lunas <==> l.sisaPinjaman == 0.0)
  }

  /** Repayment touches only the member's first loan with a positive balance: the balance becomes
      max(0, sisa - nominal) and the status becomes lunas when it reaches 0. Without such a loan
      nothing changes. (Loan ids unique: the source writes the first row with the found loan's id.) */
  lemma RepaymentRule(loans: seq<Pinjaman>, id: string, nominal: Money)
    requires UniqueLoanIds(loans)
    ensures var r := BayarAngsuran(loans, id, nominal);
            match FindIndex(loans, (l: Pinjaman) => Outstanding(l, id))
            case None => r == loans
            case Some(j) =>
              var newSisa := Max(0.0, loans[j].sisaPinjaman - nominal);
              && |r| == |loans|
              && (forall k :: 0 <= k < |loans| && k != j ==> r[k] == loans[k])
              && r[j].sisaPinjaman == newSisa
              && (newSisa == 0.0 ==> r[j].status == Lunas)
              && (newSisa != 0.0 ==> r[j].status == loans[j].status)
              && r[j].idPinjaman == loans[j].idPinjaman && r[j].idNasabah == loans[j].idNasabah
              && r[j].jumlahPinjaman == loans[j].jumlahPinjaman && r[j].angsuranBulanan == loans[j].angsuranBulanan
              && r == loans[j := loans[j].(sisaPinjaman := newSisa,
                                           status := if newSisa == 0.0 then Lunas else loans[j].status)]
  {
    match FindIndex(loans, (l: Pinjaman) => Outstanding(l, id))
    case None =>
    case Some(j) =>
      var loan := loans[j];
      var sameId := (l: Pinjaman) => l.idPinjaman == loan.idPinjaman;
      assert FindIndex(loans, sameId) == Some(j) by {
        assert sameId(loans[j]);
        assert forall k :: 0 <= k < j ==> !sameId(loans[k]);
      }
  }

  /** Repayment keeps every loan consistent (balance >= 0, lunas iff 0) whatever the amount. */
  lemma RepaymentKeepsConsistent(loans: seq<Pinjaman>, id: string, nominal: Money)
    requires UniqueLoanIds(loans)
    requires forall k :: 0 <= k < |loans| ==> LoanConsistent(loans[k])
    ensures var r := BayarAngsuran(loans, id, nominal);
            UniqueLoanIds(r) && forall k :: 0 <= k < |r| ==> LoanConsistent(r[k])
  {
    RepaymentRule(loans, id, nominal);
  }

  /** Loan ids are not checked for uniqueness: with two loans under one id, repaying member B's
      outstanding loan writes the first loan with that id instead, member A's settled one, which
      is left lunas with a positive balance while B's loan stays as it was. */
  lemma DuplicateLoanIdRepaysOther()
    ensures var a := Pinjaman("P1", "A", 100.0, 0.0, 1, 100.0, 0.0, Lunas);
            var b := Pinjaman("P1", "B", 100.0, 0.0, 1, 100.0, 100.0, Aktif);
            var r := BayarAngsuran([a, b], "B", 50.0);
            && LoanConsistent(a) && LoanConsistent(b)
            && r == [a.(sisaPinjaman := 50.0), b]
            && !LoanConsistent(r[0])
  {
    var a := Pinjaman("P1", "A", 100.0, 0.0, 1, 100.0, 0.0, Lunas);
    var b := Pinjaman("P1", "B", 100.0, 0.0, 1, 100.0, 100.0, Aktif);
    var owing := (l: Pinjaman) => Outstanding(l, "B");
    var sameId := (l: Pinjaman) => l.idPinjaman == "P1";
    assert owing([a, b][1]) && !owing([a, b][0]);
    assert FindIndex([a, b], owing) == Some(1);
    assert sameId([a, b][0]);
    assert FindIndex([a, b], sameId) == Some(0);
    assert Find([a, b], owing) == Some(b);
    assert UpdateFirst([a, b], sameId, (l: Pinjaman) => Repaid(l, 50.0)) == [a.(sisaPinjaman := 50.0), b];
  }

  /** Paying a loan off settles it, and paying again leaves the settled loan as it is (its
      balance stays 0), whatever other loans the table holds. When the member has no other loan
      with a positive balance, paying again changes no loan at all. */
  lemma RepayTwice(loans: seq<Pinjaman>, id: string, nominal: Money, again: Money)
    requires UniqueLoanIds(loans)
    requires var j := FindIndex(loans, (l: Pinjaman) => Outstanding(l, id));
             j.Some? && nominal >= loans[j.value].sisaPinjaman
    ensures var j := FindIndex(loans, (l: Pinjaman) => Outstanding(l, id)).value;
            var once := BayarAngsuran(loans, id, nominal);
            var twice := BayarAngsuran(once, id, again);
            && once[j].sisaPinjaman == 0.0 && once[j].status == Lunas
            && |twice| == |once| && twice[j] == once[j]
    ensures var j := FindIndex(loans, (l: Pinjaman) => Outstanding(l, id)).value;
            var once := BayarAngsuran(loans, id, nominal);
            (forall k :: 0 <= k < |loans| && k != j ==> !Outstanding(loans[k], id))
            ==> BayarAngsuran(once, id, again) == once
  {
    var j := FindIndex(loans, (l: Pinjaman) => Outstanding(l, id)).value;
    RepaymentRule(loans, id, nominal);
    var once := BayarAngsuran(loans, id, nominal);
    RepaidKeepsIds(loans, once, j);
    RepaymentRule(once, id, again);
    assert !Outstanding(once[j], id);
    if forall k :: 0 <= k < |loans| && k != j ==> !Outstanding(loans[k], id) {
      assert forall k :: 0 <= k < |once| ==> !Outstanding(once[k], id) by {
        forall k | 0 <= k < |once| ensures !Outstanding(once[k], id) {
          if k != j {
            assert once[k] == loans[k];
          }
        }
      }
      assert FindIndex(once, (l: Pinjaman) => Outstanding(l, id)).None?;
    }
  }

  /** Rewriting one loan without changing its id keeps loan ids unique. */
  lemma RepaidKeepsIds(loans: seq<Pinjaman>, once: seq<Pinjaman>, j: nat)
    requires UniqueLoanIds(loans)
    requires |once| == |loans| && j < |loans|
    requires forall k :: 0 <= k < |loans| && k != j ==> once[k] == loans[k]
    requires once[j].idPinjaman == loans[j].idPinjaman
    ensures UniqueLoanIds(once)
  {
    forall a, b | 0 <= a < b < |once| ensures once[a].idPinjaman != once[b].idPinjaman {
      assert once[a].idPinjaman == loans[a].idPinjaman && once[b].idPinjaman == loans[b].idPinjaman;
    }
  }

  // ---------------------------------------------------------------------------
  // getNasabah
  // ---------------------------------------------------------------------------

  /** total_pinjaman only counts active loans of that member and is >= 0 when balances are. */
  lemma {:induction false} TotalPinjamanNonNegative(loans: seq<Pinjaman>, id: string)
    requires forall k :: 0 <= k < |loans| ==> loans[k].sisaPinjaman >= 0.0
    ensures TotalPinjaman(loans, id) >= 0.0
  {
    var active := Filter(loans, (l: Pinjaman) => l.idNasabah == id && l.status == Aktif);
    SumNonneg(active, (l: Pinjaman) => l.sisaPinjaman);
  }

  /** A member without an active loan has total_pinjaman 0. */
  lemma NoActiveLoanNoDebt(loans: seq<Pinjaman>, id: string)
    requires forall k :: 0 <= k < |loans| ==> !(loans[k].idNasabah == id && loans[k].status == Aktif)
    ensures TotalPinjaman(loans, id) == 0.0
  {
  }

  // ---------------------------------------------------------------------------
  // Local update and delete helpers
  // ---------------------------------------------------------------------------

  /** addNasabah appends the member after every existing one and logs its name; nothing else changes. */
  lemma AddNasabahAppends(t: Tables, m: Member, actor: string)
    ensures var r := AddNasabah(t, m, actor);
            && |r.nasabah| == |t.nasabah| + 1 && r.nasabah[|t.nasabah|] == m && r.nasabah[..|t.nasabah|] == t.nasabah
            && r.users == t.users && r.transaksi == t.transaksi && r.pinjaman == t.pinjaman
            && r.logs == t.logs + [LogEntry(actor, AddMember(m.nama))]
  {
  }

  /** createPinjaman stores the loan last with status aktif, whatever status it came with, and
      logs its id; nothing else changes. */
  lemma CreatePinjamanStoresActive(t: Tables, data: Pinjaman, actor: string)
    ensures var r := CreatePinjaman(t, data, actor);
            && |r.pinjaman| == |t.pinjaman| + 1 && r.pinjaman[..|t.pinjaman|] == t.pinjaman
            && r.pinjaman[|t.pinjaman|].status == Aktif
            && r.pinjaman[|t.pinjaman|].(status := data.status) == data
            && r.users == t.users && r.nasabah == t.nasabah && r.transaksi == t.transaksi
            && r.logs == t.logs + [LogEntry(actor, CreateLoan(data.idPinjaman))]
  {
  }

  /** createUser appends the staff record and logs its username; nothing else changes. */
  lemma CreateUserAppends(t: Tables, u: StaffRecord, actor: string)
    ensures var r := CreateUser(t, u, actor);
            && r.users == t.users + [u]
            && r.nasabah == t.nasabah && r.transaksi == t.transaksi && r.pinjaman == t.pinjaman
            && r.logs == t.logs + [LogEntry(actor, CreateStaff(u.username))]
  {
  }

  /** updateNasabah merges the patch into the first member with that id, keeping its id and
      coordinator; every other member, and every other collection, stays as it was. */
  lemma UpdateNasabahOnlyTarget(t: Tables, id: string, p: MemberPatch, actor: string)
    ensures var r := UpdateNasabah(t, id, p, actor);
            && |r.nasabah| == |t.nasabah|
            && (forall k :: 0 <= k < |t.nasabah| && Some(k) != FindIndex(t.nasabah, MemberIs(id)) ==> r.nasabah[k] == t.nasabah[k])
            && (forall k :: 0 <= k < |t.nasabah| && Some(k) == FindIndex(t.nasabah, MemberIs(id)) ==>
                  && r.nasabah[k] == Merge(t.nasabah[k], p)
                  && r.nasabah[k].idNasabah == id && r.nasabah[k].koordinator == t.nasabah[k].koordinator)
            && (forall k :: 0 <= k < |t.nasabah| && t.nasabah[k].idNasabah != id ==> r.nasabah[k] == t.nasabah[k])
            && r.users == t.users && r.transaksi == t.transaksi && r.pinjaman == t.pinjaman
            && r.logs == t.logs + [LogEntry(actor, EditMember(id))]
  {
  }

  /** updateUser merges the form into the first staff record with that id, keeping its id; no
      other record changes. */
  lemma UpdateUserOnlyTarget(t: Tables, id: string, d: StaffData, actor: string)
    ensures var r := UpdateUser(t, id, d, actor);
            && |r.users| == |t.users|
            && (forall k :: 0 <= k < |t.users| && Some(k) != FindIndex(t.users, StaffIs(id)) ==> r.users[k] == t.users[k])
            && (forall k :: 0 <= k < |t.users| && Some(k) == FindIndex(t.users, StaffIs(id)) ==>
                  r.users[k] == MergeStaff(t.users[k], d) && r.users[k].id == id)
            && (forall k :: 0 <= k < |t.users| && t.users[k].id != id ==> r.users[k] == t.users[k])
            && r.nasabah == t.nasabah && r.transaksi == t.transaksi && r.pinjaman == t.pinjaman
  {
  }

  /** deleteUser removes exactly the staff records with that id and keeps the rest. */
  lemma DeleteUserRemovesExactly(t: Tables, id: string, actor: string)
    ensures var r := DeleteUser(t, id, actor);
            && (forall k :: 0 <= k < |r.users| ==> r.users[k].id != id && r.users[k] in t.users)
            && (forall k :: 0 <= k < |t.users| && t.users[k].id != id ==> t.users[k] in r.users)
            && r.nasabah == t.nasabah && r.transaksi == t.transaksi && r.pinjaman == t.pinjaman
  {
  }
}
