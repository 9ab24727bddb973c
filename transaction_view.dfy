/**
 * The transaction page of pages/TransaksiPage.tsx: who sees which transactions, which members and
 * loans the entry form offers, the instalment autofill, the request the form submits, the type
 * filter and the sign each row is shown with.
 */
module TransactionView {
  import opened Wrappers
  import opened Types
  import opened Lists
  import opened Ledger
  import opened Dashboard
  import opened MemberDirectory

  /** A member user sees only the transactions carrying their member id; staff see all. */
  function VisibleTransactions(user: Option<User>, trx: seq<Transaksi>): (r: seq<Transaksi>)
    ensures IsMemberUser(user) ==>
              && (forall i :: 0 <= i < |r| ==> r[i] in trx && Owns(user.value.idNasabah, r[i].idNasabah))
              && (forall i :: 0 <= i < |trx| && Owns(user.value.idNasabah, trx[i].idNasabah) ==> trx[i] in r)
    ensures !IsMemberUser(user) ==> r == trx
  {
    if IsMemberUser(user) then Filter(trx, TrxOwnedBy(user.value.idNasabah)) else trx
  }

  /** The members the form offers: a coordinator only their own, other staff everyone. A member
      user's page never loads the list, which stays empty. */
  function PickableMembers(user: Option<User>, ns: seq<MemberView>): (r: seq<MemberView>)
    ensures IsMemberUser(user) ==> r == []
    ensures user.Some? && user.value.role == Koordinator ==>
              && (forall i :: 0 <= i < |r| ==> r[i] in ns && r[i].member.koordinator == Some(user.value.username))
              && (forall i :: 0 <= i < |ns| && ns[i].member.koordinator == Some(user.value.username) ==> ns[i] in r)
    ensures !IsMemberUser(user) && !(user.Some? && user.value.role == Koordinator) ==> r == ns
  {
    if IsMemberUser(user) then []
    else if user.Some? && user.value.role == Koordinator then Filter(ns, EnteredBy(user.value.username))
    else ns
  }

  predicate IsActive(l: Pinjaman) {
    l.status == Aktif
  }

  /** activeLoans: exactly the loans whose status is `aktif`, in order. */
  function ActiveLoans(loans: seq<Pinjaman>): (r: seq<Pinjaman>)
    ensures forall i :: 0 <= i < |r| ==> r[i] in loans && r[i].status == Aktif
    ensures forall i :: 0 <= i < |loans| && loans[i].status == Aktif ==> loans[i] in r
  {
    Filter(loans, IsActive)
  }

  // ---------------------------------------------------------------------------
  // The entry form
  // ---------------------------------------------------------------------------

  datatype Mode = General | Instalment

  /** The form. `nominal` is the amount field: `None` while it is empty, otherwise its value. */
  datatype TxForm = TxForm(idNasabah: string, jenis: Jenis, nominal: Option<Money>, keterangan: string)

  /** openModal: an empty form whose kind is ANGSURAN in instalment mode and SIMPANAN_SUKARELA otherwise. */
  function OpenForm(mode: Mode): (r: TxForm)
    ensures r.idNasabah == "" && r.nominal.None? && r.keterangan == ""
    ensures r.jenis == (if mode == Instalment then Angsuran else SimpananSukarela)
  {
    TxForm("", if mode == Instalment then Angsuran else SimpananSukarela, None, "")
  }

  function LoanOf(id: string): Pinjaman -> bool {
    (l: Pinjaman) => l.idNasabah == id
  }

  function InstalmentNote(loanId: string): string {
    "Angsuran Pinjaman " + loanId
  }

  /** handleNasabahChange: picking a member. In instalment mode the amount and note come from the
      member's first active loan, or are cleared when there is none; otherwise they are kept. */
  function PickMember(mode: Mode, form: TxForm, id: string, activeLoans: seq<Pinjaman>): (r: TxForm)
    ensures r.idNasabah == id && r.jenis == form.jenis
    ensures mode == General ==> r.nominal == form.nominal && r.keterangan == form.keterangan
    ensures mode == Instalment && Find(activeLoans, LoanOf(id)).Some? ==>
              var loan := Find(activeLoans, LoanOf(id)).value;
              && loan in activeLoans && loan.idNasabah == id
              && r.nominal == Some(loan.angsuranBulanan)
              && r.keterangan == InstalmentNote(loan.idPinjaman)
    ensures mode == Instalment && Find(activeLoans, LoanOf(id)).None? ==>
              (forall i :: 0 <= i < |activeLoans| ==> activeLoans[i].idNasabah != id)
              && r.nominal.None? && r.keterangan == ""
  {
    if mode == Instalment then
      match Find(activeLoans, LoanOf(id))
      case Some(loan) => form.(idNasabah := id, nominal := Some(loan.angsuranBulanan), keterangan := InstalmentNote(loan.idPinjaman))
      case None => form.(idNasabah := id, nominal := None, keterangan := "")
    else form.(idNasabah := id)
  }

  /** handleSubmit: the request handed to addTransaksi; an empty amount is 0 and an empty note "-". */
  function Request(form: TxForm, user: Option<User>): (r: TxRequest)
    ensures r.idNasabah == form.idNasabah && r.jenis == form.jenis
    ensures r.nominal == (if form.nominal.Some? then form.nominal.value else 0.0)
    ensures r.koordinator == UsernameOr(user, "system") && r.keterangan == OrDash(form.keterangan)
  {
    TxRequest(form.idNasabah, form.jenis, if form.nominal.Some? then form.nominal.value else 0.0,
              UsernameOr(user, "system"), OrDash(form.keterangan))
  }

  /** Opening the instalment form and picking a member with an active loan submits an ANGSURAN of
      exactly that loan's monthly instalment, for that member, noted with the loan's id. */
  lemma InstalmentAutofill(id: string, activeLoans: seq<Pinjaman>, user: Option<User>)
    requires Find(activeLoans, LoanOf(id)).Some?
    ensures var loan := Find(activeLoans, LoanOf(id)).value;
            var req := Request(PickMember(Instalment, OpenForm(Instalment), id, activeLoans), user);
            req == TxRequest(id, Angsuran, loan.angsuranBulanan, UsernameOr(user, "system"), OrDash(InstalmentNote(loan.idPinjaman)))
  {
  }

  // ---------------------------------------------------------------------------
  // The table
  // ---------------------------------------------------------------------------

  function HasKind(jenis: Jenis): Transaksi -> bool {
    (x: Transaksi) => x.jenis == jenis
  }

  /** filteredTrx: the type filter, `None` standing for 'all'. */
  function TypeFilter(filterType: Option<Jenis>, trx: seq<Transaksi>): (r: seq<Transaksi>)
    ensures filterType.None? ==> r == trx
    ensures filterType.Some? ==>
              && (forall i :: 0 <= i < |r| ==> r[i] in trx && r[i].jenis == filterType.value)
              && (forall i :: 0 <= i < |trx| && trx[i].jenis == filterType.value ==> trx[i] in r)
  {
    if filterType.None? then trx else Filter(trx, HasKind(filterType.value))
  }

  /** A row's amount: a sign and the magnitude. */
  datatype Shown = Shown(minus: bool, magnitude: Money)

  /** isExpense rows show '-', every other row '+', each with |nominal|. */
  function Display(x: Transaksi): (r: Shown)
    ensures r.minus <==> IsExpense(x.jenis)
    ensures r.magnitude == Abs(x.nominal) && r.magnitude >= 0.0
  {
    Shown(IsExpense(x.jenis), Abs(x.nominal))
  }

  /** For a transaction addTransaksi stored, the sign shown is the sign stored and the magnitude is
      the amount entered. */
  lemma DisplayMatchesStoredSign(x: Transaksi, amount: Money)
    requires amount > 0.0
    requires x.nominal == StoredNominal(x.jenis, amount)
    ensures Display(x).minus <==> x.nominal < 0.0
    ensures Display(x).magnitude == amount
  {
  }
}
