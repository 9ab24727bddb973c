/**
 * The ledger rules of services/mockDatabase.ts, as functions over one backend's tables.
 *
 * Every write of DatabaseService lands on one copy of the collections (the remote sheet or
 * the local cache, see module Store); what it does to that copy is defined here.
 */
module Ledger {
  import opened Wrappers
  import opened Types
  import opened Lists

  /** The collections of one backend (DB_KEYS, or the sheets of the same names). */
  datatype Tables = Tables(
    users: seq<StaffRecord>,
    nasabah: seq<Member>,
    transaksi: seq<Transaksi>,
    pinjaman: seq<Pinjaman>,
    logs: seq<LogEntry>)

  /** The errors addTransaksi throws. */
  datatype Error =
    | NasabahNotFound(id: string)          // "Nasabah tidak ditemukan"
    | SaldoSukarelaKurang(current: Money)  // "Saldo Sukarela tidak cukup"

  /** What a page submits to addTransaksi: a transaction without id and date. */
  datatype TxRequest = TxRequest(idNasabah: string, jenis: Jenis, nominal: Money, koordinator: string, keterangan: string)

  /** A Partial<Nasabah>: the fields a write sets. */
  datatype MemberPatch = MemberPatch(
    nama: Option<string>,
    nik: Option<string>,
    alamat: Option<string>,
    noHp: Option<string>,
    simpananPokok: Option<Money>,
    simpananWajib: Option<Money>,
    simpananSukarela: Option<Money>,
    shu: Option<Money>)

  /** The empty object `{}`. */
  const NoChange: MemberPatch := MemberPatch(None, None, None, None, None, None, None, None)

  /** The staff form's payload: updateUser always sends these four fields. */
  datatype StaffData = StaffData(nama: string, username: string, password: string, role: string)

  function Or<T>(o: Option<T>, d: T): T {
    if o.Some? then o.value else d
  }

  /** `{ ...m, ...p }` */
  function Merge(m: Member, p: MemberPatch): Member {
    Member(m.idNasabah, Or(p.nama, m.nama), Or(p.nik, m.nik), Or(p.alamat, m.alamat), Or(p.noHp, m.noHp),
           Or(p.simpananPokok, m.simpananPokok), Or(p.simpananWajib, m.simpananWajib),
           Or(p.simpananSukarela, m.simpananSukarela), Or(p.shu, m.shu), m.koordinator)
  }

  function MemberIs(id: string): Member -> bool {
    (m: Member) => m.idNasabah == id
  }

  function Ids(ms: seq<Member>): seq<string> {
    seq(|ms|, i requires 0 <= i < |ms| => ms[i].idNasabah)
  }

  // ---------------------------------------------------------------------------
  // Transaction engine (addTransaksi / deleteTransaksi)
  // ---------------------------------------------------------------------------

  /** The balance effect of a transaction kind, field by field: the reference the patch is checked against. */
  function Effect(n: Member, jenis: Jenis, amount: Money): Member {
    match jenis
    case SimpananPokok => n.(simpananPokok := n.simpananPokok + amount)
    case SimpananWajib => n.(simpananWajib := n.simpananWajib + amount)
    case SimpananSukarela => n.(simpananSukarela := n.simpananSukarela + amount)
    case Penarikan => n.(simpananSukarela := n.simpananSukarela - amount)
    case BagiHasil => n.(shu := n.shu + amount)
    case Angsuran => n
  }

  /** The `updates` object addTransaksi builds, or the insufficient-savings error. */
  function Updates(n: Member, jenis: Jenis, amount: Money): (r: Result<MemberPatch, Error>)
    ensures r.Failure? <==> jenis == Penarikan && n.simpananSukarela < amount
    ensures r.Failure? ==> r.error == SaldoSukarelaKurang(n.simpananSukarela)
    ensures r.Success? ==> Merge(n, r.value) == Effect(n, jenis, amount)
    ensures r.Success? ==> (r.value == NoChange <==> jenis == Angsuran)
  {
    match jenis
    case SimpananPokok => Success(NoChange.(simpananPokok := Some(n.simpananPokok + amount)))
    case SimpananWajib => Success(NoChange.(simpananWajib := Some(n.simpananWajib + amount)))
    case SimpananSukarela => Success(NoChange.(simpananSukarela := Some(n.simpananSukarela + amount)))
    case Penarikan =>
      if n.simpananSukarela < amount then Failure(SaldoSukarelaKurang(n.simpananSukarela))
      else Success(NoChange.(simpananSukarela := Some(n.simpananSukarela - amount)))
    case BagiHasil => Success(NoChange.(shu := Some(n.shu + amount)))
    case Angsuran => Success(NoChange)
  }

  /** Withdrawals and profit shares are stored negative, everything else positive. */
  function StoredNominal(jenis: Jenis, amount: Money): (r: Money)
    requires amount >= 0.0
    ensures Abs(r) == amount
    ensures r < 0.0 ==> IsExpense(jenis)
    ensures amount > 0.0 && IsExpense(jenis) ==> r < 0.0
  {
    if IsExpense(jenis) then -amount else amount
  }

  /** The `revertUpdates` object deleteTransaksi builds from the member's current state. */
  function RevertUpdates(n: Member, jenis: Jenis, amount: Money): MemberPatch {
    match jenis
    case SimpananPokok => NoChange.(simpananPokok := Some(Max(0.0, n.simpananPokok - amount)))
    case SimpananWajib => NoChange.(simpananWajib := Some(Max(0.0, n.simpananWajib - amount)))
    case SimpananSukarela => NoChange.(simpananSukarela := Some(Max(0.0, n.simpananSukarela - amount)))
    case Penarikan => NoChange.(simpananSukarela := Some(n.simpananSukarela + amount))
    case BagiHasil => NoChange.(shu := Some(Max(0.0, n.shu - amount)))
    case Angsuran => NoChange
  }

  /** addTransaksi on one backend's tables. */
  function AddTransaksi(t: Tables, req: TxRequest, stamp: Stamp, actor: string): Result<Tables, Error> {
    match FindIndex(t.nasabah, MemberIs(req.idNasabah))
    case None => Failure(NasabahNotFound(req.idNasabah))
    case Some(i) =>
      var n := t.nasabah[i];
      var amount := Abs(req.nominal);
      var updates :- Updates(n, req.jenis, amount);
      var loans := if req.jenis == Angsuran then BayarAngsuran(t.pinjaman, req.idNasabah, amount) else t.pinjaman;
      var stored := StoredNominal(req.jenis, amount);
      var trx := Transaksi(stamp.id, stamp.time, req.idNasabah, req.jenis, stored, req.koordinator, req.keterangan);
      Success(t.(transaksi := t.transaksi + [trx],
                 nasabah := if updates != NoChange then t.nasabah[i := Merge(n, updates)] else t.nasabah,
                 pinjaman := loans,
                 logs := t.logs + [LogEntry(actor, InputTransaction(req.jenis, stored, req.idNasabah))]))
  }

  /** deleteTransaksi on one backend's tables. */
  function DeleteTransaksi(t: Tables, id: string, actor: string): Tables {
    match Find(t.transaksi, (x: Transaksi) => x.idTransaksi == id)
    case None => t
    case Some(trx) =>
      var amount := Abs(trx.nominal);
      var members :=
        match FindIndex(t.nasabah, MemberIs(trx.idNasabah))
        case None => t.nasabah
        case Some(i) =>
          var revert := RevertUpdates(t.nasabah[i], trx.jenis, amount);
          if revert != NoChange then t.nasabah[i := Merge(t.nasabah[i], revert)] else t.nasabah;
      t.(transaksi := Filter(t.transaksi, (x: Transaksi) => x.idTransaksi != id),
         nasabah := members,
         logs := t.logs + [LogEntry(actor, DeleteTransaction(id))])
  }

  // ---------------------------------------------------------------------------
  // Loan repayment (bayarAngsuran)
  // ---------------------------------------------------------------------------

  predicate Outstanding(l: Pinjaman, idNasabah: string) {
    l.idNasabah == idNasabah && l.sisaPinjaman > 0.0
  }

  /** The written loan: new balance, and `lunas` only when it reached 0 (otherwise the status is kept). */
  function Repaid(l: Pinjaman, newSisa: Money): Pinjaman {
    l.(sisaPinjaman := newSisa, status := if newSisa == 0.0 then Lunas else l.status)
  }

  /** bayarAngsuran: pay `nominal` off the member's first loan with a positive balance.
      The row written is the first with that loan's id. */
  function BayarAngsuran(loans: seq<Pinjaman>, idNasabah: string, nominal: Money): seq<Pinjaman> {
    match Find(loans, (l: Pinjaman) => Outstanding(l, idNasabah))
    case None => loans
    case Some(loan) =>
      var newSisa := if loan.sisaPinjaman - nominal < 0.0 then 0.0 else loan.sisaPinjaman - nominal;
      UpdateFirst(loans, (l: Pinjaman) => l.idPinjaman == loan.idPinjaman, (l: Pinjaman) => Repaid(l, newSisa))
  }

  // ---------------------------------------------------------------------------
  // Derived fields (getNasabah)
  // ---------------------------------------------------------------------------

  /** total_pinjaman: the balances of the member's active loans. */
  function TotalPinjaman(loans: seq<Pinjaman>, id: string): Money {
    Sum(Filter(loans, (l: Pinjaman) => l.idNasabah == id && l.status == Aktif), (l: Pinjaman) => l.sisaPinjaman)
  }

  /** getNasabah: every stored member with `saldo` (all four savings fields) and `total_pinjaman`. */
  function GetNasabah(t: Tables): (r: seq<MemberView>)
    ensures |r| == |t.nasabah|
    ensures forall i :: 0 <= i < |r| ==> r[i].member == t.nasabah[i]
    ensures forall i :: 0 <= i < |r| ==> r[i].saldo == Savings(t.nasabah[i]) + t.nasabah[i].shu
    ensures forall i :: 0 <= i < |r| ==> r[i].totalPinjaman == TotalPinjaman(t.pinjaman, t.nasabah[i].idNasabah)
  {
    seq(|t.nasabah|, i requires 0 <= i < |t.nasabah| =>
      MemberView(t.nasabah[i], Savings(t.nasabah[i]) + t.nasabah[i].shu, TotalPinjaman(t.pinjaman, t.nasabah[i].idNasabah)))
  }

  // ---------------------------------------------------------------------------
  // Local-list create / update / delete helpers
  // ---------------------------------------------------------------------------

  function Log(t: Tables, actor: string, activity: Activity): Tables {
    t.(logs := t.logs + [LogEntry(actor, activity)])
  }

  function AddNasabah(t: Tables, m: Member, actor: string): Tables {
    Log(t.(nasabah := t.nasabah + [m]), actor, AddMember(m.nama))
  }

  /** updateNasabah: merge the patch into the first member with that id; logged even when none matches. */
  function UpdateNasabah(t: Tables, id: string, p: MemberPatch, actor: string): Tables {
    Log(t.(nasabah := UpdateFirst(t.nasabah, MemberIs(id), (m: Member) => Merge(m, p))), actor, EditMember(id))
  }

  /** createPinjaman: the loan is stored with status `aktif`. */
  function CreatePinjaman(t: Tables, data: Pinjaman, actor: string): Tables {
    Log(t.(pinjaman := t.pinjaman + [data.(status := Aktif)]), actor, CreateLoan(data.idPinjaman))
  }

  function CreateUser(t: Tables, u: StaffRecord, actor: string): Tables {
    Log(t.(users := t.users + [u]), actor, CreateStaff(u.username))
  }

  function MergeStaff(u: StaffRecord, d: StaffData): StaffRecord {
    u.(nama := d.nama, username := d.username, password := d.password, role := d.role)
  }

  function StaffIs(id: string): StaffRecord -> bool {
    (u: StaffRecord) => u.id == id
  }

  function UpdateUser(t: Tables, id: string, d: StaffData, actor: string): Tables {
    Log(t.(users := UpdateFirst(t.users, StaffIs(id), (u: StaffRecord) => MergeStaff(u, d))),
        actor, UpdateStaff(id))
  }

  function DeleteUser(t: Tables, id: string, actor: string): Tables {
    Log(t.(users := Filter(t.users, (u: StaffRecord) => u.id != id)), actor, DeleteStaff(id))
  }
}
