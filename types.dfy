/**
 * The records of the cooperative ledger, after types.ts.
 *
 * Amounts of money are JS numbers in the source. They are modelled as exact
 * `real`s: flat interest at a percentage and the reserve pool left after a
 * floored member pool both produce fractional amounts, which the source stores.
 */
module Types {
  import opened Wrappers

  type Money = real

  /** Role of a logged-in user (enum Role). */
  datatype Role = Admin | Koordinator | Nasabah

  /** Kind of a transaction (enum TransactionType). */
  datatype Jenis =
    | SimpananPokok      // principal savings deposit
    | SimpananWajib      // mandatory savings deposit
    | SimpananSukarela   // voluntary savings deposit
    | Penarikan          // withdrawal from voluntary savings
    | Angsuran           // loan instalment
    | BagiHasil          // profit share (SHU)

  /** A member (Nasabah) as stored. `koordinator` is absent for records created by the system. */
  datatype Member = Member(
    idNasabah: string,
    nama: string,
    nik: string,
    alamat: string,
    noHp: string,
    simpananPokok: Money,
    simpananWajib: Money,
    simpananSukarela: Money,
    shu: Money,
    koordinator: Option<string>)

  /** A member as `getNasabah` returns it: the stored record plus the two derived fields. */
  datatype MemberView = MemberView(member: Member, saldo: Money, totalPinjaman: Money)

  /** A ledger entry (Transaksi); `nominal` is the stored, signed amount. */
  datatype Transaksi = Transaksi(
    idTransaksi: string,
    tanggal: string,
    idNasabah: string,
    jenis: Jenis,
    nominal: Money,
    koordinator: string,
    keterangan: string)

  datatype LoanStatus = Aktif | Lunas

  /** A loan (Pinjaman). `bungaPersen` is the monthly flat rate in percent. */
  datatype Pinjaman = Pinjaman(
    idPinjaman: string,
    idNasabah: string,
    jumlahPinjaman: Money,
    bungaPersen: real,
    tenorBulan: int,
    angsuranBulanan: Money,
    sisaPinjaman: Money,
    status: LoanStatus)

  /** A row of the staff sheet. The password sits in column `password` or, in older sheets, `Pass`;
      a missing column is the empty string. `role` is free text. */
  datatype StaffRecord = StaffRecord(
    id: string,
    nama: string,
    username: string,
    role: string,
    password: string,
    legacyPass: string)

  /** The logged-in user (User). */
  datatype User = User(id: string, nama: string, username: string, role: Role, idNasabah: Option<string>)

  /** What an audit entry records; the source writes it as text. */
  datatype Activity =
    | CreateStaff(username: string)
    | UpdateStaff(staffId: string)
    | DeleteStaff(staffId: string)
    | AddMember(nama: string)
    | EditMember(memberId: string)
    | CreateLoan(loanId: string)
    | InputTransaction(jenis: Jenis, nominal: Money, memberId: string)
    | DeleteTransaction(trxId: string)
    | ClosingDone(totalReal: Money, totalFull: Money)
    | LoginStaff(role: Role)
    | LoginMember
    | Logout

  datatype LogEntry = LogEntry(actor: string, activity: Activity)

  /** A fresh id and ISO timestamp, which the source takes from the clock. */
  datatype Stamp = Stamp(id: string, time: string)

  /** The reserve account's id. */
  const KOPERASI: string := "KOPERASI"

  /** `user?.username || fallback`: the logged-in username when it is not empty, else the fallback. */
  function UsernameOr(user: Option<User>, fallback: string): (r: string)
    ensures user.Some? && user.value.username != "" ==> r == user.value.username
    ensures !(user.Some? && user.value.username != "") ==> r == fallback
    ensures fallback != "" ==> r != ""
  {
    if user.Some? && user.value.username != "" then user.value.username else fallback
  }

  /** The kinds that take money out of the cooperative: stored negative, shown with '-'. */
  predicate IsExpense(jenis: Jenis) {
    jenis == Penarikan || jenis == BagiHasil
  }

  /** pokok + wajib + sukarela: the savings that count as capital (no SHU). */
  function Savings(m: Member): Money {
    m.simpananPokok + m.simpananWajib + m.simpananSukarela
  }

  function Abs(x: real): (r: real)
    ensures r >= 0.0 && (r == x || r == -x)
  {
    if x < 0.0 then -x else x
  }

  function Max(a: real, b: real): (r: real)
    ensures r >= a && r >= b && (r == a || r == b)
  {
    if a >= b then a else b
  }

  function Min(a: real, b: real): (r: real)
    ensures r <= a && r <= b && (r == a || r == b)
  {
    if a <= b then a else b
  }

  /** Math.floor */
  function Floor(x: real): (r: int)
    ensures r as real <= x < r as real + 1.0
  {
    x.Floor
  }

  /** Math.ceil */
  function Ceil(x: real): (r: int)
    ensures x <= r as real < x + 1.0
  {
    -((-x).Floor)
  }
}
