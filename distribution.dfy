/**
 * The SHU distribution of services/mockDatabase.ts (distributeSHU) on one backend's tables.
 *
 * Each allocation with a positive full nominal whose member was in the list read at the start
 * gets a BAGI_HASIL transaction for its real nominal (when positive) and a direct SHU top-up of
 * the full-minus-real gap (when positive); the reserve account KOPERASI, created first when
 * missing, is treated the same way with the two reserve amounts.
 */
module Distribution {
  import opened Wrappers
  import opened Types
  import opened Lists
  import opened Ledger
  import opened LedgerFacts

  /** One member's share as the closing page computes it. */
  datatype Allocation = Allocation(idNasabah: string, realNominal: Money, fullNominal: Money)

  const MemberShareNote := "SHU Anggota (Real)"
  const ReserveShareNote := "Reset Laba Real (Masuk Kas Koperasi)"
  const System := "system"

  /** The reserve account created when KOPERASI is missing: zero balances. */
  const ReserveAccount: Member :=
    Member(KOPERASI, "Kas Cadangan Koperasi", "SYSTEM", "Kantor Koperasi", "-", 0.0, 0.0, 0.0, 0.0, None)

  predicate HasMember(ms: seq<Member>, id: string) {
    FindIndex(ms, MemberIs(id)).Some?
  }

  predicate UniqueIds(ms: seq<Member>) {
    forall j, k :: 0 <= j < k < |ms| ==> ms[j].idNasabah != ms[k].idNasabah
  }

  predicate IsActiveAllocation(a: Allocation) {
    a.fullNominal > 0.0
  }

  /** allocations.filter(a => a.fullNominal > 0) */
  function ActiveAllocations(allocations: seq<Allocation>): seq<Allocation> {
    Filter(allocations, IsActiveAllocation)
  }

  /** A BAGI_HASIL transaction for `amount` when it is positive. */
  function ProfitShare(t: Tables, id: string, amount: Money, note: string, stamp: Stamp, actor: string): Tables {
    if amount > 0.0 then
      var r := AddTransaksi(t, TxRequest(id, BagiHasil, amount, System, note), stamp, actor);
      if r.Success? then r.value else t
    else t
  }

  /** Re-read the member and add `diff` to its SHU when positive, without a transaction. */
  function TopUpShu(t: Tables, id: string, diff: Money): Tables {
    if diff > 0.0 then
      match FindIndex(t.nasabah, MemberIs(id))
      case None => t
      case Some(i) => UpdateNasabah(t, id, NoChange.(shu := Some(t.nasabah[i].shu + diff)), System)
    else t
  }

  /** One account's step: the real amount as a transaction, then the full-minus-real gap on SHU. */
  function Credit(t: Tables, id: string, realPart: Money, fullPart: Money, note: string, stamp: Stamp, actor: string): Tables {
    TopUpShu(ProfitShare(t, id, realPart, note, stamp, actor), id, fullPart - realPart)
  }

  function CreditAllocation(t: Tables, a: Allocation, stamp: Stamp, actor: string): Tables {
    Credit(t, a.idNasabah, a.realNominal, a.fullNominal, MemberShareNote, stamp, actor)
  }

  /** The loop over the active allocations; `initial` is the member list read before it. */
  function CreditAll(t: Tables, initial: seq<Member>, active: seq<Allocation>, stamp: nat -> Stamp, actor: string): Tables
    decreases |active|
  {
    if |active| == 0 then t
    else
      var t' := CreditAll(t, initial, active[..|active| - 1], stamp, actor);
      var a := active[|active| - 1];
      if HasMember(initial, a.idNasabah) then CreditAllocation(t', a, stamp(|active| - 1), actor) else t'
  }

  /** The allocation's member is in the list read at the start. */
  function FoundIn(initial: seq<Member>): Allocation -> bool {
    (a: Allocation) => HasMember(initial, a.idNasabah)
  }

  /** processedCount: the active allocations whose member was found. */
  function Found(initial: seq<Member>, active: seq<Allocation>): nat {
    |Filter(active, FoundIn(initial))|
  }

  /** The loop's next step: the allocation at `i` is credited when its member was found. */
  lemma CreditAllStep(t: Tables, initial: seq<Member>, active: seq<Allocation>, i: nat, stamp: nat -> Stamp, actor: string)
    requires i < |active|
    ensures var before := CreditAll(t, initial, active[..i], stamp, actor);
            CreditAll(t, initial, active[..i + 1], stamp, actor)
            == if HasMember(initial, active[i].idNasabah) then CreditAllocation(before, active[i], stamp(i), actor) else before
    ensures Found(initial, active[..i + 1]) == Found(initial, active[..i]) + if HasMember(initial, active[i].idNasabah) then 1 else 0
  {
    assert active[..i + 1][..i] == active[..i];
  }

  /** The onProgress reports: (1, n) .. (k, n) for the k found members, then (k + 1, n) for the
      reserve, where n is the number of active allocations plus one. */
  function ProgressLog(found: nat, total: nat): (r: seq<(nat, nat)>)
    ensures |r| == found
    ensures forall j :: 0 <= j < |r| ==> r[j] == (j + 1, total)
  {
    seq(found, j requires 0 <= j < found => (j + 1, total))
  }

  /** One more report extends the log by the next count. */
  lemma ProgressLogStep(found: nat, total: nat)
    ensures ProgressLog(found + 1, total) == ProgressLog(found, total) + [(found + 1, total)]
  {
  }

  function Progress(initial: seq<Member>, allocations: seq<Allocation>): (r: seq<(nat, nat)>)
    ensures |r| == Found(initial, ActiveAllocations(allocations)) + 1
    ensures forall j :: 0 <= j < |r| ==> r[j].1 == |ActiveAllocations(allocations)| + 1
    ensures r[|r| - 1].0 == |r|
  {
    var active := ActiveAllocations(allocations);
    ProgressLog(Found(initial, active) + 1, |active| + 1)
  }

  /** The reserve account exists afterwards; nothing else but the member list and log change. */
  function EnsureReserve(t: Tables): (r: Tables)
    ensures HasMember(r.nasabah, KOPERASI)
    ensures |r.nasabah| >= |t.nasabah| && r.nasabah[..|t.nasabah|] == t.nasabah
    ensures HasMember(t.nasabah, KOPERASI) ==> r.nasabah == t.nasabah
    ensures !HasMember(t.nasabah, KOPERASI) ==> r.nasabah == t.nasabah + [ReserveAccount]
    ensures r.transaksi == t.transaksi && r.pinjaman == t.pinjaman && r.users == t.users
  {
    if HasMember(t.nasabah, KOPERASI) then t
    else
      var r := AddNasabah(t, ReserveAccount, System);
      assert r.nasabah[|t.nasabah|] == ReserveAccount;
      assert r.nasabah[..|t.nasabah|] == t.nasabah;
      r
  }

  /** distributeSHU on one backend's tables. */
  function DistributeSHU(t: Tables, allocations: seq<Allocation>, totalReal: Money, reserveReal: Money,
                         totalFull: Money, reserveFull: Money, stamp: nat -> Stamp, actor: string): Tables
  {
    var initial := t.nasabah;
    var active := ActiveAllocations(allocations);
    var t1 := EnsureReserve(t);
    var t2 := CreditAll(t1, initial, active, stamp, actor);
    var t3 := Credit(t2, KOPERASI, reserveReal, reserveFull, ReserveShareNote, stamp(|active|), actor);
    Log(t3, actor, ClosingDone(totalReal, totalFull))
  }

  /** A run is its three steps followed by the closing entry. */
  lemma DistributeSHUSteps(t: Tables, allocations: seq<Allocation>, totalReal: Money, reserveReal: Money,
                           totalFull: Money, reserveFull: Money, stamp: nat -> Stamp, actor: string,
                           t1: Tables, t2: Tables, t3: Tables)
    requires t1 == EnsureReserve(t)
    requires t2 == CreditAll(t1, t.nasabah, ActiveAllocations(allocations), stamp, actor)
    requires t3 == Credit(t2, KOPERASI, reserveReal, reserveFull, ReserveShareNote, stamp(|ActiveAllocations(allocations)|), actor)
    ensures DistributeSHU(t, allocations, totalReal, reserveReal, totalFull, reserveFull, stamp, actor)
            == Log(t3, actor, ClosingDone(totalReal, totalFull))
  {
  }

  // ---------------------------------------------------------------------------
  // What one credit does
  // ---------------------------------------------------------------------------

  /** The SHU an allocation adds: its real part when positive plus the gap when positive. */
  function Gain(realPart: Money, fullPart: Money): (r: Money)
    ensures r >= 0.0
    ensures r >= realPart && r >= fullPart
    ensures 0.0 <= realPart <= fullPart ==> r == fullPart
  {
    Max(0.0, realPart) + Max(0.0, fullPart - realPart)
  }

  function AllocationGain(a: Allocation): Money {
    Gain(a.realNominal, a.fullNominal)
  }

  lemma {:induction false} FindIndexUnique(ms: seq<Member>, k: nat)
    requires UniqueIds(ms)
    requires k < |ms|
    ensures FindIndex(ms, MemberIs(ms[k].idNasabah)) == Some(k)
  {
    var f := FindIndex(ms, MemberIs(ms[k].idNasabah));
    assert f.Some? by {
      assert MemberIs(ms[k].idNasabah)(ms[k]);
    }
  }

  lemma UniqueIdsSameIds(a: seq<Member>, b: seq<Member>)
    requires Ids(a) == Ids(b)
    requires UniqueIds(a)
    ensures UniqueIds(b)
  {
    assert |a| == |Ids(a)| == |Ids(b)| == |b|;
    forall j, k | 0 <= j < k < |b| ensures b[j].idNasabah != b[k].idNasabah {
      assert b[j].idNasabah == Ids(b)[j] == Ids(a)[j] == a[j].idNasabah;
      assert b[k].idNasabah == Ids(b)[k] == Ids(a)[k] == a[k].idNasabah;
    }
  }

  lemma ProfitShareAtMember(t: Tables, id: string, amount: Money, note: string, stamp: Stamp, actor: string, i: nat)
    requires FindIndex(t.nasabah, MemberIs(id)) == Some(i)
    ensures var r := ProfitShare(t, id, amount, note, stamp, actor);
            && |r.nasabah| == |t.nasabah|
            && r.nasabah == t.nasabah[i := t.nasabah[i].(shu := t.nasabah[i].shu + Max(0.0, amount))]
            && r.transaksi == t.transaksi + (if amount > 0.0 then [Transaksi(stamp.id, stamp.time, id, BagiHasil, -amount, System, note)] else [])
            && r.pinjaman == t.pinjaman && r.users == t.users
  {
    if amount <= 0.0 {
      assert t.nasabah[i := t.nasabah[i]] == t.nasabah;
    }
  }

  /** A credit to a present account raises its SHU by the gain and changes no other member; a
      BAGI_HASIL transaction of -real is appended exactly when real > 0. */
  lemma {:induction false} CreditEffect(t: Tables, id: string, realPart: Money, fullPart: Money, note: string, stamp: Stamp, actor: string, i: nat)
    requires FindIndex(t.nasabah, MemberIs(id)) == Some(i)
    ensures var r := Credit(t, id, realPart, fullPart, note, stamp, actor);
            && r.nasabah == t.nasabah[i := t.nasabah[i].(shu := t.nasabah[i].shu + Gain(realPart, fullPart))]
            && r.transaksi == t.transaksi + (if realPart > 0.0 then [Transaksi(stamp.id, stamp.time, id, BagiHasil, -realPart, System, note)] else [])
            && r.pinjaman == t.pinjaman && r.users == t.users
  {
    var t1 := ProfitShare(t, id, realPart, note, stamp, actor);
    ProfitShareAtMember(t, id, realPart, note, stamp, actor, i);
    MergeKeepsIds(t.nasabah, i, NoChange.(shu := Some(t.nasabah[i].shu + Max(0.0, realPart))));
    assert Ids(t1.nasabah) == Ids(t.nasabah);
    FindIndexSameIds(t1.nasabah, t.nasabah, id);
    var diff := fullPart - realPart;
    var r := TopUpShu(t1, id, diff);
    if diff > 0.0 {
      assert r.nasabah == t1.nasabah[i := t1.nasabah[i].(shu := t1.nasabah[i].shu + diff)];
    } else {
      assert t1.nasabah[i := t1.nasabah[i]] == t1.nasabah;
    }
  }

  // ---------------------------------------------------------------------------
  // The loop
  // ---------------------------------------------------------------------------

  /** The loop credits allocation `a` to member `id`. */
  predicate CreditsTo(initial: seq<Member>, id: string, a: Allocation) {
    HasMember(initial, a.idNasabah) && a.idNasabah == id
  }

  /** The SHU the loop credits to member `id`: the gains of the allocations for `id` whose
      member was found at the start. */
  function Credited(initial: seq<Member>, active: seq<Allocation>, id: string): Money
    decreases |active|
  {
    if |active| == 0 then 0.0
    else
      var a := active[|active| - 1];
      Credited(initial, active[..|active| - 1], id) + (if CreditsTo(initial, id, a) then AllocationGain(a) else 0.0)
  }

  lemma {:induction false} NothingCreditedToUnknown(initial: seq<Member>, active: seq<Allocation>, id: string)
    requires !HasMember(initial, id)
    ensures Credited(initial, active, id) == 0.0
    decreases |active|
  {
    if |active| > 0 {
      NothingCreditedToUnknown(initial, active[..|active| - 1], id);
    }
  }

  /** After the loop every member's SHU has grown by the gains of the allocations for it whose
      member was found at the start, and nothing else about any member, loan or user changed. */
  lemma CreditAllEffect(t: Tables, initial: seq<Member>, active: seq<Allocation>, stamp: nat -> Stamp, actor: string)
    requires UniqueIds(t.nasabah)
    ensures var r := CreditAll(t, initial, active, stamp, actor);
            && Ids(r.nasabah) == Ids(t.nasabah)
            && |r.nasabah| == |t.nasabah|
            && (forall k :: 0 <= k < |t.nasabah| ==>
                  r.nasabah[k] == t.nasabah[k].(shu := t.nasabah[k].shu + Credited(initial, active, t.nasabah[k].idNasabah)))
            && r.pinjaman == t.pinjaman && r.users == t.users
  {
    CreditAllMembersView(t, initial, active, stamp, actor);
    CreditAllMembersEffect(t.nasabah, initial, active);
    CreditAllKeepsLoansAndStaff(t, initial, active, stamp, actor);
  }

  // ---------------------------------------------------------------------------
  // The same run seen on the member list alone
  // ---------------------------------------------------------------------------

  /** What one credit does to the member list: the first account with that id gains `gain`. */
  function CreditMember(ms: seq<Member>, id: string, gain: Money): seq<Member> {
    match FindIndex(ms, MemberIs(id))
    case None => ms
    case Some(i) => ms[i := ms[i].(shu := ms[i].shu + gain)]
  }

  /** What the loop does to the member list. */
  function CreditAllMembers(ms: seq<Member>, initial: seq<Member>, active: seq<Allocation>): seq<Member>
    decreases |active|
  {
    if |active| == 0 then ms
    else
      var ms' := CreditAllMembers(ms, initial, active[..|active| - 1]);
      var a := active[|active| - 1];
      if HasMember(initial, a.idNasabah) then CreditMember(ms', a.idNasabah, AllocationGain(a)) else ms'
  }

  function ReserveMembers(ms: seq<Member>): seq<Member> {
    if HasMember(ms, KOPERASI) then ms else ms + [ReserveAccount]
  }

  /** What a whole run does to the member list, `rg` being the reserve's gain. */
  function RunMembers(ms: seq<Member>, active: seq<Allocation>, rg: Money): seq<Member> {
    CreditMember(CreditAllMembers(ReserveMembers(ms), ms, active), KOPERASI, rg)
  }

  lemma CreditMemberView(t: Tables, id: string, realPart: Money, fullPart: Money, note: string, stamp: Stamp, actor: string)
    ensures Credit(t, id, realPart, fullPart, note, stamp, actor).nasabah == CreditMember(t.nasabah, id, Gain(realPart, fullPart))
  {
    match FindIndex(t.nasabah, MemberIs(id))
    case None =>
    case Some(i) =>
      CreditEffect(t, id, realPart, fullPart, note, stamp, actor, i);
  }

  lemma {:induction false} CreditAllMembersView(t: Tables, initial: seq<Member>, active: seq<Allocation>,
                                                stamp: nat -> Stamp, actor: string)
    ensures CreditAll(t, initial, active, stamp, actor).nasabah == CreditAllMembers(t.nasabah, initial, active)
    decreases |active|
  {
    if |active| > 0 {
      var a := active[|active| - 1];
      CreditAllMembersView(t, initial, active[..|active| - 1], stamp, actor);
      var t' := CreditAll(t, initial, active[..|active| - 1], stamp, actor);
      CreditMemberView(t', a.idNasabah, a.realNominal, a.fullNominal, MemberShareNote, stamp(|active| - 1), actor);
    }
  }

  lemma {:induction false} CreditAllMembersEffect(ms: seq<Member>, initial: seq<Member>, active: seq<Allocation>)
    requires UniqueIds(ms)
    ensures var r := CreditAllMembers(ms, initial, active);
            && Ids(r) == Ids(ms)
            && |r| == |ms|
            && (forall k :: 0 <= k < |ms| ==> r[k] == ms[k].(shu := ms[k].shu + Credited(initial, active, ms[k].idNasabah)))
    decreases |active|
  {
    if |active| > 0 {
      var r' := CreditAllMembers(ms, initial, active[..|active| - 1]);
      CreditAllMembersEffect(ms, initial, active[..|active| - 1]);
      UniqueIdsSameIds(ms, r');
      LoopStep(ms, r', initial, active);
    }
  }

  /** One more allocation of the loop, on the member list: `r'` is the list after the others. */
  lemma LoopStep(ms: seq<Member>, r': seq<Member>, initial: seq<Member>, active: seq<Allocation>)
    requires |active| > 0
    requires UniqueIds(r') && Ids(r') == Ids(ms) && |r'| == |ms|
    requires forall k :: 0 <= k < |ms| ==>
               r'[k] == ms[k].(shu := ms[k].shu + Credited(initial, active[..|active| - 1], ms[k].idNasabah))
    ensures var a := active[|active| - 1];
            var r := if HasMember(initial, a.idNasabah) then CreditMember(r', a.idNasabah, AllocationGain(a)) else r';
            && Ids(r) == Ids(ms)
            && |r| == |ms|
            && (forall k :: 0 <= k < |ms| ==> r[k] == ms[k].(shu := ms[k].shu + Credited(initial, active, ms[k].idNasabah)))
  {
    var a := active[|active| - 1];
    if HasMember(initial, a.idNasabah) && HasMember(r', a.idNasabah) {
      var i := FindIndex(r', MemberIs(a.idNasabah)).value;
      LoopStepFound(ms, r', initial, active, i);
    } else {
      LoopStepSkipped(ms, r', initial, active);
    }
  }

  lemma LoopStepFound(ms: seq<Member>, r': seq<Member>, initial: seq<Member>, active: seq<Allocation>, i: nat)
    requires |active| > 0
    requires UniqueIds(r') && Ids(r') == Ids(ms) && |r'| == |ms|
    requires forall k :: 0 <= k < |ms| ==>
               r'[k] == ms[k].(shu := ms[k].shu + Credited(initial, active[..|active| - 1], ms[k].idNasabah))
    requires HasMember(initial, active[|active| - 1].idNasabah)
    requires FindIndex(r', MemberIs(active[|active| - 1].idNasabah)) == Some(i)
    ensures var a := active[|active| - 1];
            var r := r'[i := r'[i].(shu := r'[i].shu + AllocationGain(a))];
            && Ids(r) == Ids(ms)
            && |r| == |ms|
            && (forall k :: 0 <= k < |ms| ==> r[k] == ms[k].(shu := ms[k].shu + Credited(initial, active, ms[k].idNasabah)))
  {
    var a := active[|active| - 1];
    var r := r'[i := r'[i].(shu := r'[i].shu + AllocationGain(a))];
    assert Ids(r) == Ids(r');
    forall k | 0 <= k < |ms|
      ensures r[k] == ms[k].(shu := ms[k].shu + Credited(initial, active, ms[k].idNasabah))
    {
      assert r'[k].idNasabah == Ids(r')[k] == Ids(ms)[k] == ms[k].idNasabah;
      if k != i {
        FindIndexUnique(r', k);
      }
    }
  }

  lemma LoopStepSkipped(ms: seq<Member>, r': seq<Member>, initial: seq<Member>, active: seq<Allocation>)
    requires |active| > 0
    requires Ids(r') == Ids(ms) && |r'| == |ms|
    requires forall k :: 0 <= k < |ms| ==>
               r'[k] == ms[k].(shu := ms[k].shu + Credited(initial, active[..|active| - 1], ms[k].idNasabah))
    requires !HasMember(initial, active[|active| - 1].idNasabah) || !HasMember(r', active[|active| - 1].idNasabah)
    ensures forall k :: 0 <= k < |ms| ==> r'[k] == ms[k].(shu := ms[k].shu + Credited(initial, active, ms[k].idNasabah))
  {
    var a := active[|active| - 1];
    forall k | 0 <= k < |ms|
      ensures r'[k] == ms[k].(shu := ms[k].shu + Credited(initial, active, ms[k].idNasabah))
    {
      var id := ms[k].idNasabah;
      if HasMember(initial, a.idNasabah) {
        assert r'[k].idNasabah == Ids(r')[k] == Ids(ms)[k] == id;
        assert !MemberIs(a.idNasabah)(r'[k]);
      }
      assert !CreditsTo(initial, id, a);
    }
  }

  /** Every member found at the start is still there at every step of the loop, so none of the
      loop's addTransaksi calls can throw for a missing member. */
  lemma KnownMembersStayPresent(t: Tables, allocations: seq<Allocation>, stamp: nat -> Stamp, actor: string, n: nat, id: string)
    requires UniqueIds(t.nasabah)
    requires n <= |ActiveAllocations(allocations)|
    requires HasMember(t.nasabah, id)
    ensures HasMember(CreditAll(EnsureReserve(t), t.nasabah, ActiveAllocations(allocations)[..n], stamp, actor).nasabah, id)
  {
    var t1 := EnsureReserve(t);
    var i := FindIndex(t.nasabah, MemberIs(id)).value;
    assert t1.nasabah[i] == t.nasabah[i];
    ReserveKeepsUnique(t);
    var r := CreditAll(t1, t.nasabah, ActiveAllocations(allocations)[..n], stamp, actor);
    CreditAllEffect(t1, t.nasabah, ActiveAllocations(allocations)[..n], stamp, actor);
    assert r.nasabah[i].idNasabah == Ids(r.nasabah)[i] == Ids(t1.nasabah)[i] == id;
    assert MemberIs(id)(r.nasabah[i]);
  }

  lemma ReserveKeepsUnique(t: Tables)
    requires UniqueIds(t.nasabah)
    ensures UniqueIds(EnsureReserve(t).nasabah)
  {
    if !HasMember(t.nasabah, KOPERASI) {
      var r := EnsureReserve(t).nasabah;
      assert r == t.nasabah + [ReserveAccount];
      forall j, k | 0 <= j < k < |r| ensures r[j].idNasabah != r[k].idNasabah {
        if k == |t.nasabah| {
          assert !MemberIs(KOPERASI)(t.nasabah[j]);
        }
      }
    }
  }

  // ---------------------------------------------------------------------------
  // The whole run
  // ---------------------------------------------------------------------------

  /** The member table after a run, against the table before it: each member's SHU has grown by the
      gains of its active allocations (plus the reserve gain `rg` for KOPERASI), and a missing KOPERASI
      was appended with zero balances and then credited `rg`. Nothing else about a member changes. */
  predicate SharedOut(before: seq<Member>, active: seq<Allocation>, rg: Money, after: seq<Member>) {
    && |after| == |before| + (if HasMember(before, KOPERASI) then 0 else 1)
    && (forall k :: 0 <= k < |before| ==>
          after[k] == before[k].(shu := before[k].shu + Credited(before, active, before[k].idNasabah)
                                                 + (if before[k].idNasabah == KOPERASI then rg else 0.0)))
    && (!HasMember(before, KOPERASI) ==> after[|before|] == ReserveAccount.(shu := rg))
  }

  /** distributeSHU changes the member table as SharedOut describes, for the active allocations and
      the reserve gain. */
  lemma DistributionEffect(t: Tables, allocations: seq<Allocation>, totalReal: Money, reserveReal: Money,
                           totalFull: Money, reserveFull: Money, stamp: nat -> Stamp, actor: string)
    requires UniqueIds(t.nasabah)
    ensures SharedOut(t.nasabah, ActiveAllocations(allocations), Gain(reserveReal, reserveFull),
                      DistributeSHU(t, allocations, totalReal, reserveReal, totalFull, reserveFull, stamp, actor).nasabah)
  {
    DistributionMembers(t, allocations, totalReal, reserveReal, totalFull, reserveFull, stamp, actor);
    RunShares(t.nasabah, ActiveAllocations(allocations), Gain(reserveReal, reserveFull));
  }

  /** distributeSHU's member table is RunMembers of the one it started from. */
  lemma DistributionMembers(t: Tables, allocations: seq<Allocation>, totalReal: Money, reserveReal: Money,
                            totalFull: Money, reserveFull: Money, stamp: nat -> Stamp, actor: string)
    ensures DistributeSHU(t, allocations, totalReal, reserveReal, totalFull, reserveFull, stamp, actor).nasabah
            == RunMembers(t.nasabah, ActiveAllocations(allocations), Gain(reserveReal, reserveFull))
  {
    var initial := t.nasabah;
    var active := ActiveAllocations(allocations);
    var t1 := EnsureReserve(t);
    assert t1.nasabah == ReserveMembers(t.nasabah);
    var t2 := CreditAll(t1, initial, active, stamp, actor);
    CreditAllMembersView(t1, initial, active, stamp, actor);
    var t3 := Credit(t2, KOPERASI, reserveReal, reserveFull, ReserveShareNote, stamp(|active|), actor);
    CreditMemberView(t2, KOPERASI, reserveReal, reserveFull, ReserveShareNote, stamp(|active|), actor);
    LogKeepsMembers(t3, actor, ClosingDone(totalReal, totalFull));
  }

  lemma LogKeepsMembers(t: Tables, actor: string, activity: Activity)
    ensures Log(t, actor, activity).nasabah == t.nasabah
  {
  }

  /** On the member list: a run shares out as SharedOut says. */
  lemma RunShares(ms: seq<Member>, active: seq<Allocation>, rg: Money)
    requires UniqueIds(ms)
    ensures SharedOut(ms, active, rg, RunMembers(ms, active, rg))
  {
    var m1 := ReserveMembers(ms);
    ReserveMembersFacts(ms);
    var j := FindIndex(m1, MemberIs(KOPERASI)).value;
    var m2 := CreditAllMembers(m1, ms, active);
    CreditAllMembersEffect(m1, ms, active);
    FindIndexSameIds(m2, m1, KOPERASI);
    var m3 := RunMembers(ms, active, rg);
    assert m3 == m2[j := m2[j].(shu := m2[j].shu + rg)];
    OnlyOneReserve(m1, j);
    if !HasMember(ms, KOPERASI) {
      NothingCreditedToUnknown(ms, active, KOPERASI);
    }
    ReserveStep(ms, m1, m2, m3, HasMember(ms, KOPERASI), j, rg, active);
  }

  /** The reserve is added at the end when missing, which keeps the ids unique. */
  lemma ReserveMembersFacts(ms: seq<Member>)
    requires UniqueIds(ms)
    ensures var r := ReserveMembers(ms);
            && UniqueIds(r)
            && HasMember(r, KOPERASI)
            && |r| >= |ms| && r[..|ms|] == ms
            && (!HasMember(ms, KOPERASI) ==> |r| == |ms| + 1 && FindIndex(r, MemberIs(KOPERASI)) == Some(|ms|)
                                             && r[|ms|] == ReserveAccount)
  {
    var r := ReserveMembers(ms);
    if !HasMember(ms, KOPERASI) {
      assert r[..|ms|] == ms;
      forall j, k | 0 <= j < k < |r| ensures r[j].idNasabah != r[k].idNasabah {
        if k == |ms| {
          assert !MemberIs(KOPERASI)(ms[j]);
        }
      }
      assert MemberIs(KOPERASI)(r[|ms|]);
    }
  }

  /** distributeSHU touches no loan and no staff record, and ends with the closing entry in the log. */
  lemma DistributionKeepsLoansAndStaff(t: Tables, allocations: seq<Allocation>, totalReal: Money, reserveReal: Money,
                                       totalFull: Money, reserveFull: Money, stamp: nat -> Stamp, actor: string)
    ensures var r := DistributeSHU(t, allocations, totalReal, reserveReal, totalFull, reserveFull, stamp, actor);
            && r.pinjaman == t.pinjaman && r.users == t.users
            && |r.logs| > 0 && r.logs[|r.logs| - 1] == LogEntry(actor, ClosingDone(totalReal, totalFull))
  {
    var initial := t.nasabah;
    var active := ActiveAllocations(allocations);
    var t1 := EnsureReserve(t);
    var t2 := CreditAll(t1, initial, active, stamp, actor);
    var t3 := Credit(t2, KOPERASI, reserveReal, reserveFull, ReserveShareNote, stamp(|active|), actor);
    CreditAllKeepsLoansAndStaff(t1, initial, active, stamp, actor);
    CreditKeepsLoansAndStaff(t2, KOPERASI, reserveReal, reserveFull, ReserveShareNote, stamp(|active|), actor);
  }

  lemma CreditKeepsLoansAndStaff(t: Tables, id: string, realPart: Money, fullPart: Money, note: string, stamp: Stamp, actor: string)
    ensures var r := Credit(t, id, realPart, fullPart, note, stamp, actor);
            r.pinjaman == t.pinjaman && r.users == t.users
  {
    var t1 := ProfitShare(t, id, realPart, note, stamp, actor);
    assert t1.pinjaman == t.pinjaman && t1.users == t.users;
  }

  lemma {:induction false} CreditAllKeepsLoansAndStaff(t: Tables, initial: seq<Member>, active: seq<Allocation>,
                                                       stamp: nat -> Stamp, actor: string)
    ensures var r := CreditAll(t, initial, active, stamp, actor);
            r.pinjaman == t.pinjaman && r.users == t.users
    decreases |active|
  {
    if |active| > 0 {
      var a := active[|active| - 1];
      CreditAllKeepsLoansAndStaff(t, initial, active[..|active| - 1], stamp, actor);
      var t' := CreditAll(t, initial, active[..|active| - 1], stamp, actor);
      CreditKeepsLoansAndStaff(t', a.idNasabah, a.realNominal, a.fullNominal, MemberShareNote, stamp(|active| - 1), actor);
    }
  }

  /** The members after the reserve step, stated over the loop's result `t2` and the step's result `t3`;
      `present` says whether KOPERASI existed before the run. */
  lemma ReserveStep(t: seq<Member>, t1: seq<Member>, t2: seq<Member>, t3: seq<Member>, present: bool, j: nat, rg: Money,
                    active: seq<Allocation>)
    requires present == HasMember(t, KOPERASI)
    requires |t1| >= |t| && t1[..|t|] == t
    requires present ==> t1 == t
    requires !present ==> |t1| == |t| + 1 && j == |t| && t1[|t|] == ReserveAccount && Credited(t, active, KOPERASI) == 0.0
    requires j < |t1| && t1[j].idNasabah == KOPERASI
    requires forall k :: 0 <= k < |t1| && k != j ==> t1[k].idNasabah != KOPERASI
    requires |t2| == |t1|
    requires forall k :: 0 <= k < |t1| ==> t2[k] == t1[k].(shu := t1[k].shu + Credited(t, active, t1[k].idNasabah))
    requires t3 == t2[j := t2[j].(shu := t2[j].shu + rg)]
    ensures SharedOut(t, active, rg, t3)
  {
    MembersAfterRun(t, t1, t2, t3, j, rg, t, active);
  }

  /** With unique ids, the first KOPERASI is the only one. */
  lemma OnlyOneReserve(ms: seq<Member>, j: nat)
    requires UniqueIds(ms)
    requires FindIndex(ms, MemberIs(KOPERASI)) == Some(j)
    ensures forall k :: 0 <= k < |ms| && k != j ==> ms[k].idNasabah != KOPERASI
  {
    forall k | 0 <= k < |ms| && k != j ensures ms[k].idNasabah != KOPERASI {
      FindIndexUnique(ms, k);
    }
  }

  lemma MembersAfterRun(before: seq<Member>, t1: seq<Member>, t2: seq<Member>, t3: seq<Member>, j: nat, rg: Money,
                        initial: seq<Member>, active: seq<Allocation>)
    requires |t1| >= |before| && t1[..|before|] == before
    requires forall k :: 0 <= k < |t1| && k != j ==> t1[k].idNasabah != KOPERASI
    requires |t2| == |t1|
    requires forall k :: 0 <= k < |t1| ==> t2[k] == t1[k].(shu := t1[k].shu + Credited(initial, active, t1[k].idNasabah))
    requires j < |t1| && t1[j].idNasabah == KOPERASI
    requires t3 == t2[j := t2[j].(shu := t2[j].shu + rg)]
    ensures forall k :: 0 <= k < |before| ==>
              t3[k] == before[k].(shu := before[k].shu + Credited(initial, active, before[k].idNasabah)
                                        + (if before[k].idNasabah == KOPERASI then rg else 0.0))
  {
    forall k | 0 <= k < |before|
      ensures t3[k] == before[k].(shu := before[k].shu + Credited(initial, active, before[k].idNasabah)
                                        + (if before[k].idNasabah == KOPERASI then rg else 0.0))
    {
      assert t1[k] == before[k];
    }
  }

  // ---------------------------------------------------------------------------
  // The transactions a run records
  // ---------------------------------------------------------------------------

  /** The BAGI_HASIL row a credit of `amount` to `id` records: the amount stored negative. */
  function ShareRow(id: string, amount: Money, note: string, stamp: Stamp): Transaksi {
    Transaksi(stamp.id, stamp.time, id, BagiHasil, -amount, System, note)
  }

  /** The rows the loop records, in order: one for each allocation whose member was found at the
      start and whose real nominal is positive, stamped with the allocation's position. */
  function LoopRows(initial: seq<Member>, active: seq<Allocation>, stamp: nat -> Stamp): (r: seq<Transaksi>)
    ensures |r| <= |active|
    ensures forall k :: 0 <= k < |r| ==>
              && r[k].jenis == BagiHasil && r[k].nominal < 0.0 && r[k].koordinator == System
              && r[k].keterangan == MemberShareNote && HasMember(initial, r[k].idNasabah)
    decreases |active|
  {
    if |active| == 0 then []
    else
      var a := active[|active| - 1];
      LoopRows(initial, active[..|active| - 1], stamp)
        + if HasMember(initial, a.idNasabah) && a.realNominal > 0.0
          then [ShareRow(a.idNasabah, a.realNominal, MemberShareNote, stamp(|active| - 1))] else []
  }

  /** The rows a whole run records: the loop's, then the reserve's when its real amount is positive. */
  function RunRows(initial: seq<Member>, active: seq<Allocation>, reserveReal: Money, stamp: nat -> Stamp): seq<Transaksi> {
    LoopRows(initial, active, stamp)
      + if reserveReal > 0.0 then [ShareRow(KOPERASI, reserveReal, ReserveShareNote, stamp(|active|))] else []
  }

  /** The loop appends exactly LoopRows to the transactions, as long as every member of the list
      read at the start is present in the tables it starts from. */
  lemma {:induction false} CreditAllRows(t: Tables, initial: seq<Member>, active: seq<Allocation>,
                                         stamp: nat -> Stamp, actor: string)
    requires UniqueIds(t.nasabah)
    requires forall id :: HasMember(initial, id) ==> HasMember(t.nasabah, id)
    ensures CreditAll(t, initial, active, stamp, actor).transaksi == t.transaksi + LoopRows(initial, active, stamp)
    decreases |active|
  {
    if |active| > 0 {
      var front := active[..|active| - 1];
      var a := active[|active| - 1];
      CreditAllRows(t, initial, front, stamp, actor);
      if HasMember(initial, a.idNasabah) {
        CreditAllKeepsPresent(t, initial, front, stamp, actor, a.idNasabah);
        CreditRows(CreditAll(t, initial, front, stamp, actor), a, stamp(|active| - 1), actor);
      }
    }
  }

  /** A credit to a present member appends its row when the real nominal is positive. */
  lemma CreditRows(t: Tables, a: Allocation, stamp: Stamp, actor: string)
    requires HasMember(t.nasabah, a.idNasabah)
    ensures CreditAllocation(t, a, stamp, actor).transaksi
            == t.transaksi + if a.realNominal > 0.0 then [ShareRow(a.idNasabah, a.realNominal, MemberShareNote, stamp)] else []
  {
    var i := FindIndex(t.nasabah, MemberIs(a.idNasabah)).value;
    CreditEffect(t, a.idNasabah, a.realNominal, a.fullNominal, MemberShareNote, stamp, actor, i);
  }

  /** A member present before the loop is present after it. */
  lemma CreditAllKeepsPresent(t: Tables, initial: seq<Member>, active: seq<Allocation>, stamp: nat -> Stamp,
                              actor: string, id: string)
    requires UniqueIds(t.nasabah)
    requires HasMember(t.nasabah, id)
    ensures HasMember(CreditAll(t, initial, active, stamp, actor).nasabah, id)
  {
    CreditAllEffect(t, initial, active, stamp, actor);
    FindIndexSameIds(CreditAll(t, initial, active, stamp, actor).nasabah, t.nasabah, id);
  }

  /** distributeSHU appends exactly RunRows to the transactions: the found members' rows in the
      order of the allocations, then the reserve's. */
  lemma DistributionRows(t: Tables, allocations: seq<Allocation>, totalReal: Money, reserveReal: Money,
                         totalFull: Money, reserveFull: Money, stamp: nat -> Stamp, actor: string)
    requires UniqueIds(t.nasabah)
    ensures DistributeSHU(t, allocations, totalReal, reserveReal, totalFull, reserveFull, stamp, actor).transaksi
            == t.transaksi + RunRows(t.nasabah, ActiveAllocations(allocations), reserveReal, stamp)
  {
    var active := ActiveAllocations(allocations);
    var t1 := EnsureReserve(t);
    ReserveKeepsUnique(t);
    ReserveKeepsPresent(t);
    CreditAllRows(t1, t.nasabah, active, stamp, actor);
    var t2 := CreditAll(t1, t.nasabah, active, stamp, actor);
    CreditAllKeepsPresent(t1, t.nasabah, active, stamp, actor, KOPERASI);
    ReserveRows(t2, reserveReal, reserveFull, stamp(|active|), actor);
    var t3 := Credit(t2, KOPERASI, reserveReal, reserveFull, ReserveShareNote, stamp(|active|), actor);
    DistributeSHUSteps(t, allocations, totalReal, reserveReal, totalFull, reserveFull, stamp, actor, t1, t2, t3);
  }

  /** Adding the reserve account keeps every member that was there. */
  lemma ReserveKeepsPresent(t: Tables)
    ensures forall id :: HasMember(t.nasabah, id) ==> HasMember(EnsureReserve(t).nasabah, id)
  {
    var t1 := EnsureReserve(t);
    forall id | HasMember(t.nasabah, id) ensures HasMember(t1.nasabah, id) {
      var j := FindIndex(t.nasabah, MemberIs(id)).value;
      assert t1.nasabah[j] == t.nasabah[j];
      assert MemberIs(id)(t1.nasabah[j]);
    }
  }

  /** The reserve's credit appends its row when its real amount is positive. */
  lemma ReserveRows(t: Tables, reserveReal: Money, reserveFull: Money, stamp: Stamp, actor: string)
    requires HasMember(t.nasabah, KOPERASI)
    ensures Credit(t, KOPERASI, reserveReal, reserveFull, ReserveShareNote, stamp, actor).transaksi
            == t.transaksi + if reserveReal > 0.0 then [ShareRow(KOPERASI, reserveReal, ReserveShareNote, stamp)] else []
  {
    var i := FindIndex(t.nasabah, MemberIs(KOPERASI)).value;
    CreditEffect(t, KOPERASI, reserveReal, reserveFull, ReserveShareNote, stamp, actor, i);
  }
}
