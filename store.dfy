/**
 * DatabaseService of services/mockDatabase.ts as a class. The remote sheets and the local cache
 * are two copies of the tables; the offline flag chooses between them and, once set by a failed
 * remote call, stays set. Each operation first learns whether the remote answers (`remoteOk`,
 * the outcome of the first request, which the model takes as an input), then works step by step
 * on the copy in use, and is proved to leave that copy as module Ledger or Distribution defines.
 */
module Store {
  import opened Wrappers
  import opened Types
  import opened Lists
  import opened Ledger
  import opened Distribution

  /** DEFAULT_SCRIPT_URL: the deployed backend. */
  const ScriptUrl: string :=
    "https://script.google.com/macros/s/AKfycbxCuxUF8izPweS1NGy4O8zHp5sCop1jl9oBCTLVBHvYK2HpSDBII-wozz48eCc2D_fISQ/exec"

  class DatabaseService {
    var offlineMode: bool
    var remote: Tables
    var local: Tables

    /** The service starts online. */
    constructor(remoteTables: Tables, localTables: Tables)
      ensures !offlineMode && remote == remoteTables && local == localTables
    {
      offlineMode := false;
      remote := remoteTables;
      local := localTables;
    }

    /** useApi: a script URL is configured and the service has not gone offline. */
    predicate UseApi()
      reads this
      ensures UseApi() <==> !offlineMode
    {
      ScriptUrl != "" && !offlineMode
    }

    /** The copy a call works on, for a given value of the flag. */
    function Backend(off: bool): Tables
      reads this
    {
      if off then local else remote
    }

    function Active(): Tables
      reads this
    {
      Backend(offlineMode)
    }

    /** The copy not in use is as it was. */
    predicate Untouched(off: bool, remoteBefore: Tables, localBefore: Tables)
      reads this
    {
      if off then remote == remoteBefore else local == localBefore
    }

    // -------------------------------------------------------------------------
    // The flag and the copy in use
    // -------------------------------------------------------------------------

    /** fetchGAS / postGAS: a failed remote request switches to offline mode; nothing switches back. */
    method Connect(remoteOk: bool)
      modifies this
      ensures offlineMode == (old(offlineMode) || !remoteOk)
      ensures remote == old(remote) && local == old(local)
    {
      if UseApi() && !remoteOk {
        offlineMode := true;
      }
    }

    /** Write the copy in use (saveLocal, or the sheet writes). */
    method Commit(t: Tables)
      modifies this
      ensures offlineMode == old(offlineMode) && Active() == t
      ensures Untouched(offlineMode, old(remote), old(local))
    {
      if offlineMode {
        local := t;
      } else {
        remote := t;
      }
    }

    // -------------------------------------------------------------------------
    // The steps the operations share
    // -------------------------------------------------------------------------

    /** bayarAngsuran's body: the member's first loan with a positive balance is paid down, the
        balance floored at 0 and the status set to `lunas` when it reaches 0. */
    method RepayLoan(idNasabah: string, nominal: Money)
      modifies this
      ensures offlineMode == old(offlineMode) && Untouched(offlineMode, old(remote), old(local))
      ensures Active() == old(Active()).(pinjaman := Ledger.BayarAngsuran(old(Active()).pinjaman, idNasabah, nominal))
    {
      var loans := Active().pinjaman;
      var found := Find(loans, (l: Pinjaman) => Outstanding(l, idNasabah));
      if found.Some? {
        var loan := found.value;
        var newSisa := loan.sisaPinjaman - nominal;
        if newSisa < 0.0 {
          newSisa := 0.0;
        }
        var idx := FindIndex(loans, (l: Pinjaman) => l.idPinjaman == loan.idPinjaman);
        if idx.Some? {
          loans := loans[idx.value := loans[idx.value].(sisaPinjaman := newSisa)];
          if newSisa == 0.0 {
            loans := loans[idx.value := loans[idx.value].(status := Lunas)];
          }
        }
        Commit(Active().(pinjaman := loans));
      }
    }

    /** addTransaksi's body: find the member, build `updates` field by field (or throw), repay a
        loan for an instalment, push the transaction with its stored sign, merge the updates. */
    method RecordTransaksi(req: TxRequest, stamp: Stamp, actor: string) returns (err: Option<Error>)
      modifies this
      ensures offlineMode == old(offlineMode) && Untouched(offlineMode, old(remote), old(local))
      ensures var res := Ledger.AddTransaksi(old(Active()), req, stamp, actor);
              && (res.Failure? ==> err == Some(res.error) && Active() == old(Active()))
              && (res.Success? ==> err.None? && Active() == res.value)
    {
      var nasabahList := Active().nasabah;
      var found := FindIndex(nasabahList, MemberIs(req.idNasabah));
      if found.None? {
        return Some(NasabahNotFound(req.idNasabah));
      }
      var nasabah := nasabahList[found.value];
      var updates := NoChange;
      var absNominal := Abs(req.nominal);
      if req.jenis == SimpananPokok {
        updates := updates.(simpananPokok := Some(nasabah.simpananPokok + absNominal));
      } else if req.jenis == SimpananWajib {
        updates := updates.(simpananWajib := Some(nasabah.simpananWajib + absNominal));
      } else if req.jenis == SimpananSukarela {
        updates := updates.(simpananSukarela := Some(nasabah.simpananSukarela + absNominal));
      } else if req.jenis == Penarikan {
        var currentSukarela := nasabah.simpananSukarela;
        if currentSukarela < absNominal {
          return Some(SaldoSukarelaKurang(currentSukarela));
        }
        updates := updates.(simpananSukarela := Some(currentSukarela - absNominal));
      } else if req.jenis == BagiHasil {
        updates := updates.(shu := Some(nasabah.shu + absNominal));
      } else {
        RepayLoan(req.idNasabah, absNominal);
      }
      assert Updates(nasabah, req.jenis, absNominal) == Success(updates);

      var dbNominal := absNominal;
      if IsExpense(req.jenis) {
        dbNominal := -absNominal;
      }
      var newTrx := Transaksi(stamp.id, stamp.time, req.idNasabah, req.jenis, dbNominal, req.koordinator, req.keterangan);

      var t := Active();
      t := t.(transaksi := t.transaksi + [newTrx]);
      if updates != NoChange {
        var idx := FindIndex(t.nasabah, MemberIs(nasabah.idNasabah));
        if idx.Some? {
          t := t.(nasabah := t.nasabah[idx.value := Merge(t.nasabah[idx.value], updates)]);
        }
      }
      t := Log(t, actor, InputTransaction(req.jenis, dbNominal, req.idNasabah));
      Commit(t);
      err := None;
    }

    /** addNasabah's body: push the member and log it. */
    method InsertMember(m: Member, actor: string)
      modifies this
      ensures offlineMode == old(offlineMode) && Untouched(offlineMode, old(remote), old(local))
      ensures Active() == Ledger.AddNasabah(old(Active()), m, actor)
    {
      var list := Active().nasabah;
      list := list + [m];
      Commit(Log(Active().(nasabah := list), actor, AddMember(m.nama)));
    }

    /** updateNasabah's body: merge into the entry at the member's index, if any; always logged. */
    method MergeMember(id: string, p: MemberPatch, actor: string)
      modifies this
      ensures offlineMode == old(offlineMode) && Untouched(offlineMode, old(remote), old(local))
      ensures Active() == Ledger.UpdateNasabah(old(Active()), id, p, actor)
    {
      var list := Active().nasabah;
      var idx := FindIndex(list, MemberIs(id));
      if idx.Some? {
        list := list[idx.value := Merge(list[idx.value], p)];
      }
      Commit(Log(Active().(nasabah := list), actor, EditMember(id)));
    }

    /** Step 1 of an account's credit: a BAGI_HASIL transaction for the real part when positive. */
    method ShareProfit(id: string, realPart: Money, note: string, stamp: Stamp, actor: string)
      modifies this
      ensures offlineMode == old(offlineMode) && Untouched(offlineMode, old(remote), old(local))
      ensures Active() == ProfitShare(old(Active()), id, realPart, note, stamp, actor)
    {
      if realPart > 0.0 {
        var _ := RecordTransaksi(TxRequest(id, BagiHasil, realPart, System, note), stamp, actor);
      }
    }

    /** Step 2: the re-read SHU raised by the gap when positive, without a transaction. */
    method TopUp(id: string, diff: Money)
      modifies this
      ensures offlineMode == old(offlineMode) && Untouched(offlineMode, old(remote), old(local))
      ensures Active() == TopUpShu(old(Active()), id, diff)
    {
      if diff > 0.0 {
        var freshList := Active().nasabah;
        var freshIdx := FindIndex(freshList, MemberIs(id));
        if freshIdx.Some? {
          MergeMember(id, NoChange.(shu := Some(freshList[freshIdx.value].shu + diff)), System);
        }
      }
    }

    /** One account's step of distributeSHU: the real part as a transaction, then the
        full-minus-real gap on SHU. */
    method CreditAccount(id: string, realPart: Money, fullPart: Money, note: string, stamp: Stamp, actor: string)
      modifies this
      ensures offlineMode == old(offlineMode) && Untouched(offlineMode, old(remote), old(local))
      ensures Active() == Credit(old(Active()), id, realPart, fullPart, note, stamp, actor)
    {
      ShareProfit(id, realPart, note, stamp, actor);
      TopUp(id, fullPart - realPart);
    }

    // -------------------------------------------------------------------------
    // Reads
    // -------------------------------------------------------------------------

    method GetUsers(remoteOk: bool) returns (r: seq<StaffRecord>)
      modifies this
      ensures offlineMode == (old(offlineMode) || !remoteOk)
      ensures remote == old(remote) && local == old(local)
      ensures r == Active().users
    {
      Connect(remoteOk);
      r := Active().users;
    }

    method GetNasabah(remoteOk: bool) returns (r: seq<MemberView>)
      modifies this
      ensures offlineMode == (old(offlineMode) || !remoteOk)
      ensures remote == old(remote) && local == old(local)
      ensures r == Ledger.GetNasabah(Active())
    {
      Connect(remoteOk);
      r := Ledger.GetNasabah(Active());
    }

    method GetTransaksi(remoteOk: bool) returns (r: seq<Transaksi>)
      modifies this
      ensures offlineMode == (old(offlineMode) || !remoteOk)
      ensures remote == old(remote) && local == old(local)
      ensures r == Active().transaksi
    {
      Connect(remoteOk);
      r := Active().transaksi;
    }

    method GetPinjaman(remoteOk: bool) returns (r: seq<Pinjaman>)
      modifies this
      ensures offlineMode == (old(offlineMode) || !remoteOk)
      ensures remote == old(remote) && local == old(local)
      ensures r == Active().pinjaman
    {
      Connect(remoteOk);
      r := Active().pinjaman;
    }

    // -------------------------------------------------------------------------
    // Writes
    // -------------------------------------------------------------------------

    method LogAktivitas(actor: string, activity: Activity, remoteOk: bool)
      modifies this
      ensures offlineMode == (old(offlineMode) || !remoteOk)
      ensures Active() == Log(old(Backend(offlineMode || !remoteOk)), actor, activity)
      ensures Untouched(offlineMode, old(remote), old(local))
    {
      Connect(remoteOk);
      Commit(Log(Active(), actor, activity));
    }

    method CreateUser(u: StaffRecord, actor: string, remoteOk: bool)
      modifies this
      ensures offlineMode == (old(offlineMode) || !remoteOk)
      ensures Active() == Ledger.CreateUser(old(Backend(offlineMode || !remoteOk)), u, actor)
      ensures Untouched(offlineMode, old(remote), old(local))
    {
      Connect(remoteOk);
      var users := Active().users;
      users := users + [u];
      Commit(Log(Active().(users := users), actor, CreateStaff(u.username)));
    }

    method UpdateUser(id: string, d: StaffData, actor: string, remoteOk: bool)
      modifies this
      ensures offlineMode == (old(offlineMode) || !remoteOk)
      ensures Active() == Ledger.UpdateUser(old(Backend(offlineMode || !remoteOk)), id, d, actor)
      ensures Untouched(offlineMode, old(remote), old(local))
    {
      Connect(remoteOk);
      var users := Active().users;
      var idx := FindIndex(users, StaffIs(id));
      if idx.Some? {
        users := users[idx.value := MergeStaff(users[idx.value], d)];
      }
      Commit(Log(Active().(users := users), actor, UpdateStaff(id)));
    }

    method DeleteUser(id: string, actor: string, remoteOk: bool)
      modifies this
      ensures offlineMode == (old(offlineMode) || !remoteOk)
      ensures Active() == Ledger.DeleteUser(old(Backend(offlineMode || !remoteOk)), id, actor)
      ensures Untouched(offlineMode, old(remote), old(local))
    {
      Connect(remoteOk);
      var users := Active().users;
      users := Filter(users, (u: StaffRecord) => u.id != id);
      Commit(Log(Active().(users := users), actor, DeleteStaff(id)));
    }

    method AddNasabah(m: Member, actor: string, remoteOk: bool)
      modifies this
      ensures offlineMode == (old(offlineMode) || !remoteOk)
      ensures Active() == Ledger.AddNasabah(old(Backend(offlineMode || !remoteOk)), m, actor)
      ensures Untouched(offlineMode, old(remote), old(local))
    {
      Connect(remoteOk);
      InsertMember(m, actor);
    }

    method UpdateNasabah(id: string, p: MemberPatch, actor: string, remoteOk: bool)
      modifies this
      ensures offlineMode == (old(offlineMode) || !remoteOk)
      ensures Active() == Ledger.UpdateNasabah(old(Backend(offlineMode || !remoteOk)), id, p, actor)
      ensures Untouched(offlineMode, old(remote), old(local))
    {
      Connect(remoteOk);
      MergeMember(id, p, actor);
    }

    method CreatePinjaman(data: Pinjaman, actor: string, remoteOk: bool)
      modifies this
      ensures offlineMode == (old(offlineMode) || !remoteOk)
      ensures Active() == Ledger.CreatePinjaman(old(Backend(offlineMode || !remoteOk)), data, actor)
      ensures Untouched(offlineMode, old(remote), old(local))
    {
      Connect(remoteOk);
      var newLoan := data.(status := Aktif);
      var loans := Active().pinjaman;
      loans := loans + [newLoan];
      Commit(Log(Active().(pinjaman := loans), actor, CreateLoan(data.idPinjaman)));
    }

    method BayarAngsuran(idNasabah: string, nominal: Money, remoteOk: bool)
      modifies this
      ensures offlineMode == (old(offlineMode) || !remoteOk)
      ensures var before := old(Backend(offlineMode || !remoteOk));
              Active() == before.(pinjaman := Ledger.BayarAngsuran(before.pinjaman, idNasabah, nominal))
      ensures Untouched(offlineMode, old(remote), old(local))
    {
      Connect(remoteOk);
      RepayLoan(idNasabah, nominal);
    }

    method AddTransaksi(req: TxRequest, stamp: Stamp, actor: string, remoteOk: bool) returns (err: Option<Error>)
      modifies this
      ensures offlineMode == (old(offlineMode) || !remoteOk)
      ensures var res := Ledger.AddTransaksi(old(Backend(offlineMode || !remoteOk)), req, stamp, actor);
              && (res.Failure? ==> err == Some(res.error) && Active() == old(Backend(offlineMode || !remoteOk)))
              && (res.Success? ==> err.None? && Active() == res.value)
      ensures Untouched(offlineMode, old(remote), old(local))
    {
      Connect(remoteOk);
      err := RecordTransaksi(req, stamp, actor);
    }

    /** deleteTransaksi: an unknown id does nothing; otherwise the revert object is built from the
        member's current fields, the transaction filtered out, the revert merged and the delete logged. */
    method DeleteTransaksi(id: string, actor: string, remoteOk: bool)
      modifies this
      ensures offlineMode == (old(offlineMode) || !remoteOk)
      ensures Active() == Ledger.DeleteTransaksi(old(Backend(offlineMode || !remoteOk)), id, actor)
      ensures Untouched(offlineMode, old(remote), old(local))
    {
      Connect(remoteOk);
      var allTrx := Active().transaksi;
      var trx := Find(allTrx, (x: Transaksi) => x.idTransaksi == id);
      if trx.None? {
        return;
      }
      var revertUpdates := NoChange;
      var nasabahList := Active().nasabah;
      var found := FindIndex(nasabahList, MemberIs(trx.value.idNasabah));
      var absNominal := Abs(trx.value.nominal);
      if found.Some? {
        var nasabah := nasabahList[found.value];
        var jenis := trx.value.jenis;
        if jenis == SimpananPokok {
          revertUpdates := revertUpdates.(simpananPokok := Some(Max(0.0, nasabah.simpananPokok - absNominal)));
        } else if jenis == SimpananWajib {
          revertUpdates := revertUpdates.(simpananWajib := Some(Max(0.0, nasabah.simpananWajib - absNominal)));
        } else if jenis == SimpananSukarela {
          revertUpdates := revertUpdates.(simpananSukarela := Some(Max(0.0, nasabah.simpananSukarela - absNominal)));
        } else if jenis == Penarikan {
          revertUpdates := revertUpdates.(simpananSukarela := Some(nasabah.simpananSukarela + absNominal));
        } else if jenis == BagiHasil {
          revertUpdates := revertUpdates.(shu := Some(Max(0.0, nasabah.shu - absNominal)));
        }
        assert revertUpdates == RevertUpdates(nasabah, jenis, absNominal);
      }

      var t := Active();
      t := t.(transaksi := Filter(t.transaksi, (x: Transaksi) => x.idTransaksi != id));
      if revertUpdates != NoChange && found.Some? {
        var idx := FindIndex(t.nasabah, MemberIs(nasabahList[found.value].idNasabah));
        if idx.Some? {
          t := t.(nasabah := t.nasabah[idx.value := Merge(t.nasabah[idx.value], revertUpdates)]);
        }
      }
      t := Log(t, actor, DeleteTransaction(id));
      Commit(t);
    }

    /** distributeSHU's loop: every active allocation whose member was in the list read at the
        start is credited and counted, and each count is reported against the total. */
    method CreditAllocations(nasabahList: seq<Member>, activeAllocations: seq<Allocation>, stamp: nat -> Stamp,
                             actor: string) returns (processedCount: nat, reports: seq<(nat, nat)>)
      modifies this
      ensures offlineMode == old(offlineMode) && Untouched(offlineMode, old(remote), old(local))
      ensures Active() == CreditAll(old(Active()), nasabahList, activeAllocations, stamp, actor)
      ensures processedCount == Found(nasabahList, activeAllocations)
      ensures reports == ProgressLog(processedCount, |activeAllocations| + 1)
      ensures reports + [(processedCount + 1, |activeAllocations| + 1)]
              == ProgressLog(processedCount + 1, |activeAllocations| + 1)
    {
      var t1 := Active();
      var totalCount := |activeAllocations| + 1;
      processedCount := 0;
      reports := [];
      for i := 0 to |activeAllocations|
        invariant offlineMode == old(offlineMode) && Untouched(offlineMode, old(remote), old(local))
        invariant Active() == CreditAll(t1, nasabahList, activeAllocations[..i], stamp, actor)
        invariant processedCount == Found(nasabahList, activeAllocations[..i])
        invariant reports == ProgressLog(processedCount, totalCount)
      {
        var allocation := activeAllocations[i];
        CreditAllStep(t1, nasabahList, activeAllocations, i, stamp, actor);
        if HasMember(nasabahList, allocation.idNasabah) {
          CreditAccount(allocation.idNasabah, allocation.realNominal, allocation.fullNominal, MemberShareNote, stamp(i), actor);
          ProgressLogStep(processedCount, totalCount);
          processedCount := processedCount + 1;
          reports := reports + [(processedCount, totalCount)];
        }
      }
      assert activeAllocations[..|activeAllocations|] == activeAllocations;
      ProgressLogStep(processedCount, totalCount);
    }

    /** distributeSHU: ensure the reserve account, run the loop over the active allocations,
        credit the reserve, report the last step and log the closing. */
    method DistributeSHU(allocations: seq<Allocation>, totalLabaReal: Money, sisaUntukKoperasiReal: Money,
                         totalLabaFull: Money, sisaUntukKoperasiFull: Money, stamp: nat -> Stamp, actor: string,
                         remoteOk: bool)
      returns (reports: seq<(nat, nat)>)
      modifies this
      ensures offlineMode == (old(offlineMode) || !remoteOk)
      ensures Active() == Distribution.DistributeSHU(old(Backend(offlineMode || !remoteOk)), allocations,
                            totalLabaReal, sisaUntukKoperasiReal, totalLabaFull, sisaUntukKoperasiFull, stamp, actor)
      ensures reports == Progress(old(Backend(offlineMode || !remoteOk)).nasabah, allocations)
      ensures Untouched(offlineMode, old(remote), old(local))
    {
      Connect(remoteOk);
      reports := ShareOut(allocations, totalLabaReal, sisaUntukKoperasiReal, totalLabaFull, sisaUntukKoperasiFull, stamp, actor);
    }

    /** distributeSHU's body on the copy in use. */
    method ShareOut(allocations: seq<Allocation>, totalLabaReal: Money, sisaUntukKoperasiReal: Money,
                    totalLabaFull: Money, sisaUntukKoperasiFull: Money, stamp: nat -> Stamp, actor: string)
      returns (reports: seq<(nat, nat)>)
      modifies this
      ensures offlineMode == old(offlineMode) && Untouched(offlineMode, old(remote), old(local))
      ensures Active() == Distribution.DistributeSHU(old(Active()), allocations,
                            totalLabaReal, sisaUntukKoperasiReal, totalLabaFull, sisaUntukKoperasiFull, stamp, actor)
      ensures reports == Progress(old(Active()).nasabah, allocations)
    {
      var start := Active();
      var nasabahList := start.nasabah;
      if !HasMember(nasabahList, KOPERASI) {
        InsertMember(ReserveAccount, System);
      }
      ghost var t1 := Active();
      assert t1 == EnsureReserve(start);
      var activeAllocations := ActiveAllocations(allocations);
      var processedCount;
      processedCount, reports := CreditAllocations(nasabahList, activeAllocations, stamp, actor);
      ghost var t2 := Active();
      CreditAccount(KOPERASI, sisaUntukKoperasiReal, sisaUntukKoperasiFull, ReserveShareNote, stamp(|activeAllocations|), actor);
      ghost var t3 := Active();
      processedCount := processedCount + 1;
      reports := reports + [(processedCount, |activeAllocations| + 1)];
      DistributeSHUSteps(start, allocations, totalLabaReal, sisaUntukKoperasiReal, totalLabaFull, sisaUntukKoperasiFull,
                         stamp, actor, t1, t2, t3);
      Commit(Log(Active(), actor, ClosingDone(totalLabaReal, totalLabaFull)));
    }
  }
}
