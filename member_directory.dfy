/**
 * The member directory of pages/NasabahPage.tsx: the net balance shown per member, which members
 * a user may see, the search box, and what the form submits (a new member record or an edit).
 */
module MemberDirectory {
  import opened Wrappers
  import opened Types
  import opened Lists
  import opened Ledger
  import opened Dashboard

  // ---------------------------------------------------------------------------
  // Net balance
  // ---------------------------------------------------------------------------

  /** getNetBalance: capital (pokok + wajib + sukarela, no SHU) less the active-loan debt. */
  function NetBalance(v: MemberView): (r: Money)
    ensures r + v.totalPinjaman == Savings(v.member)
  {
    Savings(v.member) - v.totalPinjaman
  }

  /** SHU does not enter a member's net balance. */
  lemma NetBalanceIgnoresShu(v: MemberView, shu: Money)
    ensures NetBalance(v.(member := v.member.(shu := shu))) == NetBalance(v)
  {
  }

  /** The members' net balances add up to the dashboard's net balance. */
  lemma {:induction false} NetBalancesAddUp(vs: seq<MemberView>)
    ensures Sum(vs, NetBalance) == Sum(vs, Capital) - Sum(vs, LoanBalance)
    decreases |vs|
  {
    if |vs| > 0 {
      NetBalancesAddUp(vs[..|vs| - 1]);
    }
  }

  // ---------------------------------------------------------------------------
  // Visibility
  // ---------------------------------------------------------------------------

  /** `koordinator === username`: a record without a coordinator matches no one. */
  function EnteredBy(username: string): MemberView -> bool {
    (v: MemberView) => v.member.koordinator == Some(username)
  }

  /** `user?.id_nasabah` is truthy: present and not empty. */
  predicate HasMemberId(user: Option<User>) {
    user.Some? && user.value.idNasabah.Some? && user.value.idNasabah.value != ""
  }

  /** The personal profile shows only the user's own record, a coordinator only the members they
      entered; everyone else sees the whole list. */
  function Visible(user: Option<User>, isPersonalProfile: bool, list: seq<MemberView>): (r: seq<MemberView>)
    ensures isPersonalProfile && HasMemberId(user) ==>
              && (forall i :: 0 <= i < |r| ==> r[i] in list && Some(r[i].member.idNasabah) == user.value.idNasabah)
              && (forall i :: 0 <= i < |list| && Some(list[i].member.idNasabah) == user.value.idNasabah ==> list[i] in r)
    ensures !(isPersonalProfile && HasMemberId(user)) && user.Some? && user.value.role == Koordinator ==>
              && (forall i :: 0 <= i < |r| ==> r[i] in list && r[i].member.koordinator == Some(user.value.username))
              && (forall i :: 0 <= i < |list| && list[i].member.koordinator == Some(user.value.username) ==> list[i] in r)
    ensures !(isPersonalProfile && HasMemberId(user)) && !(user.Some? && user.value.role == Koordinator) ==> r == list
  {
    if isPersonalProfile && HasMemberId(user) then Filter(list, ViewOwnedBy(user.value.idNasabah))
    else if user.Some? && user.value.role == Koordinator then Filter(list, EnteredBy(user.value.username))
    else list
  }

  // ---------------------------------------------------------------------------
  // Search
  // ---------------------------------------------------------------------------

  /** toLowerCase on the ASCII letters. */
  function LowerChar(c: char): (r: char)
    ensures 'A' <= c <= 'Z' ==> r as int == c as int + 32
    ensures !('A' <= c <= 'Z') ==> r == c
    ensures !('A' <= r <= 'Z')
  {
    if 'A' <= c <= 'Z' then (c as int + 32) as char else c
  }

  function Lower(s: string): (r: string)
    ensures |r| == |s|
    ensures forall i :: 0 <= i < |s| ==> r[i] == LowerChar(s[i])
  {
    seq(|s|, i requires 0 <= i < |s| => LowerChar(s[i]))
  }

  lemma LowerIdempotent(s: string)
    ensures Lower(Lower(s)) == Lower(s)
  {
  }

  /** `term` occurs in `text` starting at position `i`. */
  predicate OccursAt(text: string, term: string, i: int) {
    0 <= i <= |text| - |term| && text[i..i + |term|] == term
  }

  /** `text.includes(term)`: `term` occurs in `text` at some position. */
  function Contains(text: string, term: string): (r: bool)
    ensures r <==> exists i :: OccursAt(text, term, i)
    decreases |text|
  {
    if |term| > |text| then
      assert forall i :: !OccursAt(text, term, i);
      false
    else if text[..|term|] == term then
      assert OccursAt(text, term, 0);
      true
    else
      var r := Contains(text[1..], term);
      assert r ==> exists i :: OccursAt(text, term, i) by {
        if r {
          var j :| OccursAt(text[1..], term, j);
          assert text[j + 1..j + 1 + |term|] == text[1..][j..j + |term|];
          assert OccursAt(text, term, j + 1);
        }
      }
      assert (exists i :: OccursAt(text, term, i)) ==> r by {
        if exists i :: OccursAt(text, term, i) {
          var j :| OccursAt(text, term, j);
          assert j != 0;
          assert text[1..][j - 1..j - 1 + |term|] == text[j..j + |term|];
          assert OccursAt(text[1..], term, j - 1);
        }
      }
      r
  }

  /** The member matches when the lower-cased name or id contains the lower-cased term. */
  predicate Matches(term: string, v: MemberView) {
    Contains(Lower(v.member.nama), Lower(term)) || Contains(Lower(v.member.idNasabah), Lower(term))
  }

  function MatchesTerm(term: string): MemberView -> bool {
    (v: MemberView) => Matches(term, v)
  }

  /** filteredData: the visible members the term matches, in their order. */
  function Search(list: seq<MemberView>, term: string): (r: seq<MemberView>)
    ensures forall i :: 0 <= i < |r| ==> r[i] in list && Matches(term, r[i])
    ensures forall i :: 0 <= i < |list| && Matches(term, list[i]) ==> list[i] in r
  {
    Filter(list, MatchesTerm(term))
  }

  /** The empty search term keeps everyone. */
  lemma EmptySearchKeepsAll(list: seq<MemberView>)
    ensures Search(list, "") == list
  {
    forall i | 0 <= i < |list| ensures Matches("", list[i]) {
      assert OccursAt(Lower(list[i].member.nama), Lower(""), 0);
    }
  }

  /** Searching ignores the case of the term. */
  lemma SearchIgnoresCase(list: seq<MemberView>, term: string)
    ensures Search(list, term) == Search(list, Lower(term))
  {
    LowerIdempotent(term);
    FilterExt(list, MatchesTerm(term), MatchesTerm(Lower(term)));
  }

  /** "Ani" finds the member named "ANI SUSANTI". */
  lemma SearchExample(v: MemberView)
    requires v.member.nama == "ANI SUSANTI"
    ensures Matches("Ani", v)
  {
    assert Lower(v.member.nama)[0..3] == "ani" == Lower("Ani");
    assert OccursAt(Lower(v.member.nama), Lower("Ani"), 0);
  }

  // ---------------------------------------------------------------------------
  // The form
  // ---------------------------------------------------------------------------

  /** The fields of the member form; `simpananPokok` is the numeric value of its field (0 when empty). */
  datatype MemberForm = MemberForm(nama: string, nik: string, alamat: string, noHp: string, simpananPokok: Money)

  /** What handleSubmit does with the form. */
  datatype Submission =
    | Rejected
    | Edit(id: string, patch: MemberPatch, actor: string)
    | Create(member: Member, actor: string)

  function OrDash(s: string): (r: string)
    ensures r != ""
    ensures s != "" ==> r == s
  {
    if s == "" then "-" else s
  }

  /** The new member: wajib, sukarela and SHU start at 0, empty address and phone become "-", and
      the record belongs to its coordinator; anyone else files it under "admin". */
  function NewMember(form: MemberForm, id: string, user: Option<User>): (r: Member)
    ensures r.idNasabah == id && r.nama == form.nama && r.nik == form.nik
    ensures r.simpananPokok == form.simpananPokok
    ensures r.simpananWajib == 0.0 && r.simpananSukarela == 0.0 && r.shu == 0.0
    ensures r.alamat == OrDash(form.alamat) && r.noHp == OrDash(form.noHp)
    ensures user.Some? && user.value.role == Koordinator ==> r.koordinator == Some(user.value.username)
    ensures !(user.Some? && user.value.role == Koordinator) ==> r.koordinator == Some("admin")
  {
    Member(id, form.nama, form.nik, OrDash(form.alamat), OrDash(form.noHp), form.simpananPokok, 0.0, 0.0, 0.0,
           Some(if user.Some? && user.value.role == Koordinator then user.value.username else "admin"))
  }

  /** The edit sends the four identity fields and never a balance. */
  function EditPatch(form: MemberForm): (r: MemberPatch)
    ensures r.simpananPokok.None? && r.simpananWajib.None? && r.simpananSukarela.None? && r.shu.None?
    ensures r.nama == Some(form.nama) && r.nik == Some(form.nik)
    ensures r.alamat == Some(form.alamat) && r.noHp == Some(form.noHp)
  {
    NoChange.(nama := Some(form.nama), nik := Some(form.nik), alamat := Some(form.alamat), noHp := Some(form.noHp))
  }

  /** handleSubmit: nothing without a name and a NIK; an edit of an existing id, or a new member. */
  function Submit(form: MemberForm, isEditing: bool, editId: string, newId: string, user: Option<User>): (r: Submission)
    ensures r.Rejected? <==> form.nama == "" || form.nik == ""
    ensures r.Edit? <==> form.nama != "" && form.nik != "" && isEditing && editId != ""
    ensures r.Edit? ==> r.id == editId && r.patch == EditPatch(form) && r.actor == UsernameOr(user, "unknown")
    ensures r.Create? ==> r.member == NewMember(form, newId, user) && r.actor == UsernameOr(user, "unknown")
  {
    if form.nama == "" || form.nik == "" then Rejected
    else if isEditing && editId != "" then Edit(editId, EditPatch(form), UsernameOr(user, "unknown"))
    else Create(NewMember(form, newId, user), UsernameOr(user, "unknown"))
  }

  /** An edit, applied by updateNasabah, leaves every balance and the coordinator of every member as it was. */
  lemma EditKeepsBalances(t: Tables, form: MemberForm, id: string, actor: string)
    ensures var r := UpdateNasabah(t, id, EditPatch(form), actor);
            && |r.nasabah| == |t.nasabah|
            && forall i :: 0 <= i < |t.nasabah| ==>
                 && r.nasabah[i].idNasabah == t.nasabah[i].idNasabah
                 && Savings(r.nasabah[i]) == Savings(t.nasabah[i]) && r.nasabah[i].shu == t.nasabah[i].shu
                 && r.nasabah[i].koordinator == t.nasabah[i].koordinator
  {
  }

  /** A member a coordinator creates shows up in that coordinator's directory. */
  lemma CreatorSeesNewMember(form: MemberForm, id: string, user: Option<User>, v: MemberView, list: seq<MemberView>)
    requires user.Some? && user.value.role == Koordinator
    requires v.member == NewMember(form, id, user)
    requires v in list
    ensures v in Visible(user, false, list)
  {
  }
}
