/**
 * The login of context/AuthContext.tsx: both inputs are trimmed; the staff sheet is searched
 * first (username and the `password` or legacy `Pass` column, each trimmed), then the member
 * sheet (member id as username, NIK as password). The session class holds the current user,
 * the persisted session entry and the audit entries login and logout write.
 */
module Auth {
  import opened Wrappers
  import opened Types
  import opened Lists

  // ---------------------------------------------------------------------------
  // String.prototype.trim
  // ---------------------------------------------------------------------------

  /** The characters trim removes: ECMAScript WhiteSpace and LineTerminator. */
  predicate IsSpace(c: char) {
    || c == ' ' || c == '\t' || c == '\n' || c == '\r' || c == '\U{B}' || c == '\U{C}'
    || c == '\U{A0}' || c == '\U{1680}' || ('\U{2000}' <= c <= '\U{200A}') || c == '\U{2028}' || c == '\U{2029}'
    || c == '\U{202F}' || c == '\U{205F}' || c == '\U{3000}' || c == '\U{FEFF}'
  }

  /** The length of the run of spaces that starts `s`. */
  function LeadingSpaces(s: string): (k: nat)
    ensures k <= |s|
    ensures forall i :: 0 <= i < k ==> IsSpace(s[i])
    ensures k < |s| ==> !IsSpace(s[k])
    decreases |s|
  {
    if |s| == 0 || !IsSpace(s[0]) then 0
    else
      var k := LeadingSpaces(s[1..]);
      assert forall i :: 1 <= i < k + 1 ==> s[i] == s[1..][i - 1];
      k + 1
  }

  /** Where the run of spaces that ends `s` begins. */
  function TrailingStart(s: string): (k: nat)
    ensures k <= |s|
    ensures forall i :: k <= i < |s| ==> IsSpace(s[i])
    ensures k > 0 ==> !IsSpace(s[k - 1])
    decreases |s|
  {
    if |s| == 0 || !IsSpace(s[|s| - 1]) then |s|
    else
      var k := TrailingStart(s[..|s| - 1]);
      assert forall i :: k <= i < |s| - 1 ==> s[i] == s[..|s| - 1][i];
      k
  }

  /** `r` is `s[a..b]` with only spaces cut off on either side. */
  predicate TrimmedAt(s: string, r: string, a: int, b: int) {
    && 0 <= a <= b <= |s| && r == s[a..b]
    && (forall i :: 0 <= i < a ==> IsSpace(s[i]))
    && (forall i :: b <= i < |s| ==> IsSpace(s[i]))
  }

  /** trim: a contiguous piece of `s`, with only spaces cut off, neither starting nor ending in one. */
  function Trim(s: string): (r: string)
    ensures exists a, b :: TrimmedAt(s, r, a, b)
    ensures |r| > 0 ==> !IsSpace(r[0]) && !IsSpace(r[|r| - 1])
  {
    var a := LeadingSpaces(s);
    var rest := s[a..];
    var b := TrailingStart(rest);
    assert rest[..b] == s[a..a + b];
    assert forall i :: a + b <= i < |s| ==> s[i] == rest[i - a];
    assert TrimmedAt(s, rest[..b], a, a + b);
    rest[..b]
  }

  /** Trimming twice is trimming once. */
  lemma TrimIdempotent(s: string)
    ensures Trim(Trim(s)) == Trim(s)
  {
    var r := Trim(s);
    assert LeadingSpaces(r) == 0;
    assert TrailingStart(r[0..]) == |r|;
    assert r[0..][..|r|] == r;
  }

  /** " admin\n" trims to "admin". */
  lemma TrimExample()
    ensures Trim(" admin\n") == "admin"
  {
    var s := " admin\n";
    assert LeadingSpaces(s[1..]) == 0;
    assert LeadingSpaces(s) == 1;
    var rest := s[1..];
    assert rest == "admin\n";
    assert TrailingStart(rest[..5]) == 5;
    assert TrailingStart(rest) == 5;
  }

  // ---------------------------------------------------------------------------
  // Credential matching
  // ---------------------------------------------------------------------------

  /** `String(u.password || u.Pass || '').trim()`: an empty `password` column falls back to `Pass`. */
  function StaffPass(u: StaffRecord): string {
    Trim(if u.password != "" then u.password else u.legacyPass)
  }

  predicate StaffMatch(inputUser: string, inputPass: string, u: StaffRecord) {
    Trim(u.username) == inputUser && StaffPass(u) == inputPass
  }

  function StaffMatcher(inputUser: string, inputPass: string): StaffRecord -> bool {
    (u: StaffRecord) => StaffMatch(inputUser, inputPass, u)
  }

  predicate MemberMatch(inputUser: string, inputPass: string, m: Member) {
    Trim(m.idNasabah) == inputUser && Trim(m.nik) == inputPass
  }

  function MemberMatcher(inputUser: string, inputPass: string): Member -> bool {
    (m: Member) => MemberMatch(inputUser, inputPass, m)
  }

  /** The role a staff login gets: the sheet's text "admin" is admin; "koordinator" and anything
      else is koordinator, so a staff login never has the member role. */
  function StaffRole(role: string): (r: Role)
    ensures r == Admin <==> role == "admin"
    ensures r != Nasabah
  {
    if role == "admin" then Admin else Koordinator
  }

  /** The user of a staff login keeps the sheet's untrimmed username and has no member id. */
  function StaffUser(u: StaffRecord): User {
    User(u.id, u.nama, u.username, StaffRole(u.role), None)
  }

  /** The user of a member login: the member id is id, username and member id. */
  function MemberUser(m: Member): User {
    User(m.idNasabah, m.nama, m.idNasabah, Nasabah, Some(m.idNasabah))
  }

  /** `k` is the first index of `s` whose element satisfies `p`. */
  predicate FirstAt<T>(s: seq<T>, p: T -> bool, k: int) {
    0 <= k < |s| && p(s[k]) && forall j :: 0 <= j < k ==> !p(s[j])
  }

  /** login's decision: the first matching staff record, else the first matching member, else no one. */
  function Authenticate(username: string, password: string, staff: seq<StaffRecord>, members: seq<Member>)
    : (r: Option<User>)
    ensures var sm, mm := StaffMatcher(Trim(username), Trim(password)), MemberMatcher(Trim(username), Trim(password));
            && (r.None? <==> (forall i :: 0 <= i < |staff| ==> !sm(staff[i])) && (forall j :: 0 <= j < |members| ==> !mm(members[j])))
            && ((exists i :: 0 <= i < |staff| && sm(staff[i])) ==>
                  exists k :: FirstAt(staff, sm, k) && r == Some(StaffUser(staff[k])) && r.value.role != Nasabah)
            && ((forall i :: 0 <= i < |staff| ==> !sm(staff[i])) && (exists j :: 0 <= j < |members| && mm(members[j])) ==>
                  exists k :: FirstAt(members, mm, k) && r == Some(MemberUser(members[k])))
    ensures r.Some? ==> Trim(r.value.username) == Trim(username)
    ensures r.Some? ==> (r.value.role == Nasabah <==> r.value.idNasabah.Some?)
    ensures r.Some? && r.value.role == Nasabah ==> r.value.idNasabah == Some(r.value.username)
  {
    var inputUser, inputPass := Trim(username), Trim(password);
    match FindIndex(staff, StaffMatcher(inputUser, inputPass))
    case Some(i) =>
      assert FirstAt(staff, StaffMatcher(inputUser, inputPass), i);
      Some(StaffUser(staff[i]))
    case None =>
      match FindIndex(members, MemberMatcher(inputUser, inputPass))
      case Some(j) =>
        assert FirstAt(members, MemberMatcher(inputUser, inputPass), j);
        Some(MemberUser(members[j]))
      case None => None
  }

  /** Spaces around what is typed never change the outcome. */
  lemma LoginIgnoresSurroundingSpaces(username: string, password: string, staff: seq<StaffRecord>, members: seq<Member>)
    ensures Authenticate(Trim(username), Trim(password), staff, members) == Authenticate(username, password, staff, members)
  {
    TrimIdempotent(username);
    TrimIdempotent(password);
  }

  /** A member logs in with their id and NIK; a staff record matching the same input wins. */
  lemma StaffBeforeMember(username: string, password: string, u: StaffRecord, m: Member, members: seq<Member>)
    requires StaffMatch(Trim(username), Trim(password), u)
    requires MemberMatch(Trim(username), Trim(password), m)
    ensures Authenticate(username, password, [u], [m] + members) == Some(StaffUser(u))
    ensures Authenticate(username, password, [], [m] + members) == Some(MemberUser(m))
  {
    assert StaffMatcher(Trim(username), Trim(password))([u][0]);
    assert MemberMatcher(Trim(username), Trim(password))(([m] + members)[0]);
  }

  /** The entry a successful login writes: the actor is the logged-in username. */
  function LoginEntry(u: User): (e: LogEntry)
    ensures e.actor == u.username
    ensures u.role == Nasabah ==> e.activity == LoginMember
    ensures u.role != Nasabah ==> e.activity == LoginStaff(u.role)
  {
    LogEntry(u.username, if u.role == Nasabah then LoginMember else LoginStaff(u.role))
  }

  // ---------------------------------------------------------------------------
  // The session
  // ---------------------------------------------------------------------------

  /** AuthProvider's state: the current user, the persisted `koperasi_session` entry and the audit
      entries written by login and logout. */
  class AuthSession {
    var user: Option<User>
    var stored: Option<User>
    var audit: seq<LogEntry>

    /** On mount the persisted session, if any, becomes the current user. */
    constructor(session: Option<User>)
      ensures user == session && stored == session && audit == []
    {
      user := session;
      stored := session;
      audit := [];
    }

    predicate IsAuthenticated()
      reads this
    {
      user.Some?
    }

    /** login: on a match the user is set, persisted and logged; otherwise nothing changes. */
    method Login(username: string, password: string, staff: seq<StaffRecord>, members: seq<Member>)
      returns (ok: bool)
      modifies this
      ensures ok <==> Authenticate(username, password, staff, members).Some?
      ensures ok ==> && user == Authenticate(username, password, staff, members)
                     && stored == user
                     && audit == old(audit) + [LoginEntry(user.value)]
      ensures !ok ==> user == old(user) && stored == old(stored) && audit == old(audit)
    {
      var found := Authenticate(username, password, staff, members);
      if found.Some? {
        user := found;
        stored := found;
        audit := audit + [LoginEntry(found.value)];
        ok := true;
      } else {
        ok := false;
      }
    }

    /** logout: clears the user and the persisted session; a logged-in user's logout is logged. */
    method Logout()
      modifies this
      ensures user.None? && stored.None?
      ensures old(user).Some? ==> audit == old(audit) + [LogEntry(old(user).value.username, Activity.Logout)]
      ensures old(user).None? ==> audit == old(audit)
    {
      if user.Some? {
        audit := audit + [LogEntry(user.value.username, Activity.Logout)];
      }
      user := None;
      stored := None;
    }
  }
}
