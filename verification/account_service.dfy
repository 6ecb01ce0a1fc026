/**
 * Account management (the AccountService of apps/accounts/services.py):
 * registration with unique username and email, profile updates that cannot
 * touch the password, the role or the staff flags, password change against the
 * current password, account deletion and the role queries.
 */
module AccountService {
  import opened Base
  import opened Exceptions
  import opened AccountModels
  import opened Db

  predicate UsernameTaken(users: map<UserId, User>, username: string) {
    exists id | id in users :: users[id].username == username
  }

  predicate EmailTaken(users: map<UserId, User>, email: string) {
    exists id | id in users :: users[id].email == email
  }

  /** No two accounts share a username. */
  predicate UniqueUsernames(users: map<UserId, User>) {
    forall a, b | a in users && b in users && a != b :: users[a].username != users[b].username
  }

  /** No two accounts share an email address. */
  predicate UniqueEmails(users: map<UserId, User>) {
    forall a, b | a in users && b in users && a != b :: users[a].email != users[b].email
  }

  /** The characters Python's str.isspace accepts, which str.strip() removes from both ends. */
  predicate IsSpace(c: char) {
    var n := c as int;
    || 9 <= n <= 13 || 28 <= n <= 32 || n == 0x85 || n == 0xA0 || n == 0x1680
    || 0x2000 <= n <= 0x200A || n == 0x2028 || n == 0x2029 || n == 0x202F || n == 0x205F || n == 0x3000
  }

  function TrimStart(s: string): (r: string)
    ensures r == [] || !IsSpace(r[0])
  {
    if |s| > 0 && IsSpace(s[0]) then TrimStart(s[1..]) else s
  }

  function TrimEnd(s: string): (r: string)
    ensures |r| <= |s|
    ensures r != [] ==> r[0] == s[0] && !IsSpace(r[|r| - 1])
  {
    if |s| > 0 && IsSpace(s[|s| - 1]) then TrimEnd(s[..|s| - 1]) else s
  }

  /** str.strip(): whitespace removed from both ends. */
  function Strip(s: string): (r: string)
    ensures r == [] || (!IsSpace(r[0]) && !IsSpace(r[|r| - 1]))
  {
    TrimEnd(TrimStart(s))
  }

  /** A string that starts and ends with a non-space character is its own stripped form. */
  lemma StripUnspaced(s: string)
    requires s != [] && !IsSpace(s[0]) && !IsSpace(s[|s| - 1])
    ensures Strip(s) == s
  {
  }

  /** The index of the last '@' (the split point of rsplit("@", 1)), if there is one. */
  function LastAt(s: string): (r: Option<nat>)
    ensures r.None? <==> '@' !in s
    ensures r.Some? ==> r.value < |s| && s[r.value] == '@' && '@' !in s[r.value + 1..]
  {
    if |s| == 0 then None
    else if s[|s| - 1] == '@' then Some(|s| - 1)
    else
      var r := LastAt(s[..|s| - 1]);
      assert s == s[..|s| - 1] + [s[|s| - 1]];
      r
  }

  /** str.lower() on ASCII letters; other characters are kept. */
  function AsciiLower(c: char): char {
    if 'A' <= c <= 'Z' then (c as int + 32) as char else c
  }

  function LowerAll(s: string): (r: string)
    ensures |r| == |s|
  {
    seq(|s|, i requires 0 <= i < |s| => AsciiLower(s[i]))
  }

  /**
   * The address Django's user manager stores (BaseUserManager.normalize_email):
   * when the stripped address contains '@', the part after the last '@' is
   * lower-cased and the stripped address kept; otherwise the address is kept
   * exactly as given.
   */
  function NormalizeEmail(email: string): (r: string)
    ensures '@' !in Strip(email) ==> r == email
    ensures '@' in Strip(email) ==> |r| == |Strip(email)|
  {
    var s := Strip(email);
    match LastAt(s)
    case None => email
    case Some(i) => s[..i] + "@" + LowerAll(s[i + 1..])
  }

  /** With an '@' present, the stored address is the stripped one up to the case of its letters. */
  lemma NormalizeEmailChangesCaseOnly(email: string)
    requires '@' in Strip(email)
    ensures var r, s := NormalizeEmail(email), Strip(email);
      |r| == |s| && forall k | 0 <= k < |r| :: AsciiLower(r[k]) == AsciiLower(s[k])
  {
    var s := Strip(email);
    LowerDomainSameLetters(s, LastAt(s).value);
  }

  /** Lower-casing the part after an '@' changes letter case only. */
  lemma LowerDomainSameLetters(s: string, i: nat)
    requires i < |s| && s[i] == '@'
    ensures var r := s[..i] + "@" + LowerAll(s[i + 1..]);
      |r| == |s| && forall k | 0 <= k < |r| :: AsciiLower(r[k]) == AsciiLower(s[k])
  {
    var r := s[..i] + "@" + LowerAll(s[i + 1..]);
    forall k | 0 <= k < |r|
      ensures AsciiLower(r[k]) == AsciiLower(s[k])
    {
      if k > i {
        assert r[k] == AsciiLower(s[k]);
        AsciiLowerFacts(s[k]);
      }
    }
  }

  /** An '@' with none after it is the last one. */
  lemma LastAtIs(s: string, i: nat)
    requires i < |s| && s[i] == '@'
    requires forall k | i < k < |s| :: s[k] != '@'
    ensures LastAt(s) == Some(i)
  {
    assert s[i] in s;
  }

  /** Lower-casing keeps spaces and non-spaces apart and never makes an '@'. */
  lemma AsciiLowerFacts(c: char)
    ensures IsSpace(AsciiLower(c)) <==> IsSpace(c)
    ensures AsciiLower(c) == '@' <==> c == '@'
    ensures AsciiLower(AsciiLower(c)) == AsciiLower(c)
  {
  }

  /** Lower-casing twice is lower-casing once; it adds no '@' and keeps a last non-space non-space. */
  lemma LowerAllFacts(t: string)
    ensures LowerAll(LowerAll(t)) == LowerAll(t)
    ensures '@' !in t ==> '@' !in LowerAll(t)
    ensures t != [] && !IsSpace(t[|t| - 1]) ==> !IsSpace(LowerAll(t)[|t| - 1])
  {
    var l := LowerAll(t);
    forall k | 0 <= k < |t|
      ensures LowerAll(l)[k] == l[k]
    {
      AsciiLowerFacts(t[k]);
    }
    if '@' !in t {
      forall k | 0 <= k < |t|
        ensures l[k] != '@'
      {
        AsciiLowerFacts(t[k]);
      }
    }
    if t != [] {
      AsciiLowerFacts(t[|t| - 1]);
    }
  }

  /** The address `name@dom`, with `dom` free of '@' and both ends unspaced, is split at that '@'. */
  lemma SplitAddress(name: string, dom: string)
    requires '@' !in dom
    requires name != [] ==> !IsSpace(name[0])
    requires dom != [] ==> !IsSpace(dom[|dom| - 1])
    ensures var r := name + "@" + dom;
      Strip(r) == r && LastAt(r) == Some(|name|) && r[..|name|] == name && r[|name| + 1..] == dom
  {
    var r := name + "@" + dom;
    assert r[0] == if name == [] then '@' else name[0];
    assert r[|r| - 1] == if dom == [] then '@' else dom[|dom| - 1];
    StripUnspaced(r);
    forall k | |name| < k < |r|
      ensures r[k] != '@'
    {
      assert r[k] == dom[k - |name| - 1];
    }
    LastAtIs(r, |name|);
    assert r[..|name|] == name && r[|name| + 1..] == dom;
  }

  /** Normalising a stored address again changes nothing. */
  lemma NormalizeEmailIdempotent(email: string)
    ensures NormalizeEmail(NormalizeEmail(email)) == NormalizeEmail(email)
  {
    var s := Strip(email);
    match LastAt(s)
    case None =>
    case Some(i) =>
      var t := s[i + 1..];
      LowerAllFacts(t);
      if t != [] {
        assert t[|t| - 1] == s[|s| - 1];
      }
      SplitAddress(s[..i], LowerAll(t));
  }

  /** An address already stripped, split at its last '@', is normalised by lower-casing the part after it. */
  lemma NormalizeSplit(name: string, dom: string)
    requires '@' !in dom
    requires name != [] ==> !IsSpace(name[0])
    requires dom != [] ==> !IsSpace(dom[|dom| - 1])
    ensures NormalizeEmail(name + "@" + dom) == name + "@" + LowerAll(dom)
  {
    SplitAddress(name, dom);
  }

  /** One space on each side of an unspaced string is stripped off. */
  lemma StripPadded(t: string)
    requires t != [] && !IsSpace(t[0]) && !IsSpace(t[|t| - 1])
    ensures Strip([' '] + t + [' ']) == t
  {
    var s := [' '] + t + [' '];
    assert s[1..] == t + [' '];
    assert TrimStart(s) == t + [' '];
    assert (t + [' '])[..|t|] == t;
    assert TrimEnd(t) == t;
  }

  /** Examples: only the domain is lower-cased, and an address already normalised is kept. */
  lemma NormalizeEmailExamples()
    ensures NormalizeEmail("b@X.com") == "b@x.com"
    ensures NormalizeEmail("b@x.com") == "b@x.com"
  {
    assert "b@X.com" == "b" + "@" + "X.com" && "b@x.com" == "b" + "@" + "x.com" by {
    }
    assert LowerAll("X.com") == "x.com" && LowerAll("x.com") == "x.com" by {
    }
    NormalizeSplit("b", "X.com");
    NormalizeSplit("b", "x.com");
  }

  /** An address padded with one space on each side is normalised as the unpadded one. */
  lemma NormalizePadded(name: string, dom: string)
    requires name != [] && !IsSpace(name[0])
    requires dom != [] && '@' !in dom && !IsSpace(dom[|dom| - 1])
    ensures NormalizeEmail([' '] + (name + "@" + dom) + [' ']) == name + "@" + LowerAll(dom)
  {
    var t := name + "@" + dom;
    assert t[0] == name[0] && t[|t| - 1] == dom[|dom| - 1];
    StripPadded(t);
    SplitAddress(name, dom);
  }

  /** Example: surrounding spaces are stripped before the domain is lower-cased. */
  lemma NormalizeEmailStripExample()
    ensures NormalizeEmail(" Ann@Example.COM ") == "Ann@example.com"
  {
    assert " Ann@Example.COM " == [' '] + ("Ann" + "@" + "Example.COM") + [' '] by {
    }
    assert "Ann@example.com" == "Ann" + "@" + LowerAll("Example.COM") by {
    }
    NormalizePadded("Ann", "Example.COM");
  }

  /** Example: an address without '@' is kept exactly as given, spaces included. */
  lemma NormalizeEmailNoAtExample()
    ensures NormalizeEmail(" no-at ") == " no-at "
  {
    var t := "no-at";
    assert " no-at " == [' '] + t + [' '];
    StripPadded(t);
    assert forall k | 0 <= k < |t| :: t[k] != '@';
  }

  /** The account create_user makes: active, neither staff nor superuser, the address normalised. */
  function NewUser(username: string, email: string, password: string, firstName: Option<string>, lastName: Option<string>,
                   role: Option<Role>, phone: Option<string>, bio: Option<string>): (u: User)
    ensures u.isActive && !u.isStaff && !u.isSuperuser
    ensures role.None? ==> u.role == Spectator
  {
    User(username, NormalizeEmail(email), password, firstName.GetOr(""), lastName.GetOr(""),
         role.GetOr(DefaultRole), phone.GetOr(""), bio.GetOr(""), true, false, false)
  }

  /**
   * register_user as written: the duplicate checks look the username and the
   * email up exactly as given; then create_user refuses an empty username.
   * None when the account is created.
   */
  function RegisterRefusalAsWritten(users: map<UserId, User>, username: string, email: string): (e: Option<ErrorKind>)
    ensures e.None? <==> !UsernameTaken(users, username) && !EmailTaken(users, email) && username != ""
    ensures e == Some(ValueError) <==> !UsernameTaken(users, username) && !EmailTaken(users, email) && username == ""
  {
    if UsernameTaken(users, username) then Some(ValidationError)
    else if EmailTaken(users, email) then Some(ValidationError)
    else if username == "" then Some(ValueError)
    else None
  }

  /**
   * As written, an address differing from a stored one only in the case of its
   * domain passes the duplicate check, and once normalised it is the stored
   * address: two accounts then share an email.
   */
  lemma RegisterAsWrittenDuplicatesEmail()
    ensures var users := map[1 := User("bob", "b@x.com", "pw", "", "", Spectator, "", "", true, false, false)];
      && UniqueEmails(users)
      && RegisterRefusalAsWritten(users, "ann", "b@X.com") == None
      && !UniqueEmails(users[2 := NewUser("ann", "b@X.com", "pw", None, None, None, None, None)])
  {
    var users := map[1 := User("bob", "b@x.com", "pw", "", "", Spectator, "", "", true, false, false)];
    assert RegisterRefusalAsWritten(users, "ann", "b@X.com") == None by {
      assert "bob"[0] != "ann"[0] && "b@x.com"[2] != "b@X.com"[2];
    }
    var ann := NewUser("ann", "b@X.com", "pw", None, None, None, None, None);
    assert ann.email == "b@x.com" by {
      NormalizeEmailExamples();
    }
    var after := users[2 := ann];
    assert after[1].email == after[2].email;
  }

  /**
   * register_user, with the email check made on the address as it will be
   * stored: refused when the username, then the normalised email, is already in
   * use, then when the username is empty; otherwise a new active account,
   * neither staff nor superuser, with the spectator role unless given. Usernames
   * and emails stay unique.
   */
  method RegisterUser(st: Store, username: string, email: string, password: string,
                      firstName: Option<string>, lastName: Option<string>, role: Option<Role>,
                      phone: Option<string>, bio: Option<string>)
    returns (r: Result<UserId>)
    requires st.Valid()
    modifies st
    ensures st.Valid()
    ensures r == (if UsernameTaken(old(st.users), username) then Err(ValidationError)
                  else if EmailTaken(old(st.users), NormalizeEmail(email)) then Err(ValidationError)
                  else if username == "" then Err(ValueError)
                  else Ok(old(st.nextUserId)))
    ensures r.Err? ==> st.Snapshot() == old(st.Snapshot())
    ensures r.Ok? ==> st.Snapshot() == old(st.Snapshot()).(
      users := old(st.users)[r.value := NewUser(username, email, password, firstName, lastName, role, phone, bio)],
      nextUserId := r.value + 1)
    ensures UniqueUsernames(old(st.users)) ==> UniqueUsernames(st.users)
    ensures UniqueEmails(old(st.users)) ==> UniqueEmails(st.users)
  {
    if UsernameTaken(st.users, username) {
      return Err(ValidationError);
    }
    if EmailTaken(st.users, NormalizeEmail(email)) {
      return Err(ValidationError);
    }
    if username == "" {
      return Err(ValueError);
    }
    var id := st.nextUserId;
    st.users := st.users[id := NewUser(username, email, password, firstName, lastName, role, phone, bio)];
    st.nextUserId := id + 1;
    r := Ok(id);
  }

  /** One entry of the update data of update_profile: a user field and its new value. */
  datatype ProfileField =
    | SetUsername(username: string)
    | SetEmail(email: string)
    | SetPassword(password: string)
    | SetFirstName(firstName: string)
    | SetLastName(lastName: string)
    | SetRole(role: Role)
    | SetPhone(phone: string)
    | SetBio(bio: string)
    | SetIsActive(isActive: bool)
    | SetIsStaff(isStaff: bool)
    | SetIsSuperuser(isSuperuser: bool)
  {
    /** The fields update_profile refuses to write. */
    predicate Protected() {
      SetPassword? || SetRole? || SetIsStaff? || SetIsSuperuser?
    }
  }

  /** Write one entry; protected entries are skipped. */
  function ApplyProfileField(u: User, f: ProfileField): User {
    match f
    case SetUsername(v) => u.(username := v)
    case SetEmail(v) => u.(email := v)
    case SetFirstName(v) => u.(firstName := v)
    case SetLastName(v) => u.(lastName := v)
    case SetPhone(v) => u.(phone := v)
    case SetBio(v) => u.(bio := v)
    case SetIsActive(v) => u.(isActive := v)
    case _ => u
  }

  /** The user after the entries are written one after the other. */
  function ApplyProfileFields(u: User, fs: seq<ProfileField>): User {
    if |fs| == 0 then u else ApplyProfileField(ApplyProfileFields(u, fs[..|fs| - 1]), fs[|fs| - 1])
  }

  /** A profile update never changes the password, the role or the staff and superuser flags. */
  lemma {:induction false} ProfileUpdateKeepsProtectedFields(u: User, fs: seq<ProfileField>)
    ensures var u' := ApplyProfileFields(u, fs);
      u'.password == u.password && u'.role == u.role && u'.isStaff == u.isStaff && u'.isSuperuser == u.isSuperuser
  {
    if |fs| > 0 {
      ProfileUpdateKeepsProtectedFields(u, fs[..|fs| - 1]);
    }
  }

  /** Entries that are all protected leave the user as it was. */
  lemma {:induction false} ProtectedEntriesChangeNothing(u: User, fs: seq<ProfileField>)
    requires forall i | 0 <= i < |fs| :: fs[i].Protected()
    ensures ApplyProfileFields(u, fs) == u
  {
    if |fs| > 0 {
      ProtectedEntriesChangeNothing(u, fs[..|fs| - 1]);
    }
  }

  /** update_profile: write the given entries in order, skipping the protected ones. */
  method UpdateProfile(st: Store, userId: UserId, fields: seq<ProfileField>) returns (r: Result<UserId>)
    requires st.Valid() && userId in st.users
    modifies st
    ensures st.Valid()
    ensures r == Ok(userId)
    ensures st.Snapshot() == old(st.Snapshot()).(
      users := old(st.users)[userId := ApplyProfileFields(old(st.users[userId]), fields)])
  {
    var u := st.users[userId];
    var i := 0;
    while i < |fields|
      invariant 0 <= i <= |fields|
      invariant u == ApplyProfileFields(st.users[userId], fields[..i])
    {
      assert fields[..i + 1][..i] == fields[..i];
      if !fields[i].Protected() {
        u := ApplyProfileField(u, fields[i]);
      }
      i := i + 1;
    }
    assert fields[..i] == fields;
    st.users := st.users[userId := u];
    r := Ok(userId);
  }

  /** change_password: the new password replaces the current one only when the old one matches. */
  method ChangePassword(st: Store, userId: UserId, oldPassword: string, newPassword: string) returns (r: Result<()>)
    requires st.Valid() && userId in st.users
    modifies st
    ensures st.Valid()
    ensures r == (if old(st.users[userId]).password == oldPassword then Ok(()) else Err(ValidationError))
    ensures r.Err? ==> st.Snapshot() == old(st.Snapshot())
    ensures r.Ok? ==> st.Snapshot() == old(st.Snapshot()).(
      users := old(st.users)[userId := old(st.users[userId]).(password := newPassword)])
  {
    var u := st.users[userId];
    if u.password != oldPassword {
      return Err(ValidationError);
    }
    st.users := st.users[userId := u.(password := newPassword)];
    r := Ok(());
  }

  /** delete_account: a user may delete their own account; an organizer may delete any account. */
  method DeleteAccount(st: Store, userId: UserId, requester: UserId) returns (r: Result<()>)
    requires st.Valid() && userId in st.users && requester in st.users
    modifies st
    ensures st.Valid()
    ensures r == (if userId != requester && !old(st.users[requester]).IsOrganizer() then Err(PermissionDenied) else Ok(()))
    ensures r.Err? ==> st.Snapshot() == old(st.Snapshot())
    ensures r.Ok? ==> st.Snapshot() == old(st.Snapshot()).(users := old(st.users) - {userId})
  {
    if userId != requester && !st.users[requester].IsOrganizer() {
      return Err(PermissionDenied);
    }
    st.users := st.users - {userId};
    r := Ok(());
  }

  /** get_users_by_role: the active users with the role. */
  function UsersByRole(users: map<UserId, User>, role: Role): (r: set<UserId>)
    ensures r <= users.Keys
    ensures forall id | id in users :: id in r <==> users[id].role == role && users[id].isActive
  {
    set id | id in users && users[id].role == role && users[id].isActive
  }

  /** get_all_players: the active player-role users. */
  function AllPlayers(users: map<UserId, User>): (r: set<UserId>)
    ensures forall id :: id in r <==> id in users && users[id].IsPlayer() && users[id].isActive
  {
    UsersByRole(users, Player)
  }

  /** get_all_referees: the active referee-role users. */
  function AllReferees(users: map<UserId, User>): (r: set<UserId>)
    ensures forall id :: id in r <==> id in users && users[id].IsReferee() && users[id].isActive
  {
    UsersByRole(users, Referee)
  }

  /**
   * The role queries split the active users: every active user is listed by
   * exactly one of them, and an inactive user by none.
   */
  lemma RoleQueriesPartitionActiveUsers(users: map<UserId, User>)
    ensures UsersByRole(users, Organizer) + UsersByRole(users, Referee) + UsersByRole(users, Player)
          + UsersByRole(users, Spectator) == set id | id in users && users[id].isActive
    ensures forall r1, r2 | r1 != r2 :: UsersByRole(users, r1) * UsersByRole(users, r2) == {}
    ensures AllPlayers(users) * AllReferees(users) == {}
  {
    var active := set id | id in users && users[id].isActive;
    forall id | id in active
      ensures id in UsersByRole(users, users[id].role)
    {
    }
  }
}
