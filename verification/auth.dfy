/**
  `AuthService`: sign-up, login, password change and soft delete over the
  users table. The table is the sequence of its rows in storage order (the
  first row a query returns is the first matching row). A bcrypt hash keeps
  only what the password's verification depends on: passlib's bcrypt
  hashes the first 72 bytes of the UTF-8 encoded password and ignores the
  rest, so a password verifies against a hash exactly when its first 72
  bytes are those the hash was made from.
 */
module Auth {
  import opened Wrappers
  import Text
  import Utf8
  import Validators

  /** bcrypt reads at most this many bytes of a password. */
  const BcryptKeyBytes: nat := 72

  /** The part of a password bcrypt hashes: its first 72 UTF-8 bytes. */
  function BcryptKey(p: string): (k: seq<nat>)
    ensures |k| <= BcryptKeyBytes
    ensures k <= Utf8.Encode(p)
    ensures |k| == BcryptKeyBytes || k == Utf8.Encode(p)
  {
    var b := Utf8.Encode(p);
    if |b| <= BcryptKeyBytes then b else b[..BcryptKeyBytes]
  }

  /** The salt is left out: it changes the hash text but not which passwords verify. */
  datatype PasswordHash = Hashed(key: seq<nat>)

  /** `SecurityManager.hash_password`. */
  function HashPassword(p: string): PasswordHash {
    Hashed(BcryptKey(p))
  }

  /** `SecurityManager.verify_password`. */
  predicate VerifyPassword(p: string, h: PasswordHash) {
    BcryptKey(p) == h.key
  }

  /** A password verifies against its own hash. Among passwords of at most
      72 bytes, no other password verifies against it. */
  lemma VerifyMatchesHash(p: string, q: string)
    ensures VerifyPassword(p, HashPassword(p))
    ensures |Utf8.Encode(p)| <= BcryptKeyBytes && |Utf8.Encode(q)| <= BcryptKeyBytes
      ==> (VerifyPassword(q, HashPassword(p)) <==> q == p)
  {
    if |Utf8.Encode(p)| <= BcryptKeyBytes && |Utf8.Encode(q)| <= BcryptKeyBytes && VerifyPassword(q, HashPassword(p)) {
      Utf8.EncodeInjective(q, p);
    }
  }

  /** Whatever follows the first 72 bytes of a password is ignored: a longer
      password verifies against the hash of its 72-byte beginning. */
  lemma TruncatedTailIgnored(p: string, tail: string)
    requires |Utf8.Encode(p)| >= BcryptKeyBytes
    ensures VerifyPassword(p + tail, HashPassword(p))
    ensures |tail| > 0 ==> p + tail != p
  {
    Utf8.EncodeAppend(p, tail);
    var b := Utf8.Encode(p + tail);
    assert b[..BcryptKeyBytes] == Utf8.Encode(p)[..BcryptKeyBytes];
    assert |p + tail| == |p| + |tail|;
  }

  datatype User = User(
    id: nat,
    username: string,
    email: string,
    passwordHash: PasswordHash,
    fullName: string,
    isActive: bool,
    lastLogin: Option<int>)

  /** The user as `login` returns it: every column but the password hash. */
  datatype UserView = UserView(id: nat, username: string, email: string, fullName: string, isActive: bool, lastLogin: Option<int>)

  function View(u: User): UserView {
    UserView(u.id, u.username, u.email, u.fullName, u.isActive, u.lastLogin)
  }

  type Table = seq<User>

  /** Column widths of the users table: an insert of a longer value raises. */
  const UsernameWidth: nat := 50
  const EmailWidth: nat := 100
  const FullNameWidth: nat := 100

  /** The table's key and unique constraints: ids, usernames and emails are each distinct. */
  predicate WellFormed(t: Table) {
    forall i, j :: 0 <= i < j < |t| ==> t[i].id != t[j].id && t[i].username != t[j].username && t[i].email != t[j].email
  }

  /** `_validate_signup_input`: username, then email, then password, then a
      full name of at least two characters once stripped. */
  function ValidateSignupInput(username: string, email: string, password: string, fullName: string): (ok: bool)
    ensures ok ==> 3 <= |username| <= 20 && |password| >= 8 && |fullName| >= 2
    ensures ok ==> Validators.HasUpper(password) && Validators.HasLower(password) && Validators.HasDigit(password) && Validators.HasSpecial(password)
    ensures ok ==> forall i :: 0 <= i < |username| ==> Validators.IsUsernameChar(username[i])
    ensures ok <==> (
      && Validators.ValidateUsername(username).isValid
      && Validators.ValidateEmail(email)
      && Validators.ValidatePassword(password).isValid
      && |Text.Strip(fullName)| >= 2)
  {
    Validators.UsernameVerdict(username);
    Validators.PasswordVerdict(password);
    Validators.ValidateUsername(username).isValid
      && Validators.ValidateEmail(email)
      && Validators.ValidatePassword(password).isValid
      && |Text.Strip(fullName)| >= 2
  }

  /** Whether some row, active or not, has this username or this email. */
  predicate Taken(t: Table, username: string, email: string) {
    exists i :: 0 <= i < |t| && (t[i].username == username || t[i].email == email)
  }

  /** `_check_duplicate_user`: counts matching rows; a failing lookup counts as a duplicate. */
  function CheckDuplicate(t: Table, username: string, email: string, lookupRaises: bool): (dup: bool)
    ensures dup <==> lookupRaises || Taken(t, username, email)
  {
    lookupRaises || MatchCount(t, username, email) > 0
  }

  /** `SELECT COUNT(*) ... WHERE username = %s OR email = %s`. */
  function MatchCount(t: Table, username: string, email: string): (n: nat)
    ensures n > 0 <==> Taken(t, username, email)
    ensures n <= |t|
  {
    if |t| == 0 then 0
    else
      assert forall i :: 0 <= i < |t| - 1 ==> t[1..][i] == t[i + 1];
      (if t[0].username == username || t[0].email == email then 1 else 0) + MatchCount(t[1..], username, email)
  }

  /** The id the `SERIAL` key assigns: above every id in the table. */
  function FreshId(t: Table): (id: nat)
    ensures forall i :: 0 <= i < |t| ==> t[i].id < id
  {
    if |t| == 0 then 1
    else
      var rest := FreshId(t[1..]);
      assert forall i :: 1 <= i < |t| ==> t[i] == t[1..][i - 1];
      if t[0].id < rest then rest else t[0].id + 1
  }

  /** Whether the row fits the column widths. */
  predicate FitsColumns(username: string, email: string, fullName: string) {
    |username| <= UsernameWidth && |email| <= EmailWidth && |fullName| <= FullNameWidth
  }

  datatype SignupResult = SignupResult(affectedRows: Option<nat>, table: Table)

  /** `signup`. The insert is not a `SELECT`, so the database layer answers
      with the affected-row count, which is what a successful sign-up returns. */
  function Signup(t: Table, username: string, email: string, password: string, fullName: string, lookupRaises: bool): (r: SignupResult)
    ensures r.affectedRows.Some? <==>
      ValidateSignupInput(username, email, password, fullName)
      && !lookupRaises && !Taken(t, username, email)
      && FitsColumns(username, email, fullName)
    ensures r.affectedRows.None? ==> r.table == t
    ensures r.affectedRows.Some? ==> (
      && r.affectedRows.value == 1
      && |r.table| == |t| + 1 && r.table[..|t|] == t
      && r.table[|t|] == User(FreshId(t), username, email, HashPassword(password), fullName, true, None))
  {
    if !ValidateSignupInput(username, email, password, fullName) then SignupResult(None, t)
    else if CheckDuplicate(t, username, email, lookupRaises) then SignupResult(None, t)
    else if !FitsColumns(username, email, fullName) then SignupResult(None, t)
    else
      var row := User(FreshId(t), username, email, HashPassword(password), fullName, true, None);
      assert (t + [row])[..|t|] == t;
      SignupResult(Some(1), t + [row])
  }

  /** Validation comes first: input it rejects is refused whatever the table
      holds and whether or not the duplicate lookup would fail. */
  lemma ValidationPrecedesLookup(t: Table, u: Table, username: string, email: string, password: string, fullName: string, raises: bool)
    requires !ValidateSignupInput(username, email, password, fullName)
    ensures Signup(t, username, email, password, fullName, raises) == SignupResult(None, t)
    ensures Signup(u, username, email, password, fullName, !raises).affectedRows.None?
  {
  }

  /** Sign-up keeps ids, usernames and emails distinct. */
  lemma SignupPreservesWellFormed(t: Table, username: string, email: string, password: string, fullName: string, raises: bool)
    requires WellFormed(t)
    ensures WellFormed(Signup(t, username, email, password, fullName, raises).table)
  {
    var r := Signup(t, username, email, password, fullName, raises);
    if r.affectedRows.Some? {
      assert r.table == t + [r.table[|t|]];
      AppendDistinctRow(t, r.table[|t|]);
    }
  }

  /** A row whose id is above every id and whose username and email are not taken keeps the table well-formed. */
  lemma AppendDistinctRow(t: Table, row: User)
    requires WellFormed(t)
    requires forall i :: 0 <= i < |t| ==> t[i].id < row.id
    requires !Taken(t, row.username, row.email)
    ensures WellFormed(t + [row])
  {
    var u := t + [row];
    forall i, j | 0 <= i < j < |u|
      ensures u[i].id != u[j].id && u[i].username != u[j].username && u[i].email != u[j].email
    {
      assert u[i] == t[i];
      if j < |t| {
        assert u[j] == t[j];
      } else {
        assert u[j] == row;
      }
    }
  }

  /** The index of the first active row with this email: `result[0]` of the login query. */
  function FirstActiveWithEmail(t: Table, email: string): (r: Option<nat>)
    ensures r.Some? ==> r.value < |t| && t[r.value].email == email && t[r.value].isActive
    ensures r.Some? ==> forall j :: 0 <= j < r.value ==> !(t[j].email == email && t[j].isActive)
    ensures r.None? ==> forall j :: 0 <= j < |t| ==> !(t[j].email == email && t[j].isActive)
  {
    if |t| == 0 then None
    else if t[0].email == email && t[0].isActive then Some(0)
    else
      match FirstActiveWithEmail(t[1..], email)
      case None =>
        assert forall j :: 1 <= j < |t| ==> t[j] == t[1..][j - 1];
        None
      case Some(k) =>
        assert forall j :: 1 <= j <= k + 1 ==> t[j] == t[1..][j - 1];
        Some(k + 1)
  }

  /** `_update_last_login`: stamps every row with this id. */
  function StampLogin(t: Table, id: nat, now: int): (r: Table)
    ensures |r| == |t|
    ensures forall i :: 0 <= i < |t| ==> r[i] == if t[i].id == id then t[i].(lastLogin := Some(now)) else t[i]
  {
    seq(|t|, i requires 0 <= i < |t| => if t[i].id == id then t[i].(lastLogin := Some(now)) else t[i])
  }

  datatype LoginResult = LoginResult(user: Option<UserView>, table: Table)

  /** `login`: a well-formed email, the first active row with it, a verifying
      password; the row's login time is stamped and the row, as it was read
      and without its hash, is returned. */
  function Login(t: Table, email: string, password: string, now: int): (r: LoginResult)
    ensures !Validators.ValidateEmail(email) ==> r == LoginResult(None, t)
    ensures r.user.None? ==> r.table == t
    ensures r.user.Some? <==> (
      && Validators.ValidateEmail(email)
      && FirstActiveWithEmail(t, email).Some?
      && VerifyPassword(password, t[FirstActiveWithEmail(t, email).value].passwordHash))
    ensures r.user.Some? ==> var i := FirstActiveWithEmail(t, email).value;
      r.user.value == View(t[i]) && r.table == StampLogin(t, t[i].id, now)
  {
    if !Validators.ValidateEmail(email) then LoginResult(None, t)
    else match FirstActiveWithEmail(t, email)
      case None => LoginResult(None, t)
      case Some(i) =>
        if !VerifyPassword(password, t[i].passwordHash) then LoginResult(None, t)
        else LoginResult(Some(View(t[i])), StampLogin(t, t[i].id, now))
  }

  /** In a well-formed table, login succeeds exactly for a well-formed email
      whose row is active and whose hash the password verifies. */
  lemma LoginIffActiveAndVerified(t: Table, email: string, password: string, now: int)
    requires WellFormed(t)
    ensures Login(t, email, password, now).user.Some? <==>
      Validators.ValidateEmail(email)
      && exists i :: 0 <= i < |t| && t[i].email == email && t[i].isActive && VerifyPassword(password, t[i].passwordHash)
  {
    if Validators.ValidateEmail(email) && exists i :: 0 <= i < |t| && t[i].email == email && t[i].isActive && VerifyPassword(password, t[i].passwordHash) {
      var i :| 0 <= i < |t| && t[i].email == email && t[i].isActive && VerifyPassword(password, t[i].passwordHash);
      var k := FirstActiveWithEmail(t, email);
      assert k.Some?;
      assert k.value == i;
    }
  }

  /** After a sign-up, the new user can log in with the chosen password. */
  lemma SignupThenLogin(t: Table, username: string, email: string, password: string, fullName: string, now: int)
    requires WellFormed(t)
    requires ValidateSignupInput(username, email, password, fullName)
    requires !Taken(t, username, email) && FitsColumns(username, email, fullName)
    ensures var t' := Signup(t, username, email, password, fullName, false).table;
      Login(t', email, password, now).user == Some(UserView(FreshId(t), username, email, fullName, true, None))
  {
    var t' := Signup(t, username, email, password, fullName, false).table;
    forall j | 0 <= j < |t| ensures t'[j].email != email {
      assert t'[j] == t'[..|t|][j];
    }
    var k := FirstActiveWithEmail(t', email);
    assert k.Some? && k.value == |t|;
  }

  /** `change_password`: the row with this id (active or not), a verifying
      current password and a valid new password; then every row with the id
      gets the new hash. */
  function ChangePassword(t: Table, id: nat, current: string, newPassword: string): (r: (bool, Table))
    ensures !r.0 ==> r.1 == t
    ensures r.0 <==> (exists i :: (
      && 0 <= i < |t| && t[i].id == id
      && (forall j :: 0 <= j < i ==> t[j].id != id)
      && VerifyPassword(current, t[i].passwordHash)
      && Validators.ValidatePassword(newPassword).isValid))
    ensures r.0 ==> |r.1| == |t| && forall i :: 0 <= i < |t| ==>
      r.1[i] == if t[i].id == id then t[i].(passwordHash := HashPassword(newPassword)) else t[i]
  {
    match FirstWithId(t, id)
    case None => (false, t)
    case Some(i) =>
      assert forall k :: 0 <= k < |t| && t[k].id == id && k != i ==> k > i;
      if !VerifyPassword(current, t[i].passwordHash) then (false, t)
      else if !Validators.ValidatePassword(newPassword).isValid then (false, t)
      else (true, seq(|t|, j requires 0 <= j < |t| => if t[j].id == id then t[j].(passwordHash := HashPassword(newPassword)) else t[j]))
  }

  /** The index of the first row with this id, whatever its active flag. */
  function FirstWithId(t: Table, id: nat): (r: Option<nat>)
    ensures r.Some? ==> r.value < |t| && t[r.value].id == id && forall j :: 0 <= j < r.value ==> t[j].id != id
    ensures r.None? ==> forall j :: 0 <= j < |t| ==> t[j].id != id
  {
    if |t| == 0 then None
    else if t[0].id == id then Some(0)
    else
      match FirstWithId(t[1..], id)
      case None =>
        assert forall j :: 1 <= j < |t| ==> t[j] == t[1..][j - 1];
        None
      case Some(k) =>
        assert forall j :: 1 <= j <= k + 1 ==> t[j] == t[1..][j - 1];
        Some(k + 1)
  }

  /** After a password change the new password logs in. The old one logs in
      exactly when bcrypt cannot tell it from the new one, i.e. when their
      first 72 bytes agree. */
  lemma ChangedPasswordLogsIn(t: Table, i: nat, current: string, newPassword: string, now: int)
    requires WellFormed(t) && i < |t| && t[i].isActive
    requires ChangePassword(t, t[i].id, current, newPassword).0
    ensures var t' := ChangePassword(t, t[i].id, current, newPassword).1;
      && Login(t', t[i].email, newPassword, now).user.Some? == Validators.ValidateEmail(t[i].email)
      && (BcryptKey(current) != BcryptKey(newPassword) ==> Login(t', t[i].email, current, now).user.None?)
      && (BcryptKey(current) == BcryptKey(newPassword)
          ==> Login(t', t[i].email, current, now).user.Some? == Validators.ValidateEmail(t[i].email))
  {
    var t' := ChangePassword(t, t[i].id, current, newPassword).1;
    assert WellFormed(t') by {
      forall a, b | 0 <= a < b < |t'| ensures t'[a].id != t'[b].id && t'[a].username != t'[b].username && t'[a].email != t'[b].email {
        assert t'[a].id == t[a].id && t'[a].username == t[a].username && t'[a].email == t[a].email;
        assert t'[b].id == t[b].id && t'[b].username == t[b].username && t'[b].email == t[b].email;
      }
    }
    assert t'[i].email == t[i].email && t'[i].isActive && t'[i].passwordHash == HashPassword(newPassword);
    LoginIffActiveAndVerified(t', t[i].email, newPassword, now);
    LoginIffActiveAndVerified(t', t[i].email, current, now);
    forall j | 0 <= j < |t'| && t'[j].email == t[i].email ensures j == i {
      assert t'[j].email == t[j].email;
    }
  }

  /** `delete_account`: deactivates every row with this id and reports
      whether the update touched any row. */
  function DeleteAccount(t: Table, id: nat): (r: (bool, Table))
    ensures r.0 <==> exists i :: 0 <= i < |t| && t[i].id == id
    ensures |r.1| == |t|
    ensures forall i :: 0 <= i < |t| ==> r.1[i] == if t[i].id == id then t[i].(isActive := false) else t[i]
  {
    var affected := MatchingIds(t, id);
    (affected > 0, seq(|t|, i requires 0 <= i < |t| => if t[i].id == id then t[i].(isActive := false) else t[i]))
  }

  /** The affected-row count of `UPDATE ... WHERE id = %s`. */
  function MatchingIds(t: Table, id: nat): (n: nat)
    ensures n > 0 <==> exists i :: 0 <= i < |t| && t[i].id == id
  {
    if |t| == 0 then 0
    else
      assert forall i :: 1 <= i < |t| ==> t[i] == t[1..][i - 1];
      (if t[0].id == id then 1 else 0) + MatchingIds(t[1..], id)
  }

  /** Once an account is deleted, no password logs in with its email. */
  lemma DeletedUserCannotLogin(t: Table, i: nat, password: string, now: int)
    requires WellFormed(t) && i < |t|
    ensures Login(DeleteAccount(t, t[i].id).1, t[i].email, password, now).user.None?
  {
    var t' := DeleteAccount(t, t[i].id).1;
    forall j | 0 <= j < |t'| ensures !(t'[j].email == t[i].email && t'[j].isActive) {
      if j != i {
        assert t'[j].email == t[j].email;
      }
    }
  }
}
