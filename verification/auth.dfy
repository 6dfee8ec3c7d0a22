/** The mock authentication provider: a session user that `login`, `register`,
    `incrementDonationCount` and `logout` replace, mirrored into the
    `kindcart_user` storage entry. Login consults only a fixed table of three
    accounts with plaintext passwords; registration always succeeds and stores
    nothing but the session user. */
module Auth {
  import opened Wrappers
  import opened Text

  /** `'user' | 'admin'`. */
  datatype Role = Member | Admin

  /** The session user; `avatar` and `donationCount` are optional fields. */
  datatype User = User(
    id: string,
    name: string,
    email: string,
    role: Role,
    avatar: Option<string>,
    donationCount: Option<int>)

  /** A row of the built-in account table, password included. */
  datatype Account = Account(
    id: string,
    name: string,
    email: string,
    role: Role,
    password: string,
    donationCount: int)

  const Accounts: seq<Account> := [
    Account("1", "Admin User", "admin@kindcart.org", Admin, "password123", 0),
    Account("2", "John Doe", "john@example.com", Member, "password123", 0),
    Account("3", "Jane Smith", "jane@example.com", Member, "password123", 0)
  ]

  /** The provider's state: the session user, the loading flag, and the value
      held under the `kindcart_user` storage key. */
  datatype AuthState = AuthState(user: Option<User>, isLoading: bool, stored: Option<User>)

  /** Every transition writes the session user to storage, so the two agree. */
  predicate InSync(st: AuthState)
  {
    st.user == st.stored
  }

  /** What `login` and `register` resolve to, with the state they leave behind. */
  datatype Outcome = Outcome(ok: bool, state: AuthState)

  /** The mount effect: adopt the stored user (if any) and stop loading. */
  function Mount(stored: Option<User>): (st: AuthState)
    ensures st.user == stored && st.stored == stored
    ensures !st.isLoading && InSync(st)
  {
    AuthState(stored, false, stored)
  }

  /** The e-mail as `login` and `register` compare and keep it: trimmed, then lower-cased. */
  function NormalizeEmail(email: string): (r: string)
    ensures |r| <= |email|
    ensures forall i :: 0 <= i < |r| ==> !IsUpper(r[i])
    ensures r == "" <==> AllSpace(email)
  {
    ToLower(Trim(email))
  }

  /** `{ password: _, ...rest }`: the account as a session user, without its password. */
  function PublicView(a: Account): (u: User)
    ensures u.id == a.id && u.name == a.name && u.email == a.email && u.role == a.role
    ensures u.donationCount == Some(a.donationCount) && u.avatar == None
  {
    User(a.id, a.name, a.email, a.role, None, Some(a.donationCount))
  }

  /** `accounts.find(u => u.email.toLowerCase() === email)`, as an index. */
  function Find(accounts: seq<Account>, email: string): (r: Option<nat>)
    ensures r.Some? ==> r.value < |accounts| && ToLower(accounts[r.value].email) == email
    ensures r.Some? ==> forall j :: 0 <= j < r.value ==> ToLower(accounts[j].email) != email
    ensures r.None? ==> forall j :: 0 <= j < |accounts| ==> ToLower(accounts[j].email) != email
  {
    if |accounts| == 0 then None
    else if ToLower(accounts[0].email) == email then Some(0)
    else match Find(accounts[1..], email)
      case None => None
      case Some(k) => Some(k + 1)
  }

  /** The account that `email` designates, if it designates one: the first table
      row whose lower-cased e-mail equals the normalised input. */
  function Lookup(email: string): (r: Option<Account>)
    ensures r.Some? ==> r.value in Accounts && ToLower(r.value.email) == NormalizeEmail(email)
    ensures r.None? ==> forall k :: 0 <= k < |Accounts| ==> ToLower(Accounts[k].email) != NormalizeEmail(email)
  {
    match Find(Accounts, NormalizeEmail(email))
    case None => None
    case Some(k) => Some(Accounts[k])
  }

  /** `login(email, password)`: succeeds exactly when the normalised e-mail names a
      table account whose password equals the trimmed password; then the session
      user is that account without its password. A failure changes nothing but
      the loading flag, which is false whichever way the call ends. */
  function Login(st: AuthState, email: string, password: string): (r: Outcome)
    ensures !r.state.isLoading
    ensures r.ok <==> Lookup(email).Some? && Trim(password) == Lookup(email).value.password
    ensures r.ok ==> r.state.user == Some(PublicView(Lookup(email).value)) && InSync(r.state)
    ensures !r.ok ==> r.state.user == st.user && r.state.stored == st.stored
  {
    match Lookup(email)
    case Some(a) =>
      if Trim(password) == a.password then
        var u := PublicView(a);
        Outcome(true, AuthState(Some(u), false, Some(u)))
      else
        Outcome(false, st.(isLoading := false))
    case None =>
      Outcome(false, st.(isLoading := false))
  }

  /** `register(name, email, password)`: always resolves to true and starts a
      session for a fresh member with the trimmed name, the normalised e-mail and
      a zero donation count. The password is dropped. */
  function Register(st: AuthState, name: string, email: string, password: string, id: string): (r: Outcome)
    ensures r.ok && !r.state.isLoading && InSync(r.state)
    ensures r.state.user.Some?
    ensures r.state.user.value.id == id
    ensures r.state.user.value.name == Trim(name)
    ensures r.state.user.value.email == NormalizeEmail(email)
    ensures r.state.user.value.role == Member
    ensures r.state.user.value.donationCount == Some(0)
    ensures r.state.user.value.avatar == None
  {
    var u := User(id, Trim(name), ToLower(Trim(email)), Member, None, Some(0));
    Outcome(true, AuthState(Some(u), false, Some(u)))
  }

  /** `incrementDonationCount()`: one more donation on the session user, an absent
      count read as zero; no other field moves, and logged out it does nothing. */
  function IncrementDonationCount(st: AuthState): (r: AuthState)
    ensures st.user.None? ==> r == st
    ensures st.user.Some? ==> r.user.Some? && InSync(r) && r.isLoading == st.isLoading
    ensures st.user.Some? ==>
      r.user.value.donationCount == Some(st.user.value.donationCount.GetOr(0) + 1)
    ensures st.user.Some? ==>
      r.user.value.(donationCount := st.user.value.donationCount) == st.user.value
  {
    match st.user
    case None => st
    case Some(u) =>
      var u' := u.(donationCount := Some(u.donationCount.GetOr(0) + 1));
      st.(user := Some(u'), stored := Some(u'))
  }

  /** `logout()`: no session user and no stored user; the loading flag is untouched. */
  function Logout(st: AuthState): (r: AuthState)
    ensures r.user.None? && InSync(r)
    ensures r.isLoading == st.isLoading
  {
    st.(user := None, stored := None)
  }

  lemma LogoutIdempotent(st: AuthState)
    ensures Logout(Logout(st)) == Logout(st)
  {
  }

  /** Every transition keeps the session user and its stored copy in agreement. */
  lemma TransitionsKeepInSync(st: AuthState, name: string, email: string, password: string, id: string)
    requires InSync(st)
    ensures InSync(Login(st, email, password).state)
    ensures InSync(Register(st, name, email, password, id).state)
    ensures InSync(IncrementDonationCount(st))
    ensures InSync(Logout(st))
  {
  }

  /** The table's e-mails are already lower case, so the normalised input must
      equal one of them exactly. */
  lemma AccountEmailsLower()
    ensures forall k :: 0 <= k < |Accounts| ==> ToLower(Accounts[k].email) == Accounts[k].email
  {
    ToLowerOfLower(Accounts[0].email);
    ToLowerOfLower(Accounts[1].email);
    ToLowerOfLower(Accounts[2].email);
  }

  /** The table's three rows, as far as logging in is concerned. */
  lemma TableRows()
    ensures |Accounts| == 3
    ensures Accounts[0].email == "admin@kindcart.org"
    ensures Accounts[1].email == "john@example.com"
    ensures Accounts[2].email == "jane@example.com"
    ensures forall k :: 0 <= k < |Accounts| ==> Accounts[k].password == "password123"
  {
  }

  /** Lookup against the table written out: it finds an account exactly for the
      three table e-mails, and every account it finds has the shared password. */
  lemma LookupTable(email: string)
    ensures Lookup(email).Some? <==>
      NormalizeEmail(email) in {"admin@kindcart.org", "john@example.com", "jane@example.com"}
    ensures Lookup(email).Some? ==> Lookup(email).value.password == "password123"
  {
    AccountEmailsLower();
    TableRows();
    var e := NormalizeEmail(email);
    match Lookup(email)
    case Some(a) =>
      assert a == Accounts[0] || a == Accounts[1] || a == Accounts[2];
    case None =>
      assert e != Accounts[0].email && e != Accounts[1].email && e != Accounts[2].email;
  }

  /** Login against the table written out: one of three e-mails and the shared
      password `password123`, after trimming (and lower-casing the e-mail). */
  lemma LoginTable(st: AuthState, email: string, password: string)
    ensures Login(st, email, password).ok <==>
      && NormalizeEmail(email) in {"admin@kindcart.org", "john@example.com", "jane@example.com"}
      && Trim(password) == "password123"
  {
    LookupTable(email);
  }

  /** Whether login succeeds never depends on the current session, so a user
      created by `register` cannot log in unless the table already knows them. */
  lemma LoginIgnoresSession(st1: AuthState, st2: AuthState, email: string, password: string)
    ensures Login(st1, email, password).ok == Login(st2, email, password).ok
  {
  }

  /** Registering does not add an account: logging in straight afterwards with the
      same e-mail and password succeeds exactly when it would have before. */
  lemma RegisterThenLogin(st: AuthState, name: string, email: string, password: string, id: string)
    ensures Login(Register(st, name, email, password, id).state, email, password).ok
      == Login(st, email, password).ok
  {
    LoginIgnoresSession(Register(st, name, email, password, id).state, st, email, password);
  }

  /** Registration neither checks for an existing user nor keeps the password:
      its outcome depends on name, e-mail and id alone. */
  lemma RegisterIgnoresStateAndPassword(st1: AuthState, st2: AuthState, name: string, email: string,
                                        p1: string, p2: string, id: string)
    ensures Register(st1, name, email, p1, id) == Register(st2, name, email, p2, id)
  {
  }

  /** White space around the e-mail or the password does not change the login. */
  lemma LoginIgnoresPadding(st: AuthState, w1: string, email: string, w2: string,
                            w3: string, password: string, w4: string)
    requires AllSpace(w1) && AllSpace(w2) && AllSpace(w3) && AllSpace(w4)
    ensures Login(st, w1 + email + w2, w3 + password + w4) == Login(st, email, password)
  {
    TrimIgnoresPadding(w1, email, w2);
    TrimIgnoresPadding(w3, password, w4);
    LoginDependsOnNormalized(st, w1 + email + w2, w3 + password + w4, email, password);
  }

  /** Letter case in the e-mail does not change the login. */
  lemma LoginIgnoresEmailCase(st: AuthState, e1: string, e2: string, password: string)
    requires ToLower(e1) == ToLower(e2)
    ensures Login(st, e1, password) == Login(st, e2, password)
  {
    NormalizeIsLowerTrim(e1);
    NormalizeIsLowerTrim(e2);
    LoginDependsOnNormalized(st, e1, password, e2, password);
  }

  /** Login sees the e-mail only through its normalised form and the password only
      through its trimmed form. */
  lemma LoginDependsOnNormalized(st: AuthState, e1: string, p1: string, e2: string, p2: string)
    requires NormalizeEmail(e1) == NormalizeEmail(e2) && Trim(p1) == Trim(p2)
    ensures Login(st, e1, p1) == Login(st, e2, p2)
  {
    assert Lookup(e1) == Lookup(e2);
  }

  /** Normalising trims and lower-cases, in either order. */
  lemma NormalizeIsLowerTrim(email: string)
    ensures NormalizeEmail(email) == Trim(ToLower(email))
  {
    TrimToLower(email);
  }

  /** Lower-casing and trimming commute, since no white space is a letter. */
  lemma TrimToLower(s: string)
    ensures ToLower(Trim(s)) == Trim(ToLower(s))
  {
    TrimStartToLower(s);
    TrimEndToLower(TrimStart(s));
  }

  lemma {:induction false} TrimStartToLower(s: string)
    ensures ToLower(TrimStart(s)) == TrimStart(ToLower(s))
    decreases |s|
  {
    if |s| > 0 {
      assert ToLower(s)[1..] == ToLower(s[1..]);
      TrimStartToLower(s[1..]);
    }
  }

  lemma {:induction false} TrimEndToLower(s: string)
    ensures ToLower(TrimEnd(s)) == TrimEnd(ToLower(s))
    decreases |s|
  {
    if |s| > 0 {
      assert ToLower(s)[..|s| - 1] == ToLower(s[..|s| - 1]);
      TrimEndToLower(s[..|s| - 1]);
    }
  }

  /** A freshly registered member who donates once reads as a single donation,
      and keeps the id, name and e-mail registration gave them. */
  lemma RegisterThenIncrement(st: AuthState, name: string, email: string, password: string, id: string)
    ensures var u := IncrementDonationCount(Register(st, name, email, password, id).state).user;
      && u.Some? && u.value.donationCount == Some(1)
      && u.value.id == id && u.value.name == Trim(name) && u.value.email == NormalizeEmail(email)
  {
    var r := Register(st, name, email, password, id).state;
    IncrementFromZero(r);
  }

  /** One increment on a session user whose count is zero gives a count of one. */
  lemma IncrementFromZero(st: AuthState)
    requires st.user.Some? && st.user.value.donationCount == Some(0)
    ensures var u := IncrementDonationCount(st).user;
      && u.Some? && u.value.donationCount == Some(1)
      && u.value.id == st.user.value.id && u.value.name == st.user.value.name
      && u.value.email == st.user.value.email
  {
  }

  /** A padded, mixed-case e-mail is stored trimmed and in lower case. */
  lemma NormalizeExample(email: string)
    requires email == "JANE@EX.com "
    ensures NormalizeEmail(email) == "jane@ex.com"
  {
    TrimExample(email);
    LowerExample("JANE@EX.com");
  }

  lemma TrimExample(email: string)
    requires email == "JANE@EX.com "
    ensures Trim(email) == "JANE@EX.com"
  {
    var t := "JANE@EX.com";
    assert email == "" + t + " ";
    TrimCharacterised("", t, " ");
  }

  lemma LowerExample(s: string)
    requires s == "JANE@EX.com"
    ensures ToLower(s) == "jane@ex.com"
  {
  }


}
