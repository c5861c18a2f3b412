/** Sign-up, e-mail verification, login and profile update
    (backend/controller/userController.js) over the `users` table. */
module UserController {
  import opened Common

  /** The OTP stays valid for ten minutes, in milliseconds. */
  const OtpLifetimeMs: int := 10 * 60 * 1000

  /** A row of the `users` table. Text columns a request may leave out are
      optional (an absent value is stored as NULL); times are milliseconds. */
  datatype Account = Account(
    id: nat,
    fullName: Option<string>,
    email: Option<string>,
    passwordHash: string,
    role: Option<string>,
    interest: Option<string>,
    otherInterest: Option<string>,
    otpCode: Option<string>,
    otpExpiresAt: Option<int>,
    isVerified: bool)

  /** The text fields of a registration request. */
  datatype Registration = Registration(
    fullName: Option<string>,
    email: Option<string>,
    role: Option<string>,
    interest: Option<string>,
    otherInterest: Option<string>)

  /** SQL `email = $1`: NULL on either side never matches. */
  predicate SameEmail(column: Option<string>, email: Option<string>) {
    column.Some? && email.Some? && column.value == email.value
  }

  /** A number in [10^k, 10^(k+1)) has k + 1 decimal digits. */
  lemma {:induction false} DecimalLength(n: nat, k: nat)
    requires Pow10(k) <= n < Pow10(k + 1)
    ensures |NatToDecimal(n)| == k + 1
  {
    if k > 0 {
      assert Pow10(k) == 10 * Pow10(k - 1);
      assert Pow10(k - 1) <= n / 10 < Pow10(k);
      DecimalLength(n / 10, k - 1);
    }
  }

  /** `Math.floor(100000 + Math.random() * 900000).toString()`, where `draw`
      is the floor of the random factor times 900000. */
  function Otp(draw: nat): (r: string)
    requires draw < 900000
    ensures |r| == 6 && r[0] != '0'
    ensures forall i :: 0 <= i < |r| ==> '0' <= r[i] <= '9'
    ensures DecimalValue(r) == 100000 + draw
  {
    assert Pow10(5) == 100000 && Pow10(6) == 1000000;
    DecimalLength(100000 + draw, 5);
    DecimalRoundTrip(100000 + draw);
    NatToDecimal(100000 + draw)
  }

  /** Different draws give different codes. */
  lemma OtpInjective(d1: nat, d2: nat)
    requires d1 < 900000 && d2 < 900000
    ensures Otp(d1) == Otp(d2) <==> d1 == d2
  {
  }

  function KeepOnRegister(email: Option<string>): Account -> bool {
    (a: Account) => !(SameEmail(a.email, email) && !a.isVerified)
  }

  /** `DELETE FROM users WHERE email = $1 AND is_verified = FALSE`. */
  function DeleteUnverified(rows: seq<Account>, email: Option<string>): (r: seq<Account>)
    ensures forall a :: a in r <==> a in rows && !(SameEmail(a.email, email) && !a.isVerified)
    ensures IsSubsequence(r, rows)
  {
    FilterIsSubsequence(rows, KeepOnRegister(email));
    Filter(rows, KeepOnRegister(email))
  }

  /** The row that register inserts. */
  function NewAccount(id: nat, req: Registration, passwordHash: string, draw: nat, now: int): (a: Account)
    requires draw < 900000
    ensures a.email == req.email && !a.isVerified
    ensures a.otpCode == Some(Otp(draw)) && a.otpExpiresAt == Some(now + OtpLifetimeMs)
  {
    Account(id, req.fullName, req.email, passwordHash, req.role, req.interest, req.otherInterest,
            Some(Otp(draw)), Some(now + OtpLifetimeMs), false)
  }

  /** `SELECT * FROM users WHERE email = $1` and `rows[0]`. */
  function FirstWithEmail(rows: seq<Account>, email: Option<string>): (r: Option<Account>)
    ensures r.Some? ==> r.value in rows && SameEmail(r.value.email, email)
    ensures r.None? <==> forall a :: a in rows ==> !SameEmail(a.email, email)
  {
    if rows == [] then None
    else if SameEmail(rows[0].email, email) then Some(rows[0])
    else FirstWithEmail(rows[1..], email)
  }

  /** JavaScript `new Date() > user.otp_expires_at`; a NULL expiry compares
      as 0. */
  predicate Expired(expiresAt: Option<int>, now: int) {
    if expiresAt.None? then now > 0 else now > expiresAt.value
  }

  /** The verify check: a user was found, the stored code equals the given
      one, and it has not expired. A NULL code never equals an absent one. */
  predicate OtpAccepted(user: Option<Account>, otp: Option<string>, now: int) {
    user.Some? && user.value.otpCode.Some? && otp == user.value.otpCode
    && !Expired(user.value.otpExpiresAt, now)
  }

  /** `UPDATE users SET is_verified = TRUE, otp_code = NULL,
      otp_expires_at = NULL WHERE email = $1`. */
  function MarkVerified(rows: seq<Account>, email: Option<string>): (r: seq<Account>)
    ensures |r| == |rows|
    ensures forall i :: 0 <= i < |rows| ==>
      r[i] == if SameEmail(rows[i].email, email)
        then rows[i].(isVerified := true, otpCode := None, otpExpiresAt := None)
        else rows[i]
  {
    seq(|rows|, i requires 0 <= i < |rows| =>
      if SameEmail(rows[i].email, email)
      then rows[i].(isVerified := true, otpCode := None, otpExpiresAt := None)
      else rows[i])
  }

  /** The first match after an append is the appended row when no earlier
      row has that e-mail. */
  lemma {:induction false} FirstAfterAppend(rows: seq<Account>, a: Account, email: Option<string>)
    requires forall b :: b in rows ==> !SameEmail(b.email, email)
    requires SameEmail(a.email, email)
    ensures FirstWithEmail(rows + [a], email) == Some(a)
  {
    if rows != [] {
      assert (rows + [a])[1..] == rows[1..] + [a];
      FirstAfterAppend(rows[1..], a, email);
    }
  }

  /** Registering an e-mail that no verified account holds, then verifying
      with the mailed code, succeeds up to ten minutes later and fails after
      that. */
  lemma RegisterThenVerify(rows: seq<Account>, id: nat, req: Registration, passwordHash: string,
                           draw: nat, now: int, later: int)
    requires draw < 900000 && req.email.Some?
    requires forall a :: a in rows && SameEmail(a.email, req.email) ==> !a.isVerified
    ensures var after := DeleteUnverified(rows, req.email) + [NewAccount(id, req, passwordHash, draw, now)];
      OtpAccepted(FirstWithEmail(after, req.email), Some(Otp(draw)), later) <==> later <= now + OtpLifetimeMs
  {
    var kept := DeleteUnverified(rows, req.email);
    FirstAfterAppend(kept, NewAccount(id, req, passwordHash, draw, now), req.email);
  }

  /** A code is accepted at most once: after a successful verify, no code is
      accepted for that e-mail. */
  lemma VerifyConsumesOtp(rows: seq<Account>, email: Option<string>, otp: Option<string>, now: int)
    ensures !OtpAccepted(FirstWithEmail(MarkVerified(rows, email), email), otp, now)
  {
    var after := MarkVerified(rows, email);
    var u := FirstWithEmail(after, email);
    if u.Some? {
      var i :| 0 <= i < |after| && after[i] == u.value;
      assert u.value.otpCode.None?;
    }
  }

  datatype LoginResult = BadCredentials | Unverified | LoggedIn(userId: nat)

  /** login: `compare` is bcrypt's check of a password against a hash. */
  function Login(rows: seq<Account>, email: Option<string>, password: string,
                 compare: (string, string) -> bool): (r: LoginResult)
    ensures r.LoggedIn? <==> (var u := FirstWithEmail(rows, email);
      u.Some? && compare(password, u.value.passwordHash) && u.value.isVerified)
    ensures r.LoggedIn? ==> (var u := FirstWithEmail(rows, email); u.value.id == r.userId)
    ensures r == BadCredentials <==> (var u := FirstWithEmail(rows, email);
      u.None? || !compare(password, u.value.passwordHash))
  {
    var u := FirstWithEmail(rows, email);
    if u.None? || !compare(password, u.value.passwordHash) then BadCredentials
    else if !u.value.isVerified then Unverified
    else LoggedIn(u.value.id)
  }

  /** A freshly registered e-mail cannot log in before it is verified. */
  lemma RegisterBlocksLogin(rows: seq<Account>, id: nat, req: Registration, passwordHash: string,
                            draw: nat, now: int, password: string, compare: (string, string) -> bool)
    requires draw < 900000 && req.email.Some?
    requires forall a :: a in rows && SameEmail(a.email, req.email) ==> !a.isVerified
    ensures !Login(DeleteUnverified(rows, req.email) + [NewAccount(id, req, passwordHash, draw, now)],
                   req.email, password, compare).LoggedIn?
  {
    var kept := DeleteUnverified(rows, req.email);
    FirstAfterAppend(kept, NewAccount(id, req, passwordHash, draw, now), req.email);
  }

  /** The profile fields of updateMe. */
  datatype Profile = Profile(fullName: Option<string>, role: Option<string>,
                             interest: Option<string>, otherInterest: Option<string>)

  /** `UPDATE users SET full_name, role, interest, other_interest WHERE id`. */
  function ApplyProfile(rows: seq<Account>, id: nat, p: Profile): (r: seq<Account>)
    ensures |r| == |rows|
    ensures forall i :: 0 <= i < |rows| && rows[i].id != id ==> r[i] == rows[i]
    ensures forall i :: 0 <= i < |rows| && rows[i].id == id ==>
      r[i].fullName == p.fullName && r[i].role == p.role && r[i].interest == p.interest
      && r[i].otherInterest == p.otherInterest && r[i].id == id && r[i].email == rows[i].email
      && r[i].passwordHash == rows[i].passwordHash && r[i].isVerified == rows[i].isVerified
      && r[i].otpCode == rows[i].otpCode && r[i].otpExpiresAt == rows[i].otpExpiresAt
  {
    seq(|rows|, i requires 0 <= i < |rows| =>
      if rows[i].id == id
      then rows[i].(fullName := p.fullName, role := p.role, interest := p.interest, otherInterest := p.otherInterest)
      else rows[i])
  }

  predicate HasId(rows: seq<Account>, id: nat) {
    exists i :: 0 <= i < |rows| && rows[i].id == id
  }

  predicate IdsBelow(rows: seq<Account>, bound: nat) {
    forall i :: 0 <= i < |rows| ==> rows[i].id < bound
  }

  /** Deleting rows and appending a row with a fresh id keeps ids below the
      next one. */
  lemma RegisterKeepsIds(rows: seq<Account>, email: Option<string>, a: Account, bound: nat)
    requires IdsBelow(rows, bound) && a.id == bound
    ensures IdsBelow(DeleteUnverified(rows, email) + [a], bound + 1)
  {
    var kept := DeleteUnverified(rows, email);
    forall i | 0 <= i < |kept| ensures kept[i].id < bound {
      assert kept[i] in rows;
    }
  }

  class UserStore {
    var rows: seq<Account>
    var nextId: nat

    predicate Valid()
      reads this
    {
      IdsBelow(rows, nextId)
    }

    constructor()
      ensures Valid() && rows == []
    {
      rows := [];
      nextId := 0;
    }

    /** register: `passwordHash` is the bcrypt hash, `draw` the random
      factor, `now` the clock and `mailed` whether sending the code
      succeeded. */
    method Register(req: Registration, passwordHash: string, draw: nat, now: int, mailed: bool)
      returns (code: int)
      requires Valid() && draw < 900000
      modifies this
      ensures Valid()
      ensures rows == DeleteUnverified(old(rows), req.email)
        + [NewAccount(old(nextId), req, passwordHash, draw, now)]
      ensures code == if mailed then 201 else 500
    {
      var a := NewAccount(nextId, req, passwordHash, draw, now);
      RegisterKeepsIds(rows, req.email, a, nextId);
      rows := DeleteUnverified(rows, req.email) + [a];
      nextId := nextId + 1;
      code := if mailed then 201 else 500;
    }

    /** verify. */
    method Verify(email: Option<string>, otp: Option<string>, now: int) returns (code: int)
      requires Valid()
      modifies this
      ensures Valid() && nextId == old(nextId)
      ensures if OtpAccepted(FirstWithEmail(old(rows), email), otp, now)
        then code == 200 && rows == MarkVerified(old(rows), email)
        else code == 400 && rows == old(rows)
    {
      if !OtpAccepted(FirstWithEmail(rows, email), otp, now) {
        return 400;
      }
      rows := MarkVerified(rows, email);
      code := 200;
    }

    /** updateMe for the requester `userId`. */
    method UpdateMe(userId: nat, p: Profile) returns (code: int)
      requires Valid()
      modifies this
      ensures Valid() && nextId == old(nextId)
      ensures if HasId(old(rows), userId)
        then code == 200 && rows == ApplyProfile(old(rows), userId, p)
        else code == 404 && rows == old(rows)
    {
      if !HasId(rows, userId) {
        return 404;
      }
      rows := ApplyProfile(rows, userId, p);
      code := 200;
    }
  }
}
