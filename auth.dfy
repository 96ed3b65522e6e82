/**
 * The account handlers (auth.go) over the in-memory engine: sign-up with an
 * e-mailed one-time code, code verification and re-sending, log-in, the
 * password-reset pair, and the `next` path carried through the OAuth state.
 * Password hashing, token signing and the random codes and ids are
 * parameters; a failed request binding is `Err`.
 */
module Auth {
  import opened Models
  import opened MemoryStore
  import Text
  import Base64Url

  const Minute: int := 60 * 1000000000
  /** Sign-up and re-sent codes live ten minutes; reset tokens an hour. */
  const OtpLifetime: int := 10 * Minute
  const ResetLifetime: int := 60 * Minute

  const ErrSignupBody := "Data signup tidak valid"
  const ErrConfirm := "Konfirmasi password tidak cocok"
  const ErrHash := "hash error"
  const MsgSignedUp := "Akun berhasil dibuat. Silakan verifikasi OTP dari email."
  const ErrLoginBody := "invalid payload"
  const ErrBadCredentials := "Email atau password salah"
  const ErrUnverified := "Email belum terverifikasi. Silakan verifikasi OTP terlebih dahulu."
  const ErrToken := "token error"
  const ErrOtpBody := "Email dan OTP wajib diisi"
  const ErrOtpInvalid := "OTP tidak valid"
  const ErrOtpUser := "User tidak ditemukan"
  const ErrOtpMismatch := "OTP tidak sesuai dengan email"
  const ErrOtpExpired := "OTP sudah kadaluarsa"
  const ErrMarkVerified := "Gagal verifikasi email"
  const MsgOtpVerified := "Email berhasil diverifikasi"
  const ErrResendBody := "Email wajib diisi"
  const MsgResendUnknown := "Jika email terdaftar, OTP baru akan dikirim"
  const MsgAlreadyVerified := "Email sudah terverifikasi"
  const MsgResent := "OTP baru telah dikirim"
  const ErrTokenRequired := "Token required"
  const ErrLinkInvalid := "Token tidak valid atau sudah kadaluarsa"
  const ErrTokenExpired := "Token sudah kadaluarsa"
  const ErrLinkVerify := "Failed to verify email"
  const MsgLinkVerified := "✅ Email berhasil diverifikasi! Silakan login."
  const ErrEmailInvalid := "Email harus valid"
  const MsgResetMaybeSent := "Jika email terdaftar, link reset password akan dikirim"
  const MsgResetSent := "Link reset password telah dikirim ke email Anda"
  const ErrResetBody := "Token dan password baru diperlukan (min 6 karakter)"
  const ErrResetInvalid := "Token tidak valid"
  const ErrResetHash := "Failed to hash password"
  const ErrResetUpdate := "Failed to update password"
  const MsgReset := "✅ Password berhasil direset! Silakan login dengan password baru."

  /** What the log-in answer shows of the account. */
  datatype Profile = Profile(fullName: string, phone: string, email: string, role: string, emailVerified: bool)

  datatype AuthReply =
    | Refused(code: int, error: string)
    | Said(message: string)
    | SignedUp(userId: string, otpExpiresAt: Time)
    | LoggedIn(token: string, profile: Profile)

  // ----- sign-up -----

  datatype SignupReq = SignupReq(fullName: string, phone: string, email: string, password: string,
                                 confirmPassword: string)

  /**
   * Signup as one step: an empty confirmation is not checked; the account is
   * created unverified with role "user" and provider "email", and the code
   * `otp` is stored for it, expiring ten minutes from `now`.
   */
  function SignupStep(s: MemState, body: Result<SignupReq>, hash: Result<string>, id: string, otp: string,
                      now: Time): (MemState, AuthReply)
  {
    if body.Err? then (s, Refused(400, ErrSignupBody))
    else
      var req := body.value;
      if req.confirmPassword != "" && req.password != req.confirmPassword then (s, Refused(400, ErrConfirm))
      else if hash.Err? then (s, Refused(500, ErrHash))
      else if req.email in s.byEmail then (s, Refused(400, ErrEmailTaken))
      else
        var u := User(id, req.fullName, req.phone, req.email, hash.value, "user", "email", "", false, now);
        var created := s.(users := s.users[id := u], byEmail := s.byEmail[req.email := id]);
        var expires := now + OtpLifetime;
        (created.(emailVerifications := created.emailVerifications[otp := Token(otp, id, expires)]),
         SignedUp(id, expires))
  }

  method Signup(st: InMemoryStore, body: Result<SignupReq>, hash: Result<string>, id: string, otp: string,
                now: Time) returns (reply: AuthReply)
    requires st.Valid() && id !in st.users
    modifies st
    ensures st.Valid()
    ensures (st.State(), reply) == SignupStep(old(st.State()), body, hash, id, otp, now)
  {
    if body.Err? {
      return Refused(400, ErrSignupBody);
    }
    var req := body.value;
    if req.confirmPassword != "" && req.password != req.confirmPassword {
      return Refused(400, ErrConfirm);
    }
    if hash.Err? {
      return Refused(500, ErrHash);
    }
    var r := st.CreateUser(req.fullName, req.phone, req.email, hash.value, "user", "email", "", false, id, now);
    match r
    case Err(m) =>
      return Refused(400, m);
    case Ok(u) =>
      var expires := now + OtpLifetime;
      var _ := st.CreateEmailVerification(u.id, otp, expires);
      return SignedUp(u.id, expires);
  }

  /**
   * An account is created exactly when the body binds, a non-empty
   * confirmation matches, hashing works and the email is free; it is then
   * unverified, holds the hash, and its code is the only other change.
   */
  lemma SignupCreatesIff(s: MemState, body: Result<SignupReq>, hash: Result<string>, id: string, otp: string,
                         now: Time)
    ensures var (s', r) := SignupStep(s, body, hash, id, otp, now);
      r.SignedUp? <==>
        body.Ok? && (body.value.confirmPassword == "" || body.value.password == body.value.confirmPassword)
        && hash.Ok? && body.value.email !in s.byEmail
    ensures var (s', r) := SignupStep(s, body, hash, id, otp, now);
      r.SignedUp? ==>
        r == SignedUp(id, now + OtpLifetime)
        && s'.users == s.users[id := User(id, body.value.fullName, body.value.phone, body.value.email, hash.value,
                                          "user", "email", "", false, now)]
        && s'.byEmail == s.byEmail[body.value.email := id]
        && s'.emailVerifications == s.emailVerifications[otp := Token(otp, id, now + OtpLifetime)]
        && s'.passwordResets == s.passwordResets && s'.products == s.products && s'.carts == s.carts
        && s'.orders == s.orders && s'.reviews == s.reviews
    ensures var (s', r) := SignupStep(s, body, hash, id, otp, now);
      r.Refused? ==> s' == s
  {
  }

  /** Sign-up keeps the store's consistency. */
  lemma SignupKeepsConsistent(s: MemState, body: Result<SignupReq>, hash: Result<string>, id: string, otp: string,
                              now: Time)
    requires Consistent(s) && id !in s.users
    ensures Consistent(SignupStep(s, body, hash, id, otp, now).0)
  {
    var s' := SignupStep(s, body, hash, id, otp, now).0;
    if SignupStep(s, body, hash, id, otp, now).1.SignedUp? {
      var e := body.value.email;
      forall u | u in s'.users
        ensures s'.users[u].id == u && s'.users[u].email in s'.byEmail && s'.byEmail[s'.users[u].email] == u
      {
        if u != id {
          assert s.users[u].email != e;
        }
      }
      forall x | x in s'.byEmail
        ensures s'.byEmail[x] in s'.users && s'.users[s'.byEmail[x]].email == x
      {
        if x != e {
          assert s.byEmail[x] != id;
        }
      }
    }
  }

  // ----- log-in -----

  datatype LoginReq = LoginReq(email: string, password: string)

  /** The account registered under an email. */
  function Account(s: MemState, email: string): User
    requires Consistent(s) && email in s.byEmail
  {
    s.users[s.byEmail[email]]
  }

  /**
   * Login: `matches(hash, password)` is the bcrypt comparison and
   * `sign(id, email, isAdmin)` the 24-hour token issuer. Nothing changes in
   * the store.
   */
  function LoginReply(s: MemState, body: Result<LoginReq>, matches: (string, string) -> bool,
                      sign: (string, string, bool) -> Result<string>): AuthReply
    requires Consistent(s)
  {
    if body.Err? then Refused(400, ErrLoginBody)
    else
      var req := body.value;
      if req.email !in s.byEmail || !matches(Account(s, req.email).password, req.password) then
        Refused(401, ErrBadCredentials)
      else
        var u := Account(s, req.email);
        if !u.emailVerified then Refused(403, ErrUnverified)
        else
          var t := sign(u.id, u.email, u.role == "admin");
          if t.Err? then Refused(500, ErrToken)
          else LoggedIn(t.value, Profile(u.fullName, u.phone, u.email, u.role, u.emailVerified))
  }

  method Login(st: InMemoryStore, body: Result<LoginReq>, matches: (string, string) -> bool,
               sign: (string, string, bool) -> Result<string>) returns (reply: AuthReply)
    requires st.Valid()
    ensures reply == LoginReply(st.State(), body, matches, sign)
  {
    if body.Err? {
      return Refused(400, ErrLoginBody);
    }
    var req := body.value;
    var r := st.GetUserByEmail(req.email);
    if r.Err? || !matches(r.value.password, req.password) {
      return Refused(401, ErrBadCredentials);
    }
    var u := r.value;
    ghost var k :| k in st.users && st.users[k] == u;
    assert st.byEmail[req.email] == k;
    if !u.emailVerified {
      return Refused(403, ErrUnverified);
    }
    var t := sign(u.id, u.email, u.role == "admin");
    if t.Err? {
      return Refused(500, ErrToken);
    }
    return LoggedIn(t.value, Profile(u.fullName, u.phone, u.email, u.role, u.emailVerified));
  }

  /**
   * An unknown email and a wrong password get the same answer; a token is
   * issued exactly for a verified account whose password matches, and it is
   * signed with the account's id and email and with admin rights exactly for
   * role "admin".
   */
  lemma LoginOutcomes(s: MemState, body: Result<LoginReq>, matches: (string, string) -> bool,
                      sign: (string, string, bool) -> Result<string>)
    requires Consistent(s)
    ensures body.Ok? && (body.value.email !in s.byEmail
                         || !matches(Account(s, body.value.email).password, body.value.password)) <==>
      LoginReply(s, body, matches, sign) == Refused(401, ErrBadCredentials)
    ensures LoginReply(s, body, matches, sign).LoggedIn? <==>
      body.Ok? && body.value.email in s.byEmail
      && matches(Account(s, body.value.email).password, body.value.password)
      && Account(s, body.value.email).emailVerified
      && var u := Account(s, body.value.email); sign(u.id, u.email, u.role == "admin").Ok?
    ensures LoginReply(s, body, matches, sign).LoggedIn? ==>
      var u := Account(s, body.value.email);
      LoginReply(s, body, matches, sign).token == sign(u.id, u.email, u.role == "admin").value
      && u.email == body.value.email
  {
  }

  // ----- one-time codes -----

  datatype VerifyReq = VerifyReq(email: string, otp: string)

  /**
   * VerifyOTP: the code and the email are trimmed; the code must exist,
   * the email must be registered, the code must belong to that account and
   * must not have expired (`now` equal to the expiry still passes). The
   * account is marked verified and the code deleted.
   */
  function VerifyOtpStep(s: MemState, body: Result<VerifyReq>, now: Time): (MemState, AuthReply)
    requires Consistent(s)
  {
    if body.Err? then (s, Refused(400, ErrOtpBody))
    else
      var code, email := Text.TrimSpace(body.value.otp), Text.TrimSpace(body.value.email);
      if code !in s.emailVerifications then (s, Refused(400, ErrOtpInvalid))
      else if email !in s.byEmail then (s, Refused(400, ErrOtpUser))
      else
        var v, uid := s.emailVerifications[code], s.byEmail[email];
        if v.userId != uid then (s, Refused(400, ErrOtpMismatch))
        else if now > v.expiresAt then (s, Refused(400, ErrOtpExpired))
        else
          var marked := s.(users := s.users[uid := s.users[uid].(emailVerified := true)]);
          (marked.(emailVerifications := marked.emailVerifications - {v.token}), Said(MsgOtpVerified))
  }

  method VerifyOtp(st: InMemoryStore, body: Result<VerifyReq>, now: Time) returns (reply: AuthReply)
    requires st.Valid()
    modifies st
    ensures st.Valid()
    ensures (st.State(), reply) == VerifyOtpStep(old(st.State()), body, now)
  {
    if body.Err? {
      return Refused(400, ErrOtpBody);
    }
    var rv := st.GetEmailVerification(Text.TrimSpace(body.value.otp));
    if rv.Err? {
      return Refused(400, ErrOtpInvalid);
    }
    var v := rv.value;
    var ru := st.GetUserByEmail(Text.TrimSpace(body.value.email));
    if ru.Err? {
      return Refused(400, ErrOtpUser);
    }
    var user := ru.value;
    ghost var k :| k in st.users && st.users[k] == user;
    assert st.byEmail[Text.TrimSpace(body.value.email)] == k;
    if v.userId != user.id {
      return Refused(400, ErrOtpMismatch);
    }
    if now > v.expiresAt {
      return Refused(400, ErrOtpExpired);
    }
    var marked := st.MarkEmailVerified(user.id);
    match marked
    case Fail(_) =>
      return Refused(500, ErrMarkVerified);
    case Pass =>
      var _ := st.DeleteEmailVerification(v.token);
      return Said(MsgOtpVerified);
  }

  /**
   * A code is accepted exactly when it exists, the email is registered, the
   * code is that account's and it has not expired; acceptance verifies the
   * account and removes the code and nothing else.
   */
  lemma OtpAcceptedIff(s: MemState, body: Result<VerifyReq>, now: Time)
    requires Consistent(s)
    ensures var (s', r) := VerifyOtpStep(s, body, now);
      r.Said? <==>
        body.Ok? && var code, email := Text.TrimSpace(body.value.otp), Text.TrimSpace(body.value.email);
        code in s.emailVerifications && email in s.byEmail
        && s.emailVerifications[code].userId == s.byEmail[email] && now <= s.emailVerifications[code].expiresAt
    ensures var (s', r) := VerifyOtpStep(s, body, now);
      r.Said? ==>
        var code, uid := Text.TrimSpace(body.value.otp), s.byEmail[Text.TrimSpace(body.value.email)];
        s'.users == s.users[uid := s.users[uid].(emailVerified := true)]
        && s'.emailVerifications == s.emailVerifications - {code}
        && s'.byEmail == s.byEmail && s'.passwordResets == s.passwordResets
    ensures var (s', r) := VerifyOtpStep(s, body, now);
      r.Refused? ==> s' == s && r.code == 400
  {
  }

  /** A code works once: the same request again is refused as an unknown code. */
  lemma OtpSingleUse(s: MemState, body: Result<VerifyReq>, now: Time, later: Time)
    requires Consistent(s)
    requires VerifyOtpStep(s, body, now).1.Said?
    ensures var s' := VerifyOtpStep(s, body, now).0;
      Consistent(s') && VerifyOtpStep(s', body, later) == (s', Refused(400, ErrOtpInvalid))
  {
    var s' := VerifyOtpStep(s, body, now).0;
    var uid := s.byEmail[Text.TrimSpace(body.value.email)];
    forall x | x in s'.byEmail
      ensures s'.byEmail[x] in s'.users && s'.users[s'.byEmail[x]].email == x
    {
      if s.byEmail[x] == uid {
        assert s'.users[uid].email == s.users[uid].email;
      }
    }
    assert Consistent(s');
  }

  /**
   * Sign-up followed by verification with the mailed code before it expires
   * verifies the new account, after which the right password logs in.
   */
  lemma SignupVerifyLogin(s: MemState, req: SignupReq, hash: string, id: string, otp: string, now: Time,
                          at: Time, matches: (string, string) -> bool, sign: (string, string, bool) -> Result<string>)
    requires Consistent(s) && id !in s.users
    requires SignupStep(s, Ok(req), Ok(hash), id, otp, now).1.SignedUp?
    requires Text.TrimSpace(otp) == otp && Text.TrimSpace(req.email) == req.email && at <= now + OtpLifetime
    requires matches(hash, req.password) && sign(id, req.email, false).Ok?
    ensures var s1 := SignupStep(s, Ok(req), Ok(hash), id, otp, now).0;
      Consistent(s1) && VerifyOtpStep(s1, Ok(VerifyReq(req.email, otp)), at).1 == Said(MsgOtpVerified)
      && var s2 := VerifyOtpStep(s1, Ok(VerifyReq(req.email, otp)), at).0;
      Consistent(s2) && LoginReply(s2, Ok(LoginReq(req.email, req.password)), matches, sign).LoggedIn?
  {
    SignupKeepsConsistent(s, Ok(req), Ok(hash), id, otp, now);
    var s1 := SignupStep(s, Ok(req), Ok(hash), id, otp, now).0;
    assert s1.byEmail[req.email] == id;
    OtpSingleUse(s1, Ok(VerifyReq(req.email, otp)), at, at);
  }

  /**
   * ResendOTP: an unknown email and a verified account get a message and
   * change nothing; otherwise a fresh code is stored for the account. Older
   * codes stay valid.
   */
  function ResendOtpStep(s: MemState, body: Result<string>, otp: string, now: Time): (MemState, AuthReply)
    requires Consistent(s)
  {
    if body.Err? then (s, Refused(400, ErrResendBody))
    else
      var email := Text.TrimSpace(body.value);
      if email !in s.byEmail then (s, Said(MsgResendUnknown))
      else if Account(s, email).emailVerified then (s, Said(MsgAlreadyVerified))
      else
        var uid := Account(s, email).id;
        (s.(emailVerifications := s.emailVerifications[otp := Token(otp, uid, now + OtpLifetime)]), Said(MsgResent))
  }

  method ResendOtp(st: InMemoryStore, body: Result<string>, otp: string, now: Time) returns (reply: AuthReply)
    requires st.Valid()
    modifies st
    ensures st.Valid()
    ensures (st.State(), reply) == ResendOtpStep(old(st.State()), body, otp, now)
  {
    if body.Err? {
      return Refused(400, ErrResendBody);
    }
    var r := st.GetUserByEmail(Text.TrimSpace(body.value));
    if r.Err? {
      return Said(MsgResendUnknown);
    }
    var user := r.value;
    ghost var k :| k in st.users && st.users[k] == user;
    assert st.byEmail[Text.TrimSpace(body.value)] == k;
    if user.emailVerified {
      return Said(MsgAlreadyVerified);
    }
    var _ := st.CreateEmailVerification(user.id, otp, now + OtpLifetime);
    return Said(MsgResent);
  }

  /** A code is stored exactly for a registered, unverified account, and for that account. */
  lemma ResendIff(s: MemState, body: Result<string>, otp: string, now: Time)
    requires Consistent(s)
    ensures var (s', r) := ResendOtpStep(s, body, otp, now);
      (r == Said(MsgResent) <==>
        body.Ok? && Text.TrimSpace(body.value) in s.byEmail && !Account(s, Text.TrimSpace(body.value)).emailVerified)
      && (r == Said(MsgResent) ==>
        s' == s.(emailVerifications := s.emailVerifications[otp :=
          Token(otp, s.byEmail[Text.TrimSpace(body.value)], now + OtpLifetime)]))
      && (r != Said(MsgResent) ==> s' == s)
  {
  }

  // ----- e-mail link -----

  /**
   * VerifyEmail: the query token, untrimmed, must exist and not have
   * expired; its account is marked verified (a vanished account is a 500)
   * and the token deleted.
   */
  function VerifyEmailStep(s: MemState, token: string, now: Time): (MemState, AuthReply)
  {
    if token == "" then (s, Refused(400, ErrTokenRequired))
    else if token !in s.emailVerifications then (s, Refused(400, ErrLinkInvalid))
    else
      var v := s.emailVerifications[token];
      if now > v.expiresAt then (s, Refused(400, ErrTokenExpired))
      else if v.userId !in s.users then (s, Refused(500, ErrLinkVerify))
      else
        var marked := s.(users := s.users[v.userId := s.users[v.userId].(emailVerified := true)]);
        (marked.(emailVerifications := marked.emailVerifications - {token}), Said(MsgLinkVerified))
  }

  method VerifyEmail(st: InMemoryStore, token: string, now: Time) returns (reply: AuthReply)
    requires st.Valid()
    modifies st
    ensures st.Valid()
    ensures (st.State(), reply) == VerifyEmailStep(old(st.State()), token, now)
  {
    if token == "" {
      return Refused(400, ErrTokenRequired);
    }
    var rv := st.GetEmailVerification(token);
    if rv.Err? {
      return Refused(400, ErrLinkInvalid);
    }
    var v := rv.value;
    if now > v.expiresAt {
      return Refused(400, ErrTokenExpired);
    }
    var marked := st.MarkEmailVerified(v.userId);
    if marked.Fail? {
      return Refused(500, ErrLinkVerify);
    }
    var _ := st.DeleteEmailVerification(token);
    return Said(MsgLinkVerified);
  }

  /** The link verifies exactly a live token of an existing account, and is then spent. */
  lemma LinkVerifiesIff(s: MemState, token: string, now: Time, later: Time)
    ensures var (s', r) := VerifyEmailStep(s, token, now);
      (r.Said? <==>
        token in s.emailVerifications && token != "" && now <= s.emailVerifications[token].expiresAt
        && s.emailVerifications[token].userId in s.users)
      && (r.Said? ==> s'.users[s.emailVerifications[token].userId].emailVerified
                      && VerifyEmailStep(s', token, later) == (s', Refused(400, ErrLinkInvalid)))
      && (r.Refused? ==> s' == s)
  {
  }

  // ----- password reset -----

  /**
   * RequestPasswordReset as written: for a registered email a reset token
   * good for an hour is stored; the two 200 answers differ.
   */
  function RequestResetAsWritten(s: MemState, body: Result<string>, token: string, now: Time): (MemState, AuthReply)
    requires Consistent(s)
  {
    if body.Err? then (s, Refused(400, ErrEmailInvalid))
    else if body.value !in s.byEmail then (s, Said(MsgResetMaybeSent))
    else
      (s.(passwordResets := s.passwordResets[token := Token(token, s.byEmail[body.value], now + ResetLifetime)]),
       Said(MsgResetSent))
  }

  /** The answer of the handler as written tells a registered address from an unknown one. */
  lemma ResetRevealsRegistration(s: MemState, email: string, token: string, now: Time)
    requires Consistent(s) && email in s.byEmail
    ensures var unknown := s.(users := map[], byEmail := map[]);
      Consistent(unknown)
      && RequestResetAsWritten(s, Ok(email), token, now).1 != RequestResetAsWritten(unknown, Ok(email), token, now).1
  {
  }

  /**
   * RequestPasswordReset with the answer its own comment asks for: the same
   * message whether or not the address is registered.
   */
  function RequestResetStep(s: MemState, body: Result<string>, token: string, now: Time): (MemState, AuthReply)
    requires Consistent(s)
  {
    if body.Err? then (s, Refused(400, ErrEmailInvalid))
    else if body.value !in s.byEmail then (s, Said(MsgResetMaybeSent))
    else
      (s.(passwordResets := s.passwordResets[token := Token(token, s.byEmail[body.value], now + ResetLifetime)]),
       Said(MsgResetMaybeSent))
  }

  method RequestReset(st: InMemoryStore, body: Result<string>, token: string, now: Time) returns (reply: AuthReply)
    requires st.Valid()
    modifies st
    ensures st.Valid()
    ensures (st.State(), reply) == RequestResetStep(old(st.State()), body, token, now)
  {
    if body.Err? {
      return Refused(400, ErrEmailInvalid);
    }
    var r := st.GetUserByEmail(body.value);
    if r.Err? {
      return Said(MsgResetMaybeSent);
    }
    var u := r.value;
    ghost var k :| k in st.users && st.users[k] == u;
    assert st.byEmail[body.value] == k;
    var _ := st.CreatePasswordReset(u.id, token, now + ResetLifetime);
    return Said(MsgResetMaybeSent);
  }

  /**
   * The answer depends only on whether the body binds; a token is stored,
   * for the address's own account, exactly when the address is registered.
   */
  lemma ResetRequestHidesRegistration(s: MemState, t: MemState, body: Result<string>, token: string, now: Time)
    requires Consistent(s) && Consistent(t)
    ensures RequestResetStep(s, body, token, now).1 == RequestResetStep(t, body, token, now).1
    ensures var s' := RequestResetStep(s, body, token, now).0;
      (s' != s ==> body.Ok? && body.value in s.byEmail)
      && (body.Ok? && body.value in s.byEmail ==>
            s' == s.(passwordResets := s.passwordResets[token := Token(token, s.byEmail[body.value], now + ResetLifetime)]))
  {
  }

  datatype ResetReq = ResetReq(token: string, newPassword: string)

  /**
   * ResetPassword: the token, untrimmed, must exist and not have expired;
   * the new hash replaces the account's password and the token is deleted.
   * A failed update keeps the token.
   */
  function ResetPasswordStep(s: MemState, body: Result<ResetReq>, hash: Result<string>, now: Time): (MemState, AuthReply)
  {
    if body.Err? then (s, Refused(400, ErrResetBody))
    else
      var token := body.value.token;
      if token !in s.passwordResets then (s, Refused(400, ErrResetInvalid))
      else
        var reset := s.passwordResets[token];
        if now > reset.expiresAt then (s, Refused(400, ErrTokenExpired))
        else if hash.Err? then (s, Refused(500, ErrResetHash))
        else if reset.userId !in s.users then (s, Refused(500, ErrResetUpdate))
        else
          var updated := s.(users := s.users[reset.userId := s.users[reset.userId].(password := hash.value)]);
          (updated.(passwordResets := updated.passwordResets - {token}), Said(MsgReset))
  }

  method ResetPassword(st: InMemoryStore, body: Result<ResetReq>, hash: Result<string>, now: Time)
    returns (reply: AuthReply)
    requires st.Valid()
    modifies st
    ensures st.Valid()
    ensures (st.State(), reply) == ResetPasswordStep(old(st.State()), body, hash, now)
  {
    if body.Err? {
      return Refused(400, ErrResetBody);
    }
    var req := body.value;
    var r := st.GetPasswordReset(req.token);
    if r.Err? {
      return Refused(400, ErrResetInvalid);
    }
    var reset := r.value;
    if now > reset.expiresAt {
      return Refused(400, ErrTokenExpired);
    }
    if hash.Err? {
      return Refused(500, ErrResetHash);
    }
    var updated := st.UpdateUserPassword(reset.userId, hash.value);
    if updated.Fail? {
      return Refused(500, ErrResetUpdate);
    }
    var _ := st.DeletePasswordReset(req.token);
    return Said(MsgReset);
  }

  /**
   * A password is replaced exactly for a live token of an existing account
   * with a working hash; then only that password changes and the token is
   * spent, so a second use is refused.
   */
  lemma ResetIff(s: MemState, body: Result<ResetReq>, hash: Result<string>, now: Time, hash2: Result<string>, later: Time)
    ensures var (s', r) := ResetPasswordStep(s, body, hash, now);
      (r.Said? <==>
        body.Ok? && body.value.token in s.passwordResets && now <= s.passwordResets[body.value.token].expiresAt
        && hash.Ok? && s.passwordResets[body.value.token].userId in s.users)
      && (r.Said? ==>
        var uid := s.passwordResets[body.value.token].userId;
        s'.users == s.users[uid := s.users[uid].(password := hash.value)]
        && s'.passwordResets == s.passwordResets - {body.value.token}
        && s'.byEmail == s.byEmail && s'.emailVerifications == s.emailVerifications
        && ResetPasswordStep(s', body, hash2, later) == (s', Refused(400, ErrResetInvalid)))
      && (r.Refused? ==> s' == s)
  {
  }

  // ----- the `next` path in the OAuth state -----

  const DefaultNext := "/products"

  /** sanitizeNext: anything but a path starting with "/" becomes "/products". */
  function SanitizeNext(next: string): string
  {
    if next == "" then DefaultNext
    else if !Text.HasPrefix(next, "/") then DefaultNext
    else next
  }

  /**
   * The result is always a path, sanitising twice is sanitising once, and a
   * path is kept exactly when it starts with "/".
   */
  lemma SanitizeNextPath(next: string)
    ensures var r := SanitizeNext(next);
      |r| > 0 && r[0] == '/' && SanitizeNext(r) == r
    ensures SanitizeNext(next) == next <==> |next| > 0 && next[0] == '/'
  {
  }

  /** strings.SplitN(s, "|", 2) keeps a second part exactly when there is a "|": the text after the first one. */
  function AfterBar(s: string): Option<string>
  {
    if s == [] then None
    else if s[0] == '|' then Some(s[1..])
    else AfterBar(s[1..])
  }

  lemma {:induction false} AfterBarSkips(u: string, rest: string)
    requires forall i :: 0 <= i < |u| ==> u[i] != '|'
    ensures AfterBar(u + "|" + rest) == Some(rest)
  {
    if u != [] {
      assert (u + "|" + rest)[1..] == u[1..] + "|" + rest;
      AfterBarSkips(u[1..], rest);
    } else {
      assert u + "|" + rest == "|" + rest;
    }
  }

  /** encodeState: `nonce` stands for the fresh uuid. */
  function EncodeState(next: string, nonce: string): string
    requires Base64Url.IsBytes(next) && Base64Url.IsBytes(nonce)
  {
    BytesJoin(nonce, SanitizeNext(next));
    Base64Url.Encode(nonce + "|" + SanitizeNext(next))
  }

  lemma BytesJoin(a: string, b: string)
    requires Base64Url.IsBytes(a) && Base64Url.IsBytes(b)
    ensures Base64Url.IsBytes(a + "|" + b)
  {
    var j := a + "|" + b;
    forall i | 0 <= i < |j|
      ensures j[i] as int < 256
    {
      if i < |a| {
        assert j[i] == a[i];
      } else if i > |a| {
        assert j[i] == b[i - |a| - 1];
      }
    }
  }

  /**
   * decodeState: an empty state, one that does not decode and one without
   * a "|" give "/products"; otherwise the part after the first "|",
   * sanitised.
   */
  function DecodeState(state: string): string
  {
    if state == "" then DefaultNext
    else match Base64Url.Decode(state)
      case None => DefaultNext
      case Some(decoded) =>
        match AfterBar(decoded)
        case None => DefaultNext
        case Some(rest) => SanitizeNext(rest)
  }

  /**
   * The state round trip: decoding an encoded state gives the sanitised
   * `next` back, for any nonce without a "|" (a uuid has none).
   */
  lemma StateRoundTrip(next: string, nonce: string)
    requires Base64Url.IsBytes(next) && Base64Url.IsBytes(nonce)
    requires forall i :: 0 <= i < |nonce| ==> nonce[i] != '|'
    ensures DecodeState(EncodeState(next, nonce)) == SanitizeNext(next)
  {
    var plain := nonce + "|" + SanitizeNext(next);
    BytesJoin(nonce, SanitizeNext(next));
    Base64Url.DecodeEncode(plain);
    Base64Url.EncodeAlphabet(plain);
    assert EncodeState(next, nonce) != "" by {
      Base64Url.EncodeNonEmpty(plain);
    }
    AfterBarSkips(nonce, SanitizeNext(next));
    SanitizeNextPath(next);
  }

  /** Whatever state comes back from the provider, the redirect target is a path. */
  lemma DecodeStateIsPath(state: string)
    ensures |DecodeState(state)| > 0 && DecodeState(state)[0] == '/'
  {
    match Base64Url.Decode(state)
    case None =>
    case Some(decoded) =>
      match AfterBar(decoded)
      case None =>
      case Some(rest) => SanitizeNextPath(rest);
  }
}
