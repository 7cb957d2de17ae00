/** How often one phone code may be compared: five times, except on devices whose
    id the sessions table refuses. */
module AuthDeviceProofs {
  import opened Common
  import opened Text
  import opened RedisTtl
  import opened Accounts
  import opened AuthProtocol
  import opened AuthLoginProofs

  const KEY := MailKey(GuestScope("s"), "e")

  // A client proves an email and signs up on the device, all at time 0, with the
  // same code for the mail and the phone.
  function SignedUp(phone: string, code: string, device: string): Run {
    var sent := Next(Boot, 0, SendEmailOtp("s", Some("e"), code));
    var proven := Next(sent, 0, VerifyEmail("s", Some("e"), code));
    Next(proven, 0, Register(Client, phone, "n", Some("e"), "", "s", device, code))
  }

  // The code's row is the only one, for the only account, untouched so far.
  predicate Waiting(w: World, phone: string, code: string, device: string) {
    && w.db.users == [NewUser(phone, Client, "n", "e", "")]
    && w.db.otps == [NewOtp(0, device, code, OTP_TTL)]
  }

  lemma LettersAreTrimmed()
    ensures TrimSpace("s") == "s" && TrimSpace("n") == "n" && TrimSpace("") == ""
    ensures ByteLen("n") == 1
  {
    assert "n"[1..] == "";
  }

  lemma SubscriberIsValid(phone: string)
    requires Phone.Subscriber(phone)
    ensures Phone.RequireValidPhone(phone) == Some(phone)
  {
    Phone.SubscriberFixed(phone);
  }

  lemma Sends(w: World, code: string)
    requires CountOr0(w.cache.mailRate, KEY, 0) < MAX_OTP_RATE
    ensures Step(w, 0, SendEmailOtp("s", Some("e"), code)) == Perform(w, 0, IssueMail(KEY, code))
  {
    LettersAreTrimmed();
    var c := SendEmailOtp("s", Some("e"), code);
    assert DecideSendEmailOtp(w, 0, c) == Decision(Some(IssueMail(KEY, code)), MailSent(OTP_TTL));
  }

  lemma Proves(w: World, code: string)
    requires Get(w.cache.mailHash, KEY, 0) == Some(code) && ValidateOtp(code)
    ensures Step(w, 0, VerifyEmail("s", Some("e"), code)) == Perform(w, 0, Prove("s", "e"))
  {
    LettersAreTrimmed();
    assert DecideVerifyEmail(w, 0, VerifyEmail("s", Some("e"), code)) == Decision(Some(Prove("s", "e")), MailVerified);
  }

  lemma Registers(w: World, phone: string, code: string, device: string)
    requires Phone.Subscriber(phone) && |device| <= OTP_DEVICE_WIDTH
    requires Get(w.cache.proven, KEY, 0) == Some(true) && w.db.users == []
    requires CountOr0(w.cache.otpRate, PhoneKey(phone, Client), 0) < MAX_OTP_RATE
    ensures Step(w, 0, Register(Client, phone, "n", Some("e"), "", "s", device, code)) ==
            Perform(w, 0, OpenAccount("s", NewUser(phone, Client, "n", "e", ""), device, code))
  {
    LettersAreTrimmed();
    SubscriberIsValid(phone);
    var c := Register(Client, phone, "n", Some("e"), "", "s", device, code);
    assert DecideRegister(w, 0, c) ==
           Decision(Some(OpenAccount("s", NewUser(phone, Client, "n", "e", ""), device, code)), CodeSent(OTP_TTL));
  }

  // The run of those three steps.
  lemma SignUpRuns(phone: string, code: string, device: string, sent: World, proven: World)
    requires sent == Step(EMPTY, 0, SendEmailOtp("s", Some("e"), code))
    requires proven == Step(sent, 0, VerifyEmail("s", Some("e"), code))
    ensures After(SignedUp(phone, code, device)) ==
            Step(proven, 0, Register(Client, phone, "n", Some("e"), "", "s", device, code))
  {
    var r := Next(Boot, 0, SendEmailOtp("s", Some("e"), code));
    assert After(r) == sent;
    assert After(Next(r, 0, VerifyEmail("s", Some("e"), code))) == proven;
  }

  lemma SignUpWorks(phone: string, code: string, device: string)
    requires Phone.Subscriber(phone) && ValidateOtp(code) && |device| <= OTP_DEVICE_WIDTH
    ensures Waiting(After(SignedUp(phone, code, device)), phone, code, device)
    ensures Compares(After(SignedUp(phone, code, device)).log, 0) == 0
  {
    Sends(EMPTY, code);
    var sent := Perform(EMPTY, 0, IssueMail(KEY, code));
    Sent(code);
    Proves(sent, code);
    var proven := Perform(sent, 0, Prove("s", "e"));
    Proven(sent);
    Registers(proven, phone, code, device);
    Opened(proven, phone, code, device);
    SignUpRuns(phone, code, device, sent, proven);
  }

  lemma Sent(code: string)
    ensures var w := Perform(EMPTY, 0, IssueMail(KEY, code));
            Get(w.cache.mailHash, KEY, 0) == Some(code) && w.db == EMPTY.db && w.cache.otpRate == map[]
            && Compares(w.log, 0) == 0
  {
  }

  lemma Proven(w: World)
    ensures var v := Perform(w, 0, Prove("s", "e"));
            Get(v.cache.proven, KEY, 0) == Some(true) && v.db == w.db && v.cache.otpRate == w.cache.otpRate
            && Compares(v.log, 0) == Compares(w.log, 0)
  {
  }

  lemma Opened(w: World, phone: string, code: string, device: string)
    requires w.db == EMPTY.db
    ensures var v := Perform(w, 0, OpenAccount("s", NewUser(phone, Client, "n", "e", ""), device, code));
            Waiting(v, phone, code, device) && Compares(v.log, 0) == Compares(w.log, 0)
  {
  }

  // The right code on a long device changes neither store, and leaves no try.
  lemma PresentingOnce(w: World, phone: string, code: string, device: string)
    requires Phone.Subscriber(phone) && ValidateOtp(code) && OnlyOtpHolds(device)
    requires Waiting(w, phone, code, device)
    ensures Step(w, 0, VerifyOtp(Client, phone, device, code)) == w.(log := Then(w.log, Rebuffed(0)))
  {
    SubscriberIsValid(phone);
    assert HoldsPhone(w.db.users[0], phone, Client);
    assert FindUser(w.db.users, phone, Client) == Some(0);
    assert UnverifiedFor(w.db.otps[0], 0, device);
    assert LatestUnverified(w.db.otps, 0, device) == Some(0);
    assert DecideRow(w, 0, 0, device, code) == Decision(Some(Rebuff(0)), Refused(Internal));
    assert DecideVerifyOtp(w, 0, VerifyOtp(Client, phone, device, code)) == DecideRow(w, 0, 0, device, code);
  }

  lemma RebuffedOnce(w: World, phone: string, code: string, device: string)
    requires Waiting(w, phone, code, device)
    ensures var v := w.(log := Then(w.log, Rebuffed(0)));
            Waiting(v, phone, code, device) && Compares(v.log, 0) == Compares(w.log, 0) + 1
  {
  }

  // After r the row still waits, compared n times.
  predicate Compared(r: Run, phone: string, code: string, device: string, n: nat) {
    Waiting(After(r), phone, code, device) && Compares(After(r).log, 0) == n
  }

  lemma ComparedOnceMore(r: Run, phone: string, code: string, device: string, n: nat) returns (s: Run)
    requires Phone.Subscriber(phone) && ValidateOtp(code) && OnlyOtpHolds(device)
    requires Compared(r, phone, code, device, n)
    ensures Compared(s, phone, code, device, n + 1)
  {
    s := Next(r, 0, VerifyOtp(Client, phone, device, code));
    PresentingOnce(After(r), phone, code, device);
    RebuffedOnce(After(r), phone, code, device);
    assert After(s) == After(r).(log := Then(After(r).log, Rebuffed(0)));
  }

  // The right code can be presented, and is compared, any number of times more.
  lemma {:induction false} ComparedAgain(r: Run, phone: string, code: string, device: string, n: nat, more: nat)
    returns (s: Run)
    requires Phone.Subscriber(phone) && ValidateOtp(code) && OnlyOtpHolds(device)
    requires Compared(r, phone, code, device, n)
    ensures Compared(s, phone, code, device, n + more)
    decreases more
  {
    if more == 0 {
      s := r;
    } else {
      var once := ComparedOnceMore(r, phone, code, device, n);
      s := ComparedAgain(once, phone, code, device, n + 1, more - 1);
    }
  }

  ghost predicate AtMostFive(device: string) {
    forall r: Run, row: nat | row < |After(r).db.otps| && After(r).db.otps[row].device == device ::
      Compares(After(r).log, row) <= MAX_ATTEMPTS
  }

  // A device id an OTP row can hold and VerifyOTP accepts, but no session can hold.
  predicate OnlyOtpHolds(device: string) {
    SESSION_DEVICE_WIDTH < |device| <= OTP_DEVICE_WIDTH && TrimSpace(device) != ""
  }

  /** On such a device one unexpired code is compared any number of times: for
      every n some run compares the one row there is n times. */
  lemma AnyNumberOfCompares(device: string, n: nat) returns (r: Run)
    requires OnlyOtpHolds(device)
    ensures |After(r).db.otps| == 1 && After(r).db.otps[0].device == device && Compares(After(r).log, 0) == n
  {
    var phone, code := Repeat('9', 10), Repeat('1', 6);
    assert TrimSpace(code) == code;
    SignUpWorks(phone, code, device);
    r := ComparedAgain(SignedUp(phone, code, device), phone, code, device, 0, n);
  }

  function Repeat(c: char, n: nat): (s: string)
    ensures |s| == n && forall i | 0 <= i < n :: s[i] == c
  {
    if n == 0 then "" else Repeat(c, n - 1) + [c]
  }

  /** No code sent to a device is ever compared more than five times, in any run,
      iff the device id is not one that only OTP rows hold: 101 to 255 characters,
      not blank. */
  lemma FiveComparesIff(device: string)
    ensures AtMostFive(device) <==> !OnlyOtpHolds(device)
  {
    if OnlyOtpHolds(device) {
      var r := AnyNumberOfCompares(device, MAX_ATTEMPTS + 1);
      assert After(r).db.otps[0].device == device;
    } else {
      forall r: Run, row: nat | row < |After(r).db.otps| && After(r).db.otps[row].device == device
        ensures Compares(After(r).log, row) <= MAX_ATTEMPTS
      {
        RowsAreCounted(r, row);
      }
    }
  }
}
