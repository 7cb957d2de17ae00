# Verified model of the food-delivery backend's rate limiter and users service

This project models, in Dafny, the parts of the backend where many calls have to
agree with each other, and proves what they keep:

- **The Redis token bucket** (`token_bucket.dfy`, `limiter.dfy`). The script is a
  method on a store of hashes with deadlines. A run of requests has a closed form:
  a request is admitted exactly when one more token keeps every suffix of the
  admissions within capacity plus refill. From it follow the bound for any interval,
  the equivalence with a bucket that never forgets (which holds exactly when
  rate x ttl covers the capacity), and the exactness of the retry time.
- **Redis keys** (`redis_ttl.dfy`, `redis_keys.dfy`). Keys with deadlines, the
  INCR-then-EXPIRE counter and its fixed windows, and why one flat store of formatted
  names may be read as one typed map per kind of key.
- **Phones** (`phone.dfy`). The language of accepted phone texts and their canonical form.
- **Sign-up, codes and logins** (`accounts.dfy`, `auth_protocol.dfy`,
  `auth_mail_proofs.dfy`, `auth_login_proofs.dfy`, `auth_device_proofs.dfy`,
  `auth_outcomes.dfy`, `auth_service.dfy`, `account_race.dfy`). Two stores, of which only Postgres rolls back. Each call is a
  decision followed by an effect; the classes in `auth_service.dfy` carry out the same
  calls step by step on mutable stores and are proved to realise those decisions.
  `auth_outcomes.dfy` says, from the rows and keys alone, what each call answers, in the
  order of the source's checks, and every table and key afterwards. The
  proofs range over every run of calls, with a history of codes, guesses and logins.
  `account_race.dfy` splits the two calls that write unique columns into their reads,
  writes and commits and interleaves them freely.
- **Onboarding** (`onboarding.dfy`, `onboarding_proofs.dfy`, `onboarding_outcomes.dfy`,
  `onboarding_service.dfy`).
  Several onboardings per user, their documents, the completion flag and its gate, with
  approval and rejection as steps of the environment; a rejection clears the flag, as
  the note at internal/services/users/business/onboarding.go:84-90 demands.
- **Addresses** (`address_book.dfy`, `address_pages.dfy`, `address_service.dfy`). Default
  and limit invariants over every run, and pagination on 64-bit integers.

`transactions.dfy` is the all-or-nothing WithTx, `text.dfy` the string functions of Go's
library, `common.dfy` options, results and finite-set counting.

Time is in integer milliseconds. A run is a datatype whose newest step is outermost;
`After` gives the state it leads to, so a lemma about `After(r)` for any `r` is a
statement about every reachable state.

## Where the code and its documentation disagree

The model follows the code in each case.

- The comment at pkg/utils/phone.go:14-16 says every caller sees a bare ten-digit number.
  `RequireValidPhone` normalises, then validates a value it normalises again, so a text
  with a second country code, or a space after the code, passes with a value that is not
  bare (`Phone.DoublePrefixSlipsThrough`, `Phone.SpaceSlipsThrough`).
  `Phone.CanonicalIffSpelled` says exactly when the value is canonical; the request
  validators at internal/services/users/validations/auth.go:20-24 check that first.
- Five tries are meant to be the most a phone code gets
  (internal/services/users/business/auth.go:335-342). `otp_requests.device_id` holds 255
  characters and `sessions.device_id` only 100, so on a device id between the two the
  right code is compared, the session insert fails, and the rollback takes the count of
  the try with it. `AuthDeviceProofs.FiveComparesIff` says exactly for which device ids
  the bound holds; on the others no login ever succeeds
  (`AuthLoginProofs.LongDeviceNeverSignsIn`).
- `GetAddresses` multiplies page and limit in 64 bits with no upper bound on the page. A
  page far past the end can show the first page again or fail
  (`AddressPages.HugePagesGoWrong`); `AddressPages.PageIsRightIff` says exactly when.
- Resubmission is described as the way back from a rejection. `SubmitOnboarding` refuses
  only approved and pending onboardings, so a rejected one can also be submitted at once
  (`OnboardingProofs.RejectedCanReturn`).

## Model

| member | source | states |
|---|---|---|
| `TokenBucket.RunTracks` | internal/middleware/rate_limit.go:30-45 | After any run the stored hash of a key holds the closed-form token level at its last admission, that time, and the deadline one ttl later; a key never admitted is absent |
| `TokenBucket.AdmissionLaw` | internal/middleware/rate_limit.go:30-45 | Under a forward clock with rate x ttl at least the capacity, a request is admitted iff for every earlier admission i of its key, (n-i+1)+1 tokens fit capacity plus the refill since i |
| `TokenBucket.OthersDoNotInterfere` | internal/middleware/rate_limit.go:66-76 | In a store shared by any number of limiters, a key's hash is what its own limiter alone would have left |
| `TokenBucket.AdmissionLawInTraffic` | internal/middleware/rate_limit.go:55-92 | The admission law for one key of a store that limiters with other rates and scopes write too |
| `Limiter.BucketsAreDistinct` | internal/middleware/rate_limit.go:67-67 | Over the limiters of the routes and the router-wide one, two bucket keys are equal iff limiter and subject are |
| `Limiter.SharedBucketIff` | internal/middleware/rate_limit.go:61-67 | Two requests share a bucket iff the same limiter sees them and their keys agree, the client address standing in for an empty key |
| `Limiter.AdmissionLawForRoutes` | internal/services/users/api/routes/auth.go:13-65 | For any mix of requests the routes' limiters see in one store, a limiter admits a request iff there is room for it after its own earlier admissions of requests with the same key, or, where the key is empty, the same client address; the bucket name is written out |
| `TokenBucket.IntervalBound` | internal/middleware/rate_limit.go:34-45 | Any closed interval of time admits at most capacity plus rate times its length |
| `TokenBucket.StoredRefinesEager` | internal/middleware/rate_limit.go:30-45 | Lazy refill, the denial that writes nothing and the expiry are invisible: the stored bucket decides every request as a bucket that adds rate each millisecond, caps and never expires |
| `TokenBucket.ForgettingEarlyDiffers` | internal/middleware/rate_limit.go:43-44 | Whenever rate x ttl falls short of the capacity there is a run on which the two buckets decide differently |
| `TokenBucket.ExpiryIsInvisibleIff` | internal/middleware/rate_limit.go:30-45 | The two buckets agree on every run iff rate x ttl covers the capacity |
| `TokenBucket.RetryAfterIsLeast` | internal/middleware/rate_limit.go:37-40 | After a denial, while the key is admitted nothing more, a request is admitted from exactly retry_after_ms on, denied before, and admitted after the header's seconds |
| `TokenBucket.HeaderSeconds` | internal/middleware/rate_limit.go:94-99 | The header is at least one second and the least whole number of seconds, from one on, that covers the milliseconds |
| `TokenBucket.ClockIndependentBound` | internal/middleware/rate_limit.go:34-43 | Without expiry and for any sequence of times, also backward, n admissions satisfy n <= capacity + rate x the forward steps between them, and stored tokens stay within 0 and capacity - 1 |
| `TokenBucket.EveryRegisteredLimitCovers` | internal/services/users/api/routes/auth.go:20-63 | Every limiter the routes of auth, onboarding, profile and uploads register is enforced and meets rate x ttl >= capacity |
| `TokenBucket.SlidingWindowCovers` | internal/middleware/rate_limit.go:48-53 | So does SlidingWindowRateLimit for every positive limit and window |
| `Limiter.Middleware.LeakyBucketScript` | internal/middleware/rate_limit.go:24-46 | The script's statements change the store and answer as the specification of one request says, touching only its key |
| `Limiter.Middleware.LeakyBucketRateLimit` | internal/middleware/rate_limit.go:55-102 | A limit with a non-positive rate, capacity or ttl lets everything through unchanged; otherwise the script runs on the bucket named ratelimit, scope and the request's key, or the client address if the key is empty, and a denial becomes the header's seconds |
| `Phone.StripPrefixes` | pkg/utils/phone.go:24-34 | Reassigning the local step by step computes the normal form |
| `Phone.AcceptedLanguage` | pkg/utils/phone.go:40-43 | A text is valid iff, trimmed, it is an optional +91, an optional 91 or 0, then ten digits starting 6 to 9 |
| `Phone.CanonicalForm` | pkg/utils/phone.go:24-43 | A valid text normalises to the number it spells, which is a fixed point and what RequireValidPhone returns |
| `Phone.CanonicalIffSpelled` | pkg/utils/phone.go:75-81 | RequireValidPhone returns a ten-digit number exactly for the texts that spell one |
| `Phone.DoublePrefixSlipsThrough` | pkg/utils/phone.go:75-81 | A second +91 is not valid, yet RequireValidPhone accepts it and returns +91 and the number |
| `Phone.SpaceSlipsThrough` | pkg/utils/phone.go:75-81 | A space after +91 is not valid, yet RequireValidPhone accepts it and returns a leading space |
| `Phone.OneKeyPerSubscriberAndRole` | internal/middleware/rate_limit.go:108-126 | Two valid spellings share a limiter key iff they spell the same number and count as the same role |
| `Phone.KeysOfRequest` | internal/middleware/rate_limit.go:108-160 | A spelling of a number is limited by that number, and with its role if that is, trimmed and in lower case, one of the four |
| `Phone.KeysWithoutPhone` | internal/middleware/rate_limit.go:114-118 | A text RequireValidPhone rejects is limited by client address |
| `RedisTtl.IncrementCounterWithTTL` | internal/middleware/rate_limit.go:204-213 | The count is one more than the live count, and only the first increment sets the deadline |
| `RedisTtl.BumpCounts` | internal/services/users/repository/redis/auth.go:102-117 | A bump that is only made below the limit keeps the counter equal to the events of the current window, whose end is one ttl after its first event, and no window above the limit |
| `RedisTtl.AnyWindowLength` | internal/services/users/repository/redis/auth.go:65-77 | If no window exceeds the limit, no interval of one window length holds more than twice the limit |
| `RedisKeys.KeysAreDistinct` | infra/redis/keys.go:9-49 | On colon-free ids and canonical phones all key builders together are injective and pairwise disjoint |
| `RedisKeys.ColonInSessionIdCollides` | infra/redis/keys.go:28-30 | With a colon in a session id two different guests share a key |
| `RedisKeys.FlatRefinesTyped` | infra/redis/keys.go:9-49 | After any SET, HSET, INCR, EXPIRE and DEL on the flat store of numbers, strings and hashes every key reads as in a typed map of its own, so no operation on one kind of key changes another |
| `Transactions.Database.Exec` | internal/services/users/repository/repository/auth.go:144-156 | A statement changes the open transaction's rows if there is one, leaving the database alone, else the database |
| `Transactions.Database.Rollback` | internal/services/users/repository/repository/auth.go:170-173 | An error in the callback leaves the database as it was |
| `Transactions.Database.Commit` | internal/services/users/repository/repository/auth.go:174-174 | A commit makes the transaction's rows the database |
| `AuthProtocol.Decide` | internal/services/users/business/auth.go:91-285 | A call causes an effect only under its guards: a live proof or code of its own scope, a rate below five, an unverified row with tries left, free unique keys, values that fit their columns |
| `Accounts.EmailKeyFolds` | migrations/000019_scope_email_uniqueness_by_role.up.sql:3-7 | The unique index folds an address to its letters in lower case without the blanks around it |
| `AuthOutcomes.RegisterAnswer` | internal/services/users/business/auth.go:91-206 | Register's answer and effect by the source's checks in order: role, phone, name, email, session, proof, rate, phone held, address held, column widths |
| `AuthOutcomes.RegisterOutcome` | internal/services/users/business/auth.go:153-215 | A refused Register changes nothing; a successful one stores every column asked for, one OTP row, one audit row and the phone code, and spends the proof |
| `AuthOutcomes.SendOtpWithoutAccount` | internal/services/users/business/auth.go:219-237 | Without a valid phone or a live account of that phone and role SendOTP is refused with nothing changed |
| `AuthOutcomes.SendOtpOutcome` | internal/services/users/business/auth.go:238-284 | For an account: suspended, over a limit, device id too long, or sent, each with the whole new state |
| `AuthOutcomes.CodeSentIff` | internal/services/users/business/auth.go:231-284 | In every reachable state a phone code is sent iff the phone is valid, a live unsuspended account of that phone and role exists, rate and resends are below five and the device id fits |
| `AuthOutcomes.SuspendedGetsNoCode` | internal/services/users/business/auth.go:238-240 | In every reachable state no call at all stores a code for a suspended account, and asking for one is answered AccountSuspended with nothing changed |
| `AuthOutcomes.VerifyOtpWithoutRow` | internal/services/users/business/auth.go:288-320 | Without a valid phone, device and code, a live account and an unverified row VerifyOTP is refused with nothing changed |
| `AuthOutcomes.VerifyOtpRefuses` | internal/services/users/business/auth.go:322-356 | On the row found: blocked, spent, late and wrong codes and a device id too long, with the answer, the try counted and the half-hour block |
| `AuthOutcomes.SignInOutcome` | internal/services/users/business/auth.go:357-449 | VerifyOTP signs in iff the row is open and the code right and in time on a fitting device; it answers that account, its role and the session just opened, with every table and key afterwards |
| `AuthOutcomes.SignedInIff` | internal/services/users/business/auth.go:303-449 | In every reachable state a sign-in happens iff such a row is presented; the session answered is new, active, of that account, role and device, recorded as this login, and lets requests through for 24 hours |
| `AuthOutcomes.SendEmailOtpOutcome` | internal/services/users/business/auth.go:465-493 | By the session, the email and the rate: the refusals, or the code stored, its attempts cleared and the rate counted under the guest's key |
| `AuthOutcomes.VerifyEmailOutcome` | internal/services/users/business/auth.go:497-526 | The live code leaves a half-hour proof and is spent; a late, wrong or fifth wrong guess is answered and counted as such |
| `AuthOutcomes.SendEmailUpdateOtpOutcome` | internal/services/users/business/profile.go:134-176 | By the profile, the own address up to case, the addresses held in the role and the rate: the refusals, or the code stored under the user's key |
| `AuthOutcomes.VerifyEmailUpdateOutcome` | internal/services/users/business/profile.go:180-250 | The live code moves the user to the address with one audit row unless another live account of the role holds it or it is too long; other guesses miss |
| `AuthOutcomes.SessionOutcomes` | internal/middleware/auth.go:48-66 | Logout deactivates, audits and removes that session alone; a request on a readable session renews its key for a day |
| `AuthOutcomes.AccountsStayUnique` | internal/services/users/repository/postgres/auth.go:86-98 | In every run of atomic calls live accounts are unique by phone and role and by role and folded address |
| `AuthService.RedisStore.SetOTPHashAndRate` | internal/services/users/repository/redis/auth.go:65-77 | The phone code is set with its ttl and the rate counter bumped; nothing else changes |
| `AuthService.RedisStore.SetEmailOTPHashAndRate` | internal/services/users/repository/redis/auth.go:102-117 | The email code is set with its ttl, its attempts are cleared and the rate counter bumped; nothing else changes |
| `AuthService.RedisStore.IncrementEmailOTPAttempts` | internal/services/users/repository/redis/auth.go:130-140 | One more attempt is counted, the first one starting the ttl |
| `AuthService.RedisStore.DeleteEmailOTP` | internal/services/users/repository/redis/auth.go:142-144 | The code and its attempts go together |
| `AuthService.RedisStore.SetSession` | internal/services/users/repository/redis/auth.go:165-178 | HSET then EXPIRE leaves the session readable for one session ttl from now |
| `AuthService.InsertUser` | internal/services/users/repository/postgres/auth.go:86-98 | The insert lands, or is refused for a value too long for its column or a live row holding the phone or the normalised email in that role, changing nothing |
| `AuthService.SetUserEmail` | internal/services/users/repository/postgres/profile.go:73-93 | The address is stored verified, or refused as missing user, too long, or conflict with another live row, changing nothing |
| `AuthService.Service.Register` | internal/services/users/business/auth.go:91-216 | Every branch answers and changes both stores as the decision for Register says |
| `AuthService.Service.InsertAccount` | internal/services/users/business/auth.go:158-206 | Whatever the pre-checks saw: a conflict or a value too long, also in the last insert, leaves tables and Redis untouched, otherwise user, audit row, OTP row and phone code all land |
| `AuthService.Service.SendOTP` | internal/services/users/business/auth.go:218-285 | Every branch answers and changes both stores as the decision for SendOTP says |
| `AuthService.Service.VerifyOTP` | internal/services/users/business/auth.go:287-460 | Every branch, including late, wrong and blocked codes and a device id the sessions table refuses, realises its decision |
| `AuthService.Service.CountTry` | internal/services/users/business/auth.go:333-356 | A late or wrong code counts one try and blocks the row at the fifth |
| `AuthService.Service.OpenSession` | internal/services/users/business/auth.go:366-413 | The login transaction verifies the row and the phone, opens the session in both stores, audits it and drops the phone code; if the device id exceeds 100 characters the insert is refused and both stores, the count of the try included, stay as they were |
| `AuthService.Service.IssueRow` | internal/services/users/business/auth.go:250-278 | The resend is counted outside a transaction, so it stays when the new row is refused; otherwise row, code and rate land |
| `AuthService.Service.UseSession` | internal/middleware/auth.go:48-66 | A readable session is let through and renewed for a whole lifetime, any other refused with nothing changed |
| `AuthService.Service.SendEmailOTP` | internal/services/users/business/auth.go:465-493 | Every branch realises its decision |
| `AuthService.Service.CheckMailCode` | internal/services/users/business/auth.go:570-583 | A wrong guess is counted and the fifth deletes code and counter; a right one changes nothing |
| `AuthService.Service.VerifyEmail` | internal/services/users/business/auth.go:497-526 | Every branch realises its decision; success leaves the marker and deletes the code |
| `AuthService.Service.SendEmailUpdateOTP` | internal/services/users/business/profile.go:134-176 | Every branch realises its decision |
| `AuthService.Service.VerifyEmailUpdate` | internal/services/users/business/profile.go:180-250 | Every branch realises its decision |
| `AuthService.Service.StoreEmail` | internal/services/users/business/profile.go:219-239 | A conflict, a missing user or an address too long leaves the tables untouched, otherwise address and audit row land |
| `AuthService.Service.Logout` | internal/services/users/business/auth.go:528-557 | The row is deactivated, audited and its Redis session removed |
| `AuthMailProofs.FiveMissesPerCode` | internal/services/users/business/auth.go:570-583 | In every run with a forward clock a code suffers at most five misses, and while it is live the attempts key reads exactly the misses since it was issued |
| `AuthMailProofs.ChainOfCustody` | internal/services/users/business/auth.go:482-524 | In every run, per guest session and email: accounts + live marker <= proofs, proofs + live code <= codes issued; per user and email: moves + live code <= codes issued |
| `AuthMailProofs.StoredEmailIsProven` | internal/services/users/business/auth.go:113-128 | Every stored email was proven by a code issued to that address: either in the guest session that last registered this very user with it, whose codes, proofs and accounts are counted in that order, or for this user, who moved to it at most as often as codes were issued |
| `AuthMailProofs.ProofNeedsLatestCode` | internal/services/users/business/auth.go:510-520 | VerifyEmail and VerifyEmailUpdate succeed only on the latest code of their own scope and address, within ten minutes |
| `AuthMailProofs.RegisterNeedsRecentProof` | internal/services/users/business/auth.go:117-128 | Register succeeds only within thirty minutes of a proof of that email by its own session |
| `AuthMailProofs.IssueLimits` | internal/services/users/business/auth.go:559-568 | Per scope and email, and per phone and role over Register and SendOTP together, at most five codes fall in one lifetime of the rate key and at most ten in any hour |
| `AuthLoginProofs.RowsAreCounted` | internal/services/users/repository/postgres/auth.go:157-176 | In every reachable state a row's attempts equal its tries and are within 0 and 5, it was redeemed once iff verified, is blocked if spent, and was compared at most five times if its device id fits a session (100 characters) |
| `AuthLoginProofs.LongDeviceNeverSignsIn` | migrations/000003_create_users.up.sql:79-84 | A row whose device id exceeds the width of sessions.device_id is never verified and never redeemed |
| `AuthDeviceProofs.FiveComparesIff` | internal/services/users/business/auth.go:349-413 | No code sent to a device is compared more than five times in any run iff the device id is not a non-blank one of 101 to 255 characters |
| `AuthDeviceProofs.AnyNumberOfCompares` | internal/services/users/business/auth.go:366-416 | On such a device, for every n there is a run that compares one row n times |
| `AuthLoginProofs.SpentForGood` | internal/services/users/business/auth.go:322-331 | An unverified row at five attempts is never compared again and never verified in any continuation, also after the block has lapsed |
| `AuthLoginProofs.LoginConservation` | internal/services/users/business/auth.go:366-413 | For every user, verified rows = sessions created = login audit rows = logins, and phone_verified iff there is one |
| `AuthLoginProofs.FirstTimeIsFirst` | internal/services/users/business/auth.go:427-447 | In every reachable state a sign-in reports FirstTimeUser iff the user has no earlier login, and adds one login |
| `AuthLoginProofs.SessionsFollowRows` | internal/services/users/business/auth.go:373-389 | Every session row has a login and every login a session row; each login redeemed a verified row of its user into a session with that account's id, role and phone |
| `AuthLoginProofs.TablesOnlyGrow` | internal/services/users/repository/postgres/auth.go:141-214 | Along every continuation rows stay, keep owner, code and lifetime, and never lose verification or attempts |
| `AuthLoginProofs.SignInPresentsTheCode` | internal/services/users/business/auth.go:303-356 | A login presents the row's own code before it expires, on its device, for the account of that phone and role |
| `AuthLoginProofs.SessionsAreMirrored` | internal/services/users/repository/redis/auth.go:165-182 | Under a forward clock a session key is readable iff the session was opened, not logged out, and no gap between its uses up to now reached 24 hours; then it reads as the row's user and role |
| `AuthLoginProofs.SessionAuthenticatesIff` | internal/middleware/auth.go:48-66 | A request carrying a session is let through iff the session was opened, not logged out, and no gap between its uses reached 24 hours; the answer that a session was revoked never occurs |
| `AuthLoginProofs.LoggedOutForGood` | internal/services/users/business/auth.go:533-549 | A session that was logged out is never active or readable again |
| `AccountRace.LiveUsersStayUnique` | migrations/000019_scope_email_uniqueness_by_role.up.sql:3-7 | In every interleaving of Register and VerifyEmailUpdate, split into pre-checks, each write, cache write and commit, live users stay unique by phone and role and by role and normalised email |
| `AccountRace.EveryCallIsAccounted` | internal/services/users/business/auth.go:158-193 | In every interleaving the stored users are exactly those of the committed Register calls, with the phone and role asked for; there is one audit row per committed call and one OTP row per committed Register call; an open email change has its user stored |
| `AccountRace.ConflictLeavesNothing` | internal/services/users/business/auth.go:194-206 | A refused, conflicting or failed call changed no user, audit or OTP row and no phone code in any of its steps; a committed one published all its rows in exactly one step, and a Register call its phone code in exactly one other |
| `AccountRace.OnlyCommitsStore` | internal/services/users/repository/repository/auth.go:158-175 | Stored users change only by the commit of an open transaction, to the row it holds |
| `AccountRace.PreChecksCanBothPass` | internal/services/users/business/auth.go:195-204 | Two sign-ups with one phone and role can both pass the pre-checks, and then the index lets exactly the first writer through |
| `AccountRace.RegisterAlone` | internal/services/users/business/auth.go:138-206 | With nothing interleaved a Register call is refused iff a live user has its phone or address in the role, fails iff a value is too long, and commits otherwise |
| `AccountRace.UpdateAlone` | internal/services/users/business/profile.go:193-239 | With nothing interleaved an email change is refused iff the user is gone or the address held, fails iff too long, and otherwise stores the address |
| `Onboarding.KeyIsInjective` | internal/services/users/business/onboarding.go:220-220 | Over slash-free ids two documents share an object key only if they share user, onboarding and type |
| `Onboarding.ListRequired` | internal/services/users/repository/postgres/onboarding.go:13-27 | A type is listed iff a definition of it is required for that role and country |
| `Onboarding.RequiredOnce` | internal/services/users/repository/postgres/onboarding.go:13-27 | No type is listed twice |
| `OnboardingProofs.FlagMeansUnderway` | internal/services/users/business/onboarding.go:61-101 | In every reachable state the flag is set iff exactly one of the user's onboardings is pending or approved, and clear iff none is |
| `OnboardingProofs.GateMeansNoneUnderway` | internal/middleware/onboarding.go:33-56 | In every reachable state the gate lets a request through iff it names an active account of the claimed role none of whose onboardings is pending or approved |
| `OnboardingProofs.DocumentsStayExact` | internal/services/users/business/onboarding.go:219-226 | In every reachable state an onboarding has exactly one document per type required when it was opened, at least one, under its object key, and only drafts lack uploads |
| `OnboardingProofs.UnderwayWasSubmitted` | internal/services/users/business/onboarding.go:61-101 | An onboarding that is no longer a draft was submitted |
| `OnboardingProofs.SubmittedStaysComplete` | internal/services/users/business/onboarding.go:68-74 | Once submitted, an onboarding keeps exactly its required documents, all uploaded, in every later state |
| `OnboardingProofs.CallbackFlipsOne` | internal/services/users/repository/postgres/onboarding.go:98-113 | A callback succeeds iff an awaiting document has its key, and then marks that document and changes nothing else |
| `OnboardingProofs.SuccessesAreUploads` | internal/services/users/business/onboarding.go:162-175 | The successful callbacks with an onboarding's key prefix number its uploaded documents |
| `OnboardingProofs.SubmittableWhenAllUploaded` | internal/services/users/business/onboarding.go:68-74 | There are at most as many successes as required types, and past the gate a draft or rejected onboarding can be submitted iff there are exactly as many |
| `OnboardingProofs.RejectedCanReturn` | internal/services/users/business/onboarding.go:84-90 | After a rejection an active owner passes the gate, and both direct submission and resubmission followed by submission succeed |
| `OnboardingOutcomes.InitOutcome` | internal/services/users/business/onboarding.go:24-46 | In every reachable state: the gate, the role, a country of two bytes (in either case, with spaces, blank meaning IN), the definitions and the id decide the answer in order; success opens exactly the documents the definitions require for the role in that country |
| `OnboardingOutcomes.SubmitOutcome` | internal/services/users/business/onboarding.go:48-111 | The answer by the source's checks in order; success makes the onboarding pending, sets the flag and changes nothing else |
| `OnboardingOutcomes.ResubmitOutcome` | internal/services/users/business/onboarding.go:113-160 | The answer by the source's checks in order; success makes the onboarding a draft, clears the flag and changes nothing else |
| `OnboardingOutcomes.UploadOutcome` | internal/services/users/business/onboarding.go:162-175 | A callback, spaces around its key ignored, marks the awaiting document of that key, or is refused with nothing changed |
| `OnboardingService.Service.InitOnboarding` | internal/services/users/business/onboarding.go:24-46 | Every branch, behind the gate, answers and changes the tables as the outcome of an init request says |
| `OnboardingService.Service.CreateOnboardingDraft` | internal/services/users/business/onboarding.go:210-233 | The loop inserts one awaiting document per type and returns them in order, or the whole draft is rolled back |
| `OnboardingService.Service.SubmitOnboarding` | internal/services/users/business/onboarding.go:48-111 | Every branch realises the outcome of a submission |
| `OnboardingService.Service.ResubmitOnboarding` | internal/services/users/business/onboarding.go:113-160 | Every branch realises the outcome of a resubmission |
| `OnboardingService.Service.MarkDocumentUploaded` | internal/services/users/business/onboarding.go:162-175 | Every branch realises the outcome of an upload callback; a callback that matches nothing changes nothing |
| `AddressBook.BookIsKept` | internal/services/users/business/profile.go:321-349 | Over every sequential run each user has at most one default and at most ten live addresses, and no deleted row is a default |
| `AddressBook.OthersUntouched` | internal/services/users/repository/postgres/profile.go:208-261 | No call changes another user's rows, a deleted row, or a row's owner and creation time; rows never vanish; a refusal changes nothing |
| `AddressBook.SavedAsAsked` | internal/services/users/business/profile.go:434-444 | The saved row is the one answered, holds what was asked as the columns store it and has the flag asked for; making it the default takes the flag from the user's other rows and changes nothing else |
| `AddressBook.CreateOutcome` | internal/services/users/business/profile.go:321-364 | A creation succeeds iff fewer than ten addresses are live and every value fits; the row holds the values given and only other defaults of the user are cleared |
| `AddressBook.UpdateOutcome` | internal/services/users/business/profile.go:376-465 | An update is saved iff the address is the user's live one and the patched values fit; each column named holds its own value, every other is kept |
| `AddressBook.DeleteOutcome` | internal/services/users/repository/postgres/profile.go:244-261 | Deleted iff the row named is the user's live one; then that row alone is deleted and no default |
| `AddressBook.RoundedIsNearest` | migrations/000006_create_addresses.up.sql:1-1 | A stored coordinate is a whole number of millionths within half of one of the coordinate given |
| `AddressBook.PatchesSettle` | internal/services/users/business/profile.go:384-436 | In every reachable book an update naming no column changes nothing, coordinates included, and a patch applied twice is the patch applied once |
| `AddressBook.LiveIsCreatedLessDeleted` | internal/services/users/repository/postgres/profile.go:122-129 | In every run a user's live addresses number the successful creations less the successful deletions |
| `AddressPages.ListingIsTheOrder` | internal/services/users/repository/postgres/profile.go:131-144 | With distinct creation times the listing is the one strict order, default first and newest first, of exactly the user's live rows |
| `AddressPages.PagesPartition` | internal/services/users/business/profile.go:280-298 | For any limit, pages 1 to the page count put together are the listing, later pages are empty and all but the last are full |
| `AddressPages.PagesShowEveryAddressOnce` | internal/services/users/business/profile.go:274-311 | For any book, calling for pages 1 to the page count returns those pages with the true total, and a later page whose offset is in range is empty |
| `AddressPages.PageIsRightIff` | internal/services/users/business/profile.go:288-298 | The call answers with the right page iff the offset fits 64 bits or wraps at or past the number of rows, and fails iff it wraps below zero |
| `AddressPages.HugePagesGoWrong` | internal/services/users/business/profile.go:288-288 | Page 2^62 + 1 with limit 4 shows the first page's rows, and the greatest page number with limit 20 fails |
| `AddressPages.DefaultComesFirst` | internal/services/users/repository/postgres/profile.go:140-140 | A default address comes first on page one and no other listed row is a default |
| `AddressPages.RepliesAreNewestFirst` | internal/services/users/repository/postgres/profile.go:138-141 | Of two rows of a page the earlier is the default, or else was created later; all are the user's live rows |
| `AddressPages.PageIsAsAsked` | internal/services/users/business/profile.go:280-310 | A page below one reads as one, a limit outside 1 to 100 as 20, and the total is the live count |
| `AddressPages.OnePageIsEnough` | internal/services/users/business/profile.go:284-287 | In every reachable book page one with the default limit, or any limit of ten or more, is the whole listing |
| `AddressService.Service.GetAddresses` | internal/services/users/business/profile.go:274-311 | Clamping, the 64-bit offset and the appending loop answer as specified |
| `AddressService.Service.CreateAddress` | internal/services/users/business/profile.go:315-365 | Every branch realises the specified creation |
| `AddressService.Service.MergeInto` | internal/services/users/business/profile.go:384-436 | Overwriting column by column is the patch over the current row |
| `AddressService.Service.UpdateAddress` | internal/services/users/business/profile.go:369-466 | Every branch realises the specified update |
| `AddressService.Service.DeleteAddress` | internal/services/users/business/profile.go:470-480 | Every branch realises the specified soft delete |

## Left out

Modelling choices:

- Codes are compared directly: HashOTP and CompareOTP stand for a comparison that succeeds exactly for the hashed code. Signing and parsing of tokens and the guest token are not modelled; the session check on later requests starts from a valid token, and Logout from a request it let through.
- Arithmetic in the bucket is exact: rounding of floating-point numbers and of numbers stored as text in Redis is not modelled. Application and Redis share one clock, and a Redis key is readable strictly before its deadline.
- Stores do not fail and best-effort calls whose errors the source discards succeed. What a store refuses by its schema is modelled: a conflict on a unique index, a CHECK, a value too long for its VARCHAR or too large for its DECIMAL, and the rollback that follows. Texts are taken to be valid UTF-8 without NUL, ids to be UUIDs (so object keys fit their column), and client addresses to be valid for INET.
- Service calls are atomic steps, except in `account_race.dfy`. The read-then-write counters, address limit and default flag are claimed for such runs only.
- In `account_race.dfy` a statement waits for an open transaction that holds its row or one of its unique keys; deadlock detection is not modelled, the phone-code rate and the proof marker are not, and the email code has been checked before VerifyEmailUpdate's first step.
- Ids are row positions, call numbers or given UUID texts; generators are assumed to give fresh ones, and an onboarding id that is taken makes the init fail as the primary key does. Ids arrive trimmed and non-empty, except the onboarding id.
- Rows are ordered by insertion where the source orders by creation time; the address listing keeps creation times and assumes them distinct.
- Letter case and trimming in the database are the ASCII forms of lower and btrim. Email parsing is a parameter: each call receives the normalised address or its rejection.
- Roles are an enumeration, so an unknown or empty role cannot be sent. Suspending and deleting an account, switching an account on or off, changing the required documents, approving and rejecting are steps of the environment.
- WithTx callbacks are written in line between begin and commit; nested WithTx calls, which the services never make, are not modelled. Presigned upload links come after the draft is committed and are not part of this model.
- Audit rows are kept for sign-up, login, logout and email change; those of onboarding and addresses are not.
- The IP, guest-session and user-id limiter keys, and the reading of a phone and role out of the JSON body, are parameters.

Not modelled at all:

- HTTP routing, JSON binding, request validators, logging, configuration, start-up and shut-down, NATS, gRPC, the SMS and email providers.
- CheckPhone with its not-found probe, the idempotency middleware, refresh tokens: short counters and check-then-set code that the counter results cover.
- Profile name, gender, city and availability edits, masking, audit text.
- Object storage signing and path cleaning.
- Cart, delivery, payment, restaurant and notification packages, which hold no logic yet.
