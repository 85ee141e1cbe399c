# CasaOS user service: the second factor

A model of how the user service keeps one account behind a password and an optional TOTP second
factor, while any number of requests for that account are in flight at once.

Every handler reads the user's row, checks something against what it read, and then issues one
conditional UPDATE. Between the read and the write any other request may have written the row, and so
may the shell command `-ru`. What the service promises (within an enrolment a time step grants one session, a
stale request never alters a later enrolment, recovery codes are neither lost nor used twice, an old password does
not come back) therefore rests on the keys of those UPDATEs taken together, and that is what is
proved, for every schedule.

`dafny verify dfyconfig.toml` checks the project.

## How it is laid out

| files | what they hold |
|---|---|
| `Prelude`, `Text`, `Base64`, `Json` | the parts of Go's libraries the service leans on: split and join, decimals, base64, the JSON text of a list of hashes |
| `Password`, `Gate` | the PHC hash format, its parser and printer; the two-slot gate in front of argon2 |
| `GoSlices`, `Totp`, `Recovery` | slices over a shared backing array; the three-step window; recovery codes |
| `Rows`, `UserStore` | the row, its SQL statements as values, and the class whose methods are the conditional UPDATEs |
| `Limiter` | the per-user token bucket |
| `World` | what the code imports or draws: HOTP, bcrypt, argon2, MD5 as arbitrary functions, with the laws assumed of them |
| `Handlers`, `Requests` | the request handlers twice: cut into steps at every SQL statement, limiter call and clock reading, and as the imperative code of the source; each imperative handler is proved to end where its steps end, with the same answer and row, whatever other requests wrote in between |
| `Sequential` | each request let alone: what it answers and leaves, in every case |
| `History`, `TwoFactor` | histories of landed writes, and the atomic machine Off / Pending / On they amount to |
| `Server` | the whole machine: handlers in flight, two clocks, the bucket, the tokens handed out, the shell command; runs are any actions in any order |
| `Invariants`, `Stories`, `Refusals`, `Circulation`, `Budget`, `Clock` | what every step of the machine keeps |
| `Results`, `Twice` | the guarantees, over all runs; two runs in which one code passes twice |
| `Served` | every handler in flight is its thread run alone, so the guarantees hold of the imperative handlers |

A proof about runs goes in two halves. `Invariants` shows that every reachable state has a *legal*
history: each write found its key, was issued by a handler that had made its checks on the row it
read, and placed only fresh secrets and hashes. `History` shows what every legal history keeps. The
handler's own knowledge is tied to instants of that history: its first read, its attempt to clear a
pending secret, the read its answer rests on.

An *epoch* is a stretch of a history with no enable, disable or reset in it.

## What is assumed

- argon2 returns as many bytes as it is asked for, an MD5 hex digest holds no `$`, a bcrypt hash
  accepts the code it was made of and holds only letters, digits, `$`, `.` and `/` (`Password.Lawful`,
  `World.LawfulWorld`).
- `fmt.Sscanf` reads back what `%d` prints, and may accept anything else besides (`Password.ReadsBack`).
- Hashes are free of collisions among the passwords typed or set in the run, a finite set.
- Generated secrets and recovery hashes do not repeat those of the run or of the row it starts from
  (`Server.FreshDraw`); nobody else can sign with this service's keys (`Server.Presentable`).
- A run starts from any row with `History.RowOk`, so also one an earlier process left behind.
- Senders blocked on a Go channel are served in the order they came (`Gate.InOrder`); only
  `Gate.NoCallStarves` and the methods of `Gate.ArgonSlots` rest on it.
- The wall clock may jump either way unless a result says otherwise; the limiter reads the monotonic
  clock.

## Where the code and its documentation part

- `README.md:42` says each step is accepted once, so that two requests carrying one captured code cannot
  both pass. That is false of the code in two ways, since both the key of `ConsumeTOTPStep` is the step
  alone and `/2fa/disable` checks a code without recording its step. In `Twice.StepTwiceExample` two
  verifies check one code, a disable lands between their writes and sets the recorded step back to zero,
  and both are granted a session on the same step. In `Twice.CodeTwiceExample` a verify and a disable
  check one code and both pass, with nothing between their writes. (`Results.LateGrantExample` is the
  other order: the disable lands first, and the verify is granted on a row no longer enabled.) When each
  write lands is exact: `Results.StepAcceptedIff` and `Results.AcceptedAgainIff` for a verify,
  `Results.DisableOnRecordedStepIff` for a disable. What holds: within an epoch a step grants one session
  (`Results.StepsIncreaseInEpoch`, `Results.OneGrantPerStep`), and once a step is recorded every check
  made on a row read later in the epoch refuses it (`Results.RecordedStepIsRefused`), so a disable passes
  on a recorded step only if it had read the row before. `Results.StepOnItsEnrolmentIff` says exactly when
  a verify's write meets the enrolment its code was checked against.
- `pkg/utils/encryption/password.go:93-95` calls the parser strict. It is, for the version and the
  parameters, whatever the scanner. The two base64 fields go through a decoder that skips line breaks
  and ignores unused trailing bits, so a string that parses need not be the one its hash prints:
  `Password.PrintUndoesParseIff` says exactly when it is, `Password.LineBreakIsIgnored` gives a
  counterexample for every hash.
- A disable answers that nothing is enabled also when the enrolment it read was replaced by a later one
  that is (`Refusals.RefusalTrue`).
- The window counts steps by Go's truncating division, so the step zero lasts twice as long
  as the others, around the year 1970: `Totp.OnePeriodLaterIff`.

## Model

| member | source | states |
|---|---|---|
| `Results.RowInvariant` | service/user.go:99-187 | in every reachable state an enabled row has a secret, a recorded step of at least 1 and at most eight distinct hashes; a row not enabled lists none, though no statement's key says so |
| `Results.RunSimulates` | service/user.go:105-187 | every run of any number of handlers is a run of the atomic machine Off / Pending / On, with one move for each write that landed |
| `Results.OneStepOneMove` | service/user.go:147-156 | any single step leaves row and history alone, or records one write and takes the one move that write means |
| `Results.AnswersMeanWrites` | route/v1/user_2fa.go:67-214 | an answer of success means that the check passed on the row first read and that exactly one write, keyed on it, landed; an answer of failure means none did, except that a verify whose token could not be signed has spent its factor. A login with a wrong password writes nothing; with the right one it may swap the hash, and it clears a secret only if it found it pending and does not stop at the factor, so a failing login has cleared one only if its token could not be signed |
| `Results.RefusalsAreTrue` | route/v1/user_2fa.go:163-176 | a refusal is one its route has and says what is so: "already enabled" of the row at the instant of the answer, "not enabled" likewise (for a disable: the enrolment it read no longer stands; for an enable that read a secret: another request touched that enrolment), a wrong code or password of the row read, or of a factor another request took meanwhile; the exceptions are statements that failed |
| `Results.MalformedIsRefused` | route/v1/user_2fa.go:84-99 | a request that lacks a field or has both of two exclusive ones is refused, and so is one that could not read the row |
| `Sequential.SetupAlone` | route/v1/user_2fa.go:108-137 | a setup let alone, case by case: on a row not enabled, with the right password, it stores the secret it drew and answers it; otherwise the refusal, in the order of the checks, and the row as it was |
| `Sequential.EnableAlone` | route/v1/user_2fa.go:141-178 | an enable let alone, case by case: on a pending secret and a code of the window it stores that step and the hashes of the codes it answers |
| `Sequential.DisableAlone` | route/v1/user_2fa.go:181-214 | a disable let alone, case by case: with exactly one of code and password, and that right, it zeroes the four columns |
| `Sequential.PasswordAlone` | route/v1/user.go:355-378 | a password change let alone, case by case: it leaves a hash that verifies the new password and needs no rehash |
| `Sequential.VerifyAlone` | route/v1/user_2fa.go:67-101 | a verify let alone, case by case: with a live token, on an enabled row, with exactly one of code and recovery code, and that right, it spends just that factor and answers a session with the lifetimes of its tokens |
| `Sequential.LoginAlone` | route/v1/user.go:120-179 | a sign-in let alone, case by case: past the password it swaps a hash that has to be, clears a pending secret, and answers a session or, if the row is enabled, a pre-auth token of five minutes |
| `Sequential.RefreshAlone` | route/v1/user.go:761-798 | a refresh let alone: granted exactly on a live token of the session key whose issuer is "refresh" |
| `Results.KeyedWriteLandsIff` | service/user.go:105-145 | an enable, a clear on login and a disable land exactly when the statement does not fail and nothing set the secret or the switch since the handler's read |
| `Results.SetupLandsIff` | service/user.go:130-137 | a setup's secret lands exactly when the statement does not fail and no enrolment made since its handler's read stands |
| `Results.RecoveryLandsIff` | service/user.go:167-187 | a recovery write lands exactly when the statement does not fail and nothing wrote the list since it was read |
| `Results.StepOnItsEnrolmentIff` | service/user.go:158-165 | when a verify is about to write its step, the row shows the enrolment its code was checked against exactly when nothing touched that enrolment since its first read |
| `Results.LateGrantExample` | route/v1/user_2fa.go:86-100 | a verify that races a disable and is granted a session on a row no longer enabled, which then records the step |
| `Twice.StepTwiceExample` | service/user.go:158-165 | a run of a login, two verifies with one code and a disable in which both verifies are granted a session and the history records the step twice |
| `Twice.CodeTwiceExample` | route/v1/user_2fa.go:199-213 | a run of a login, a verify and a disable in which verify and disable both pass on one code, their writes next to each other |
| `Results.StepAcceptedIff` | service/user.go:163-165 | a verify that checked its code records the step exactly when the statement does not fail, the epoch in force began below it, and no step as great was accepted in it |
| `Results.DisableOnRecordedStepIff` | route/v1/user_2fa.go:199-213 | a disable whose code matches a step a verify has recorded lands exactly when the statement does not fail and nothing touched the enrolment since its read; and it read the row before that step was recorded, or in an earlier epoch |
| `Results.RecordedStepIsRefused` | service/totp.go:16-19 | once an enable or a verify recorded a step, no check on a row read later in the epoch accepts it, whatever the code and the clock |
| `Results.AcceptedAgainIff` | service/user.go:158-165 | a verify records a step that was already recorded exactly when the statement does not fail, an enable, disable or reset landed since, and the epoch in force has not reached that step |
| `Results.RecoveryGrant` | service/user.go:175-187 | a session granted on a recovery code: at the instant of its one write the row was enabled and listed the hash the code matches, and no longer lists it after |
| `Results.OneGrantPerCode` | service/user.go:167-174 | two sessions granted on recovery codes took two different hashes, in one enrolment or across many |
| `Results.RecoveryCodesOnce` | service/user.go:167-187 | no recovery hash is spent twice in a run |
| `Results.EnrolmentConservesCodes` | service/user.go:110-112 | from an enable until the next disable or reset the row lists a subsequence of the eight hashes stored, 8 minus its length is the number of uses, and list and uses together are exactly those eight |
| `Results.EnableHandedOut` | route/v1/user_2fa.go:149-177 | the hashes an enable stored and the codes handed out in plain by the request that won come from one draw of random bits and salts |
| `Results.LosingCodeStillWorks` | service/user.go:173-174 | a recovery request that lost to another code in the same epoch has not lost its own: the same request made again, whole and let alone, is granted a session |
| `Results.HandedOutCodeStillWorks` | route/v1/user_2fa.go:139-178 | a code handed out by the enrolment in force and not spent since is granted a session in every spelling, of which the one handed out is one |
| `Results.StepsIncreaseInEpoch` | service/user.go:158-165 | within an epoch the accepted steps increase strictly, all beyond the one the epoch began with, and the row records the last of them |
| `Results.OneGrantPerStep` | service/user.go:158-165 | two sessions granted on codes recorded two steps their codes match, and two different ones unless an enable, disable or reset lies between the writes; of a disable on the same code it says nothing (`Results.DisableOnRecordedStepIff` does) |
| `Results.GrantsBound` | route/v1/user_2fa.go:86-92 | on a clock that never moves back the codes accepted in an enrolment number at most floor(now/30) - floor(t/30) + 2, t being when the enable checked its code, whatever the row held before |
| `Results.CodeAcceptableWithinOnePeriod` | service/totp.go:14-30 | on a clock past 1970 that never moves back, in every reachable state, a whole verify let alone one period later with the code of the newest step of the window is granted a session, unless the run found the row ahead of the clock and recorded no step since |
| `Results.LoginLinearises` | route/v1/user.go:143-178 | a session from /login has an instant between its first read and its answer at which the row was not enabled, a login stopped at the factor one at which it was; with a pending secret that instant is not before the attempt to clear it |
| `Results.SecondFactorFollowsFirst` | route/v1/user_2fa.go:71-79 | a session from /2fa/verify rests on a login that had handed out that very token before the verify arrived and had answered when it first read the row, whose password matched, which saw the row enabled, and less than five minutes of wall clock before |
| `Results.SessionRoot` | route/v1/user.go:761-798 | every session token in circulation was handed out by a granted login or verify, or descends from such a token through refreshes, each shown in time the refresh token, not the access token, of the session before it |
| `Results.RefreshAnswersIff` | route/v1/user.go:768-779 | a refresh is turned away for its token exactly when that is not the refresh token of a session handed out before it arrived, or is shown too late; otherwise it is granted unless signing failed |
| `Results.VerifyTokenIff` | route/v1/user_2fa.go:71-75 | a verify is turned away for its token exactly when that was not handed out, before it arrived, by a login that stopped at the factor less than five minutes earlier |
| `Results.SecretsOnce` | route/v1/user_2fa.go:127-135 | over a whole run each secret is made pending, enabled and disabled at most once |
| `Results.SecretNeverReturns` | service/user.go:110-145 | a secret that has left the row is there at no later instant |
| `Results.StoredHashIsLatest` | route/v1/user.go:100-110 | over any interleaving of sign-ins, changes and resets the stored hash verifies the password of the latest register, change or reset and no other |
| `Results.HashSwappedOnce` | route/v1/user.go:100-110 | after any password write the stored hash needs no rehash, and no swap lands after it |
| `Results.SignInsConverge` | route/v1/user.go:100-110 | a sign-in with the right password, let alone, leaves a hash that verifies it and needs no rehash, swapped only if it had to be, and no pending secret; the next one changes nothing |
| `Results.BudgetPerWindow` | route/v1/user_2fa.go:19-41 | in any window of w seconds at most 5 + floor(w/12) requests of the user get past the limiter on all four routes together; a check or a grant is reached only by a request that did, once |
| `Results.LimiterIff` | route/v1/user_2fa.go:19-26 | in every reachable state the limiter lets a request through exactly if that keeps every window within the budget |
| `Invariants.NextKeepsInv` | service/user.go:105-195 | every step keeps the joint invariant: legal history, row equal to its replay, what every handler in flight knows, fresh draws still fresh |
| `Invariants.Reachable` | service/user.go:105-195 | the joint invariant holds in every reachable state |
| `Invariants.LandedIsAdmissible` | route/v1/user_2fa.go:67-214 | whatever write lands was issued by a handler that had made its checks, and finds on the row what it relies on beyond its key |
| `Stories.StoriesHold` | route/v1/user_2fa.go:67-214 | in every reachable state what each handler wrote so far is explained by where it stands |
| `Circulation.TracedHolds` | route/v1/user.go:181-214 | every token in circulation was handed out by a handler, with the key and issuer of its kind, after any token that handler was shown |
| `Clock.NeverAhead` | service/totp.go:20-30 | on a clock that never moves back no step accepted or about to be is beyond the next one |
| `Budget.BudgetHolds` | route/v1/user_2fa.go:32-41 | the bucket and the admissions stay in balance, and a handler is past the limiter exactly once |
| `Refusals.TruthHolds` | route/v1/user_2fa.go:67-214 | in every reachable state the reason of every refusal given so far was true |
| `Served.FlightIsThread` | route/v1/user_2fa.go:67-214 | every handler in flight in a run is its thread run alone from the row at its arrival, among exactly the statements that landed between its steps: same place, same row left, same writes in the same order |
| `Served.ServedAsFlight` | route/v1/user_2fa.go:67-214 | among those cuts a handler that ends as its steps do answers as the flight did and leaves the row the flight left |
| `Served.CutsAreSchedule` | service/user.go:105-187 | whatever other requests write in a run is what the imperative handlers allow for: the list only ever receives bcrypt hashes |
| `Served.VerifyServed` | route/v1/user_2fa.go:67-101 | the imperative verify served in a run: a session means a live token, an enabled row, a right factor and exactly one write of its own, which spends it; a refusal means none |
| `Served.LoginServed` | route/v1/user.go:120-179 | the imperative login served in a run: its answer agrees with the switch at an instant between first read and answer, and a wrong password writes nothing |
| `History.RowAlwaysOk` | service/user.go:99-187 | every legal history keeps the row invariant |
| `History.RecoveryLandsEnabled` | service/user.go:175-187 | a recovery write lands on an enabled row that lists its hash, and takes one hash out, although its key does not mention the switch |
| `History.SpentIsTaken` | service/user.go:181-186 | what is left of the list determines which hash was taken |
| `History.CodesConserved` | service/user.go:175-187 | listed and spent hashes are together exactly those the enrolment issued, and the list is in their order |
| `History.StepsIncrease` | service/user.go:163-165 | accepted steps ascend from the epoch's base to the recorded step, so they are no more than the steps passed |
| `History.LaterStepIsGreater` | service/user.go:163-165 | of two accepted steps of one epoch the later is greater |
| `History.StepAcceptableIff` | service/user.go:163-165 | the key of a step matches exactly when the epoch has not reached that step |
| `History.StepStaysRecorded` | service/user.go:110-112 | while the epoch lasts the row records no less than a step an enable or a verify recorded |
| `History.StepAgainIff` | service/user.go:163-165 | the key of a step already accepted matches again exactly when an enable, disable or reset came since and the epoch has stayed below that step |
| `History.RecordedSinceEnable` | service/user.go:110-112 | from an enable on the recorded step is under any bound on the accepted steps, whatever was recorded before |
| `History.EnabledIffStands` | service/user.go:110-145 | a row that was not enabled is so later exactly when an enrolment made in between stands |
| `History.NeverReturns` | service/user.go:110-145 | a secret that was placed and is not in the row is never there again |
| `History.EnabledStays` | service/user.go:122-145 | while its secret stays an enabled row stays enabled |
| `History.SameEnrolmentIffUntouched` | service/user.go:105-145 | the row shows an earlier secret and switch exactly when nothing set either in between: the pair is a sound key |
| `History.SecretsUsedOnce` | service/user.go:110-145 | each secret is placed, enabled and disabled at most once in a legal history |
| `History.SpentNeverListed` | service/user.go:175-187 | what the row lists was issued and not spent |
| `History.CodesUsedOnce` | service/user.go:175-187 | two recovery writes of a legal history spend different hashes |
| `History.HashNeverReturns` | service/user.go:175-187 | a hash that left the list is never listed again |
| `History.SameCodesIffUntouched` | service/user.go:167-187 | a list that is not empty reads the same exactly when nothing wrote it: the list is a sound key |
| `History.UnspentStaysListed` | service/user.go:173-174 | while the epoch lasts a hash nobody spent stays listed |
| `History.StoredVerifiesLatest` | service/user.go:114-120 | no stale swap restores an older password |
| `History.NoRehashAfterWrite` | service/user.go:118-120 | after any password write the stored hash needs no rehash |
| `History.SwapAtMostOnce` | route/v1/user.go:106-110 | a swap lands at most once, and never after a change or reset |
| `TwoFactor.OneWriteOneMove` | service/user.go:105-187 | each admissible write takes exactly its move of the atomic machine, and the machine allows it there |
| `TwoFactor.HistorySimulates` | service/user.go:105-187 | every legal history is a run of the atomic machine from what the row meant to what it means |
| `Requests.PostUserLogin` | route/v1/user.go:120-179 | the login as written, answering and writing as its steps do, whatever lands in between |
| `Requests.ClearThenFinish` | route/v1/user.go:153-178 | the clear of a pending secret and, when it changes no row, the re-read the answer then goes by |
| `Requests.PostUser2FAVerify` | route/v1/user_2fa.go:67-101 | the verify as written, answering and writing as its steps do, whatever lands in between |
| `Requests.VerifyByCode` | route/v1/user_2fa.go:86-92 | its TOTP branch: window on the row as read, then the conditional step write |
| `Requests.VerifyByRecovery` | route/v1/user_2fa.go:93-96 | its recovery branch: a second read, removal, then the write keyed on that list |
| `Requests.PostUser2FASetup` | route/v1/user_2fa.go:108-137 | the setup as written, answering and writing as its steps do |
| `Requests.PostUser2FAEnable` | route/v1/user_2fa.go:141-178 | the enable as written, with the re-read that tells a loser what happened |
| `Requests.PostUser2FADisable` | route/v1/user_2fa.go:181-214 | the disable as written, with exactly one of code and password |
| `Requests.PutUserPassword` | route/v1/user.go:355-378 | the password change as written, answering and writing as its steps do |
| `UserStore.UserStore.EnableUserTOTP` | service/user.go:110-112 | the UPDATE on the three columns, its key, and that the answer tells whether the row changed |
| `UserStore.UserStore.ReplacePasswordHash` | service/user.go:118-120 | the swap keyed on the hash as read |
| `UserStore.UserStore.ClearPendingTOTP` | service/user.go:126-128 | the clear keyed on the pending secret as read |
| `UserStore.UserStore.SetPendingTOTP` | service/user.go:135-137 | the write of a fresh secret keyed on the row being disabled |
| `UserStore.UserStore.DisableUserTOTP` | service/user.go:143-145 | the four columns zeroed, keyed on the enrolment checked |
| `UserStore.UserStore.ConsumeTOTPStep` | service/user.go:163-165 | the step write keyed on the step alone |
| `UserStore.UserStore.UpdateUserPassword` | service/user.go:193-195 | the unconditional password write, other columns untouched |
| `UserStore.UserStore.ResetUserCredentials` | service/user.go:189-191 | five columns in one statement: all of them or none |
| `UserStore.UserStore.ReplaceRecoveryCodes` | service/user.go:185-186 | comparing the stored JSON text with the text of the list as read lands exactly when comparing the lists would |
| `UserStore.UserStore.RemoveCode` | service/user.go:175-185 | the list marshalled after the removal is the list as read |
| `UserStore.UserStore.UseRecoveryCode` | service/user.go:175-187 | read, removal and keyed write as one operation, with any statements of other requests in between |
| `Json.UnmarshalUndoesMarshal` | service/user.go:185 | a stored list reads back as it was written |
| `Json.MarshalInjective` | service/user.go:185-186 | two lists have one JSON text exactly when they are equal |
| `Json.MarshalText` | service/user.go:185 | the text is the JSON array of the quoted hashes |
| `Recovery.NewRecoveryCodes` | service/totp.go:36-51 | eight codes with their hashes, pairwise, or an error and neither list |
| `Recovery.CodeIsFirstFifty` | service/totp.go:42 | the ten characters read in base 32 are the first fifty random bits |
| `Recovery.CodeDeterminesFifty` | service/totp.go:34-42 | two draws give one code exactly when their first fifty bits agree |
| `Recovery.SpellingIff` | service/totp.go:53-56 | a text normalises to a code exactly when it is the code letter by letter in either case, with hyphens anywhere and white space around |
| `Recovery.LowerCharIff` | service/totp.go:56 | which characters count as a given letter of a code: itself, its capital, and two capitals outside ASCII |
| `Recovery.SpaceIff` | service/totp.go:56 | which characters are trimmed, by code point |
| `Recovery.LettersOfAlphabet` | service/totp.go:42 | the letters of a code are a-z and 2-7 in the order of RFC 4648 |
| `Recovery.PlainIsSpelling` | service/totp.go:47 | the code as it is handed out, with its hyphen, is a spelling of it |
| `Recovery.HandedOutIsSpelling` | service/totp.go:47 | the code as handed out, with or without its hyphen and in either case, is such a spelling |
| `Recovery.HandedOutIsAccepted` | service/totp.go:53-63 | any spelling of a code handed out whose hash is still listed is accepted |
| `Recovery.FirstMatch` | service/totp.go:57-58 | the least index whose hash matches the normalised code, or none |
| `Recovery.ConsumeRecoveryCode` | service/totp.go:55-63 | the list without its first match, for every offset, length and capacity, with no array that existed before written |
| `GoSlices.Append` | service/totp.go:59 | append of one slice to another: contents, and in which case the backing array is written |
| `Totp.ScanWindow` | service/totp.go:20-30 | the loop over three steps finds what the window accepts |
| `Totp.VerifiesWithin` | service/totp.go:14-30 | from the second period of 1970 on, the answer is the least of now/30 - 1, now/30 and now/30 + 1 whose own counter the code matches and that is later than the last step, or none |
| `Totp.CounterOfStep` | service/totp.go:24 | a step is its own counter; the one before zero wraps |
| `Totp.AcceptsLeast` | service/totp.go:20-30 | the same for every clock, in terms of the conversion to a counter |
| `Totp.ClockSetBackRefuses` | service/totp.go:20-30 | with the clock set back so far that the next step is not beyond the recorded one, every code is refused |
| `Totp.OnePeriodLaterIff` | service/totp.go:21 | thirty seconds later the step is one more, exactly outside the period before the epoch |
| `Totp.AcceptedAfterOnePeriod` | service/totp.go:14-30 | a recorded step no later than the next is passed within one period |
| `Password.AcceptedIsSpelled` | pkg/utils/encryption/password.go:96-126 | whatever the integer scanner, what parses has six fields, canonical version and parameters and values within the bounds |
| `Password.ParsesExactly` | pkg/utils/encryption/password.go:96-126 | the accepted language in both directions, stated without a parser |
| `Password.ScannerDoesNotMatter` | pkg/utils/encryption/password.go:93-111 | two scanners that read back what is printed give the same parser |
| `Password.DerivationIsBounded` | pkg/utils/encryption/password.go:112-115 | a stored hash never asks for less than one pass, one lane and 8 KiB a lane, nor for more than 256 MiB, and the 32-bit product does not wrap |
| `Password.ParseUndoesPrint` | pkg/utils/encryption/password.go:63-126 | every hash within the bounds comes back from its PHC string |
| `Password.PrintUndoesParseIff` | pkg/utils/encryption/password.go:96-126 | an accepted string is what its hash prints exactly when both base64 fields are canonical |
| `Password.LineBreakIsIgnored` | pkg/utils/encryption/password.go:118-120 | for every hash an accepted string that is not what it prints |
| `Password.HashVerifies` | pkg/utils/encryption/password.go:63-91 | a fresh hash verifies its password and needs no rehash |
| `Password.HashIsSpelled` | pkg/utils/encryption/password.go:63-71 | a fresh hash in full: version 19, 19456 KiB, two passes, one lane, the salt, and the thirty-two bytes derived with just these |
| `Password.VerifiesWithItsOwn` | pkg/utils/encryption/password.go:75-91 | a stored hash verifies exactly the passwords whose key, derived with its own salt, parameters and key length, is its key; it needs a rehash exactly when these are not 19456, 2, 1 and 32 |
| `Password.PrintedVerifiesWithItsOwn` | pkg/utils/encryption/password.go:75-91 | the same of every printed hash within the bounds |
| `Password.OtherVerifiesDigest` | pkg/utils/encryption/password.go:81 | anything else that is stored verifies exactly the passwords it is the MD5 of, and needs a rehash |
| `Password.SaltsShow` | pkg/utils/encryption/password.go:63-71 | hashes of one password under two salts differ |
| `Password.LegacyVerifies` | pkg/utils/encryption/password.go:75-91 | a stored MD5 verifies exactly the candidates of that digest, and asks to be replaced |
| `Password.SscanfReadsBack` | pkg/utils/encryption/password.go:102-111 | a scanner that ignores trailing text, as Sscanf does, reads back what is printed |
| `Password.ParseArgonInPlace` | pkg/utils/encryption/password.go:96-126 | the parser filling its result field by field agrees with the parser as a function, and leaves nothing filled on failure |
| `Text.JoinUndoesSplit` | pkg/utils/encryption/password.go:97 | splitting on the separator loses nothing and no part holds it |
| `Text.SplitUndoesJoin` | pkg/utils/encryption/password.go:97 | parts without the separator come back from their join |
| `Text.ScanUndoesDecimal` | pkg/utils/encryption/password.go:108-109 | scanning a printed number gives the number and the rest of the text |
| `Base64.DecodeUndoesEncode` | pkg/utils/encryption/password.go:40 | decoding undoes encoding at every length mod 3 |
| `Base64.DecodesIff` | pkg/utils/encryption/password.go:118-121 | line breaks aside, what decodes to given bytes is their encoding but for the unused bits of the last character |
| `Base64.CharsOfAlphabet` | pkg/utils/encryption/password.go:40 | the standard alphabet, by code point |
| `Base64.EncodesThree` | pkg/utils/encryption/password.go:40 | three bytes and four characters hold the same twenty-four bits, most significant first |
| `Base64.EncodesTwo` | pkg/utils/encryption/password.go:40 | two last bytes are three characters, filled with zero bits |
| `Base64.EncodesOne` | pkg/utils/encryption/password.go:40 | one last byte is two characters, filled with zero bits |
| `Base64.EncodeUndoesDecodeIff` | pkg/utils/encryption/password.go:118-121 | a decodable text is its own re-encoding exactly when it has no line break and zero unused bits |
| `Gate.GateBounds` | pkg/utils/encryption/password.go:42-53 | in every reachable state running calls and free slots make two, and memory in flight is at most 2 x 256 MiB |
| `Gate.EntersWith` | pkg/utils/encryption/password.go:67-77 | what a call asks of the gate: 19 MiB to store, what the stored hash says to check, nothing for a legacy digest |
| `Gate.NeverStuck` | pkg/utils/encryption/password.go:48-53 | while a call is unfinished some call can take a slot or give one back |
| `Gate.EveryCallFinishes` | pkg/utils/encryption/password.go:48-53 | once no call arrives any more, every maximal schedule finishes every call and frees both slots, within two steps a call |
| `Gate.NoCallStarves` | pkg/utils/encryption/password.go:42-53 | however many calls go on arriving, a waiting call is overtaken by none, waits for no more slots taken and given back than the calls in front of it have left, and until its turn such a step can be taken |
| `Gate.ArgonSlots.TryAcquire` | pkg/utils/encryption/password.go:49 | the send goes through exactly when fewer than two derivations run; one more runs then, never more than two, on at most 512 MiB in all |
| `Gate.ArgonSlots.Leave` | pkg/utils/encryption/password.go:50 | one derivation fewer runs, its memory is back, and the call at the head of the queue can go on |
| `Gate.ArgonSlots.IdKey` | pkg/utils/encryption/password.go:48-53 | the whole call, arriving at a gate in any state: it waits for no more steps than the calls it found have left, returns the key asked for, and leaves the gate as full as the others left it |
| `Limiter.TakingKeepsAccounts` | route/v1/user_2fa.go:19-26 | what the bucket holds and what it gave out since any admission never exceed the burst and the refill since |
| `Limiter.WindowBudget` | route/v1/user_2fa.go:19-26 | in any window of w seconds at most 5 + floor(w/12) admissions |
| `Limiter.AllowedIff` | route/v1/user_2fa.go:19-26 | the bucket refuses exactly what would put some window over the budget |
| `Limiter.Limiters.Allow` | route/v1/user_2fa.go:32-41 | what is let through stays within 5 + floor(w/12) in every window of w seconds of that user, costs no other user anything, and is everything that does; so a first request and one twelve seconds after the last are never refused |
| `Limiter.Limiters.EveryWindow` | route/v1/user_2fa.go:19-41 | after any calls, the admissions of every user keep within the budget in every window |

## Left out

- Results.StepsIncreaseInEpoch: is stated within an epoch and of verifies only; across a disable it is false of the code (`Twice.StepTwiceExample`), and a disable records no step (`Twice.CodeTwiceExample`).
- Results.OneGrantPerStep: is per time step, not per six-digit string; one string may be the code of two steps.
- Results.GrantsBound: counts from the clock reading at which the winning enable checked its code, which is not after its write.
- Recovery.SpellingIff: folds the case of A to Z and of the two other letters that Go's ToLower takes into the alphabet of a code; the case of further letters is kept, which concerns only texts that spell no code.
- Requests.PostUser2FAVerify: takes the limiter's answer as an input, like the other three routes; `Server` and `Budget` tie it to the bucket, and `Served` ties the handler to `Server`.
- HTTP binding, status codes and messages, the JSON envelope, the JWT middleware and who may call which route: an answer keeps the reason, not its number.
- The service-wide login limiter: whether it lets a login through is an input.
- User lookup by name or id, and more than one user: the model has one row; a failing or empty lookup is an input.
- Deleting the row, reusing its id, and restarting the process inside a run (which would renew the pre-auth key and refill the buckets); a run may start from the row a restart finds.
- HOTP, argon2, MD5, bcrypt, ECDSA and JWT encoding, and the generator of random bits: functions and inputs with the laws listed above.
- Lifetime of a refresh token and the issuer of an access token: parameters, since the library that sets them is not part of this model.
- SQLite beyond one statement at a time changing one row or none.
- PostUserRefreshToken as a method: it writes nothing, and is modelled as a step of `Handlers` only.
- UpdateUserTOTP, which no route calls, and UpdateUser, which omits the five columns modelled here.
- Go strings as bytes: the model's strings are sequences of characters, and a recovery code of malformed UTF-8 is not distinguished.
- Registration, the first administrator, avatars, images, custom configuration, the signing-key file, the event store, the websocket listener and the migration tool: file and network work with only easy claims.
