# Verified model of effect-auth's credential and session protocols

This project models the parts of effect-auth that decide who may sign in, for how long and
how strongly, and proves what those parts promise. Each module follows one source file (or
one protocol inside it) and states its main results over every input, every run or every
interleaving.

**How the protocols are modelled.** A service that changes stored rows is a class whose
methods perform the reads and writes in the order the source performs them; each method's
contract gives its answer and the whole new state. Where calls race, the same reads and
writes are the steps of a state machine: a call in progress is a fibre with a program
counter, one SQL statement or one transaction is one step, a unique index is a guard on the
insert, and `FOR UPDATE` (or the row lock a delete takes) is an explicit lock. A lemma
`...IsARun` or `...Alone` shows that one undisturbed fibre does what the method does.

**What is a parameter.** Clock readings, fresh ids and secrets, hook answers, KDF and HMAC
outputs, and configuration. UTF-8, base64url and `Number` are values with laws
(`Platform.Lawful`, `Platform.ReadsDecimals`; `LawsAreConsistent` exhibits a platform that
keeps them); `char` ranges over Unicode scalar values, so a
string here has no lone surrogates. A SHA-256 digest or an HMAC tag is a constructor applied
to what was hashed: equal digests mean equal preimages.

## Modules

- `Prelude`, `Numerals`, `Bitwise`, `Texts`, `Platform`: shared vocabulary. Numerals in any
  base, JavaScript's 32-bit shifts on unbounded integers, splitting and decimal digits.
- `Base32`: the bit-buffer encoder and decoder against RFC 4648's regrouping of bits, stated
  as one equation between numerals.
- `Totp`, `Token`: RFC 4226 and RFC 6238 counters, truncation, the acceptance window and the
  replay rule over runs; rejection sampling and its uniformity.
- `Hmac`, `PasswordHasher`: the signed envelope; the stored hash format, its parser, and the
  bounds on what a stored string may ask a KDF for.
- `Verifications`, `Challenges`: single-use tokens and short codes, the latter over every
  interleaving of claim, compare and write-back.
- `Assurance`, `Sessions`: the authentication log, the level derived from it, policies, and
  the session life cycle with its rolling refresh over every interleaving.
- `Hooks`, `SignIn`: hooks and deciders as state-passing functions, their composition, and
  the sign-in choke point for any list of plugins.
- `Accounts`, `Unlink`: OAuth resolution racing on unique indexes, and "never remove the last
  way in" under row locks.
- `Users`: sign-up, verification, reset, password change, the two-hop change of address and
  deletion, as operations over users, sessions and tokens.
- `Anonymous`: visitors arriving, being adopted, merged away and swept.

## Where the code and its documentation part

- `SessionStore.elevate` is specified to write the log, the level, the stamp and the digest
  (src/domain/Stores.ts:343-346), and `grantedLifetime` relies on `updated_at` being written
  by the insert and by `touch` only (src/domain/Sessions.ts:199). The SQL store also sets
  `updated_at` (src/sql/stores/Sessions.ts:236), from a clock it reads before it takes the
  row lock. The model takes that stamp as an option. `StampedElevation` gives the exact
  effect on what the next refresh grants. A lifetime stays within its grant exactly when
  each stamp is at least the expiry less the grant (`GrantStepExactly`, and `NeverPromoted`
  over runs), and `LateStampPromotes` is a run in which an older stamp lets a short session
  outlive its kind's lifetime.
- `linkOAuth`'s comment says a retry finds the row the winner wrote
  (src/domain/Accounts.ts:489-496). For callbacks of one brand-new identity that is proved
  (`OneUserOneAccount`, `EveryoneLandsExactly`), and under any hooks for any identities no
  two of which are ever stored with one address (`NobodyRunsOut`). When a second identity is
  stored with the same address, one retry can run out (`RunsOut`);
  `SingleRetrySufficesExactly` says exactly when, hooks that rewrite the address or its
  verification included.
- The merge hook checks for a way in before it deletes the visitor
  (src/anonymous/Anonymous.ts:826-854), and no lock on the visitor's accounts covers the
  gap. `RiskExactly` and `PersonsAreKept` say exactly which late arrivals it misses;
  `LateCredentialIsLost` is such a run.
- `deleteUser` retires the link for the address its caller knew, which may be outdated
  (src/domain/Users.ts:542-549). `DeleteUser` shows that no link for the current address
  survives all the same: only unverified users are mailed one, and those never moved.

## Model

| member | source | states |
|---|---|---|
| Base32.Encode | src/internal/base32.ts:35-51 | the loop over a wrapping 32-bit buffer writes exactly the reference encoding of the bytes |
| Base32.StripPadding | src/internal/base32.ts:70-72 | every trailing `=` goes and nothing else |
| Base32.DecodeBody | src/internal/base32.ts:73-91 | success with the bytes the characters spell, or which of the three refusals applies |
| Base32.Decode | src/internal/base32.ts:66-92 | succeeds with `b` exactly when the text, unpadded and upper-cased, is the encoding of `b`; otherwise says why no byte string fits |
| Base32.EncodedSpells | src/internal/base32.ts:35-51 | the encoding is upper-case, unpadded, and its 5-bit digits are the bytes' value left-aligned with zero fill (RFC 4648 section 6) |
| Base32.SpellingUnique | src/internal/base32.ts:58-61 | one byte string has one accepted spelling and one spelling names one byte string |
| Base32.SpellsIffEncoded | src/internal/base32.ts:53-65 | a canonical text spells `b` if and only if it is the encoding of `b` (RFC 4648 section 3.5) |
| Base32.RoundTrip | src/internal/base32.ts:35-92 | the encoding of `b` is accepted for `b` and for no other byte string |
| Totp.CounterBytes | src/crypto/Totp.ts:88-103 | the two 32-bit loops write the eight big-endian octets of the whole counter |
| Totp.CounterOctetsInjective | src/crypto/Totp.ts:88-103 | the octets are the 64-bit form, so counters of a range of 2^64 never share them |
| Totp.BinaryIs31Bits | src/crypto/Totp.ts:112-112 | masking, shifting and or-ing four octets is their big-endian value without the top bit |
| Totp.TruncateDenotes | src/crypto/Totp.ts:110-114 | exactly `digits` decimal digits denoting the 31-bit value modulo `10^digits`, at an offset inside any tag of 20 octets (RFC 4226 section 5.3) |
| Totp.EqualCodes | src/crypto/Totp.ts:133-140 | the accumulated difference is zero exactly for equal codes |
| Totp.StepHolds | src/crypto/Totp.ts:196-197 | the step is the one whose `period` seconds hold the moment |
| Totp.Verify | src/crypto/Totp.ts:258-287 | candidate list, codes and comparison loop answer the upward search of the window |
| Totp.AcceptedIsLeast | src/crypto/Totp.ts:258-287 | the answer is `Some(s)` if and only if `s` is the least step of the window above `lastUsedStep` whose code this is (RFC 6238 section 5.2) |
| Totp.ReplayRule | src/crypto/Totp.ts:238-257 | over any run that stores each accepted step, accepted steps strictly increase |
| Totp.AcceptanceRate | src/crypto/Totp.ts:196-287 | acceptances between two moments are at most the elapsed steps plus twice the window plus one |
| Token.MintedByFirstAccepted | src/crypto/Token.ts:134-144 | the first draw below the limit decides the code |
| Token.PreimagesAre | src/crypto/Token.ts:134-157 | a draw is among a code's preimages exactly when the sampler mints that code from it |
| Token.Uniform | src/crypto/Token.ts:134-157 | for 1 to 9 digits every code has exactly `limit / 10^digits` of the 2^32 draws, and more than half of all draws are accepted |
| Token.MintedShape | src/crypto/Token.ts:151-157 | a defect exactly outside 1 to 9 digits, undecided only while every draw is refused, otherwise exactly that many digits |
| Texts.PaddedDecimal | src/crypto/Token.ts:143-143 | zero-padding writes exactly the width and denotes the number |
| Texts.PaddedDecimalOnto | src/crypto/Token.ts:143-143 | every digit string of the width is the padding of the number it denotes |
| Texts.SplitJoin | src/crypto/PasswordHasher.ts:257-300 | splitting a join of separator-free parts gives the parts back |
| Hmac.WithContext | src/crypto/Hmac.ts:104-110 | the array filled is the context's octets followed by the payload |
| Hmac.SignedValue | src/crypto/Hmac.ts:165-169 | the envelope of payload and tag |
| Hmac.VerifySignedValue | src/crypto/Hmac.ts:170-181 | the payload exactly when both halves decode and the tag is right |
| Hmac.OpensUnderItsContext | src/crypto/Hmac.ts:165-181 | a signed value opens to its payload under its own context, under no other, and never for an empty payload |
| Hmac.OpenedExactly | src/crypto/Hmac.ts:170-181 | the texts that open to a payload: one that decodes to it, the first dot, and one that decodes to its tag under that context |
| Hmac.ContextsCollide | src/crypto/Hmac.ts:104-110 | two contexts can cover the same bytes exactly when one begins the other |
| PasswordHasher.TimingSafeEqual | src/crypto/PasswordHasher.ts:189-196 | true exactly for equal octets |
| PasswordHasher.ParseHash | src/crypto/PasswordHasher.ts:257-299 | the loop that fills the dictionary parses every string as the reference does, refusals in order |
| PasswordHasher.ParseRecovers | src/crypto/PasswordHasher.ts:242-299 | parsing a formatted hash recovers algorithm, decimal parameters, salt and key |
| PasswordHasher.VerifyHash | src/crypto/PasswordHasher.ts:495-514 | one KDF call, as the stored string plans it, compared with the stored key |
| PasswordHasher.StoredHashIsBounded | src/crypto/PasswordHasher.ts:315-410 | for every stored string, verification fails or calls the KDF within floors and ceilings, with scrypt's `maxmem` at most 2^35 + 2^20 |
| PasswordHasher.HashThenVerify | src/crypto/PasswordHasher.ts:495-567 | a fresh hash verifies exactly the passwords whose KDF output is equal when its cost is within bounds, and is refused when it is not |
| Verifications.SubjectTokenRoundTrip | src/domain/Verifications.ts:83-100 | a token decodes to its subject and secret exactly when both are non-empty |
| Verifications.DecodedExactly | src/domain/Verifications.ts:93-100 | the texts read as a token: decodable head, first dot, non-empty secret |
| Verifications.NamespacesCollide | src/domain/Verifications.ts:218-218 | two purposes can write one identifier exactly when the names agree or one extends the other at a colon |
| Verifications.IdentifiersApart | src/domain/Verifications.ts:205-218 | unless one name extends the other at a colon, an identifier names its purpose and its subject |
| Verifications.CodesApartFromLinks | src/domain/Challenges.ts:268-281 | every name, whatever it is, is apart from its own code namespace |
| Verifications.DeployedNamesApart | src/domain/Verifications.ts:226-308 | no two namespaces the library and its plugins declare, links or codes, `email-otp:sign-in` and `phone:verify` among them, can write one identifier |
| Verifications.VerificationsService.Consume | src/domain/Stores.ts:612-633 | the atomic claim: the unexpired row goes and comes back to this caller |
| Verifications.VerificationsService.Issue | src/domain/Verifications.ts:505-531 | one more row, its digest, payload and expiry, and the token that names it |
| Verifications.VerificationsService.Claim | src/domain/Verifications.ts:533-543 | one answer for every way of failing; only rows under the identifier and digest go |
| Verifications.VerificationsService.Retire | src/domain/Verifications.ts:545-546 | every row under the identifier goes, counted |
| Verifications.VerificationsService.RetireUserSubjectTokens | src/domain/Verifications.ts:337-362 | the loop over the four purposes retires them all |
| Verifications.RetiredExactly | src/domain/Verifications.ts:358-362 | retiring a list of purposes removes exactly their rows for the subject |
| Verifications.UserTokensRetired | src/domain/Verifications.ts:318-362 | after it none of the four kinds claims for the user, and the address's link is untouched |
| Verifications.ClaimedOnce | src/domain/Verifications.ts:451-463 | a claimed token never claims again, then or later, under any purpose of the name |
| Verifications.SweepTakesTheDead | src/domain/Stores.ts:648-653 | a sweep takes exactly the rows no claim could answer any more |
| Verifications.IssuedIsClaimable | src/domain/Verifications.ts:505-543 | an issued token claims exactly until it expires, and only its row goes |
| Verifications.OtherPurposesCannotReach | src/domain/Challenges.ts:76-96 | a claim under a name apart from a row's, link or code, leaves the row |
| Verifications.HandlesAreNotLinks | src/domain/Challenges.ts:76-96 | for any purpose name, a handle cannot be spent as a link of it, nor a link as a handle |
| Challenges.CodeHashBinds | src/domain/Challenges.ts:283-298 | a stored tag answers to one code on its own row and, for one-line codes, to none of another row |
| Challenges.RestoredExpiry | src/domain/Challenges.ts:363-376 | a restore moves the expiry by the gap between its clock reads, equal when they coincide, and never revives a row expired at the first |
| Challenges.ChallengesService.PurposeOfRows | src/domain/Challenges.ts:268-281 | the memo answers the code namespace of the name and stays so |
| Challenges.ChallengesService.IssueCode | src/domain/Challenges.ts:300-328 | both namespaces retired, then one row; a budget below one touches nothing |
| Challenges.ChallengesService.VerifyCode | src/domain/Challenges.ts:330-397 | reply and rows for every handle, code and fault; `FirstRightGuessWins` says what the replies mean |
| Challenges.ChallengesService.Restore | src/domain/Challenges.ts:363-376 | the claimed row again under its own handle with the budget given |
| Challenges.ChallengesService.Retire | src/domain/Challenges.ts:399-400 | the code namespace's rows of the subject go |
| Challenges.OnePlaceAlways | src/domain/Challenges.ts:330-397 | over every interleaving a handle's row is stored once, or held by one fibre, or gone |
| Challenges.AlwaysAccounted | src/domain/Challenges.ts:346-395 | wrong guesses spent and budget carried always add up to the attempts, at most one comparison is right, and a claimable row has its expiry plus the drift |
| Challenges.OneAnswer | src/domain/Challenges.ts:330-397 | at most one call on a handle succeeds, with the code and the row that were issued |
| Challenges.SpentForever | src/domain/Challenges.ts:392-395 | after success or exhaustion no claim on the handle succeeds again in any continuation |
| Challenges.DriftIsTheGaps | src/domain/Challenges.ts:363-376 | the expiry's total drift is the sum of the gaps of the handle's restores, and what was issued never changes |
| Challenges.IssueIsARun | src/domain/Challenges.ts:316-327 | issuing is those machine steps in that order; after it the subject's only row in either namespace is the new one and every other row stays |
| Challenges.VerifyIsARun | src/domain/Challenges.ts:330-397 | an undisturbed fibre leaves the rows and the answer that `VerifyCode` does |
| Challenges.FirstRightGuessWins | src/domain/Challenges.ts:195-211 | the answer to each of any serial guesses, each with its own three clock readings: the first right one before the deadline with fewer misses than the budget is told the subject, the row as it stood and its payload; a fault in time is told so and costs nothing; nobody else learns anything |
| Challenges.IssuedCodeAnswers | src/domain/Challenges.ts:300-397 | a code answers with the subject and payload it was issued for, its budget less the misses and the deadline |
| Challenges.OthersStand | src/domain/Challenges.ts:330-397 | a call touches the row its handle names and no other |
| Challenges.OthersWait | src/domain/Challenges.ts:330-397 | a step moves no call but the one it names |
| Challenges.DeadlineStands | src/domain/Challenges.ts:363-376 | where readings coincide within each call that deadline is the expiry the challenge was issued with |
| Assurance.LevelExactly | src/domain/Assurance.ts:209-215 | `aal0` with no counted evidence, `aal2` with a multi-factor ceremony or two factors |
| Assurance.MoreEvidenceNeverLowers | src/domain/Assurance.ts:209-215 | more evidence never lowers the level; order and duplicates do not matter |
| Assurance.AmrOf | src/domain/Assurance.ts:273-280 | no value twice, in order of first arrival, exactly what the evidence contributes, and `mfa` last exactly at `aal2` (RFC 8176 section 2) |
| Assurance.ReferencesMean | src/domain/Assurance.ts:236-258 | what each reference says of the evidence, and that there is no other |
| Assurance.InOrderOfArrival | src/domain/Assurance.ts:276-284 | the references come once each, in the order the log first offered them |
| Sessions.RefreshNeverLengthens | src/domain/Sessions.ts:216-232 | a refresh keeps the lifetime it read when its clock reads coincide, and loses the gap otherwise |
| Sessions.RefreshWindow | src/domain/Sessions.ts:228-249 | due `updateAge` after the last write; there is a moment to refresh exactly when the lifetime exceeds `updateAge` |
| Sessions.EveryNewSessionHasAWindow | src/config/AuthConfig.ts:744-751 | what a new session is granted, the gap between call and insert taken off, and that it can be extended exactly when that exceeds `updateAge`; with no gap only a short session that lasts `updateAge` cannot |
| Sessions.AdmittedExactly | src/domain/Sessions.ts:289-329 | admitted exactly when the entries left after refused recovery codes meet each clause stated: one of them for `aal1`, a multi-factor ceremony or two factors for `aal2`, a listed method, and authentication less than `maxAge` ago |
| Sessions.MonotoneInEvidence | src/domain/Sessions.ts:317-329 | appended evidence, a later stamp and an earlier judgement never lose an admission |
| Sessions.AntitoneInPolicy | src/domain/Sessions.ts:291-329 | a policy stricter in level, age, methods or recovery admits nobody a laxer one refuses, and refusing recovery judges the log without the codes |
| Sessions.LevelIsTheLogs | src/domain/Sessions.ts:610-646 | in every reachable store and every answer the level is derived from the log |
| Sessions.LogOnlyGrows | src/domain/Sessions.ts:633-647 | over every interleaving a surviving row's log is the old one plus every committed elevation in order, its level never falls, and only elevation moves the stamp or the token |
| Sessions.ElevationFreshens | src/domain/Sessions.ts:633-647 | an elevation appends the evidence as it was proved, is fresh for exactly `freshAge` from its reading, and moves nothing but log, level, time, token and stamp |
| Sessions.RefreshDoesNotFreshen | src/domain/Sessions.ts:251-266 | without an elevation a session is fresh exactly until `freshAge` after its authentication, whatever was refreshed |
| Sessions.ReplacedNeverResolves | src/domain/Sessions.ts:141-156 | a digest replaced by an elevation never resolves again and the new one names the same session |
| Sessions.SessionsGoBy | src/domain/Sessions.ts:691-715 | a session goes exactly by a call that found it expired, a revocation that names its user and covers it, or a sweep of what has expired |
| Sessions.NeverPromoted | src/domain/Sessions.ts:202-219 | over every interleaving, no row's lifetime ever exceeds what its kind is granted exactly when every elevation's stamp is in order |
| Sessions.InitialWithinGrant | src/domain/Sessions.ts:202-219 | the same from an empty store; no stamp, or one read under the row's lock, is always in order |
| Sessions.GrantStepExactly | src/sql/stores/Sessions.ts:207-237 | one step keeps every lifetime within its grant exactly when it is no elevation, or one whose stamp is at least the expiry less the grant |
| Sessions.StampedElevation | src/sql/stores/Sessions.ts:200-245 | what a stamp does to the next refresh: longer, equal or a window lost, each with its exact condition |
| Sessions.LateStampPromotes | src/sql/stores/Sessions.ts:207-237 | a run, clock readings in the source's order, in which an elevation that waited for the lock grants a short session more than its lifetime |
| Sessions.RefreshesApart | src/domain/Sessions.ts:240-241 | serial refreshes are at least `updateAge` apart |
| Sessions.LifetimeAfterCalls | src/domain/Sessions.ts:684-688 | after serial calls the lifetime is the initial one less every gap |
| Sessions.VerifiedExactly | src/domain/Sessions.ts:667-689 | one call's answer and rows in full: unknown, expired, current until `updateAge` after the last write, and then given its lifetime again |
| Sessions.SessionsService.CreateUnchecked | src/domain/Sessions.ts:596-631 | one new row, resolvable by its token, its level derived from its log |
| Sessions.SessionsService.Elevate | src/domain/Sessions.ts:633-665 | the stored row's log is appended to, whatever copy the caller held |
| Sessions.SessionsService.Verify | src/domain/Sessions.ts:667-689 | unknown, expired, current or refreshed, with the rows each leaves |
| Sessions.SessionsService.DeleteById | src/domain/Sessions.ts:691-703 | removes the session exactly when it is this user's |
| Sessions.SessionsService.RevokeAll | src/domain/Sessions.ts:705-709 | removes and counts every session of the user |
| Sessions.SessionsService.RevokeOthers | src/domain/Sessions.ts:711-715 | removes and counts all but the current one |
| Sessions.VerifyIsARun | src/domain/Sessions.ts:667-689 | an undisturbed fibre leaves the rows and the answer that `Verify` does |
| Hooks.HooksMonoid | src/domain/Hooks.ts:410-442 | combining hook sets is associative with `{}` as identity, absence included |
| Hooks.EnterSplit | src/domain/Hooks.ts:383-393 | a refusal in a first part is final: nothing after it is entered |
| Hooks.ThreadSplit | src/domain/Hooks.ts:411-418 | the candidate a later hook sees is the one the earlier ones left |
| Hooks.GatesInOrder | src/domain/Hooks.ts:410-501 | hooks appended plugin after plugin behave, for each of the six gates, as the plugins entered in order, and exist exactly when one plugin declares them |
| Hooks.CandidateThreaded | src/domain/Hooks.ts:396-418 | the installed rewrite threads the candidate through every plugin and exists exactly when one declares it |
| SignIn.PipelineMonoid | src/domain/SignIn.ts:312-329 | combining pipelines is associative with the empty one as identity |
| SignIn.DecideSplit | src/domain/SignIn.ts:318-325 | a challenge or a refusal ends the pipeline |
| SignIn.PipelineInOrder | src/domain/SignIn.ts:348-353 | the appended pipeline asks the plugins' deciders in order |
| SignIn.SignInService.CompleteSignIn | src/domain/SignIn.ts:438-487 | the composed hooks and pipeline do what the plugins would one by one, for any list |
| SignIn.OneRowOneEvent | src/domain/SignIn.ts:438-487 | for plugins that may delete session rows but add none: on `Complete` one row, with its user, log, lifetime and time of authentication, and one event are all that is added; otherwise nothing is added |
| SignIn.MergingOnlyRemoves | src/anonymous/Anonymous.ts:799-857 | the merge hook, which deletes the visitor's sessions, is such a plugin |
| SignIn.MergeTakesTheVisitors | src/anonymous/Anonymous.ts:799-857 | the merge hook leaves alone whoever signs in as who they are, passes its refusal on, and takes the visitor's sessions and nobody else's |
| Accounts.CallsFinish | src/domain/Accounts.ts:497-501 | whatever others do, a call ends within six statements and one retry |
| Accounts.OneUserOneAccount | src/domain/Accounts.ts:427-501 | every interleaving of callbacks for one brand-new identity creates one user and one account; each finishes on that user or is turned away by the gate |
| Accounts.EveryoneLandsExactly | src/domain/Accounts.ts:130-163 | every callback lands in every interleaving exactly when the new user welcomes a match by address, as a verified identity the hook leaves verified always does |
| Accounts.TurnedAway | src/domain/Accounts.ts:441-453 | the refusal happens: a run in which an unverified twin is turned away |
| Accounts.NobodyRunsOut | src/domain/Accounts.ts:497-501 | under any hooks, over every interleaving of callbacks for any identities whose stored addresses are their own: no callback exhausts its single retry |
| Accounts.FamilyLands | src/domain/Accounts.ts:427-501 | under hooks that leave address and verification alone, each callback for such identities lands, or is turned away by the gate while unverified |
| Accounts.SingleRetrySufficesExactly | src/domain/Accounts.ts:489-501 | for two new identities under hooks that never refuse, whatever they rewrite: no interleaving exhausts a retry exactly when the stored addresses differ, or neither would write once the other has the address |
| Accounts.RunsOut | src/domain/Accounts.ts:489-501 | two identities stored with one address, one of which would write all the same: a run in which a callback loses both its attempts |
| Accounts.IdentityNeverMoves | src/domain/Accounts.ts:427-501 | over every interleaving indexes and foreign key hold and a linked identity keeps its user |
| Accounts.AttachedOnProof | src/domain/Accounts.ts:130-163 | over every run an account is added only for an identity nobody holds; to a user who was there only where the provider verified the shared address, the provider is trusted or the user had verified it, and the hook allowed it; otherwise to the user that step created |
| Accounts.AnswerWhenHeld | src/domain/Accounts.ts:427-437 | a held identity signs its owner in with the new tokens, or answers that the owner is gone |
| Accounts.AnswerByAddress | src/domain/Accounts.ts:439-465 | an unheld identity whose address somebody holds: turned away, refused by the hook, or linked onto them, each with its condition |
| Accounts.AnswerToANewcomer | src/domain/Accounts.ts:467-487 | neither held: the user the hook makes of the candidate with the account, or the refusal or taken address that leaves nothing |
| Accounts.AccountsService.AttemptLinkOAuth | src/domain/Accounts.ts:427-487 | the three branches, an account whose owner is gone included, or a unique violation that left nothing; an address match links only on proof from both sides or a trusted provider |
| Accounts.AccountsService.LinkOAuth | src/domain/Accounts.ts:497-501 | two attempts at most, as an undisturbed fibre; for an unheld identity whose address somebody holds the answer is `AccountAlreadyLinked` exactly without a verified address from the provider and a trusted provider or a verified local one |
| Accounts.AccountsService.LinkToUser | src/domain/Accounts.ts:503-527 | unknown user, somebody else's identity, a refresh, a refusal or a new row |
| Accounts.AccountsService.Unlink | src/domain/Accounts.ts:539-564 | removes exactly the named row, when it is the user's; refused exactly when there are no factors and every other row of theirs is a credential row without a hash |
| Unlink.NeverLockedOut | src/domain/Accounts.ts:539-564 | over every interleaving a user with a factor, a provider's row or a password keeps one of those |
| Unlink.EachRemovesItsOwn | src/domain/Accounts.ts:559-563 | each success removes one row of that user and no two remove the same |
| Unlink.NoOtherRemoval | src/domain/Accounts.ts:539-564 | every row that disappears was removed by a call that named it |
| Unlink.UnlinkAlone | src/domain/Accounts.ts:539-564 | one undisturbed transaction, outcome and rows, a spare way in being a factor, a provider's row or a password |
| Unlink.PlainReadsLockOut | src/domain/Accounts.ts:238-245 | without the lock two unlinks can leave no way in |
| Users.OneLinkPerHop | src/domain/Users.ts:506-520 | a user has at most one outstanding link of each hop |
| Users.SecondHopOrigin | src/domain/Users.ts:666-697 | every outstanding second hop came of a followed first hop, or was asked for with a row of that user, however old, that was unverified |
| Users.VerifiedWasProven | src/domain/Users.ts:743-747 | a verified address was proved by a claimed mailed token, or is the one its owner was created verified with |
| Users.HistoryIsHonest | src/domain/Passwords.ts:1075-1094 | proof is recorded only by claiming a live link mailed to that address, a hop only by claiming a live first hop, a verified birth only by provisioning or by the creation hook |
| Users.SecondHopsGoToFreeAddresses | src/domain/Users.ts:660-720 | a second hop is minted only for an address nobody holds |
| Users.AddressMovesByClaim | src/domain/Users.ts:730-780 | an address changes only by claiming that user's live second hop, to where it was mailed |
| Users.VerifiesItsUser | src/domain/Passwords.ts:1075-1094 | a verification link marks the very user it was mailed to, who still holds the address |
| Users.ResecuredLeavesNothing | src/domain/Verifications.ts:310-335 | a reset, a password or address change or a deletion leaves no link of the user; a reset or deletion no session, a password change none but the current one unless told otherwise; a move or deletion no link for the old address, even by an outdated row |
| Users.ResecuredForGood | src/domain/Users.ts:751-764 | a link outstanding when an account is re-secured opens nothing ever after |
| Users.RowsChangeOnlyBy | src/domain/Users.ts:740-764 | a user's row changes only in its password, by a reset claiming their link or a change or first password naming them, in its verification, by a link mailed to their address, or in its address, by the second hop mailed there |
| Users.UsersComeAndGoBy | src/domain/Passwords.ts:655-757 | users come only as the candidate or what the hook made of it, at a free address, and go only by a deletion |
| Users.SessionsEndOnlyBy | src/domain/Passwords.ts:1055-1059 | a session ends only by a reset or deletion of its user, or a password change made elsewhere |
| Users.LinksComeBy | src/domain/Users.ts:506-535 | a link is minted only by a call that mails its kind, under a new secret, to expire after its kind's lifetime |
| Users.LinksGoBy | src/domain/Verifications.ts:310-362 | a link goes only by being presented, replaced or overtaken by a re-securing or deletion |
| Users.ExpiredOpensNothing | src/domain/Verifications.ts:533-543 | presenting an expired link changes nothing |
| Users.LiveOpens | src/domain/Users.ts:700-780 | a live link does what it was mailed for, once, while its user is there and the address free |
| Users.LiveVerifies | src/domain/Passwords.ts:1075-1094 | a live verification link verifies somebody at the address it was mailed to, once |
| Users.AskingMails | src/domain/Passwords.ts:858-887 | a reset or verification reaches whoever holds the address, and for nobody leaves no trace; a deletion is mailed or done as configured |
| Users.ChangeAnswersMean | src/domain/Users.ts:634-698 | what each answer to a request to change address says of the links it leaves and of the address |
| Users.SignUpAnswersMean | src/domain/Passwords.ts:699-757 | each refusal's exact condition, without a trace, and otherwise what is stored and mailed |
| Users.ProvisionCreates | src/domain/Users.ts:573-603 | creates exactly when no hook refuses and the address stored is free |
| Users.UsersService.RequestEmailChange | src/domain/Users.ts:634-698 | answer and state of every branch: unchanged, refused by policy, taken or free, verified or not, as the caller's row says |
| Users.UsersService.ConfirmEmailChange | src/domain/Users.ts:700-728 | the first hop spent and, while its user is there and the address free, the second minted |
| Users.UsersService.VerifyEmailChange | src/domain/Users.ts:730-780 | the address moved to where the link was mailed, verified, the rest of the row as it was, with every link of the user gone; or the token spent, each refusal with its condition |
| Users.UsersService.SendVerificationHop | src/domain/Users.ts:513-535 | the outstanding second hop goes before the new one exists |
| Users.UsersService.RetireUserSubjectTokens | src/domain/Verifications.ts:358-362 | the loop retires the four kinds |
| Users.UsersService.DeleteUser | src/domain/Users.ts:542-560 | by a row however old: the user, their sessions and every link that names them or their address; `removed` says whether there still was one |
| Users.UsersService.ConfirmDeletion | src/domain/Users.ts:850-877 | the link is burnt whoever presents it and whatever the policy answers, and deletes only its own user |
| Users.UsersService.VerifyEmail | src/domain/Passwords.ts:1075-1094 | the claimed link's address is the address of the user marked |
| Users.UsersService.SignUp | src/domain/Passwords.ts:699-757 | the refusals in their order - password length, address, hooks, the rewritten address - leave nothing; otherwise the user the hook made of the candidate, with a link where verification is required |
| Users.UsersService.ChangePassword | src/domain/Passwords.ts:1032-1062 | after a matching password the new one is stored, every link of the user is gone, and their other sessions unless told to keep them |
| Users.UsersService.SetPassword | src/domain/Passwords.ts:973-1030 | a first password only, each refusal with its condition, leaving links and sessions alone |
| Users.UsersService.ResetPassword | src/domain/Passwords.ts:889-950 | a password the policy refuses spends nothing; otherwise the link is spent, the password replaced and every link and session of the user gone |
| Anonymous.SyntheticIsRecognised | src/anonymous/Anonymous.ts:177-198 | every minted address is recognised as synthetic |
| Anonymous.SyntheticExactly | src/anonymous/Anonymous.ts:177-198 | an address is synthetic exactly in the reserved domain |
| Anonymous.SettledExactly | src/anonymous/Anonymous.ts:586-625 | a person has a provider's account, a password, an authenticator or a verified address that is not synthetic |
| Anonymous.CascadeExactly | src/anonymous/Anonymous.ts:678-685 | a deletion takes the row, its marker, accounts and sessions, and nobody else's |
| Anonymous.NothingGoesAlone | src/anonymous/Anonymous.ts:678-685 | in every step accounts and sessions go only with their user |
| Anonymous.MergedAtMostOnce | src/anonymous/Anonymous.ts:799-824 | over every interleaving a visitor's merge commits at most once and the visitor stays gone |
| Anonymous.RefusalRestores | src/anonymous/Anonymous.ts:847-857 | a refused merge leaves the tables as they were, the visitor marked, present and unlocked |
| Anonymous.PersonsAreKept | src/anonymous/Anonymous.ts:826-850 | over every run no merge is ever in a position to delete a person exactly when no opening account and no proof of an address arrives too late for the merge to see; then a commit deletes no person |
| Anonymous.RiskExactly | src/anonymous/Anonymous.ts:826-850 | one step puts a person at risk exactly when it is an opening account added after the ways in were counted, or a proof of the address added after it was read, to a visitor under a merge |
| Anonymous.LateCredentialIsLost | src/anonymous/Anonymous.ts:826-854 | a run in which an account linked after the check goes with its owner |
| Anonymous.MergeAlone | src/anonymous/Anonymous.ts:799-857 | an undisturbed sign-in: nothing to merge, kept as a person, refused without a trace, or merged, each ending with its condition and what it leaves |
| Anonymous.OthersUnaffected | src/anonymous/Anonymous.ts:620-625 | deleting one visitor settles or unsettles nobody else |
| Anonymous.AnonymousService.Arrive | src/anonymous/Anonymous.ts:515-584 | the row a hook makes of an unverified visitor at a synthetic address, marker and session together, or not at all when a hook refuses or the address is taken |
| Anonymous.AnonymousService.Adopt | src/anonymous/Anonymous.ts:627-669 | each refusal's exact condition, and what adoption changes |
| Anonymous.AnonymousService.Discard | src/anonymous/Anonymous.ts:678-685 | only a marked visitor, with everything that cascades |
| Anonymous.AnonymousService.Sweep | src/anonymous/Anonymous.ts:687-712 | removes and counts exactly the listed visitors who are not settled, at most `limit`; only visitors unseen since `before` and without a live session, never a settled user, and every such visitor when the list was not cut short |

## Left out

- Verifications.VerificationsService.Consume: the store's SQL text, MySQL's two-statement
  claim and deadlock retries; one statement is one atomic step.
- Accounts.OneUserOneAccount: hooks that refuse or rewrite the generated user id, and other
  writers during the race.
- Accounts.AccountsService.LinkOAuth: provider tokens are one value, where the source stores
  six columns.
- Users.SecondHopOrigin: each call's own reads and writes are atomic, so races inside two
  calls are not covered; a row its caller read earlier is.
- Users.UsersService.SignUp: automatic sign-in afterwards, which is `SignIn.CompleteSignIn`
  with the new user, and the deployment's extra columns.
- Anonymous.AnonymousService.Sweep: each removal is atomic with its check; the idle list is
  the store's answer, specified rather than computed.
- SignIn.OneRowOneEvent: for plugins that add no session and publish no event of their own;
  a storage failure between mint and event is not modelled.
- Totp.Verify: `stepAt` divides exactly, where the source divides floating-point numbers.
- Challenges: two live codes for one subject after a restore races a fresh issuance, which
  the source documents and accepts; only per-handle statements are made.
- HTTP groups, handlers, cookies, middleware, rate limits and the client: transport.
- Configuration, plugin and layer wiring: only the duration bounds of `AuthConfig`.
- SHA-256, HMAC, scrypt, PBKDF2, AES-GCM and randomness: parameters or symbolic values;
  `Cipher` would add one more envelope.
- Mail delivery, event buffering, log lines, constant-time behaviour.
- `Schema`, `Errors`, `Events`, `Ids`: declarations.
- `Authenticators.combine`: the hooks monoid again.
- `Users.update`, session listing, `otpauthUri`, `policyToJson`: easy members.
- The e-mail OTP, passkey and organization plugins, and the session cookie cache.
