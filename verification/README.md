# Verified model of the CAPTCHA and abuse-prevention core

This Dafny project models the time-driven core of the backend: rate limiting, one-shot
verification tokens, the challenge engine, SMS admission, A/B allocation, threat scoring,
policies and their adaptive tuning, the event stream, risk scoring, and the indexes of the
in-memory store. Where the code forgets or aggregates (SMS admission, both rate limiters,
adaptive tuning, the event stream, risk counters) the class methods are proved against the
complete history of calls; the other class methods relate the state after one call to the state
before it. The promises of the system are then proved about those specifications, for
every run; further lemmas state each decision in plain numbers. `dafny verify dfyconfig.toml` checks the whole project.

Conventions: instants and durations are integers in nanoseconds (microseconds inside the Redis
protocol, as in its scores); a clock reading is an argument that does not decrease over a run;
fresh IDs, random draws and the outcome of parsing are arguments too; HMAC (RFC 2104), SHA-256
and the time format of section 5.6 of RFC 3339 are uninterpreted functions with the laws stated
in `Tokens.dfy`; floating-point numbers are reals. Strings are sequences of characters, and Go's
truncating division is written out where an operand may be negative.

## The modules

- **Prelude, Timeline**: optional values, units of time, and logs of clock readings: counting
  in an interval, spacing, and what dropping a stale prefix can and cannot change.
- **SmsProtection**: three keyed logs, pruned lazily, decide exactly like never-pruned ones.
- **FixedWindow**: the process-local limiter, one counter per key and aligned window.
- **RedisWindow**: `redisAllow` as interleaved commands of any number of callers on one sorted
  set with a time to live.
- **RateLimit, FailoverBound**: the middleware: Redis with failures at either pipeline, the
  fallback, the headers and the retry time; and how far the two limiters together can go.
- **Tokens, Verify, ChallengeEngine, EndToEnd**: the life of a challenge from generation through
  its answer to a signed token and its verification, with both sweepers running.
- **ABTest**: weighted choice and the integer rolling average.
- **ThreatIntel**: decayed, capped threat scores and the top list. Exponential decay is any
  function d with d(a+b) = d(a)·d(b), values in (0, 1] and d(half-life) = 1/2.
- **Policy, Adaptive**: the action for a score, and thresholds that move with outcomes.
- **EventStream**: the replay buffer and the bounded channels of subscribers.
- **Scoring, Addresses, RiskEngine**: rates from hour-pruned logs, the six layers of points, and
  the verdict.
- **Store**: the API-key, site-key and secret-key indexes.

## What the proofs say about the code

Some expected properties hold only under a condition; each has its exact condition or a witness
among the members below.

- The wait after the one-minute SMS rule is one second longer than needed exactly when a whole
  number of seconds has elapsed (`WaitTight`); the hourly waits are tight, and the `wait < 1`
  clamps never fire.
- The fixed window can admit twice its limit within a minute, and never more
  (`AtMostTwiceTheLimit`, `TwiceTheLimitReached`).
- In the Redis limiter a stamp that is still in the window can be lost to the time to live
  exactly when the limit is at least 2 and a caller may take longer than the one second of slack
  between reading its clock and renewing the deadline (`SlackIsExact`). Under the same condition
  the cap of limit - 1 + callers can be exceeded: if callers past the count are counted as
  admitted, for any number of callers (`CapIsExact`); in distinct stamps, for as many callers as
  microseconds they may be late, a million at least (`DistinctCapIsExact`), but not for 60 million
  (`ManyCallersCannot`). Calls in the same microsecond share one member, so any number of them is
  admitted when the limit is at least 2 (`SameMicrosecondBurst`).
- With Redis failing at will, Redis and the fallback together admit at most 3 limits in a window
  that starts on a microsecond, and at most one more otherwise (`AtMostThreeTimesTheLimit`); that
  bounds the responses that allow a request, too (`AllowedAtMost`). The
  one more is possible exactly if the window starts between two microseconds, contains at least
  `limit` whole microseconds on either side of the aligned minute inside it, and 3 limits are at
  most 60 million (`ThreeTimesIsExact`).
- The retry time after a refusal by the fixed window always reaches a fresh window. After a
  refusal by Redis it may end up to a second too soon, because the reset is rounded down to whole
  seconds; `RedisRetryReaches` gives the exact condition and `RedisRetryFallsShort` a second refusal.
- A token succeeds at most once if its stamp is at most 5 minutes ahead of its first
  presentation, which is the excess of the 15-minute retention over the 10-minute lifetime;
  beyond that margin two successes are possible (`MarginIsExact`), and only then do sweeps change
  anything for it (`SweepsMatterExactly`). Tokens that the engine
  issued are never ahead. An invisible challenge is signed twice, so it can succeed twice
  (`InvisibleSucceedsTwice`); any other challenge at most once.
- The pattern for telephone numbers takes 2 to 15 digits (`NumberFormat`), where the comment above
  it (internal/service/sms/protection.go:53) says 1 to 15.
- In click generation the limit of three correct targets and the rescue of a challenge
  without a match are never reached: the labels are distinct, so one target matches.
- The rolling average can fall below the mean by as much as (n - 1) / 2 (`DriftReached`).
- Once bots pass and humans fail at the lowest adjustment, thresholds alternate between -20 and
  -15 forever (`BothHotAlternates`): both rules compare with the value read before either wrote.
- Adapted thresholds stay proper in every run exactly when the original low threshold is at
  most 79 (`ProperInEveryRun`).
- Index lookups equal a scan throughout a run exactly when every create uses an ID and a key not
  in use elsewhere; storing an app again under a new key and deleting it leaves a key whose
  lookup reports success with a nil app (`LookupsRightExactly`, `RekeyThenRemoveDangles`,
  `NeverNilExactly`).
- Where the repository's own README gives a range of points per risk layer (lines 35-40), the code
  differs: an address alone reaches 45 in the IP layer, not 30 (`AddressReaches45`), and a burst
  55 in the rate layer, not 30 (`RateLayerMaximum`). The model follows the code.
- A subscriber misses nothing exactly when no matching event found its channel full
  (`NothingLost`); the replay makes up for some of those (`GapsExactly`).
- Recording a result for an A/B variant that was created with -1 impressions panics, after its
  counters were updated (`ABTestManager.RecordResult`).

## Model

| member | source | states |
|---|---|---|
| Timeline.PruneOld | internal/service/sms/protection.go:204-211 | advancing an index drops exactly the longest prefix older than the cutoff |
| Timeline.AgreeAfterPrune | internal/service/sms/protection.go:204-211 | a pruned log cannot be told from the full one by any later prune |
| Timeline.SpacedCap | internal/service/sms/protection.go:112-158 | if any limit+1 consecutive readings span more than the width, no closed window of that width holds more than limit |
| SmsProtection.SMSProtector.CheckSMSRequest | internal/service/sms/protection.go:68-174 | the decision, its reason and wait are those of the rules applied to every admission ever made; exactly the allowed requests are recorded, with their time |
| SmsProtection.SMSProtector.CheckPhone | internal/service/sms/protection.go:94-124 | the two per-phone rules, in order, decide on the pruned log as on the full one |
| SmsProtection.SMSProtector.CheckIP | internal/service/sms/protection.go:126-141 | the IP rule decides on the pruned log as on the full one; an empty IP is exempt |
| SmsProtection.SMSProtector.CheckFingerprint | internal/service/sms/protection.go:143-158 | the same for fingerprints |
| SmsProtection.SMSProtector.Admit | internal/service/sms/protection.go:160-167 | an admission enters every log it has a key for, and all logs keep tracking the full history |
| SmsProtection.HasDisposablePrefix | internal/service/sms/protection.go:79-87 | finds a disposable prefix exactly when one matches |
| SmsProtection.HourlyWait | internal/service/sms/protection.go:113-123 | the clamp to one second never changes the computed wait |
| SmsProtection.PrunedDecides | internal/service/sms/protection.go:94-158 | length and last elements of the hour-pruned log answer every question the rules ask of the full log |
| SmsProtection.HourlyCaps | internal/service/sms/protection.go:112-158 | in every run every closed hour holds at most 5 admissions of a phone, 10 of an IP and 20 of a fingerprint |
| SmsProtection.DecisionMeans | internal/service/sms/protection.go:68-174 | the converse: a request is refused for the first of these that holds, and accepted if none does: malformed number, disposable number, an admission of the phone less than 60 seconds ago, 5 of the phone, 10 of the IP or 20 of the fingerprint in the closed hour; counted on the admissions themselves |
| SmsProtection.NumberFormat | internal/service/sms/protection.go:53-54 | the accepted numbers are a plus, a digit other than zero and 1 to 14 more digits |
| SmsProtection.DisposablePrefixes | internal/service/sms/protection.go:57-64 | a number is disposable exactly if it starts with one of the six listed prefixes |
| SmsProtection.RunRecords | internal/service/sms/protection.go:160-174 | a run records what it admits, in order, and nothing else |
| SmsProtection.PhoneGap | internal/service/sms/protection.go:98-110 | in every run two admissions of a phone are at least 60 seconds apart |
| SmsProtection.WaitPositive | internal/service/sms/protection.go:103-151 | every advertised wait lies in 1..3601 seconds, and in 1..61 for the one-minute rule |
| SmsProtection.WaitSuffices | internal/service/sms/protection.go:98-157 | unless its own log grew, the refusing rule no longer refuses after the advertised wait |
| SmsProtection.WaitTight | internal/service/sms/protection.go:98-157 | one second earlier the hourly rules still refuse, and the one-minute rule does so unless whole seconds had elapsed |
| FixedWindow.MemLimiter.Allow | internal/middleware/ratelimit.go:48-70 | admits exactly while fewer than limit admissions of the key lie in the current aligned window, and reports what remains and when the window resets |
| FixedWindow.DecisionMeans | internal/middleware/ratelimit.go:48-70 | in plain numbers: the admissions of the aligned minute decide and leave the remainder, the reset is the minute's end, and exactly an allowed request is recorded |
| FixedWindow.AtMostTwiceTheLimit | internal/middleware/ratelimit.go:48-70 | whenever requests come, no interval of window length holds more than 2 limits |
| FixedWindow.TwiceTheLimitReached | internal/middleware/ratelimit.go:48-70 | two bursts around a window boundary are admitted whole, reaching that bound |
| FixedWindow.RetryReachesFreshWindow | internal/middleware/ratelimit.go:122-129 | after the advertised retry time the next request is admitted, and one second less would still fall in the refusing window |
| FixedWindow.RetryIsLeast | internal/middleware/ratelimit.go:122-126 | the advertised retry time is the least positive number of seconds that reaches the reset |
| RedisWindow.StepBounded | internal/middleware/ratelimit.go:178-200 | every command of every caller keeps set size plus callers past the count within limit - 1 + callers |
| RedisWindow.NoStampForgotten | internal/middleware/ratelimit.go:178-200 | if calls renew within the slack or the limit is 1, in every interleaving neither pruning nor the time to live drops a stamp still in the window |
| RedisWindow.ConcurrentCap | internal/middleware/ratelimit.go:170-209 | under the same hypothesis the trailing window holds, in every interleaving, at most limit - 1 + callers admitted stamps, callers past the count included |
| RedisWindow.CapIsExact | internal/middleware/ratelimit.go:170-209 | counting callers past the count as admitted, even at one and the same stamp, and for limits below the window less the slack, some run exceeds that cap if and only if the limit is at least 2 and calls may take longer than the slack |
| RedisWindow.DistinctCapIsExact | internal/middleware/ratelimit.go:170-209 | for no more callers than microseconds they may be late, and limit and callers below the window less the slack, some run admits more than limit - 1 + callers distinct stamps into the window under the same condition and no other |
| RedisWindow.ManyCallersCannot | internal/middleware/ratelimit.go:170-209 | with as many callers as the window has microseconds no run does |
| RedisWindow.LateRenewalForgets | internal/middleware/ratelimit.go:199-200 | at a limit of at least 2 a caller later than the slack loses an in-window stamp |
| RedisWindow.SlackIsExact | internal/middleware/ratelimit.go:199-200 | some run loses an in-window stamp if and only if the limit is at least 2 and calls may take longer than the slack |
| RedisWindow.LoneAdmission | internal/middleware/ratelimit.go:170-209 | an undisturbed call that finds room leaves its stamp and a deadline a window and the slack ahead |
| RateLimit.LoneCallerRefines | internal/middleware/ratelimit.go:170-209 | in any reachable state of the interleaved protocol an undisturbed caller does what the sequential call does |
| RateLimit.RateLimiter.RedisAllow | internal/middleware/ratelimit.go:170-209 | leaves the key that the commands of one call leave under every fault, and reports its verdict or an error |
| RateLimit.RateLimiter.Allow | internal/middleware/ratelimit.go:105-115 | Redis's verdict, or the fallback's if Redis is absent or fails; a request is allowed if and only if exactly one of the two records it, refused if and only if neither does; other keys are untouched |
| RateLimit.RateLimiter.Handle | internal/middleware/ratelimit.go:95-134 | the response carries that verdict's limit, remaining, reset and, on refusal, the retry time; it allows the request if and only if exactly one limiter recorded it |
| RateLimit.RedisAnswerMeans | internal/middleware/ratelimit.go:170-209 | when Redis answers, it allows exactly while fewer than limit stamps are less than a minute old, with the remainder and a reset a minute ahead |
| RateLimit.FailedCallLeaves | internal/middleware/ratelimit.go:177-206 | a call that fails leaves as much of its commands as took effect, and no verdict |
| RateLimit.FallbackAnswerMeans | internal/middleware/ratelimit.go:105-115 | when Redis is absent, fails first, or fails when it would have to insert, the fallback allows exactly while fewer than limit of its own admissions lie in the minute of the clock |
| RateLimit.AllowedIsRecorded | internal/middleware/ratelimit.go:95-115 | an allowed request is recorded by exactly one limiter, a refused one by neither |
| RateLimit.AllowedAreAdmitted | internal/middleware/ratelimit.go:95-115 | over a whole run, the allowed responses in any interval number the admissions of the two limiters in it |
| RateLimit.AllowedAtMost | internal/middleware/ratelimit.go:95-131 | over any run in distinct microseconds and under any faults, at most 3 limits of requests are allowed in a minute that starts on a microsecond, else one more; without Redis never more than 2 |
| RateLimit.RateLimiter.constructor | internal/middleware/ratelimit.go:87-93 | a limit that is not positive becomes 60 |
| RateLimit.RedisCallKeeps | internal/middleware/ratelimit.go:170-209 | whatever part of a failing call takes effect, Redis forgets no admission of the window and its admissions stay a window apart, limit by limit |
| RateLimit.AtMostThreeTimesTheLimit | internal/middleware/ratelimit.go:95-115 | with requests in distinct microseconds and any faults, both limiters together admit at most 3 limits per window that starts on a microsecond, else one more |
| RateLimit.BetweenMicrosecondsOneMore | internal/middleware/ratelimit.go:173-180 | Redis alone can admit one more than its limit in a window that starts between two microseconds |
| FailoverBound.ThreeTimesIsExact | internal/middleware/ratelimit.go:95-115 | from 1970 on, some run gets more than 3 limits of requests allowed in the minute that starts at a if and only if a lies between microseconds, at least limit whole microseconds lie on each side of the aligned boundary, and 3 limits fit |
| FailoverBound.RoomIsEnough | internal/middleware/ratelimit.go:95-115 | such a run: limit + 1 admissions by Redis and limit by the fallback on each side of the boundary |
| FailoverBound.ExceedsNeedsRoom | internal/middleware/ratelimit.go:95-115 | every run that exceeds 3 limits has that room, as Redis uses the two cut microseconds and no two requests share one |
| RateLimit.SameMicrosecondBurst | internal/middleware/ratelimit.go:197-199 | any number of calls in one microsecond is admitted when the limit is at least 2 |
| RateLimit.WindowAfterRefusalAdmits | internal/middleware/ratelimit.go:170-209 | a window after a refusal by Redis the next call is admitted |
| RateLimit.RedisRetryReaches | internal/middleware/ratelimit.go:122-126 | the retry time reaches that point if and only if the second clock reading is as far into its second as the first, or after the reset; one second more always does |
| RateLimit.RedisRetryFallsShort | internal/middleware/ratelimit.go:122-129 | waiting the advertised time after a refusal by Redis can meet another refusal |
| Tokens.SplitCharacterized | internal/service/verify/service.go:52-59 | splitting cuts at the first separator and only there |
| Tokens.SplitsBack | internal/service/verify/service.go:82-89 | the parts come back if and only if the separator is not in the first |
| Tokens.SignedTokenParses | internal/service/challenge/engine.go:306-313 | payload, signature and stamp of a signed token come back whole if and only if the ID holds neither separator |
| Verify.Service.SiteVerify | internal/service/verify/service.go:39-146 | the outcome of each check in order; success, and any change of the used tokens, needs the secret, an unused token, and that the token carries the MAC of its own payload |
| Verify.Service.Cleanup | internal/service/verify/service.go:158-171 | a sweep keeps exactly the tokens marked no longer than 15 minutes ago |
| Verify.ScreenMeans | internal/service/verify/service.go:39-79 | a token gets past the first checks if and only if the secret is right and the token is some payload without a dot, a dot, and the MAC of that payload; otherwise the refusal names which |
| Verify.JudgeMeans | internal/service/verify/service.go:81-100 | what the age check answers for every payload: no bar, a stamp that does not parse, more than 10 minutes old, or success with ID and stamp |
| Verify.SweptMeans | internal/service/verify/service.go:158-171 | a sweep keeps exactly the marks at most 15 minutes old, unchanged |
| Verify.SuccessMeans | internal/service/verify/service.go:81-100 | the age check passes exactly while the claimed stamp is at most 10 minutes old |
| Verify.NoDoubleSuccess | internal/service/verify/service.go:71-100 | in every interleaving of markings, age checks and sweeps a token presented in time succeeds at most once |
| Verify.MarginIsExact | internal/service/verify/service.go:71-100 | some run lets a token first presented at m succeed twice if and only if its stamp is more than 5 minutes after m |
| Verify.SweepsAreInvisible | internal/service/verify/service.go:158-171 | if the token is never presented more than 5 minutes before its stamp, leaving all sweeps out of a run changes none of its successes |
| Verify.AllSweepsInvisible | internal/service/verify/service.go:158-171 | if that holds of every token, leaving them out changes no success at all |
| Verify.SweepsMatterExactly | internal/service/verify/service.go:71-171 | for a token first presented at m, the sweeps of some run change its successes if and only if its stamp is more than 5 minutes after m |
| Verify.FreshTokenSucceeds | internal/service/verify/service.go:52-100 | the first presentation of a token signed for an ID without separators succeeds exactly while its whole seconds are at most 10 minutes old, and returns its ID and stamp |
| ChallengeEngine.Engine.GenerateChallenge | internal/service/challenge/engine.go:53-73 | stores one record with the position drawn for its type, valid for 5 minutes; unknown types become sliders; only invisible ones carry a token |
| ChallengeEngine.Engine.GenerateClick | internal/service/challenge/engine.go:106-156 | exactly one of six targets carries the prompt's label, and it alone is the stored answer |
| ChallengeEngine.ChooseTargets | internal/service/challenge/engine.go:111-139 | the loop finds one correct target, the first; the rescue branch is dead |
| ChallengeEngine.Engine.ValidateChallenge | internal/service/challenge/engine.go:203-229 | consumes the challenge in any case; valid exactly if it was stored, is not expired and the answer is accepted |
| ChallengeEngine.ValidateSlider | internal/service/challenge/engine.go:231-265 | accepts exactly the numeric answers within tolerance of the stored position |
| ChallengeEngine.ValidateClick | internal/service/challenge/engine.go:267-303 | accepts exactly the lists of as many IDs as are stored, all of them stored |
| ChallengeEngine.PositionsAccepted | internal/service/challenge/engine.go:231-265 | for every generated slider and puzzle: a number, a JSON number or an object's numeric "x" is accepted if and only if it lies within 5 (puzzle: 4) of the target on both sides, and no other answer is |
| ChallengeEngine.IDsAccepted | internal/service/challenge/engine.go:267-303 | for every generated click challenge: a list is accepted if and only if its only string is the stored ID, and no other answer is |
| ChallengeEngine.InvisibleAcceptsAll | internal/service/challenge/engine.go:219-227 | an invisible challenge accepts every answer |
| ChallengeEngine.FirstAnswerDecides | internal/service/challenge/engine.go:203-229 | the first answer passes if and only if it comes within 5 minutes and is accepted; every later answer fails |
| ChallengeEngine.Engine.CleanExpired | internal/service/challenge/engine.go:316-325 | keeps exactly the challenges whose expiry is not past, unchanged |
| ChallengeEngine.MissingXNeverPasses | internal/service/challenge/engine.go:247-264 | an object answer without "x" never passes a slider or puzzle |
| ChallengeEngine.ClickHasOneSolution | internal/service/challenge/engine.go:267-303 | a generated click challenge is solved by one ID alone |
| ChallengeEngine.ValidatesAtMostOnce | internal/service/challenge/engine.go:203-229 | in every run a challenge validates at most once and within 5 minutes of its generation |
| ChallengeEngine.NoCleansStay | internal/service/challenge/engine.go:316-325 | taking the cleanings out of a run leaves none, and a run without any as it is |
| ChallengeEngine.CleansSplit | internal/service/challenge/engine.go:316-325 | and it may be done piece by piece, so only cleanings go |
| ChallengeEngine.CleaningIsInvisible | internal/service/challenge/engine.go:316-325 | taking cleanings out of a run, or putting them in, changes no verdict |
| EndToEnd.ChallengeSucceedsOnce | internal/service/verify/service.go:71-100 | over all interleavings of engine and service a challenge leads to at most one successful verification, two if invisible, provided every presented token that carries the MAC of its own payload was issued before |
| EndToEnd.InvisibleSucceedsTwice | internal/service/challenge/engine.go:181-225 | an honest run lets an invisible challenge succeed twice |
| EndToEnd.SolvedSucceeds | internal/service/challenge/engine.go:203-229 | a challenge answered acceptably within 5 minutes, with its token verified while it is at most 10 minutes old, succeeds: an honest run with exactly one success for it |
| ABTest.ABTestManager.CreateTest | internal/service/challenge/ab_test.go:48-54 | the test replaces the scene's previous one and is active |
| ABTest.ABTestManager.GetVariant | internal/service/challenge/ab_test.go:58-95 | none if and only if there is no active test, the traffic word falls outside the percentage, or the total weight is zero; otherwise, for a positive total, the variant whose slice of the weights holds the choice word |
| ABTest.ABTestManager.RecordResult | internal/service/challenge/ab_test.go:98-124 | updates the first variant with the ID and nothing else, and completes unless that variant's count comes to zero |
| ABTest.BucketIsClaimed | internal/service/challenge/ab_test.go:85-94 | every bucket below the total falls to a variant, so the final fallback is never reached |
| ABTest.SharesAreExact | internal/service/challenge/ab_test.go:76-92 | every variant receives exactly its weight of the buckets if and only if no weight is negative |
| ABTest.AssignedMeans | internal/service/challenge/ab_test.go:58-95 | the bucket of the choice word falls to the variant assigned; a bucket that a negative weight leaves to none is given to the first variant |
| ABTest.ChoicesAreExact | internal/service/challenge/ab_test.go:65-94 | for non-negative weights, the choice words below the total that assign a variant number exactly its weight |
| ABTest.AssignmentIsStable | internal/service/challenge/ab_test.go:56-95 | no recorded results change a user's variant |
| ABTest.TalliesAreSeparate | internal/service/challenge/ab_test.go:98-124 | a variant's statistics are the tally of its own results, whatever else is recorded; a variant that shares an earlier one's ID keeps its own |
| ABTest.RecordedCounts | internal/service/challenge/ab_test.go:107-116 | a result adds one impression and one completion or failure, and touches neither ID nor weight |
| ABTest.RecordedMeans | internal/service/challenge/ab_test.go:117-122 | the new average is the truncated mean of the weighted old one and the duration, for any statistics that do not panic; the conversion rate is the percentage of completions among positive impressions |
| ABTest.AverageDrift | internal/service/challenge/ab_test.go:107-122 | from zeroed statistics and for non-negative durations, 0 <= sum - n·A <= n(n-1)/2, A is never below the smallest duration, and impressions = completions + failures |
| ABTest.DriftReached | internal/service/challenge/ab_test.go:117 | from zeroed statistics, durations 0, 1, ..., n-1 reach the drift bound for every n |
| ABTest.NoEarlyOverflow | internal/service/challenge/ab_test.go:117 | from zeroed statistics and for non-negative durations, the intermediate product never exceeds the plain sum of durations |
| ThreatIntel.ClampSeverity | internal/service/threat_intel/network.go:196-204 | severities end up in 1..10, those already there unchanged |
| ThreatIntel.ThreatIntelNetwork.ReportThreat | internal/service/threat_intel/network.go:69-96 | extends or creates the records of a nonempty IP and fingerprint, and keeps every record's summary equal to what its reports say |
| ThreatIntel.AddReport | internal/service/threat_intel/network.go:80-86 | one half of it, for one key |
| ThreatIntel.ThreatIntelNetwork.QueryIP | internal/service/threat_intel/network.go:99-103 | the profile of a stored record, or the zero profile |
| ThreatIntel.ThreatIntelNetwork.QueryFingerprint | internal/service/threat_intel/network.go:106-110 | the same for fingerprints |
| ThreatIntel.ThreatIntelNetwork.TopThreats | internal/service/threat_intel/network.go:113-136 | as many entries as asked for, each key once, worst first, and none left out is worse than one listed |
| ThreatIntel.BuildProfile | internal/service/threat_intel/network.go:139-180 | the loop and the clamps compute the decayed, weighted, capped and rounded score |
| ThreatIntel.UncappedDecays | internal/service/threat_intel/network.go:144-163 | left alone for a while, the uncapped score is multiplied by the decay of that while |
| ThreatIntel.HalvesEveryHalfLife | internal/service/threat_intel/network.go:147-151 | after k half-lives it is divided by 2^k |
| ThreatIntel.BoostBounded | internal/service/threat_intel/network.go:160-179 | the published boost lies in 0..50 |
| ThreatIntel.BoostFades | internal/service/threat_intel/network.go:144-179 | without reports the published boost never rises |
| ThreatIntel.ReportNeverLowers | internal/service/threat_intel/network.go:69-96 | a new report never lowers the boost at that instant |
| ThreatIntel.BoostMeans | internal/service/threat_intel/network.go:154-179 | the published boost is 50 above 50 and otherwise the uncapped score to the nearest hundredth |
| ThreatIntel.ScoreMeans | internal/service/threat_intel/network.go:144-152 | no reports score 0, and a report adds its severity to the score of that instant |
| ThreatIntel.SourcesWeigh | internal/service/threat_intel/network.go:154-160 | every source beyond the first adds a quarter of the score |
| ThreatIntel.ProfileMeans | internal/service/threat_intel/network.go:173-179 | the profile shows the number, the types and the first and last time of all reports, and the boost |
| ThreatIntel.EntryMeans | internal/service/threat_intel/network.go:113-136 | an entry of the top list shows its key and what the profile of that key shows |
| ThreatIntel.ReportedMeans | internal/service/threat_intel/network.go:80-96 | a report is appended to its key's reports, and no other key changes |
| ThreatIntel.MultiplierUnclamped | internal/service/threat_intel/network.go:154-158 | a stored record has between 1 and as many sources as reports, so the multiplier's lower clamp never fires |
| Policy.HigherScoreNoLenienter | internal/service/policy/engine.go:19-44 | a higher score under lower thresholds is never treated more leniently, for any ordering that ranks the three bands |
| Policy.ListsDecideExactly | internal/service/policy/engine.go:19-44 | an enabled policy's address lists decide alone, whatever score, thresholds and actions, if and only if they hold the address; the whitelist prevails |
| Policy.DefaultBands | internal/service/policy/engine.go:19-23 | without an enabled policy each action belongs exactly to its band, cut at 20, 50 and 75 |
| Policy.PolicyBands | internal/service/policy/engine.go:35-43 | off the lists each band's own action is taken, or pass, challenge or deny where it is unset; a score on a threshold belongs to the lower band |
| Policy.MatchMeans | internal/service/policy/engine.go:67-98 | a list matches exactly a nonempty, parsable address that one of its entries covers |
| Adaptive.AdaptiveEngine.RecordOutcome | internal/service/policy/adaptive.go:47-76 | counters and adjustments of every scene keep reflecting the complete history of outcomes |
| Adaptive.Counted | internal/service/policy/adaptive.go:51-73 | each counter goes up by one exactly when the outcome is of its kind |
| Adaptive.MetricsPush | internal/service/policy/adaptive.go:51-73 | so each counter stays the number of past outcomes of its kind in its scene |
| Adaptive.OutcomesCount | internal/service/policy/adaptive.go:51-73 | which counters each of the four kinds of outcome moves |
| Adaptive.MaybeAdjust | internal/service/policy/adaptive.go:132-175 | the two rules together: with both rates hot the adjustment goes down by 5, except up by 5 from -20 |
| Adaptive.TuningMeans | internal/service/policy/adaptive.go:132-175 | what one adjustment does, for every metrics and level: nothing below 20 challenges or with both rates cool, up by 5 to 20, down by 5 to -20, and up from -20 when both are hot |
| Adaptive.FalsePositiveRate | internal/service/policy/adaptive.go:177-182 | the percentage of challenged humans who failed, 0 if none was; exceeds 5 exactly when more than one in 20 did |
| Adaptive.BotPassRate | internal/service/policy/adaptive.go:184-189 | the percentage of challenged bots that passed, 0 if none was; exceeds 10 exactly when more than one in 10 did |
| Adaptive.AdaptiveEngine.GetAdjustment | internal/service/policy/adaptive.go:112-116 | the adjustment after the complete history, a multiple of 5 in -20..20 |
| Adaptive.AdaptiveEngine.GetAdaptedPolicy | internal/service/policy/adaptive.go:79-109 | the original when there is none or no adjustment, else thresholds shifted and clamped |
| Adaptive.AdaptedIsClosest | internal/service/policy/adaptive.go:92-106 | no adjustment changes nothing; otherwise each threshold is the allowed value closest to the original plus the adjustment: low from 0 up, high at least one above low and at most 100 |
| Adaptive.AdjustmentIsLevel | internal/service/policy/adaptive.go:132-175 | over any run the adjustment is a multiple of 5 in -20..20 |
| Adaptive.OneStepAtATime | internal/service/policy/adaptive.go:132-175 | an outcome moves its own scene's adjustment by at most 5 and no other's |
| Adaptive.NoAdjustmentYet | internal/service/policy/adaptive.go:138-141 | nothing is adjusted before a scene's twentieth challenge |
| Adaptive.EveryChallengeAccounted | internal/service/policy/adaptive.go:53-73 | totalPassed + humansFailed + (botsChallenged - botsPassed) = totalChallenges, and no rate exceeds 100% |
| Adaptive.HumansRaise | internal/service/policy/adaptive.go:150-160 | humans who always fail raise the adjustment by 5 an outcome from the twentieth on, to 20 |
| Adaptive.BotsLower | internal/service/policy/adaptive.go:164-174 | bots that always pass lower it likewise, to -20 |
| Adaptive.BothHotAlternates | internal/service/policy/adaptive.go:146-174 | with both rates hot from the floor the adjustment alternates between -15 and -20 without end |
| Adaptive.ProperWhenLowFits | internal/service/policy/adaptive.go:92-106 | a proper policy stays proper if and only if its low threshold is not pushed above 99 |
| Adaptive.ProperInEveryRun | internal/service/policy/adaptive.go:79-109 | every run of outcomes keeps a proper policy proper if and only if its low threshold is at most 79 |
| Adaptive.LargerAdjustmentSoftens | internal/service/policy/adaptive.go:79-109 | a larger adjustment of a proper policy never gives a more severe action for the same score and address |
| EventStream.EventStream.Subscribe | internal/service/events/stream.go:51-63 | the feed starts after all events published so far, with an empty channel |
| EventStream.EventStream.Unsubscribe | internal/service/events/stream.go:66-75 | removes that subscriber and its feed alone |
| EventStream.EventStream.Publish | internal/service/events/stream.go:78-110 | the buffer stays the latest 100 published events, and every channel holds what its feed was given and has not read; a feed records the position exactly when its channel is full |
| EventStream.Deliver | internal/service/events/stream.go:88-109 | every matching subscriber with room gets the event, nobody else changes |
| EventStream.EventStream.Receive | internal/service/events/stream.go:60-62 | events come out in the order given, one at a time |
| EventStream.EventStream.RecentEvents | internal/service/events/stream.go:113-120 | the latest 100 events |
| EventStream.EventStream.RecentEventsFiltered | internal/service/events/stream.go:123-137 | those of them that match, in order, and never nil |
| EventStream.GivenInOrder | internal/service/events/stream.go:88-109 | a subscriber is given, in order, exactly the matching events since it subscribed less those that found its channel full |
| EventStream.LostOnlyWhenFull | internal/service/events/stream.go:101-108 | a matching event is lost if and only if 64 earlier ones are waiting |
| EventStream.NothingLost | internal/service/events/stream.go:49-109 | a subscriber is given every matching event since it subscribed if and only if none of them found its channel full |
| EventStream.ReplayLeavesNoGap | internal/handler/events_stream.go:34-56 | if no matching event found the channel full, subscribing and then replaying leaves no gap, and what is seen twice is one contiguous stretch, published between the two and still buffered |
| EventStream.GapsExactly | internal/handler/events_stream.go:34-56 | whatever was dropped, there is no gap if and only if the replay covers every dropped event |
| EventStream.FiltersMean | internal/service/events/stream.go:140-148 | an empty field of a filter matches everything, a set one exactly its value, and both must match |
| EventStream.LatestMeans | internal/service/events/stream.go:84-86 | the buffer holds the latest 100 events, or all if fewer, in order |
| EventStream.StampedMeans | internal/service/events/stream.go:79-83 | an event without ID or time gets them; nothing else of it changes |
| RiskEngine.Engine.EvaluateRates | internal/service/risk/engine.go:177-231 | rate points and labels follow from one-minute counts over the complete history, per address and per hashed fingerprint |
| RiskEngine.EvaluateIpRate | internal/service/risk/engine.go:186-204 | the address half of it |
| RiskEngine.EvaluateFpRate | internal/service/risk/engine.go:207-228 | the fingerprint half of it |
| RiskEngine.Hit | internal/service/risk/engine.go:187-191 | append, prune by the hour and count equals counting the last minute of the complete record |
| RiskEngine.CountSince | internal/service/risk/engine.go:366-374 | the loop counts the readings since the given instant, inclusive |
| RiskEngine.IpRateMeans | internal/service/risk/engine.go:186-204 | an address with up to 5, 15, 30 or more evaluations in the closed last minute, counted in the history itself, brings 0, 8, 20 or 30 points |
| RiskEngine.FpRateMeans | internal/service/risk/engine.go:207-228 | likewise 0, 5, 15 or 25 for up to 3, 10, 20 or more of a hashed fingerprint, and 5 if it is missing |
| RiskEngine.Engine.Evaluate | internal/service/risk/engine.go:80-134 | the score is the whole sum of the six layers clamped to 0..100, and level and action are those of that rounded score; the label joins the level and all labels |
| RiskEngine.Verdict | internal/service/risk/engine.go:106-133 | the same for given layers: classifying before rounding makes no difference |
| RiskEngine.TotalMeans | internal/service/risk/engine.go:84-112 | points and labels of the six layers add up, in order |
| RiskEngine.BandsMean | internal/service/risk/engine.go:114-125 | which level and action belong to which score: cut at 15, 40 and 70, and at 15, 30 and 70, the cut itself below; the sum is clamped to 0..100 |
| RiskEngine.LabelMeans | internal/service/risk/engine.go:127-134 | the label is the level, a bar, and the labels joined by commas, or "clean" |
| RiskEngine.AgentMeans | internal/service/risk/engine.go:234-261 | points of a missing, bot-like or short user agent |
| RiskEngine.BehaviorSignalsAdd | internal/service/risk/engine.go:264-325 | each behaviour signal adds its own points, whatever else was observed |
| RiskEngine.BehaviorLabels | internal/service/risk/engine.go:264-325 | and its own label |
| RiskEngine.CleanBehavior | internal/service/risk/engine.go:268-325 | no signals, no points; no data, 10 |
| RiskEngine.BotSignsAdd | internal/service/risk/proxy_detector.go:137-204 | the six bot signs add 20, 25, 20, 15, 10 and 5 and their labels |
| RiskEngine.BotSignsAre | internal/service/risk/proxy_detector.go:137-204 | which observations those signs are; without behaviour data only the user agent speaks |
| RiskEngine.ImpossibleMeans | internal/service/risk/proxy_detector.go:172-183 | an impossible mouse rate is more than one move in 10 milliseconds, when both numbers are positive |
| RiskEngine.FewMild | internal/service/risk/engine.go:185-205 | over any run and closed minute at most 5, 15 and 30 evaluations of an address score below 8, 20 and 30 for its rate |
| RiskEngine.FewEscape | internal/service/risk/engine.go:193-202 | the same for any log and limit |
| RiskEngine.QuietMinuteForgives | internal/service/risk/engine.go:190-202 | after a minute without requests there are no rate points |
| RiskEngine.RateLayerMaximum | internal/service/risk/engine.go:177-231 | the rate layer adds at most 55 points, and a burst of 31 evaluations brings them all |
| Addresses.RangesApart | internal/service/risk/engine.go:51-60 | no address lies in two of the ranges the engine and the detector know |
| Addresses.DatacenterBytes | internal/service/risk/engine.go:51-60 | which first bytes make an address a datacenter's, the ends of every range included |
| Addresses.VpnBytes | internal/service/risk/proxy_detector.go:41-44 | the same for VPN ranges |
| Addresses.ExtraDatacenterBytes | internal/service/risk/proxy_detector.go:52-65 | the same for the further datacenter ranges |
| Addresses.WiderAddresses | internal/service/risk/engine.go:51-60 | a wider address is in none of the listed ranges, and reserved as its parser says |
| Addresses.ListedByName | internal/service/risk/engine.go:67-70 | the three addresses that are bad, and the four that are Tor exits |
| Addresses.ReservedBytes | internal/service/risk/engine.go:159-163 | the same for loopback, private and link-local ranges |
| Addresses.AddressFactsAdd | internal/service/risk/engine.go:137-174 | blacklist, reserved range and datacenter range add 30, 2 and 15; a missing or unparsable address brings 10 or 15 alone |
| Addresses.ProxyFactsAdd | internal/service/risk/proxy_detector.go:84-122 | Tor exit, VPN range and further datacenter range add 25, 15 and 12 |
| Addresses.AddressAlone | internal/service/risk/proxy_detector.go:84-122 | an address alone brings at most 45 points, IP and proxy layers together |
| Addresses.AddressReaches45 | internal/service/risk/engine.go:137-174 | one of the listed addresses brings 45, all in the IP layer |
| Store.MemoryStore.constructor | internal/repository/memory.go:52-93 | one tenant and one app are seeded with their three keys, and the indexes are exact |
| Store.MemoryStore.CreateTenant | internal/repository/memory.go:192-197 | stores tenant and key; an exact index stays exact if and only if ID and key were free |
| Store.MemoryStore.CreateApp | internal/repository/memory.go:217-224 | the same for both app indexes |
| Store.MemoryStore.DeleteApp | internal/repository/memory.go:273-284 | removes the app and its two keys, or reports that there is none; exact indexes stay exact |
| Store.MemoryStore.GetTenantByAPIKey | internal/repository/memory.go:200-212 | with exact indexes, the one tenant a scan would find, or an error if there is none |
| Store.MemoryStore.GetAppBySiteKey | internal/repository/memory.go:238-246 | with exact indexes, the one app a scan would find; without dangling keys never a nil app |
| Store.MemoryStore.GetAppBySecretKey | internal/repository/memory.go:249-257 | the same by secret key, as SiteVerify relies on when it reads the app's domains |
| Store.PutExact | internal/repository/memory.go:217-224 | storing keeps an index exact if and only if the ID and the key are free |
| Store.RemoveExact | internal/repository/memory.go:273-284 | deleting keeps it exact |
| Store.RunGrows | internal/repository/memory.go:217-284 | a run applies every create and delete, in order |
| Store.LookupsRightExactly | internal/repository/memory.go:192-284 | throughout a run every lookup equals the scan if and only if every create used a free ID and key |
| Store.NeverNilExactly | internal/repository/memory.go:192-284 | throughout a run no key leads to an entity that is gone if and only if no delete left a key behind |
| Store.FreeRunNeverDangles | internal/service/verify/service.go:45-136 | if every create used a free ID and key, no lookup ever yields a nil app |
| Store.PutNeverDangles | internal/repository/memory.go:217-224 | a create leaves no dangling key |
| Store.RemoveDangles | internal/repository/memory.go:273-284 | a delete leaves one if and only if a key other than the entity's own still leads to it |
| Store.RekeyThenRemoveDangles | internal/repository/memory.go:217-284 | storing an app again under a new key and deleting it does |

## Left out

- HTTP handlers, routing, authentication, JSON, the event stream's wire format and webhooks: input and output.
- The PostgreSQL stores, the Redis client and network failures inside one pipelined command: only the sorted-set commands are modelled, one after the other, and a crash between adding a stamp and renewing the deadline is outside the concurrent model.
- The replacement of a challenge's ID by the session ID (internal/handler/challenge.go:49-51): the engine stored the answer under its own ID, so nothing is claimed about a challenge passed through that handler.
- A clock read before the lock is taken (SMS admission, rate counters, threat reports): each call is atomic here. The Redis protocol and SiteVerify are not simplified this way.
- Verify.Service.SiteVerify: does not return the response metadata (score, action, labels, host name) nor store the verification result; they do not influence success.
- SMS cost accounting, listing and update methods, dashboards, logs, branding, templates, the console and the client SDKs: plain reads, writes and presentation, with no state that the promises above depend on.
- ChallengeEngine.Engine.GeneratePuzzle: omits the picture's address. Drawing the pictures is left out too.
- Floating-point rounding, and 64-bit overflow beyond NoEarlyOverflow: numbers are exact.
- Objects that a caller keeps sharing with a store (A/B tests, apps, policies) and pointers into it: records are values that methods replace in maps.
- EventStream.EventStream.Publish: one atomic step, although the sends follow the release of the lock, so it says nothing about racing with Unsubscribe.
- EventStream.EventStream.Unsubscribe: does not model closing the channel, nor reading it after the subscription ended.
- The blocklist's answer when allow and block entries both match: it depends on the iteration order of a map.
- ThreatIntel.BuildProfile: threat types are a set, so their sorted order is not stated.
- SelectChallengeType: a case analysis on which nothing else modelled here depends.
- Parsing of addresses and CIDR notation, searching user agents for tokens, and Unicode case folding: facts about a request are arguments.
- RateLimit.RateLimiter.Handle: does not model the derivation of the key from the request.
- RedisWindow.DistinctCapIsExact: does not decide the cases between a million and 60 million concurrent callers of one key.
- RateLimit.AtMostThreeTimesTheLimit: requests of a key are sequential here, as Redis failures are not part of the concurrent model.
