# Phishing-simulation ledger, risk engine, password checker and survey tally

This Dafny project models the logic of the cybersecurity training platform. It covers four parts.

- **The phishing target ledger.** Every target row records one user in one campaign, holds a tracking key and has five optional timestamps: sent, opened, clicked, submitted and reported. The web handlers change these rows:
  - the open pixel;
  - the landing page, with its click, report and form-submit paths;
  - the guarded click/submit block, which assigns remediation training;
  - `assign_remediation`;
  - campaign creation;
  - campaign launch.

  `PhishingLedger` defines each handler as a pure transition over the rows. `PhishingStore.Store` is a class whose fields are the store's tables, and each of its methods is proved to perform exactly that transition and to keep the store's invariant. The invariant has three parts: tracking keys are unique, every target refers to an existing campaign, and no user has two open remediation assignments.
- **The risk engine of the dashboard** (`RiskEngine`):
  - the per-user risk score: +1 opened, +3 clicked, +5 submitted, -4 reported;
  - the High/Medium/Low banding of that score;
  - the set of repeat offenders, with threshold 2.
- **The password-strength checker** (`PasswordStrength`). It gives a score from 0 to 6, one hint per failed check in a fixed order, and a strength label.
- **The survey results tally** (`SurveyTally`). It builds one histogram of answers per question, counted in place response by response.

Files:

- `wrappers.dfy`: `Option`.
- `models.dfy`: the records and timestamp helpers.
- `ledger.dfy`: the ledger transitions and their properties.
- `store.dfy`: the mutable store.
- `risk.dfy`, `password.dfy`, `survey.dfy`: the other three parts.

Modelling choices:

- **Clock and key generator.** `datetime.utcnow()` is a `now: Time` parameter. `uuid.uuid4()` is a token supply `tokens`. At launch, `tokens[i]` is the token row `i` of the ledger would get if it has no key. At campaign creation, `tokens[k]` is the key of the k-th new target. The predicate `FreshTokens` requires the tokens to be non-empty, pairwise distinct and not yet used as keys.
- **Missing keys.** The empty string stands for a target without a tracking key. The launch handler's backfill exists for such rows, which predate the column. Keys are unique among non-empty keys, as a SQL `UNIQUE` column admits several NULLs, and looking up the empty key finds nothing.
- **Ids and mail.** A campaign's id is its position in the store, and `email_sent` marks a sent message. The mail sender is an abstract outbox: each launch appends one `Email` per target of the campaign.
- **Duplicate handler.** `landing` is defined twice in `app/routes/phishing.py`, under the same route and endpoint name. Flask refuses to add a second, different view function for one endpoint, so registering the blueprint on the application fails. The second definition (lines 134-152) is modelled as the intended one.
- **Fragments outside any handler.** Lines 98-106 and 161-180 of the same file run at import time. They reference names that are not defined there (`target`, `users` and `RemediationAssignment`), and they use `request`, which is imported at line 1 but only usable inside a request context. The guarded click/submit block (lines 161-169) is modelled as an operation on a tracking key. The score loop and the repeat-offender `Counter` are modelled from their copies inside `dashboard` (lines 232-258).
- **Duplicate password handler.** `app/routes/password.py:12-14` is a `password_check` header with no body, which makes the file an `IndentationError`. The second definition (lines 16-48) is modelled.
- **Duplicate target model.** `app/models.py` defines `PhishingTarget` twice. Both classes map to the table `phishing_target`, and SQLAlchemy refuses to define that table a second time on the same metadata, so importing the module fails at line 65. The second definition (lines 65-74), which adds `tracking_key`, is modelled as the intended one.
- **Survey view.** `app/routes/survey.py` defines no `bp` and imports neither `login_required`, the survey models nor `json`, so it does not load as given. The loop of lines 8-15 is modelled as if those names were in scope.

## Model

| member | source | states |
|---|---|---|
| Models.WithStamp | app/models.py:69-73 | setting one timestamp column sets exactly that column; the other four columns, the campaign, the user and the key are unchanged |
| Models.RecordFirst | app/routes/phishing.py:127-128 | after recording, the event's column is set; a column already set leaves the target unchanged |
| Models.Overwrite | app/routes/phishing.py:143-150 | an unconditional stamp sets the event's column to now and leaves the other four columns as they were |
| Models.RecordFirstWins | app/routes/phishing.py:127-128 | recording an event sets its column only when unset (first write wins) and changes no other column, user, campaign or key |
| Models.RecordFirstIdempotent | app/routes/phishing.py:139-140 | recording the same event again at any later instant is a no-op |
| Models.RecordFirstMonotone | app/routes/phishing.py:162-167 | a column that is set keeps its value whatever event is recorded next |
| PhishingLedger.FindByKey | app/routes/phishing.py:126 | the lookup succeeds iff the key is non-empty and some target carries it; it returns the first such target |
| PhishingLedger.FindByKeyUnique | app/models.py:74 | with unique keys, looking up a target's own key finds exactly that target |
| PhishingLedger.FindByKeySameKeys | app/routes/phishing.py:126 | the lookup depends only on the keys, so stamping timestamps never changes which target a key names |
| PhishingLedger.TransparentGifIsOnePixel | app/routes/phishing.py:130-132 | the pixel body is 43 bytes, starts "GIF89a", has width 1 and height 1, and ends with the GIF trailer 0x3B |
| PhishingLedger.Pixel | app/routes/phishing.py:124-129 | the open pixel never changes the number of targets or any key; the rows `PixelEffect` and `PixelIdempotent` state the rest of its behaviour |
| PhishingLedger.PixelEffect | app/routes/phishing.py:124-129 | an unknown key changes nothing; a known key sets `email_opened` only when it was unset; no other column of any target, no key, user or campaign changes |
| PhishingLedger.PixelIdempotent | app/routes/phishing.py:126-129 | fetching the pixel again, at any instant, leaves the ledger as the first fetch left it |
| PhishingLedger.Landing | app/routes/phishing.py:134-152 | the landing handler keeps every key and answers 404 exactly when the lookup fails; the rows `LandingUnknownKey` to `LandingResubmitOverwrites` state the rest |
| PhishingLedger.LandingUnknownKey | app/routes/phishing.py:136 | a key the lookup does not find, the empty key included, gives a 404 and no state change |
| PhishingLedger.LandingEffect | app/routes/phishing.py:134-152 | for a known key: the click is stamped only if unset; a `report_phish=yes` POST stamps `reported_phish`, leaves `data_submitted` untouched and answers the report message; any other POST stamps `data_submitted`, leaves `reported_phish` untouched and answers the submit message; a GET answers the landing page; the user and campaign of the target are kept; no other target changes |
| PhishingLedger.LandingClickStable | app/routes/phishing.py:139-141 | repeated visits, by GET or POST, never change `link_clicked` of any target |
| PhishingLedger.LandingResubmitOverwrites | app/routes/phishing.py:148-150 | as written, a second form POST at a different instant replaces the first `data_submitted` |
| PhishingLedger.Assign | app/routes/phishing.py:154-159 | after an assignment the user has an open one; a user who already had one leaves the table unchanged; the earlier assignments are kept as they were and at most one is added |
| PhishingLedger.AssignEffect | app/routes/phishing.py:154-159 | an assignment is added only when the user has no open one; it is the user's, with the given reason, stamped now and not completed; afterwards the user has an open assignment |
| PhishingLedger.AssignIdempotent | app/routes/phishing.py:154-159 | assigning twice, with any reasons and instants, is assigning once |
| PhishingLedger.AssignPreservesAtMostOneOpen | app/routes/phishing.py:154-159 | assignment keeps "at most one open assignment per user" |
| PhishingLedger.GuardedClickOrSubmit | app/routes/phishing.py:161-169 | the guarded block keeps every key, keeps the earlier assignments and adds at most one, since a second assignment for the same user is deduplicated |
| PhishingLedger.GuardedEffect | app/routes/phishing.py:161-169 | the guarded block stamps click and (on a POST) submission only when unset, keeps the target's user and campaign, touches no other target or column, changes the assignments only on an unset-to-set transition, and after such a transition the user has an open assignment; nothing is added when the user already had an open one, and otherwise at most one open row is added, for the target's user, with the click reason if the click was new and the submit reason otherwise |
| PhishingLedger.GuardedUnknownKey | app/routes/phishing.py:161-169 | an unknown key changes neither the ledger nor the assignments |
| PhishingLedger.GuardedPreservesAtMostOneOpen | app/routes/phishing.py:161-169 | the guarded block keeps "at most one open assignment per user" |
| PhishingLedger.GuardedIdempotent | app/routes/phishing.py:161-169 | replaying the same click or submission changes nothing and assigns nothing |
| PhishingLedger.GuardedSubmitFirstWriteWins | app/routes/phishing.py:166-167 | a second submission at a later instant keeps the first `data_submitted` |
| PhishingLedger.RemediationDedupAcrossCampaigns | app/routes/phishing.py:154-169 | first clicks on two targets of one user in different campaigns stamp both clicks but add at most one assignment, leaving the user with exactly one open assignment |
| PhishingLedger.NewTargets | app/routes/phishing.py:58-60 | campaign creation makes one target per selected user id |
| PhishingLedger.NewTargetsEffect | app/models.py:65-74 | each new target refers to the new campaign and its user, has all five timestamps unset and a non-empty fresh key, and keys stay unique |
| PhishingLedger.LaunchRow | app/routes/phishing.py:72-78 | one pass of the loop keeps the row's user and campaign; a row of the campaign gets `email_sent` now, keeps an existing key and has a non-empty key whenever the token is non-empty |
| PhishingLedger.Launch | app/routes/phishing.py:70-78 | launch maps every row to one row, so the ledger keeps its length |
| PhishingLedger.LaunchEffect | app/routes/phishing.py:69-80 | after launch every target of the campaign has a non-empty key, an existing key is kept, and `email_sent` is now; its other stamps and every target of another campaign are unchanged; keys stay unique |
| PhishingLedger.RelaunchRestamps | app/routes/phishing.py:69-80 | launching again, since `launched` is not checked, re-stamps `email_sent` of every target of the campaign and keeps their keys |
| PhishingLedger.Mailings | app/routes/phishing.py:72-77 | a launch sends as many messages as the campaign has targets |
| PhishingLedger.MailingsOnePerTarget | app/routes/phishing.py:72-77 | a launch sends exactly one message per target of the campaign, each with the campaign's template, addressed to that target's user and carrying that target's key; every target of the campaign receives its message |
| PhishingLedger.LaunchMailsCarryKeys | app/routes/phishing.py:72-77 | after the backfill every message sent by a launch carries a non-empty tracking key |
| PhishingStore.Store.constructor | app/models.py:46-81 | an empty store satisfies the store invariant |
| PhishingStore.Store.Pixel | app/routes/phishing.py:124-132 | the handler performs `PhishingLedger.Pixel` on the targets, always answers the same GIF bytes, keeps the invariant and changes no other table |
| PhishingStore.Store.Landing | app/routes/phishing.py:134-152 | the handler performs `PhishingLedger.Landing`, keeps the invariant and changes no other table |
| PhishingStore.Store.AssignRemediation | app/routes/phishing.py:154-159 | the handler performs `PhishingLedger.Assign` on the assignments, keeps the invariant and changes no other table |
| PhishingStore.Store.ClickOrSubmit | app/routes/phishing.py:161-169 | the block performs `PhishingLedger.GuardedClickOrSubmit` on targets and assignments, reports whether the key was known, and keeps the invariant |
| PhishingStore.Store.AddCampaign | app/routes/phishing.py:55-61 | creation appends one unlaunched campaign, whose id it returns, and the targets `NewTargets` gives, and keeps the invariant |
| PhishingStore.Store.LaunchCampaign | app/routes/phishing.py:69-80 | an unknown campaign id changes nothing; otherwise the targets become `PhishingLedger.Launch` of the old targets, the outbox receives `Mailings` of the launched rows, and the campaign is marked launched; the invariant is kept |
| PhishingStore.LaunchOne | app/routes/phishing.py:73-77 | one loop pass computes `PhishingLedger.LaunchRow` and sends that row's message exactly when the row belongs to the campaign |
| PhishingStore.LaunchRows | app/routes/phishing.py:72-78 | the launch loop computes exactly `PhishingLedger.Launch` of the rows, and sends exactly `Mailings` of the result in row order |
| RiskEngine.TargetsOf | app/routes/phishing.py:243 | the selection holds only the user's targets and no more targets than the ledger |
| RiskEngine.TargetScore | app/routes/phishing.py:246-249 | a target scores below 0 only if it was reported; `TargetScoreBounds` gives its range |
| RiskEngine.TargetScoreBounds | app/routes/phishing.py:246-249 | one target contributes between -4 and 9, and never less than 0 unless reported |
| RiskEngine.ScoreAppend | app/routes/phishing.py:245-249 | the score of concatenated target lists is the sum of their scores |
| RiskEngine.ScoreBounds | app/routes/phishing.py:244-249 | n targets score between -4n and 9n |
| RiskEngine.RiskScoreBounds | app/routes/phishing.py:241-250 | a user with no targets scores 0; any user scores between -4 and 9 per own target |
| RiskEngine.ReporterScoresNegative | app/routes/phishing.py:249 | a user whose only target was reported and nothing else scores -4: scores can be negative |
| RiskEngine.RiskScoreUpdate | app/routes/phishing.py:241-250 | changing one target shifts its user's score by the change of that target's contribution and no other user's score |
| RiskEngine.PixelRaisesScoreByAtMostOne | app/routes/phishing.py:124-129 | a pixel fetch never lowers its user's score and raises it by at most one |
| RiskEngine.ScoringExample | app/routes/phishing.py:241-258 | a user with one target opened and clicked and one opened and reported scores 1, which is Low |
| RiskEngine.UserScore | app/routes/phishing.py:243-249 | the accumulator loop computes the user's risk score, the sum of the contributions of the user's targets |
| RiskEngine.UserRiskTable | app/routes/phishing.py:241-250 | the table has one entry per user, holding that user's risk score |
| RiskEngine.RiskLevel | app/routes/phishing.py:252-258 | High iff the score is at least 8, Medium iff it is from 4 to 7, Low otherwise, negative scores included |
| RiskEngine.RiskLevelMonotone | app/routes/phishing.py:252-258 | a higher score never gives a lower level |
| RiskEngine.RiskLevelBoundaries | app/routes/phishing.py:252-258 | 3 and -1 are Low, 4 and 7 are Medium, 8 is High |
| RiskEngine.RiskScore | app/routes/phishing.py:241-250 | the score over the user's targets; it has no contract of its own, and the rows `RiskScoreBounds` to `ScoringExample` state its properties |
| RiskEngine.OffenceCount | app/routes/phishing.py:233-236 | the number of the user's targets that were clicked or submitted; it has no contract of its own, and `OffenceCountAtMostTargets` and `OffenceCountsTargetOnce` state its properties |
| RiskEngine.OffenceCountAtMostTargets | app/routes/phishing.py:234-236 | a user has at most as many offences as targets |
| RiskEngine.OffenceCountsTargetOnce | app/routes/phishing.py:235-236 | a target both clicked and submitted counts once |
| RiskEngine.RepeatOffenders | app/routes/phishing.py:233-238 | a user is a repeat offender iff the user has at least one offending target and at least `threshold` of them; a user with none never is one |
| RiskEngine.RepeatOffenderExample | app/routes/phishing.py:237-238 | two clicked targets make a repeat offender at threshold 2 but not at 3 |
| PasswordStrength.Score | app/routes/password.py:21-42 | the score; it has no contract of its own, and `ScoreSpelledOut` and `ScoreRange` state its properties |
| PasswordStrength.Feedback | app/routes/password.py:22-42 | the hint list; it has no contract of its own, and the rows `FeedbackSpelledOut` to `FeedbackEmptyIffTopScore` state its properties |
| PasswordStrength.Strength | app/routes/password.py:43-46 | the label is one of the five levels, and the last level from score 4 up |
| PasswordStrength.Checks | app/routes/password.py:23-42 | there are exactly five checks |
| PasswordStrength.ScoreSpelledOut | app/routes/password.py:21-42 | the score is 2 for length at least 12, plus 1 each for an uppercase letter, a lowercase letter, a digit and a symbol |
| PasswordStrength.FailedSnoc | app/routes/password.py:22-42 | appending hints check by check builds the hints of the failed checks in check order |
| PasswordStrength.FailedFive | app/routes/password.py:22-42 | the hints of five checks are those of the failed ones, in order |
| PasswordStrength.FeedbackSpelledOut | app/routes/password.py:22-42 | the feedback is one fixed hint per failed check, in the order length, uppercase, lowercase, digit, symbol |
| PasswordStrength.ScoreRange | app/routes/password.py:21-42 | the score is in 0..6, and it is 6 exactly when all five checks pass |
| PasswordStrength.PassedPlusFailed | app/routes/password.py:23-42 | each check either passes or contributes exactly one hint |
| PasswordStrength.FailedMembers | app/routes/password.py:23-42 | a hint is in the feedback iff some failed check has it |
| PasswordStrength.FailedEmpty | app/routes/password.py:23-42 | there are no hints exactly when every check passed |
| PasswordStrength.PassedPlusFeedbackIsFive | app/routes/password.py:23-42 | passed checks plus feedback length make five |
| PasswordStrength.FeedbackNamesFailedChecks | app/routes/password.py:23-42 | the hint of check k is in the feedback iff check k failed |
| PasswordStrength.FeedbackEmptyIffTopScore | app/routes/password.py:23-42 | the feedback is empty iff the score is 6 |
| PasswordStrength.StrengthExcellentFromFour | app/routes/password.py:43-46 | every score from 4 up is labelled "Excellent" |
| PasswordStrength.UnderscoreIsSymbol | app/routes/password.py:39 | the underscore is a word character, yet it passes the symbol check; "_" alone has no uppercase letter |
| PasswordStrength.PasswordCheck | app/routes/password.py:19-47 | the handler returns the score (at most 6), the feedback list and `levels[min(score, 4)]` as the specification functions define them |
| SurveyTally.AnswerKey | app/routes/survey.py:12 | the answer key is `q` followed by at least one character, the decimal id |
| SurveyTally.AnswerTo | app/routes/survey.py:12 | `ans.get(key)`; it has no contract of its own, and `MissingAnswerCountedAsNone` and `OtherKeysIgnored` state its properties |
| SurveyTally.Tally | app/routes/survey.py:12-15 | the histogram of a column; it has no contract of its own, and the rows `TallyCounts` to `TallyStep` state its properties |
| SurveyTally.Column | app/routes/survey.py:9-12 | one answer per response, in response order |
| SurveyTally.TallyCounts | app/routes/survey.py:13-15 | a bucket exists iff some response gave that answer, and holds how many did |
| SurveyTally.TallyPositive | app/routes/survey.py:13-15 | every stored count is at least 1 |
| SurveyTally.SumValuesRemove | app/routes/survey.py:13-15 | the total of a histogram does not depend on the order its buckets are summed |
| SurveyTally.SumBump | app/routes/survey.py:13-15 | counting one more answer adds one to the total |
| SurveyTally.TallyTotal | app/routes/survey.py:9-15 | each question's counts add up to the number of responses |
| SurveyTally.MissingAnswerCountedAsNone | app/routes/survey.py:12-15 | a response without the key `q<id>` is counted in the None bucket rather than skipped |
| SurveyTally.OtherKeysIgnored | app/routes/survey.py:12 | answer keys other than the question's key do not change that question's answers |
| SurveyTally.BumpInTwoSteps | app/routes/survey.py:13-15 | creating a missing bucket at 0 and then incrementing it counts one more answer |
| SurveyTally.TallyStep | app/routes/survey.py:9-15 | counting response i extends each question's histogram by that response's answer |
| SurveyTally.CountResponse | app/routes/survey.py:11-15 | the inner loop turns the histograms of the first i responses into those of the first i + 1, for every question |
| SurveyTally.SurveyResults | app/routes/survey.py:8-15 | one entry per question of the survey; each holds the histogram of that question's answers over all responses, whose counts sum to the number of responses |

## Left out

- Flask routing, templates, redirects, flash messages, `send_file` and login checks. These are presentation. The model returns the handler's outcome (`Response`, GIF bytes, JSON fields) as values.
- SQLAlchemy queries and session commits. The store is an in-memory object whose fields are the tables. A handler's changes are visible at once, as after its commit.
- The mail transport. `send_phishing_email` is not defined in `app/routes/phishing.py`, so it is modelled as appending to an outbox that never fails.
- `PhishingStore.Store.LaunchCampaign`: a failure while sending. If `send_phishing_email` raises at line 77, the exception leaves the handler before the commit at line 80. The messages already sent stay sent, but no `email_sent`, no backfilled key and no `launched` flag is committed. The model's launch always completes.
- `datetime.utcnow()` and `uuid.uuid4()`: clock and random generator, modelled as parameters (see above).
- Concurrent requests on the same key. The source takes no locks.
- The template lookup at `app/routes/phishing.py:71` can return None. The model sends the campaign's template id as is.
- The CSV export, template editing and deletion, the campaign list and results views, and the dashboard's aggregate counters (lines 226-230): plain queries and output formatting.
- `json.loads` in the survey view. Responses are modelled as already-parsed maps from answer keys to string values, so answers of other JSON types are not modelled.
- `PasswordStrength.IsWordChar`: `\w` and `\W` are restricted to ASCII. Python's Unicode-aware classes would also count non-ASCII letters and digits as word characters, and the model does not capture that.
- `PhishingStore.Store.AddCampaign`: `campaigns_add` passes `launch_time=` to `PhishingCampaign`, which has no such column (`app/models.py:46-51`). The model stores the value as `scheduled_time` instead of modelling the constructor's rejection.
- `PhishingStore.Store.AddCampaign`: like the source, it accepts an empty user list and repeated user ids, making one target per id given. It does not check that the template exists.
- `RiskEngine.TargetsOf`: its contract states only that every selected target is the user's. It does not state the converse, that every target of the user is selected. The score lemmas (`RiskScoreUpdate`, `RiskScoreBounds`) work from the definition instead.
- The first `landing` definition (`app/routes/phishing.py:110-122`) is not modelled: the second definition is taken as the intended one.
- The first `PhishingTarget` definition (`app/models.py:53-61`) is not modelled: the second definition is taken as the intended one.
- `PhishingStore.Store.AssignRemediation`: `assign_remediation` (`app/routes/phishing.py:154-159`) uses `RemediationAssignment`, which the file never imports (line 3), so every call raises `NameError` at line 155. The model always performs the assignment the function evidently intends.

## Findings

| source | as written | input that shows it | evidently intended | confidence | as-written member | corrected member |
|---|---|---|---|---|---|---|
| app/routes/phishing.py:148-150 | every form POST stamps `data_submitted`, replacing an earlier submission time | two form POSTs for one known key at instants t1 != t2: `data_submitted` ends as t2, not t1 | the first submission is kept, as the guarded block at lines 166-167 does, so that resubmitting a form is a no-op | not executed | PhishingLedger.LandingResubmitOverwrites | PhishingLedger.GuardedSubmitFirstWriteWins |
