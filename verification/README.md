# A verified model of the play-time economy

BrainXP locks a phone's games until its owner answers questions about their own study material. Behind the
web handlers of its server sit a handful of state machines over tables. This project models those machines in
Dafny and proves what they promise over whole runs.

| file | what it holds |
|---|---|
| `Rules.dfy` | day keys, the reset countdown, caps and allowances by weekday, the play lock |
| `Ledger.dfy`, `LedgerLaws.dfy` | the append-only time ledger and its usage index; what a batch of offline play costs, whatever its order, and why sending it again is free |
| `Reports.dfy` | the day series of the guardian's report |
| `Policies.dfy` | the rules of a subject and the 24-hour delay on loosening them in personal mode |
| `Undelayed.dfy` | what personal mode changes at once, and what moving the reset hour is worth over whole runs |
| `Tokens.dfy` | refresh-token chains |
| `Apps.dfy` | the inventory of installed apps |
| `Fleet.dfy`, `FleetLaws.dfy` | subjects, pairing codes, devices, and the tokens, push addresses and app lists that hang off a device |
| `Guardian.dfy` | heartbeats, alerts and the silence watchdog, on top of the fleet |
| `Grading.dfy` | marking, rewards, the receipt and its ceiling |
| `Generation.dfy` | which generated questions are stored and in what shape |
| `Quizzes.dfy`, `QuizLaws.dfy` | quiz sessions from start to receipt |
| `Progress.dfy` | streaks, freeze tokens and badges |
| `Study.dfy` | one submission across sessions, ledger and progress, and what that ties together over whole runs |
| `Jobs.dfy` | the job queue, its workers and their crashes |

The requests are methods of classes whose fields are the tables. Each method is proved against a function on
table values; a refused request leaves the tables as they were, because an error rolls the transaction back
(the one exception, the attempt counter of a pairing code, commits on its own connection). The laws are lemmas
about those functions and about runs of them. A moment is a whole number of microseconds and every request is
given the clock readings it takes; random draws, new ids and essay verdicts are inputs. New ids are assumed not
to collide with stored ones.

Where the code and its own words differ, the model follows the code:

- The message of a refused token reuse says that the whole session is revoked (`app/routers/auth.py:209-215`).
  Raising the error rolls the revocation back, so nothing is revoked: `Tokens.RefusalsLeaveNoTrace` proves it for
  every run, and `Tokens.RefusedReuseExample` shows a chain that goes on working.
- Unlocking an app within ten minutes of locking it is meant to be immediate in personal mode
  (`app/routers/policies.py:172-178`). It depends on a `__last_locked__` entry that no request ever writes;
  `Policies.UndoWindowNeverOpens` proves that it never happens.
- The repository's README says that loosening any rule takes 24 hours in personal mode. That is false of
  academic level, question language, reset hour and upload methods. `Policies.UndelayedExactly` gives the exact
  condition: one of them changes at once if and only if the request asks for another value and the request
  loosens none of the delayed fields; otherwise the whole request waits (`Policies.MixedRequestWaits`). The reset
  hour is the one that matters: `Undelayed.ResetHourExample` moves it at four in the morning and opens a second
  day of play on the spot, `Undelayed.ResetHourOpensDay` says exactly when that happens, and
  `Undelayed.ChargedWithinCaps` is the bound that survives.
- A played event that was cut to nothing is not recorded, so the same event costs again on a later day that has
  room (`LedgerLaws.CutEventExample`); `LedgerLaws.FreeExactlyWhenSettled` gives the exact condition under which a
  batch is free.
- The idle lock and a silent guardian make the playable figure zero, but play reported anyway is still charged
  (`LedgerLaws.BlockedAndCharged`); `LedgerLaws.ChargedBeyondShownExactly` gives the exact condition.
- The reward column of an answer keeps two decimals, while the seconds credited are cut from the unrounded sum. The
  stored rewards of a session need not add up to what it was paid (`QuizLaws.RoundingCarriesExample`);
  `QuizLaws.MarksMatchSession` bounds the difference and says exactly when the whole seconds agree.

## Model

| member | source | states |
|---|---|---|
| `Rules.ResetBoundary` | app/services/rules.py:161-171 | the day key of a later moment is unchanged if and only if the reset has not passed, and is the next day's for exactly the day after it |
| `Rules.CountdownIsSafe` | app/services/rules.py:166-171 | no moment before the shown whole-second countdown elapses changes the key; when it elapses the key has advanced if and only if the reading was on a whole local second |
| `Rules.SevenDaysUseTheWeek` | app/services/rules.py:144-149 | any seven consecutive days are allowed together exactly the caps of the week, whichever day they begin with |
| `Ledger.LedgerStore.GrantToday` | app/services/ledger.py:30-51 | the upsert claims a day only while unclaimed and returns exactly what it added to the sum |
| `Ledger.TouchEffect` | app/services/ledger.py:74-87 | the first reading of a day adds that weekday's allowance, every later reading adds nothing, and neither spends |
| `Ledger.LedgerStore.ReadStanding` | app/routers/ledger.py:23-62 | the standing reply, with the frozen overlay of the phone heard of last and the streak columns or zeros, is read off tables with today's grant claimed |
| `Ledger.LedgerStore.Append` | app/services/ledger.py:115-143 | an entry with an event id is inserted at most once, and the reply says whether it was |
| `Ledger.LedgerStore.AddUsage` | app/services/ledger.py:146-157 | the upsert adds the seconds to the day's row and keeps its grant stamp |
| `Ledger.LedgerStore.RecordConsumption` | app/services/ledger.py:160-182 | the step-by-step charge has the effect of the charging function on both tables and reports whether it wrote |
| `Ledger.ChargeEffect` | app/services/ledger.py:170-182 | a charge takes the same amount from balance and cap, ends within the cap in force, records its event only if it took something, and touches no other day |
| `Ledger.LedgerStore.SyncConsumption` | app/routers/ledger.py:65-78 | refused to a proxy; otherwise the loop over the first 200 items, each against its own clock reading, and the standing reply of the tables it leaves |
| `Ledger.LedgerStore.Adjust` | app/routers/ledger.py:99-123 | gifts, redemptions and their refusals, with everything rolled back on refusal |
| `Ledger.AdjustEffect` | app/routers/ledger.py:105-116 | a redemption takes what was asked or what there is, and is refused exactly when there is nothing |
| `Ledger.LedgerStore.CreditReward` | app/services/ledger.py:185-195 | the whole seconds of a reward are appended when positive |
| `Ledger.RunKeepsInv` | app/services/ledger.py:30-61 | one step of any kind under any policy keeps: sum not negative, usage equal to consumption, one grant a day, one entry an event, log only extended |
| `Ledger.EveryReachableLedger` | app/services/ledger.py:146-195 | in every reachable ledger the clamp on the balance hides nothing, the usage rows over all days sum to minus the consumed entries, and no day was granted twice |
| `LedgerLaws.ChargeAllTotal` | app/routers/ledger.py:72-77 | the charging loop's total in closed form, on the log, on the usage row and on the room left |
| `LedgerLaws.SyncTotal` | app/routers/ledger.py:72-78 | a whole batch takes the smaller of what its first-seen unrecorded events ask and what balance and cap leave after today's grant |
| `LedgerLaws.OrderDoesNotMatter` | app/routers/ledger.py:72-77 | batches of distinct events that are permutations of each other cost the same |
| `LedgerLaws.ReplayChangesNothing` | app/services/ledger.py:137-143 | after a batch, any list of its events leaves every table unchanged on that day and policy, whatever is played or redeemed in between |
| `LedgerLaws.FreeExactlyWhenSettled` | app/services/ledger.py:170-182 | any request, the first of its day included, takes nothing if and only if its first reading leaves all its events recorded or the day without room |
| `LedgerLaws.CutEventCostsLater` | app/services/ledger.py:170-182 | an event cut to nothing leaves no trace, and sent again on another day it costs what that day has room for |
| `LedgerLaws.CutEventExample` | app/services/ledger.py:170-182 | a minute played on a day without allowance is free that day and charged the next |
| `LedgerLaws.PlayableIsChargeable` | app/services/rules.py:174-199 | a positive playable figure is shown exactly when nothing blocks, and up to it every second of a new event is charged |
| `LedgerLaws.ChargedBeyondShownExactly` | app/routers/ledger.py:51-54 | a charge exceeds the playable figure if and only if the subject is blocked by idleness or its guardian, the event is new and the day has room |
| `LedgerLaws.BlockedAndCharged` | app/routers/ledger.py:51-54 | a phone silent for six minutes is shown nothing and charged the minute it reports |
| `LedgerLaws.StandingTells` | app/services/ledger.py:74-112 | every figure of the standing in terms of log, usage row and policy, and which reason is given when: guardian, empty balance, idleness, cap |
| `LedgerLaws.FrozenExactly` | app/routers/ledger.py:23-37 | play is frozen exactly when the phone heard of last is disabled or silent for more than five minutes |
| `LedgerLaws.IdleExactly` | app/services/rules.py:152-158 | a subject is idle exactly when it studied once and more days have passed since than allowed |
| `LedgerLaws.BatchIsCut` | app/routers/ledger.py:72-72 | items after the two hundredth cost nothing |
| `LedgerLaws.ChargeIsLogged` | app/services/ledger.py:170-182 | a charge writes one consumption row under its event, dated as the phone reports |
| `LedgerLaws.OthersAreLogged` | app/services/ledger.py:115-143 | allowances, gifts, redemptions and rewards each write one row of their type, dated now |
| `Reports.CutoffLosesNothing` | app/routers/reports.py:80-89 | for every day of the window the fetched entries and the entire ledger have the same sums |
| `Reports.Report` | app/routers/reports.py:78-106 | exactly `window` consecutive days ending today, each with the sums over the entire ledger |
| `Reports.DaysAddUp` | app/routers/reports.py:80-97 | over any range of days holding the whole ledger, the days show every reward and every charge, and nothing else |
| `Policies.PolicyStore.PutPolicy` | app/routers/policies.py:70-112 | files a weakening of a personal subject with its due time and leaves the rules alone; installs everything else at once |
| `Policies.PolicyStore.ApplyPending` | app/routers/policies.py:116-132 | succeeds exactly on a ripe slot, installs it and empties it; a refusal changes nothing |
| `Policies.PolicyStore.CancelPending` | app/routers/policies.py:136-142 | empties the slot and touches no rule |
| `Policies.PolicyStore.LockApp` | app/routers/policies.py:146-157 | locks at once and keeps the slot |
| `Policies.PolicyStore.UnlockApp` | app/routers/policies.py:161-197 | removes the package, or files the removal for a personal subject |
| `Policies.WeakeningIsLoosening` | app/routers/policies.py:42-60 | the direction test holds if and only if installing loosens some field, or the ratio is lower by less than the column stores |
| `Policies.InstallRoundTrip` | app/routers/policies.py:102-105 | naming all of a policy's fields reproduces it, naming none changes nothing, and neither counts as loosening |
| `Policies.SlotOrigin` | app/routers/policies.py:83-90 | whatever is pending was filed by an earlier request exactly 24 hours before its due time, holds no `__last_locked__`, and was not replaced, cancelled or applied since |
| `Policies.SlotIsLastFiling` | app/routers/policies.py:115-142 | in every run something is pending if and only if a request filed it and nothing has replaced, cancelled or applied it since |
| `Policies.OnlyApplyLoosens` | app/routers/policies.py:115-132 | for a personal subject no step but a ripe apply loosens any field, and it loosens to what it carries |
| `Policies.LooseningWaitsADay` | app/routers/policies.py:83-142 | in every run, a field looser later than earlier was loosened by an apply of changes filed at least 24 hours before it, never cancelled or used in between, and at least that loose |
| `Policies.FiledRequestRipens` | app/routers/policies.py:115-132 | a filed request that is not replaced, cancelled or applied can be applied exactly from 24 hours on, with exactly its effect |
| `Policies.UnlockFiles` | app/routers/policies.py:179-190 | a personal unlock files the list without the one package and nothing else |
| `Policies.FamilyNeverWaits` | app/routers/policies.py:102-112 | in a family nothing is ever pending, requests install what they name and unlocking is immediate |
| `Policies.ChangesAreStamped` | app/routers/policies.py:84-105 | every change of the rules or the slot is dated with its request |
| `Policies.UndoWindowNeverOpens` | app/routers/policies.py:172-190 | in every reachable personal policy unlocking waits |
| `Policies.UndelayedExactly` | app/routers/policies.py:42-60 | level, language, reset hour or uploads change at once if and only if the request asks for another value and weakens nothing; a request naming no delayed field is installed at once |
| `Policies.MixedRequestWaits` | app/routers/policies.py:79-90 | a lower level changes at once alone and waits together with one more second of reward |
| `Undelayed.KeyIsNear` | app/services/rules.py:161-163 | under any reset hour a moment belongs to its own local date or the one before |
| `Undelayed.LocalMidnight` | app/config.py:31-31 | the local date changes at five in the afternoon UTC |
| `Undelayed.HourMovesKey` | app/services/rules.py:161-163 | moving the reset hour moves the current key exactly when the time of day lies between the two hours, and by one day at most |
| `Undelayed.ResetHourOpensDay` | app/routers/policies.py:102-105 | in any ledger that has claimed its current day, a moved reset hour yields a personal subject another allowance if and only if the time of day lies between the hours and the day moved to is unclaimed; a next day never begun has its full cap |
| `Undelayed.ResetHourExample` | app/routers/policies.py:102-105 | with the cap used up at four in the morning, moving the hour from five to three leaves ten more minutes at once |
| `Undelayed.LowerLevelAcceptsMore` | app/services/rules.py:41-49 | a lower level accepts all that the former did, and more exactly when it is lower in the order |
| `Undelayed.ChargedWithinCaps` | app/services/ledger.py:160-182 | over any run, with any clocks and the reset hour changing at will, what is charged on a range of local dates is at most the caps of those days and of the one before |
| `Undelayed.OneDateTwoCaps` | app/services/ledger.py:160-182 | that is two caps on one date, and a week of caps and one in seven |
| `Undelayed.TwoCapsReached` | app/services/ledger.py:160-182 | a run whose reset hour moves once is charged both caps on one date |
| `Undelayed.AllowancesWithinDates` | app/services/ledger.py:30-51 | over n local dates at most n + 1 daily allowances are added, however the reset hour moves |
| `Tokens.TokenStore.Refresh` | app/routers/auth.py:176-240 | succeeds exactly on an accepted token and rotates it; every refusal, the reuse branch included, leaves the table unchanged |
| `Tokens.TokenStore.Logout` | app/routers/auth.py:244-256 | revokes the chain of a known token and nothing else |
| `Tokens.RunKeepsOneLive` | app/routers/auth.py:192-208 | no run, on any clock, gives a chain two unused unrevoked tokens |
| `Tokens.RunKeepsInv` | app/routers/auth.py:32-50 | when the clock never runs back and moves on before a token is presented, every run also keeps distinct use times, parents used before children, one owner per chain, and never undoes a use or a revocation |
| `Tokens.AtMostTwoAccepted` | app/routers/auth.py:159-172 | at most two tokens of a chain are accepted at any moment, the live one and the one used last |
| `Tokens.EveryReachableChain` | app/routers/auth.py:176-240 | after every run of requests from an empty table each chain has at most one unused unrevoked token and at most two that would be accepted |
| `Tokens.ReplacedTokenIsDead` | app/routers/auth.py:163-172 | once its successor is used a token is refused at every moment of every continuation |
| `Tokens.DeadChainNeverMints` | app/routers/auth.py:186-190 | a chain whose tokens are all revoked gets no further token in any run |
| `Tokens.LogoutKillsChain` | app/routers/auth.py:252-256 | after a logout no token of the chain is accepted |
| `Tokens.RunLeavesChain` | app/routers/auth.py:243-256 | in every run, requests that do not concern a chain leave every row of it, and what is accepted of it, as they are |
| `Tokens.MintedBelongs` | app/routers/auth.py:32-50 | a minted token belongs to the user and device it was opened for or to those of the token presented, whose chain it continues |
| `Tokens.TokensExpire` | app/routers/auth.py:32-50 | a token is accepted for thirty days after it was minted while nothing happens, and never after |
| `Tokens.LostReplyIsRecoverable` | app/routers/auth.py:197-208 | a token presented again within thirty seconds of its first use yields a working token and the lost one never works |
| `Tokens.RefusalsLeaveNoTrace` | app/routers/auth.py:176-215 | deleting every refused presentation from a run, reuses included, leads to the same table |
| `Tokens.RefusedReuseExample` | app/routers/auth.py:209-215 | a concrete chain whose live token is accepted after a refused reuse |
| `Apps.Deduplicate` | app/services/apps.py:37-41 | one entry per reported package, each the last one reported for it, in the order packages are first named |
| `Apps.InventoryStore.Sync` | app/services/apps.py:53-99 | the reported difference turns what was known into what is known, the baseline flag means no row existed, and a change is recorded for every later report that differs |
| `Apps.SyncedIsReported` | app/services/apps.py:102-133 | after a sync exactly the report is present; first-seen survives only uninterrupted presence; removed rows stay; other subjects do not move |
| `Apps.ChangesExplainInventory` | app/services/apps.py:62-99 | the recorded changes are complete: made to the first report they give what is known at any later time, whatever other phones report |
| `Apps.InventoryStore.Forget` | app/services/apps.py:204-207 | deletes the rows of one subject and no recorded change |
| `Apps.ForgottenStartsOver` | app/services/apps.py:204-207 | after forgetting, the next report is a first one: all newly seen, nothing recorded, other subjects untouched |
| `Fleet.FleetStore.Unbind` | app/services/devices.py:47-60 | stamping devices, tokens and push rows and clearing app lists subject by subject equals unbinding in one step |
| `Fleet.FleetStore.Displace` | app/services/devices.py:63-71 | exactly the conflicting devices are unbound |
| `Fleet.FleetStore.Release` | app/services/devices.py:90-101 | exactly the subject's bound devices are unbound, and counted |
| `Fleet.FleetStore.RemoveSubject` | app/routers/families.py:106-126 | deletes, releases and withdraws open codes, for parents and existing profiles only |
| `Fleet.FleetStore.ReleaseDevice` | app/routers/families.py:222-235 | releases, or refuses when there is no device |
| `Fleet.FleetStore.IssuePairingCode` | app/routers/families.py:178-219 | the first of five candidates no unexpired code uses, unless it collides with a stale row; refusals restore the withdrawn codes |
| `Fleet.FleetStore.CountAttempt` | app/services/pairing.py:13-24 | counts the attempt and reports the new count |
| `Fleet.FleetStore.PairDevice` | app/routers/families.py:259-331 | pairs exactly on a live code that is not burned; every refusal after the lookup leaves only the counted attempt |
| `Fleet.FleetStore.RegisterPushToken` | app/services/push.py:148-166 | the address moves to the caller and is unrevoked, for callers that pass the device check only |
| `FleetLaws.DisplaceMakesRoom` | app/services/devices.py:37-71 | displacing takes at most two devices and leaves none that could break the unique index |
| `FleetLaws.RunKeepsInv` | app/routers/families.py:105-331 | every run of fleet requests keeps the fleet invariant |
| `FleetLaws.EveryReachableFleet` | app/services/devices.py:37-60 | devices match subjects and phones; nothing live belongs to a deleted profile; unbound devices have no usable token and no push address; no app list without a phone; at most five passes and one pairing per code row, before it expired |
| `FleetLaws.RunIsTokenRun` | app/routers/auth.py:186-236 | every run of the fleet, pairing and unbinding included, is on the token table a run of that table |
| `FleetLaws.RunKeepsChains` | app/routers/auth.py:186-236 | so the chain invariant holds in the fleet and no token is deleted or brought back |
| `FleetLaws.ReplacedTokenStaysDead` | app/routers/auth.py:163-172 | in the fleet too a token whose successor was used is refused in every continuation |
| `FleetLaws.UnboundForGood` | app/services/devices.py:47-60 | once a phone is unbound no token of it is ever accepted again and its chains get no further token |
| `FleetLaws.PairingHandsOver` | app/routers/families.py:283-322 | after a pairing the subject holds exactly the new phone, the code is spent, and no token of a displaced device is accepted |
| `FleetLaws.RemovalIsFinal` | app/routers/families.py:111-120 | after every continuation a deleted profile has no phone, no app list, no code that pairs and no accepted session |
| `FleetLaws.MayCallExactly` | app/deps.py:40-76 | in every reachable fleet a device may call exactly while it is bound, and never for a deleted profile |
| `FleetLaws.ProfileLife` | app/routers/families.py:106-126 | a created profile exists, a removed one is dated and gone, and others stay |
| `FleetLaws.RefusalStillCounts` | app/services/pairing.py:13-24 | a refused pairing changes nothing but the attempt count of its row |
| `FleetLaws.AttemptsAddUp` | app/services/pairing.py:6-10 | over any run that keeps the row, its count is the number of tries made, and from five on no try pairs |
| `FleetLaws.CodeLife` | app/routers/families.py:266-306 | a code pairs if and only if it is presented within ten minutes of its issue, fewer than five tries came before and none of them paired, told from the list of requests alone |
| `FleetLaws.FirstFreeExactly` | app/routers/families.py:192-205 | drawing stops at the first candidate no unexpired code uses and fails only when there is none |
| `FleetLaws.UnboundTouchesOnly` | app/services/devices.py:47-60 | unbinding touches the rows, tokens, addresses and app lists of the named devices and nothing else |
| `FleetLaws.SessionStands` | app/services/devices.py:37-60 | over any run, other subjects' requests neither unbind a phone nor change a token of its chain |
| `FleetLaws.PushRequests` | app/services/push.py:148-206 | registering takes an address over, dropping needs ownership, pruning names its victims, and no other address is touched |
| `FleetLaws.AddressStays` | app/services/push.py:148-196 | over any run an address delivers to whoever registered it last until it is dropped, pruned, taken over or its phone is unbound |
| `FleetLaws.BeatIsRecorded` | app/routers/families.py:362-365 | a heartbeat records status and time on its own row and nothing else |
| `FleetLaws.AppsAreReported` | app/routers/apps.py:24-30 | what a phone reports is what its subject is known to hold, and other lists stay |
| `Guardian.AlertStore.RaiseAlert` | app/services/guardian.py:115-129 | inserts exactly when no alert of the kind is open and returns its id |
| `Guardian.AlertStore.Resolve` | app/services/guardian.py:132-141 | stamps the open alerts of one subject and kind |
| `Guardian.AlertStore.Heartbeat` | app/routers/families.py:353-406 | status edge and the first twenty events in order; every alert opened, and no other, is handed to the push queue |
| `Guardian.AlertStore.Sweep` | app/services/guardian.py:196-213 | raises for every fetched row and counts what was new |
| `Guardian.AlertStore.Acknowledge` | app/routers/guardian.py:88-111 | stamps once, for guardians of an existing subject only |
| `Guardian.HeartbeatDecides` | app/routers/families.py:362-400 | which alerts are open after a heartbeat, exactly, in terms of the last event per permission and the status edge |
| `Guardian.HeartbeatQuiets` | app/routers/families.py:366-366 | no silence alert of the subject is open after a heartbeat and none is added by it |
| `Guardian.HeartbeatTouches` | app/routers/families.py:366-400 | a heartbeat resolves open alerts of its own subject and adds alerts of its subject and phone, dated now, and nothing else |
| `Guardian.SameStatusTwice` | app/services/guardian.py:82-87 | reporting the same status again leaves the protection alert as it was |
| `Guardian.AlertsAge` | app/services/guardian.py:115-141 | over any run an alert keeps its subject, kind, phone and date, and its first acknowledgement and resolution stand |
| `Guardian.AcknowledgedCloses` | app/services/guardian.py:108-129 | an acknowledged alert is closed, so the same trouble may be reported again |
| `Guardian.AcknowledgedOnce` | app/routers/guardian.py:88-111 | a guardian's first acknowledgement dates the alert and touches no other; a child's changes nothing |
| `Guardian.RunDebt` | app/services/guardian.py:170-193 | over any run, silence alerts sent plus the one still due grow by at most one per sign of life |
| `Guardian.SilenceAlertsAreEarned` | app/services/guardian.py:170-213 | a subject never gets more silence alerts than heartbeats and pairings, acknowledgements notwithstanding, and at most one alert per kind is open |
| `Guardian.SweepLeavesNobodyOut` | app/services/guardian.py:180-193 | after a sweep every phone silent for fifteen minutes has been reported or its alert is open |
| `Guardian.HeartbeatBuysTime` | app/services/guardian.py:180-193 | over any run no sweep reports a phone within fifteen minutes of its last heartbeat |
| `Progress.StreakAccounting` | app/services/rules.py:210-228 | days spanned are days studied plus freezes spent; freezes never outnumber tokens brought and awarded; ranges hold |
| `Progress.StreakSpanBound` | app/services/rules.py:210-228 | a streak of c days covers at most c + 2 + c/7 calendar days |
| `Progress.DailyStudy` | app/services/rules.py:210-228 | n consecutive days make a streak of n, the longest so far, with a token for every seventh up to two |
| `Progress.AnotherDay` | app/services/rules.py:210-228 | what one more day does to streak, longest and tokens, by the days since the last: same, next, one missed with or without a token, anything else |
| `Progress.ProgressStore.RecordSession` | app/services/progress.py:59-122 | the row, the owned badges and the list of new ones after a session |
| `Progress.BadgesMatchHighWater` | app/services/progress.py:99-122 | owned badges are exactly those whose rule holds with the longest streak, and each is announced once |
| `Progress.BadgesAreEarned` | app/services/progress.py:36-48 | the badges owned are those the list of sessions has earned, threshold by threshold |
| `Progress.WeekOfStudy` | app/services/progress.py:76-122 | a session a day makes a streak as long as the list, and the week's badge comes with the seventh |
| `Progress.RowSumsSessions` | app/services/progress.py:76-97 | each column is the sum over the sessions, and the streak is that of the days studied |
| `Grading.MarkPays` | app/services/grading.py:67-73 | an answer is paid exactly when it is marked right, never when flagged, and at most its type's share of a hard question |
| `Grading.MarkIsSound` | app/routers/quizzes.py:351-378 | over all terms a session row can hold, a reward is positive if and only if the answer is right and no factor is zero |
| `Grading.EssayVerdict` | app/services/grading.py:45-73 | when an essay passes, when it is flagged and what it scores, in terms of the answer alone |
| `Grading.SteeringNeverPays` | app/services/grading.py:50-62 | a blank, steering or too short essay is wrong and unpaid, and flagged exactly if it steers |
| `Grading.TurnedAwayAddNothing` | app/routers/quizzes.py:351-393 | a receipt pays and counts as if such essays had not been handed in |
| `Grading.EssayPaysByScore` | app/services/rules.py:102-107 | a passed essay earns its score's share of a flawless one |
| `Grading.AddUp` | app/routers/quizzes.py:351-393 | the receipt loop's subtotal times the session's factors is the sum of the rewards |
| `Grading.Tally` | app/routers/quizzes.py:301-400 | gross is the sum of all rewards, credited its whole part, and the counts are those of the answers marked right in every session that pays, and zero in one that pays nothing |
| `Grading.CreditWithinCeiling` | app/services/rules.py:130-138 | with no more essays than the ratio rounds to, gross and credited stay within the ceiling for that many questions or more |
| `Grading.RoundHalfEvenIsNearest` | app/services/rules.py:130-138 | the number of essays is the nearest whole number, the even one of two |
| `Grading.CeilingIsTight` | app/services/rules.py:130-138 | for flawless hard sessions the ceiling holds if and only if that condition does |
| `Grading.StoredSumIsRounded` | app/tables.py:195-201 | the stored rewards of a started session add up to a hundred times the gross, up to half a hundredth per passed essay |
| `Grading.StoredSecondsAgree` | app/tables.py:195-201 | their whole part is what was credited if and only if that rounding carries across no whole second, as is always so without a passed essay |
| `Grading.StoredScoreMisleads` | app/tables.py:199-200 | a stored score reads as passed although the essay was not exactly when the score lies between 59.995 and 60 |
| `Generation.Keep` | app/services/generation.py:139-147 | the questions without a reason for rejection, in order |
| `Generation.Dedupe` | app/services/generation.py:150-155 | each question against those kept before it |
| `Generation.AcceptedIsWellShaped` | app/services/generation.py:114-136 | an accepted question has four different non-empty options and a key among them, or a rubric and a reference |
| `Generation.AcceptedExactly` | app/services/generation.py:92-136 | a question is accepted if and only if it fits its columns, quotes its source, and is a four-option question without catch-alls or an essay with rubric and reference |
| `Generation.DedupedIsMaximal` | app/services/generation.py:150-155 | no kept question reads like an earlier kept one, and none was dropped without such a reason |
| `Generation.Store` | app/services/generation.py:72-89 | stored rows are well shaped, mutually unlike, consecutively numbered, and leave out no acceptable question without a look-alike |
| `QuizLaws.StoredRowsFit` | app/services/generation.py:72-89 | stored under new ids, what generation lets through satisfies what the quizzes assume of stored questions, options and key unchanged |
| `Quizzes.QuizStore.StartQuiz` | app/routers/quizzes.py:54-151 | reopens the open session of the newest set or creates one with the discount of its rank, and announces its ceiling; refuses proxies, missing, foreign, rejected and unready materials, and levels below the declared one |
| `Quizzes.QuizStore.GetQuiz` | app/routers/quizzes.py:166-214 | appends unseen questions with their draws, writes only if there are any, and announces a ceiling that makes no room for essays |
| `Quizzes.QuizStore.SaveAnswer` | app/routers/quizzes.py:218-247 | accepts an answer exactly when the session is open, the question belongs to it and the answer is of its kind |
| `Quizzes.QuizStore.Submit` | app/routers/quizzes.py:262-440 | succeeds exactly within the limit on an open, fully answered session of one's own; stores a mark per present question, to two decimals, and credits and records the same whole seconds of the exact sum of its rewards |
| `Quizzes.QuizStore.MarkPaper` | app/routers/quizzes.py:301-349 | the marking loop stores correctness, score, flag and reward of every present question, or stops on a position out of range |
| `QuizLaws.ExactlyOneRight` | app/routers/quizzes.py:25-28 | under any permutation exactly one shown position is graded correct, and it alone shows the keyed text |
| `QuizLaws.SavedPositionKeepsMeaning` | app/routers/quizzes.py:186-197 | over any run, a position of a session decodes to the option that was shown there and is graded by the text shown |
| `QuizLaws.RunKeepsInv` | app/routers/quizzes.py:76-133 | every run keeps one open session per set, the discount schedule, fitting permutations and matching payment, and sessions only grow |
| `QuizLaws.EveryReachableDesk` | app/routers/quizzes.py:105-133 | one open session per subject and set; novelty 1.0, 0.6, then 0.3 by rank; nothing paid while open and exactly the recorded reward once after |
| `QuizLaws.AnsweredMeansSubmittable` | app/routers/quizzes.py:294-314 | a fully answered open session can be submitted: no saved position is out of range |
| `QuizLaws.StartsExactly` | app/routers/quizzes.py:57-81 | on which materials and sets a quiz starts, and at which levels |
| `QuizLaws.StartShowsAll` | app/routers/quizzes.py:84-126 | starting, or finding the session open, leaves one of that subject and set in which every question of the set appears |
| `QuizLaws.OpeningShowsAll` | app/routers/quizzes.py:186-197 | reopening shows every question there is by then, each shuffled one with its shuffle |
| `QuizLaws.RunKeepsAnswers` | app/routers/quizzes.py:218-247 | saved answers belong to questions of their session's set and are of their kind |
| `QuizLaws.LastAnswerStands` | app/routers/quizzes.py:235-247 | an accepted answer stands until the same question of the session is answered again |
| `QuizLaws.ClosedAnswersStay` | app/routers/quizzes.py:218-225 | the answers of a closed session never change in any run |
| `QuizLaws.SteeringIsStored` | app/routers/quizzes.py:326-349 | what is stored for an essay that was turned away: wrong, zero, unpaid, flagged if it steers |
| `QuizLaws.CreditedExactly` | app/routers/quizzes.py:395-400 | what is credited is one earned row of the session, dated now, with the whole part of the rewards of the answers not turned away |
| `QuizLaws.PaperIsFaithful` | app/routers/quizzes.py:304-325 | each present question is marked with its own difficulty, an essay as saved, and a picked position right exactly when the text shown there is the keyed option's |
| `QuizLaws.MarksMatchSession` | app/routers/quizzes.py:345-415 | the recorded count is that of the marks called correct; the stored rewards add up to the gross up to half a hundredth per passed essay, and their whole part is the recorded reward if and only if that carries across no whole second |
| `QuizLaws.RoundingCarriesExample` | app/routers/quizzes.py:345-400 | a run in which two essays are stored as 386.50 seconds each and 772 are credited |
| `QuizLaws.CreditWithinAnnounced` | app/routers/quizzes.py:141-146 | over any run, a session whose order has not grown and holds no more essays than the ratio rounds to is credited at most the ceiling announced for it |
| `QuizLaws.RunKeepsMarks` | app/routers/quizzes.py:345-350 | in every run only closed sessions hold marks, and a mark never changes |
| `Study.StudyStore.Submit` | app/routers/quizzes.py:262-440 | one submission closes the session, credits the ledger, claims the day and records progress, or changes none of them |
| `Study.EveryReachableStudy` | app/routers/quizzes.py:395-415 | after every run the earned entries are exactly the rewards of the submitted sessions, progress counts exactly those sessions and their right answers, badges are theirs, and the last study day was claimed |
| `Study.TimeIsConserved` | app/services/ledger.py:54-61 | the balance is the reward of the submitted sessions plus what was granted and given and not redeemed, less the seconds on the usage rows |
| `Study.ProgressIsStudied` | app/services/progress.py:59-122 | the row and badges of a run are those of the list of sessions it submitted |
| `Study.PerfectMeansAllRight` | app/routers/quizzes.py:403-408 | a session is recorded with its right answers, the hard ones and essays among them, as perfect exactly when it has answers and all are right, on the day and of the material it was taken from |
| `Jobs.JobQueue.Enqueue` | app/queue.py:38-39 | pushes at the head |
| `Jobs.JobQueue.Reserve` | app/queue.py:42-49 | moves the oldest ready job to the head of busy |
| `Jobs.JobQueue.Acknowledge` | app/queue.py:52-53 | removes the first busy copy, if any |
| `Jobs.JobQueue.Handle` | app/worker.py:60-75 | exactly one copy is acknowledged whether the handler succeeds, fails or does not exist, and only a failed run is abandoned |
| `Jobs.JobQueue.RequeueStale` | app/queue.py:56-60 | ends with busy empty, everything moved in order behind the waiting jobs, and counted |
| `Jobs.JobsAreConserved` | app/worker.py:60-102 | over any interleaving with crashes and requeues, enqueued copies are ready, busy or removed, and removed at most as often as a run ended |
| `Jobs.RunsAreCounted` | app/queue.py:42-60 | runs ended, cut off and going on, with the copies still waiting, are exactly the copies enqueued and moved back; without a requeue no copy runs twice |
| `Jobs.ServedInOrder` | app/queue.py:38-49 | until something is moved back, jobs are handed out in the order they were put in |
| `Jobs.MovedBackWaits` | app/queue.py:56-60 | what is moved back waits behind everything waiting, in its own order |

## Left out

- The ledger, policy and progress tables are modelled for one subject at a time, since every statement on them filters on the subject; that other subjects stay untouched is only proved where tables are shared (fleet, alerts, apps, quizzes).
- Interleaved database transactions: handlers read and then write without row locks, so requests are modelled as serialised steps.
- Rewards are exact reals: rounding in binary floating point and the rounding of displayed figures are not modelled; the two decimals of the stored columns are.
- Daylight-saving zones: the zone is a fixed offset, as the default zone is.
- The text of notes, messages, notifications and audit rows, and the fields of rows that no rule reads.
- Passwords, access tokens, HMACs and the drawing of random codes: callers, ids and draws are inputs.
- Rate limits and upload quotas: plain counters with an expiry.
- Language-model providers, storage, push delivery, document conversion and event streaming: foreign calls. Essay verdicts, text cleaning and stem similarity are arbitrary inputs.
- Schema migrations, the offline question bank, material upload and the read-only listings.
- The material gate and the Bloom floor: short pure rules with no property across functions.
- Quizzes.QuizStore.Submit: the evaluator's notes of an essay mark, the guardian event of a flagged essay, and how the hourly limit is counted.
- Fleet.FleetStore.PairDevice: one clock reading serves the whole request, where the application reads the clock again for each row it stamps.
- Guardian.AlertStore.Sweep: the alert's creation time is the sweep's own clock reading, where the database stamps the start of its transaction.
- Jobs.JobsAreConserved: `completed` counts ended handler runs, whether the handler succeeded, failed and was abandoned, or was unknown.
