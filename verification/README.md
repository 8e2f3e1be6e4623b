# Verified model of the encrypted time tracker

The repository is a time tracker whose entries are encrypted in the browser. A tab, the
browser's keystore and the server account run against each other with awaits in between,
over a network that may lose, delay or repeat anything. This project models that system and
four smaller algorithms of the repository, and proves what they are relied on for.

`dafny verify dfyconfig.toml` checks the whole project.

## How it is laid out

* **The server account.** `Accounts` specifies every endpoint that changes wrap rows,
  credentials, entries or the encrypted flag as a function on the tables, and proves the
  account invariant over all call sequences. `Database` is the same store updated in place,
  statement by statement; the one endpoint that is no transaction, giving a passkey a wrap, has
  any other calls served between its checks and its insert. `Routes` is the choice of the wrap a
  ceremony opens.
* **The cryptography.** `Crypto` is a free datatype: a wrap opens under exactly the
  key-encryption key it was made with, a body under exactly its data key. That is the
  authenticated behaviour of AES key wrap (section 2.2 of RFC 3394) and AES-GCM (section 7 of
  NIST SP 800-38D) with key-encryption keys from HKDF (section 2 of RFC 5869). `Ceremonies`
  computes what each ceremony does once its awaits have answered.
* **One page load.** `EncryptionState`, `EncryptionCtx`, `Keystore` and `Hook` are the
  source's objects as classes, their asynchronous methods cut at the awaits. `Tab` puts them
  into one state machine: a task holds what its asynchronous function carries across an await,
  and any task may go next; the day's and the week's loading effects and the setup gate are
  among its effects. `TabContext` joins its steps to those of the context. `TabTasks`,
  `TabTokens`, `TabIdentity`, `TabForgets`, `TabKeeps`, `TabQuiet` and `TabRest` prove what
  every run keeps and where runs end. `TypedText` is the race between loads and keystrokes against a reference with no counter in
  it, and `TabTyped` finds that race in every run of a page.
* **Everything together.** `World` has any number of browsers and pages, one server, and a
  set of messages that stay deliverable for ever. `WorldKeys`, `WorldSaves`, `WorldForgets`,
  `WorldKeeps` and `WorldEnable` prove the theorems over every reachable world. `LostMessages`
  follows the two calls whose answer may be lost. `EnablePanel` is the two-click hand-over.
* **The algorithms.** `EncryptionKey` (the key's 32-symbol spelling), `RateLimit` (token
  buckets), `Text`, `Session` and `Users` (the session token and its revocation), `Dates`,
  `TextOrder`, `DateText`, `RangeText`, `Calendar` and `Entries` (Gregorian days, their texts
  and when those sort as the days do, the month grid, range queries), `WeekTotals` (the weekly
  aggregate).

## What the theorems rest on

* A page's session cookie names the account the page shows, except in status replies, which
  the code checks. `WorldKeys.SaveKeepsKeysIff` says exactly what fails without it.
* Keystore writes commit in the order they were called, or abort and change nothing: opens of
  one database are served in order and readwrite transactions run in creation order (section
  2.7 of W3C Indexed Database API 2.0). So the await of the database open between the guard
  in `remember` and its put is folded into the put.
* Each credential has a PRF output of its own, and newly minted keys are arbitrary.
* Within one page load the user only leaves, because signing in reloads the page.
* "Lock now" is offered only while the page shows the account as encrypted.
* The setup gate leaves for another page in the same effect that retries the probe, so it
  retries once each time the user comes to a day or a week.

## What is not as one might expect

* `encryption_replace_key_wrap` files a wrap for an account that was never encrypted, and
  that account can then never be encrypted. `Accounts.StrayWrapIff` names the one call that
  does it, `Accounts.StrayWrapExample` is the case of an empty database, and
  `Accounts.StrayWrapBlocksEnabling` shows it is for good.
* `encryption_enable` does not check that the passkey it files a wrap under was enrolled by
  the caller. `Accounts.OwnershipIff` is exact: wraps stay owned unless that call is made.
  `Accounts.OwnershipExample` makes it on empty tables.
* The comment on the token check in `unlock` (src/encryption_ctx.rs:912-917) says that without
  it a lock in the middle of a ceremony would not take. It stops an unlock that is already
  writing. A ceremony that is still waiting has no token yet and takes a newer one than the
  lock's, so the page is unlocked again, though nothing is written to the device:
  `TabTokens.EarlierCeremonyOutlivesLock`, `TabTokens.KeyHeldAfterLock` and, as an exact
  condition, `TabTokens.LockIsUndoneIff`. `TabTokens.LockUndoneExample` is such a run.
* The server's checks for a passkey's new wrap and its insert are not one transaction. A
  passkey deleted in between leaves a wrap nothing can use, and nothing else does:
  `Accounts.LateInsertOwnershipIff`, `Accounts.LateInsertExample`.
* The limiter's bound can fail when the clock goes back. It holds exactly as long as the
  clock's forward moves between a key's calls add up to no more than the window
  (`RateLimit.BoundedIff`); `RateLimit.BackwardClockBreaksBound` is a trace where they do not.
  `RateLimit.GrantsWithinWindow` is what holds for every clock, and `RateLimit.LimiterBound`
  the case of a clock that never goes back.
* The comment above the entry table says its texts sort as its days do. That holds for years
  0 to 9999, and `DateText.TextOrderIsDateOrderIff` says for which ranges of years it holds.
  Years outside are accepted, as far as the library's days go. Among those days a range query
  is right exactly when its ends are in one year, or in years 0 to 9999, or in years 26215 to
  99999, or in years of six digits that agree in the first five (`RangeText.RangeIsExactIff`,
  `Entries.DatesInRangeIff`). `Entries.LongYearsExample` is a range that is not.

## Model

| member | source | states |
|---|---|---|
| Accounts.CallKeepsInv | src/entry_key/store.rs:61-206 | Every endpoint, whatever is posted, keeps the account invariant: rows well formed and 40 bytes, one key wrap a user, one wrap a credential, an encrypted account has its key wrap, entries only on encrypted accounts, credentials unique |
| Accounts.RunKeepsInv | src/server_fns/encryption.rs:121-280 | The same over every sequence of calls by any accounts |
| Accounts.EncryptionStaysOn | src/entry_key/store.rs:83-88 | Once encrypted, encrypted after any sequence of calls |
| Accounts.EnableWorksIff | src/server_fns/encryption.rs:121-174 | Enabling succeeds exactly when the sizes are right, the account is not encrypted and has no key wrap, and nothing is filed under the passkey; otherwise no table changes |
| Accounts.AddPasskeyWorksIff | src/server_fns/encryption.rs:196-249 | A passkey gets a wrap exactly when the size is right, the caller enrolled it, the account is encrypted and nothing is filed under it |
| Accounts.OnlyDoneChanges | src/server_fns/encryption.rs:139-174 | A call that is refused or fails rolls everything back |
| Accounts.SaveLeaves | src/server_fns/entries.rs:81-118 | A save is accepted exactly up to 262144 bytes on an encrypted account; it leaves the posted body under its own day, and every other day, account and table as it was |
| Accounts.StrayWrapIff | src/server_fns/encryption.rs:263-280 | Every wrap belongs to an encrypted account after a call, if and only if the call is not a well-sized re-issue for an account that is not encrypted |
| Accounts.StrayWrapBlocksEnabling | src/server_fns/encryption.rs:263-280 | Such a wrap is permanent and the account can never be encrypted |
| Accounts.StrayWrapExample | src/server_fns/encryption.rs:263-280 | The concrete case on an empty database |
| Accounts.RowSurvives | src/entry_key/store.rs:152-206 | A wrap row goes only in a re-issue of its user's key or with the passkey it is filed under |
| Accounts.PasskeyRowSurvives | src/server_fns/passkey.rs:452-481 | A call never takes the last passkey wrap of an encrypted account |
| Accounts.DeleteRefusedIff | src/server_fns/passkey.rs:452-481 | Deleting one's passkey is refused as the last route exactly when an encrypted account with a passkey wrap would be left with none |
| Accounts.LastRouteNeverDeleted | src/server_fns/passkey.rs:452-481 | The same over every sequence of calls |
| Accounts.OwnershipIff | src/server_fns/encryption.rs:151-159 | Every wrapped credential stays enrolled by its user, if and only if the call does not enable with an unenrolled credential |
| Accounts.OwnershipExample | src/server_fns/encryption.rs:151-159 | The concrete case: an account on empty tables enables with a passkey nobody enrolled |
| Accounts.LateInsertKeepsInv | src/server_fns/encryption.rs:196-249 | The insert of a passkey's wrap, however late after its checks, keeps the account invariant |
| Accounts.LateInsertOwnershipIff | src/server_fns/encryption.rs:196-249 | After the late insert every wrapped credential is enrolled by its user, if and only if the passkey is still enrolled by then |
| Accounts.LateInsertExample | src/server_fns/encryption.rs:196-249 | The concrete case: a passkey deleted between the checks and the insert |
| Routes.ChooseRoute | src/crypto/mod.rs:190-207 | A route is found exactly when some row offers one, and it is that row's |
| Routes.ChooseRouteFindsTheRow | src/crypto/mod.rs:190-207 | On any listing of a sound account's rows: a route exactly when the asked credential, or the encryption key, has a row, and then that row's wrap |
| Routes.ChooseRouteIgnoresOrder | src/crypto/mod.rs:190-207 | The order the rows arrive in does not matter |
| Routes.UnusableRowsAreSkipped | src/crypto/mod.rs:190-207 | A row of an unknown kind, KDF or wrap algorithm changes nothing, wherever it stands |
| Database.Database.constructor | src/entry_key/store.rs:61-206 | Empty tables, which satisfy the account invariant |
| Database.Database.InsertRow | src/entry_key/store.rs:61-80 | Inserts the row or, when a unique index refuses it, changes nothing |
| Database.Database.SetEncrypted | src/entry_key/store.rs:83-88 | Marks the account and nothing else |
| Database.Database.DeleteWrapForCredential | src/entry_key/store.rs:152-165 | Removes exactly the rows filed under that credential |
| Database.Database.ReplaceEncryptionKeyWrap | src/entry_key/store.rs:182-206 | Read, compare, delete, insert in one transaction; leaves an equal wrap alone |
| Database.Database.EncryptionEnable | src/server_fns/encryption.rs:121-174 | In place, with rollback: the tables and the reply are those specified, and the invariant holds |
| Database.Database.AddPasskeyWrapChecks | src/server_fns/encryption.rs:196-237 | The reads alone: exactly the four refusals, and a caller who passes enrolled the passkey on an encrypted account |
| Database.Database.AddPasskeyWrapInsert | src/server_fns/encryption.rs:239-248 | The write alone, on whatever the tables have become: the specified insert, and the invariant holds |
| Database.Database.EncryptionAddPasskeyWrap | src/server_fns/encryption.rs:196-249 | Checks and insert with any calls served in between: refused by the tables of the checks, and otherwise the insert into the tables those calls leave; the invariant holds |
| Database.Database.EncryptionReplaceKeyWrap | src/server_fns/encryption.rs:263-280 | The same for a re-issue |
| Database.Database.PasskeyRegisterFinish | src/server_fns/passkey.rs:153-163 | The same for enrolling a credential, which must be new |
| Database.Database.PasskeyDelete | src/server_fns/passkey.rs:433-487 | The same for deletion, with the last-route refusal |
| Database.Database.EntrySave | src/server_fns/entries.rs:81-118 | The same for a save: size first, then the encrypted-account check |
| Database.Database.Serve | src/server_fns/encryption.rs:121-280 | Any one request: the tables and the reply are those specified, and the invariant holds |
| Database.Database.ServeAll | src/server_fns/encryption.rs:121-280 | The same over any sequence of requests |
| Ceremonies.OpensOnlyTheDataKey | src/crypto/mod.rs:565-608 | Out of an account's wraps either unlock route gets the account's data key or nothing |
| Ceremonies.PasskeyOpensItsOwnWrap | src/crypto/mod.rs:581-591 | A passkey opens the account exactly when it has a wrap of its own |
| Ceremonies.TypedKeyOpensIff | src/crypto/mod.rs:594-608 | A typed key opens the account exactly when it reads as the bytes of the key wrap, and one that reads but does not fit is told apart from one that does not read |
| Ceremonies.AddedWrapIsTheTargets | src/crypto/flow.rs:247-305 | Adding succeeds exactly when the passkey had no wrap, the existing route opens and that very passkey answers; the wrap then holds the account's data key under its own secret |
| Ceremonies.WhyNotAdded | src/crypto/flow.rs:247-305 | Which of the reasons is given for not adding, in the order in which they are met |
| Ceremonies.ShownKeyOpens | src/crypto/mod.rs:647-655 | A re-issued key, typed back in any accepted spelling, opens the new wrap to what the old route opened |
| Ceremonies.EnabledKeyOpens | src/crypto/mod.rs:454-491 | The key shown while enabling, and the passkey, open the wraps that are posted |
| Ceremonies.RetypedKeyOpens | src/crypto/encryption_key.rs:65-111 | However that key is typed back, in lower case, with lookalikes, hyphens or blanks, it opens the wrap |
| EncryptionState.WritesMirrorsTheSeam | src/encryption_ctx.rs:229-239 | The editor accepts, refuses or asks for setup exactly when the storage seam would take, lock out or require encryption |
| EncryptionState.WhereWritesGo | src/storage/mod.rs:467-493 | In every state: to the server only sealed under the page's own key, and only then; refused as locked unless that is known not to be needed; never unsealed to the server |
| EncryptionState.InitiallySafe | src/encryption_ctx.rs:454-480 | Before any answer a signed-in page writes nothing, and a signed-out one only to the device |
| EncryptionCtx.UnreadableRowIs | src/encryption_ctx.rs:635-733 | On a signed-in page a sealed row turns not encrypted into locked, an unopenable row drops the key once, each under a new token; anything else changes nothing |
| EncryptionCtx.AuthCtx.LogoutAnswered | src/auth_ctx.rs:96-106 | Only an answered logout clears the user |
| EncryptionCtx.EncryptionCtx.Probing | src/encryption_ctx.rs:454-480 | A signed-in page starts `Unknown`, a signed-out one `Disabled` |
| EncryptionCtx.EncryptionCtx.BeginProbe | src/encryption_ctx.rs:497-501 | Takes the next token, which makes every other stale |
| EncryptionCtx.EncryptionCtx.SigningOut | src/encryption_ctx.rs:535-537 | Strands what is in flight and publishes nothing |
| EncryptionCtx.EncryptionCtx.Publish | src/encryption_ctx.rs:742-747 | Writes the state; a key gets an identity it never had |
| EncryptionCtx.EncryptionCtx.StartProbe | src/encryption_ctx.rs:556-582 | Token first; signed out settles at once, otherwise parks and spawns with that token |
| EncryptionCtx.EncryptionCtx.ProbeAnswered | src/encryption_ctx.rs:573-581 | Publishes only under the newest token |
| EncryptionCtx.EncryptionCtx.Retry | src/encryption_ctx.rs:598-603 | A new probe for the signed-in user from `Unknown` |
| EncryptionCtx.EncryptionCtx.ClaimReprobe | src/encryption_ctx.rs:616-624 | The first claim, and no other, gets the page load's one re-probe |
| EncryptionCtx.EncryptionCtx.Reprobe | src/encryption_ctx.rs:635-648 | Probes exactly when the row contradicts the state and, for an ambiguous row, the latch was free; the latch is spent only then |
| EncryptionCtx.EncryptionCtx.SealedRowSeen | src/encryption_ctx.rs:692-695 | The same for a sealed row |
| EncryptionCtx.EncryptionCtx.UnopenableRowSeen | src/encryption_ctx.rs:723-733 | The same for a row that will not open, reporting whether a probe began |
| EncryptionCtx.EncryptionCtx.UnlockStart | src/encryption_ctx.rs:867-895 | A key of somebody else's changes nothing; otherwise a new token and `Locked` before the write |
| EncryptionCtx.EncryptionCtx.UnlockFinish | src/encryption_ctx.rs:896-922 | After the write: forget if the user changed, otherwise publish only under the newest token |
| EncryptionCtx.EncryptionCtx.LockStart | src/encryption_ctx.rs:948-951 | `Locked` at once, under a new token |
| Keystore.Forgets.Record | src/crypto/mod.rs:88-90 | One more forget |
| Keystore.Keystore.constructor | src/crypto/keystore.rs:134-180 | A browser that has never stored a key |
| Keystore.Keystore.PutIn | src/crypto/keystore.rs:264-273 | Issues a put behind what is already issued |
| Keystore.Keystore.DeleteFrom | src/crypto/keystore.rs:320-322 | Issues a delete behind what is already issued |
| Keystore.Keystore.GetFrom | src/crypto/keystore.rs:276-317 | Hands out the record only to its owner, and issues the removal of anybody else's |
| Keystore.Keystore.CompleteOldest | src/crypto/keystore.rs:235-261 | The oldest transaction commits |
| Keystore.Keystore.AbortOldest | src/crypto/keystore.rs:220-261 | An aborted transaction changes nothing |
| Keystore.Remember | src/crypto/mod.rs:294-302 | Issues the put exactly when no forget has overtaken the ceremony |
| Keystore.ForgetDeviceKey | src/crypto/mod.rs:111-114 | Raises the count before it issues the delete |
| TabKeeps.CompletedIsNewest | src/crypto/keystore.rs:235-273 | The transaction that completes is the newest that has, and what it leaves is what is stored: the record of a put, nothing after a delete |
| TabKeeps.ReadingDiscards | src/crypto/keystore.rs:276-317 | A record of one's own is handed out and left alone; somebody else's is not, and its removal is issued |
| Hook.LoadedValue | src/storage/hook.rs:173-190 | A sealed row is reported only without a key, an unopenable one only with one |
| Hook.LoadsItsText | src/storage/mod.rs:276-302 | A body sealed under the load's own key, or not sealed, loads as exactly its text |
| Hook.LoadsTextIff | src/storage/hook.rs:173-190 | A load gives a text if and only if it is the row's, opened with its own key or never sealed, or empty for a day without a readable row |
| Hook.Persistent.UsePersistent | src/storage/hook.rs:254-260 | Starts not loaded |
| Hook.Persistent.BeginOperation | src/storage/hook.rs:205-209 | A new operation makes every load in flight stale |
| Hook.Persistent.Set | src/storage/hook.rs:73-104 | The text shows at once, loads in flight are stale, and the seam decides by the pair of that moment |
| Hook.Persistent.RunEffect | src/storage/hook.rs:265-275 | Not loaded, a new token, and the key of that moment |
| Hook.Persistent.LoadFinished | src/storage/hook.rs:276-308 | A stale load changes nothing; a current one shows the text, or reports the row, and shows empty only if no re-probe began |
| Tab.TabFollowsTheContext | src/encryption_ctx.rs:556-733 | Starting a probe and reporting a row move the context as its own methods do, and a probe is in flight exactly when they hand out a token for one |
| TabContext.StepFollowsTheContext | src/encryption_ctx.rs:497-952 | Every event, answers, landings, unlocks, locks, sign-outs and loads among them, moves the context by exactly the context's own steps it stands for, and every other event leaves it alone |
| TabContext.SameIdentitySameKey | src/storage/hook.rs:226-275 | Over every run, the identity the loading effects track is the same only if the key is: a page that is up to date by it loaded with the key it has |
| TabContext.IdentityTells | src/encryption_ctx.rs:735-747 | A page has an identity exactly if it has a key, and it is the number of the last key published |
| Tab.WeekReportsOneReason | src/components/week_view.rs:184-198 | A week is short for one reason: sealed rows without a key, unopenable rows with one |
| Hook.WeekIsShortIff | src/storage/mod.rs:560-728 | A week is short of sealed rows exactly without a key, and of rows under another key exactly with one |
| TypedText.ScreenShowsExpected | src/storage/hook.rs:73-104 | For every interleaving the counter shows what a reference read off the trace shows |
| TypedText.TypedTextStands | src/storage/hook.rs:73-104 | Text typed since the effect last ran is on screen, whatever loads complete |
| TypedText.LoadedTextIsOfLastRun | src/storage/hook.rs:265-309 | Any other text came from the load of the last run, opened with that run's key |
| TabTyped.RunFollows | src/storage/hook.rs:226-309 | Every run of a page is a trace of that race: what the page shows and the loads it has in flight are the trace's |
| TabTyped.PageShowsExpected | src/storage/hook.rs:73-104 | So over every run of a page its text area shows what the reference says |
| TabTyped.TypedTextStandsOnThePage | src/storage/hook.rs:73-104 | Text typed on a page stays on screen over every run in which nothing more is typed and the loading effect has no cause to run |
| TabTokens.StepMoves | src/encryption_ctx.rs:497-582 | What one step of a page may do to tokens, user and context |
| TabTokens.PublisherHoldsNewest | src/encryption_ctx.rs:497-537 | Whoever changes the encryption context took a token in that step or holds the newest |
| TabTokens.OvertakenNeverPublishes | src/encryption_ctx.rs:556-582 | A probe or unlock whose token is older never changes the context, after any run |
| TabTokens.StandsUntilNewToken | src/encryption_ctx.rs:497-537 | A state no task in flight may replace stands until a token is taken |
| TabTokens.LockStands | src/encryption_ctx.rs:948-952 | After "Lock now", over every run, the state is `Locked` or some step replaced it in the hands of one whose token is newer than the lock's |
| TabTokens.SignOutStrandsProbes | src/auth_ctx.rs:96-106 | The same for the sign-out click and the state it leaves standing: no probe already in flight ever replaces it |
| TabTokens.EarlierCeremonyOutlivesLock | src/encryption_ctx.rs:867-922 | A ceremony begun before a lock, whether it opens its key after any run or has it in hand already: it writes nothing to the device, and it unlocks the page again if its account is signed in by then and changes nothing if not |
| TabTokens.KeyHeldAfterLock | src/components/unlock.rs:168-209 | The same for a key that comes to hand after the lock and is used after any further run |
| TabTokens.LockIsUndoneIff | src/encryption_ctx.rs:912-922 | Handed over right after the lock, its key comes back if and only if its account is signed in |
| TabTokens.LockUndoneExample | src/encryption_ctx.rs:912-922 | The concrete case, from a freshly opened page: probe, ceremony, lock, and the answer that unlocks |
| TabTokens.OnlyTheNewerReplace | src/encryption_ctx.rs:497-537 | Over every run, a state under a token nobody in flight holds is only replaced by holders of newer tokens |
| TabTokens.UndisturbedProbe | src/encryption_ctx.rs:1007-1055 | A probe nothing overtakes, with any other events between its steps, ends unlocked with the key in this browser's record when it looks, or locked if there is none for that user |
| TabTokens.ProbeIsAnswered | src/encryption_ctx.rs:556-582 | After any run a status answer settles the state only under the newest token: unreachable without an answer or with another account's, not encrypted, or on to the keystore |
| TabTokens.ProbeReads | src/encryption_ctx.rs:1007-1055 | After any run it reads the record of that moment and issues the removal of somebody else's |
| TabTokens.ProbeLands | src/encryption_ctx.rs:573-581 | After any run it publishes what it found if its token is the newest, and nothing otherwise |
| TabTasks.RunSameTask | src/encryption_ctx.rs:556-582 | A task nobody resumes stays as it was over every run |
| TabTasks.QueuedWriteIsAwaited | src/crypto/keystore.rs:220-261 | No event brings an unlock, a lock, a sign-out or a sign-in out of its wait for a transaction that has not ended |
| TabTasks.EndedWriteIsNoticed | src/crypto/keystore.rs:220-261 | And once it has ended, it goes on |
| TabIdentity.KeyIsTheSignedInUsers | src/encryption_ctx.rs:556-582 | Over every run, a published key is the signed-in user's or a user change is pending |
| TabIdentity.OpenedIdentity | src/encryption_ctx.rs:454-480 | A page opens in a state that satisfies this |
| TabIdentity.NoKeyAfterSignOut | src/auth_ctx.rs:96-106 | Once the effect after a sign-out has run, no key is in memory, then or ever |
| TabIdentity.UserOnlyLeaves | src/encryption_ctx.rs:473-477 | A step keeps the user or clears it with a change pending |
| TabIdentity.UserLeavesIff | src/auth_ctx.rs:96-106 | The user of a page is cleared in one step and no other: a successful answer to the logout of a sign-out that has been through its forget |
| TabForgets.StepKeepsForget | src/crypto/mod.rs:77-114 | Writes are queued in the order of their forget counts, and whoever waits for a delete waits for that delete |
| TabForgets.ForgettingTakes | src/crypto/mod.rs:99-114 | Once a forget's delete commits, the record, now and after any run, is from no ceremony older than the forget |
| TabForgets.ReportedClearIsTrue | src/crypto/keystore.rs:220-261 | A delete reported as committed leaves nothing older stored or on its way |
| TabForgets.OvertakenCeremonyWritesNothing | src/crypto/mod.rs:294-302 | A ceremony overtaken by a forget issues no put |
| TabForgets.CountStandsIff | src/crypto/mod.rs:75-97 | The forget count is what it was at a capture, if and only if no step of the run since then was a lock, a sign-out's forget or an unlock undone for a departed user |
| TabForgets.CeremonyRemembersIff | src/crypto/mod.rs:294-302 | After any run, the key a ceremony opens is written to the device if and only if its account is signed in and nothing since its beginning forgot a key |
| TabKeeps.RunKeeps | src/crypto/keystore.rs:220-273 | Over every run, what a transaction leaves is what is stored while it is the newest to have committed |
| TabKeeps.DiscardTakes | src/crypto/keystore.rs:276-317 | Once the removal that a stranger's record met has committed, and until a later write does, there is no record |
| TabKeeps.SignInRemembersIff | src/components/account_menu.rs:357-403 | After any run, the key that a sign-in opens is written for the account that signed in, if and only if nothing since it began forgot a key |
| TabKeeps.ProbeFindsKept | src/encryption_ctx.rs:1007-1055 | A probe that nothing overtakes ends unlocked with the key that was put, when that put is the newest as it looks |
| TabKeeps.ReloadUnlocks | src/crypto/mod.rs:294-302 | The whole way: a ceremony opens a key, anything else happens on all pages, and a page opened later in that browser is unlocked with that key by its first probe, if the put is the newest when it looks and nothing overtakes the probe |
| TabQuiet.InternalStepShrinks | src/components/setup_gate.rs:54-86 | Every step the browser takes by itself, the setup gate's retry and both loading effects included, uses up some of a fixed supply, whatever the rows hold |
| TabQuiet.BusyRunsEnd | src/encryption_ctx.rs:616-648 | So without the user at most that many steps happen, even when every row of the day and of the week is corrupt |
| TabQuiet.SomethingCanMove | src/storage/hook.rs:265-309 | Short of rest there is always a step: no run is stuck |
| TabRest.StillIff | src/storage/hook.rs:265-309 | Nothing the browser does by itself changes a page, if and only if nothing is in flight or queued, but for keys in hand, and day and week were last loaded with the day, backend and key there are, with no user change and no gate to act on |
| TabRest.PickedDayIsLoaded | src/components/setup_gate.rs:54-86 | A page at rest after a day was picked has loaded since, and has probed again if its account is not encrypted |
| TabRest.PickedWeekIsLoaded | src/components/week_view.rs:127-198 | The same for a week |
| TabRest.OpenedPageSettles | src/components/setup_gate.rs:54-86 | An opened page that comes to rest signed in and not encrypted has probed again before |
| TabRest.RunIsAtLastPicked | src/storage/hook.rs:265-309 | Over every run a page is at the day that was picked last |
| TabRest.LoadEffectLoads | src/storage/hook.rs:265-309 | When the entry's effect has cause to run, a load is in flight for the inputs and with the key of that moment |
| TabRest.WeekEffectLoadsIff | src/components/week_view.rs:127-170 | When the week's has, a load is in flight if and only if the account needs no setting up first |
| TabRest.LockClears | src/encryption_ctx.rs:948-952 | "Lock now" locks, forgets and issues the delete at once, and waits for that delete |
| TabRest.SignOutGoesThrough | src/auth_ctx.rs:96-106 | A sign-out forgets, waits until the delete has ended, and clears the user on a successful answer and on no other, with any runs in between |
| TabQuiet.RunKeepsQuiet | src/encryption_ctx.rs:497-582 | Tokens are distinct, and whoever may publish finds no key published, over every run |
| TabQuiet.AtMostOneUnopenableProbe | src/encryption_ctx.rs:606-648 | In the whole life of a page at most one probe comes from an unopenable row, of the day or of a week |
| TabQuiet.SpentExactlyByOne | src/encryption_ctx.rs:606-648 | And that one is never denied: over every run the latch of a page is spent if and only if an unopenable row has started its probe |
| TabQuiet.OpenedWithTheLatch | src/encryption_ctx.rs:454-480 | A page opens with the latch to be had |
| WorldKeys.NextKeeps | src/crypto/flow.rs:246-305 | Every act of any device, the server or the network keeps every key, wrap, body and message true of its account |
| WorldKeys.OneDataKeyPerAccount | src/crypto/mod.rs:454-491 | In every reachable world an encrypted account has exactly one data key, which it keeps in every world reached from there: the holder of the secret of any wrap gets it out of any listing, a passkey by its answer and an encryption key by typing it as it was shown; every body is sealed under it; every unlocked page and keystore record holds it. An account not yet encrypted has no wrap, body, unlocked page or record |
| WorldKeys.TabAndServerAgree | src/encryption_ctx.rs:229-239 | In every reachable world a page that is locked or unlocked shows an encrypted account, so a save it accepts is not refused for want of encryption |
| WorldKeys.NoRowIsUnopenable | src/storage/mod.rs:276-292 | In every reachable world a stored row opens with the key of the load that fetched it |
| WorldKeys.NoWeekIsUnopenable | src/storage/mod.rs:560-728 | Nor does a week fetched with a key ever hold an unopenable row |
| WorldKeys.EnableKeepsDb | src/server_fns/encryption.rs:121-174 | The first enable fixes the account's data key and every later one is refused |
| WorldKeys.SaveKeepsKeysIff | src/server_fns/entries.rs:107-118 | A sealed save keeps every body openable, if and only if it is refused or sealed under the key of the account it is filed for |
| WorldSaves.SaveIsFiled | src/storage/mod.rs:368-500 | What a page sends as a save is the text, sealed under the key it holds |
| WorldSaves.SavedIsServed | src/server_fns/entries.rs:81-118 | In every reachable world, after an accepted save and as long as nothing else is saved for that day, what the server sends of it is the body that was saved |
| WorldSaves.SavedTextIsShown | src/storage/hook.rs:265-309 | The round trip: the text a page saved, once accepted and not replaced, is on the screen of every page of the account whose newest load of that day has a key, whenever the answer arrives and whatever else has happened |
| WorldForgets.ForgettingTakesEverywhere | src/crypto/mod.rs:77-114 | In every reachable world, once a page's delete has committed, its browser's keystore never again holds a record of a ceremony that page began earlier, whatever its other pages do |
| WorldForgets.SeenFromElsewhere | src/crypto/keystore.rs:220-261 | Another page's step is, to a page of the same browser, an event of its own machine |
| WorldKeeps.RememberedEverywhere | src/crypto/mod.rs:294-302 | In every world reached after a ceremony of a signed-in account with nothing forgotten opens its key, every page of that browser finds that key for that account, once its put has committed and until a later write does |
| WorldKeeps.SignInIsRemembered | src/components/account_menu.rs:357-403 | The same for the key that a sign-in opens |
| WorldEnable.UnlockingIsNeverDisabled | src/encryption_ctx.rs:882-895 | In every reachable world, while an unlock is writing and the user stays signed in, the page is not `Disabled` |
| WorldEnable.EnableReplyIsShownAtOnce | src/components/encryption_panel.rs:816-849 | The step in which an enable's success arrives leaves the page unlocked, or locked and writing |
| WorldEnable.UnlockEndsNotDisabled | src/encryption_ctx.rs:896-922 | And the end of that unlock does not leave it `Disabled` |
| EnablePanel.Panel.constructor | src/components/encryption_panel.rs:724-724 | Nothing prepared |
| EnablePanel.Panel.Prepared | src/components/encryption_panel.rs:786-798 | One click of the specified panel; the key shown is the prepared enable's |
| EnablePanel.Panel.ConfirmNewKey | src/components/encryption_panel.rs:816-824 | One click of the specified panel: the confirming click takes what is prepared, and that alone is sent |
| EnablePanel.OneClickMore | src/components/encryption_panel.rs:786-824 | The specified panel after some clicks takes the next one as the methods do |
| EnablePanel.ConfirmingSends | src/components/encryption_panel.rs:786-824 | What was prepared last is what a confirming click sends, and a second one sends nothing |
| EnablePanel.SentAtMostOnce | src/components/encryption_panel.rs:816-849 | After any clicks, what was sent and what waits had been prepared, each at least as often |
| EnablePanel.DistinctAreSentOnce | src/components/encryption_panel.rs:816-849 | So where no two prepared enables are the same, none is sent twice, nor sent and still waiting |
| LostMessages.StoreEncryptionKeyWrap | src/crypto/flow.rs:383-395 | One retry of the same bytes: tables and outcome are those of the two attempts |
| LostMessages.KeyAfterTraffic | src/entry_key/store.rs:182-206 | After any traffic with no other re-issuer, the key wrap is the new one if a copy was executed and the old one if not |
| LostMessages.ReissueSurvivesLoss | src/crypto/flow.rs:383-434 | For every loss pattern, late copies and other traffic: success exactly when an attempt was answered and then the new wrap, unconfirmed the old or the new, and one key wrap in all cases |
| LostMessages.OneOfTheKeysOpens | src/crypto/flow.rs:419-434 | So one of the two keys in the user's hands opens the account |
| LostMessages.CommitEnable | src/components/encryption_panel.rs:1840-1853 | A server refusal leaves the tables as they were; silence leaves them so or with both wraps as sent; success encrypts under the shown key's wrap, and the passkey is filed with the very wrap that was sent |
| LostMessages.EnableSurvivesLoss | src/components/encryption_panel.rs:1665-1679 | Whatever is lost, late or repeated: untouched if no copy was executed, otherwise encrypted under the wrap that was sent |
| LostMessages.ShownKeyIsTheAccounts | src/components/encryption_panel.rs:816-849 | If the account has a key wrap afterwards, the key shown before the call opens it |
| EncryptionKey.NormalizeInPlace | src/crypto/encryption_key.rs:76-111 | The loop over bits in a byte buffer computes the specified reading, with its errors |
| EncryptionKey.NormalizeOfFormat | src/crypto/encryption_key.rs:53-111 | Reading a formatted key gives back its twenty bytes |
| EncryptionKey.FormatOfNormalize | src/crypto/encryption_key.rs:53-111 | Formatting what was read gives the folded input |
| EncryptionKey.SameKeyIffSameFoldedForm | src/crypto/encryption_key.rs:65-111 | Two accepted inputs name one key exactly when they fold alike |
| EncryptionKey.NormalizeAccepts | src/crypto/encryption_key.rs:76-111 | Exactly the inputs that fold to 32 symbols of the alphabet are accepted |
| EncryptionKey.RetypedKeyIsRead | src/crypto/encryption_key.rs:65-111 | A shown key typed back in lower case, with O for 0, I or L for 1, and hyphens or blanks anywhere, is read as its twenty bytes |
| EncryptionKey.FormatShape | src/crypto/encryption_key.rs:53-62 | Eight groups of four |
| EncryptionKey.PackOfSymbols | src/crypto/encryption_key.rs:40-50 | Packing the five-bit symbols of bytes gives the bytes |
| EncryptionKey.SymbolsOfPack | src/crypto/encryption_key.rs:76-111 | And the symbols of a packing are the symbols |
| KeyedCalls.KeysAreIndependent | src/rate_limit.rs:85-107 | A key's answers in any trace are those of the trace restricted to it |
| RateLimit.Limiter.constructor | src/rate_limit.rs:62-68 | No buckets yet |
| RateLimit.Limiter.CheckAt | src/rate_limit.rs:85-107 | In place: the map and the answer are those specified |
| RateLimit.Limiter.RetryAfterSecs | src/rate_limit.rs:76-78 | The least whole number of seconds, at least one, that earns a token, saturating at 32 bits |
| RateLimit.GrantsArePaidFor | src/rate_limit.rs:96-106 | What a key is granted it had in tokens or earned in time |
| RateLimit.GrantsWithinWindow | src/rate_limit.rs:85-107 | Over any stretch of calls and any clock: the capacity, and what the clock's forward moves earned |
| RateLimit.BoundedIff | src/rate_limit.rs:85-107 | For a window of calls of a key and a length: capacity plus rate times the length bounds the grants, for all limits and all earlier traffic, if and only if the clock's forward moves between that key's calls add up to no more than the length |
| RateLimit.FirstCallsAreGranted | src/rate_limit.rs:91-106 | A new key's calls are all granted up to the capacity, however close together |
| RateLimit.TokensAreSpendable | src/rate_limit.rs:96-106 | Tokens a key holds are never lost, whatever the clock does |
| RateLimit.BackwardClockBreaksBound | src/rate_limit.rs:96-99 | A clock going back and forth gets three grants where the bound is two |
| RateLimit.WaitingIsRewarded | src/rate_limit.rs:76-107 | A refused key that stays away as long as it was told is granted next, whoever else calls |
| RateLimit.RefusalsKeepEarnings | src/rate_limit.rs:96-106 | Refused calls on a clock that does not go back lose nothing: the next call is granted if and only if tokens held and rate times all the time since make a token |
| RateLimit.RetriesCostNothing | src/rate_limit.rs:85-107 | The same among everybody's calls |
| RateLimit.RetryingIsRewarded | src/rate_limit.rs:76-107 | A refused key that keeps asking and is refused all along is still granted once the time it was told is over |
| RateLimit.NoCapacityNoGrants | src/rate_limit.rs:101-106 | With no capacity nothing is ever granted |
| RateLimit.QuotedWaits | src/rate_limit.rs:26-49 | The two quotas allow 5 and 30 at once and quote 30 and 5 seconds |
| Utf8.DecodeOfEncode | src/session.rs:94-98 | Text survives its bytes |
| Utf8.EncodeOfDecode | src/session.rs:94-98 | Accepted bytes have one spelling |
| Base64Url.DecodeOfEncode | src/session.rs:42-44 | Bytes survive base64url without padding (section 5 of RFC 4648) |
| Base64Url.EncodeOfDecode | src/session.rs:94-98 | Only the encoder's own spelling is read |
| Decimal.ParseOfPrint | src/session.rs:75-77 | A printed number reads back exactly when it fits 64 bits |
| Dotted.SplitOfJoin | src/session.rs:71-71 | Dot-free fields survive join and split |
| Dotted.JoinOfSplit | src/session.rs:81-81 | And any text survives split and join |
| Hex.EncodeIsInjective | src/session.rs:46-49 | Different bytes are different hexadecimal texts |
| Hex.DigitIs | src/session.rs:46-49 | The digits are 0 to 9 and a to f, in lower case |
| Session.ConstantTimeEqIsEq | src/session.rs:51-56 | The folded comparison is equality |
| Session.VerifyOfIssue | src/session.rs:59-100 | A token reads back as its email and epoch exactly from five seconds before issue to thirty days after, and otherwise says future or expired |
| Session.AcceptedIsSigned | src/session.rs:79-100 | Every accepted token is five fields, a dot and their tag; email, epoch and times are read from those fields, and the time is between theirs |
| Session.AcceptedIff | src/session.rs:70-100 | A token is accepted for some claims if and only if it is fields that say so, signed, at a time no more than five seconds before the first of their times and before the second |
| Session.TagDecides | src/session.rs:81-100 | Readable fields under any tag: a bad signature unless the tag is the keyed function of those very fields and that key, and then future, expired or accepted by their times |
| Session.BorrowedTag | src/session.rs:81-88 | The tag of other fields or of another key is a bad signature, if and only if the keyed function tells them apart |
| Session.IssuedText | src/session.rs:59-67 | A token is the version, the address in base64url, its times thirty days apart and the epoch, and the tag of just those |
| Session.PayloadsAreInjective | src/session.rs:59-67 | No two issues share a payload |
| Users.NormalizeTwice | src/auth/user.rs:40-50 | A normalized address normalizes to itself |
| Users.NormalizeIff | src/auth/user.rs:40-50 | What an address is stored as, and exactly which texts are addresses: one `@`, something before it, a dot behind it, no blanks |
| Users.SpellingDoesNotMatter | src/auth/user.rs:40-50 | Capitals, and blanks around, make no difference to it |
| Users.UserTable.constructor | src/auth/user.rs:64-88 | An empty table |
| Users.UserTable.FindOrCreate | src/auth/user.rs:64-88 | The row of the address, made on first use; unusable addresses make none |
| Users.UserTable.BumpEpoch | src/auth/user.rs:91-97 | Adds one to that row's epoch and nothing else |
| Users.OneAccountPerAddress | src/auth/user.rs:64-88 | Two spellings of one address are one account |
| Users.SpellingsAreOneAccount | src/auth/user.rs:64-88 | So any such spelling is the account the address was first seen as |
| Users.TokenLives | src/server_fns/mod.rs:45-62 | A token lets its own user in while it is valid and exactly until a bump, and never anybody else |
| Users.RevokedForGood | src/server_fns/mod.rs:45-62 | After a bump no token of an earlier epoch is let in again, over any run |
| Dates.OrderIsCount | src/date.rs:26-45 | Comparing dates is counting days |
| Dates.PlusCounts | src/date.rs:26-45 | Adding days adds to the count, both ways |
| Dates.DayNumberIsMarchCount | src/date.rs:26-45 | The count of days is the one by years beginning in March, in divisions alone: leap years and months are as long as those say |
| Dates.MonthLengths | src/date.rs:34-45 | Each month is as long as that count says from its first day to the next month's |
| Dates.KnownWeekdays | src/date.rs:95-100 | The weekdays of two known days |
| Dates.WeeksPartition | src/date.rs:26-31 | Weeks are Monday to Sunday; a day is in another's week exactly when their weeks are one |
| Dates.MonthBoundsAre | src/date.rs:34-45 | The bounds are the first and the last day, in leap years too |
| Dates.MonthBoundsCount | src/date.rs:34-45 | By that count they run from the first of the month to the day before the first of the next |
| Dates.MonthsPartition | src/date.rs:34-45 | They hold the days of the month and no others |
| Dates.ParseIsoIff | src/date.rs:15-18 | A text is read as a day exactly when it is that day's own text and the library has the day |
| Dates.AnyLenientReaderDoes | src/date.rs:15-18 | However lenient the library's reader is, the round trip leaves exactly that |
| DateText.TextOrderIsDateOrderIff | src/date.rs:4-6 | Texts of all days of a range of years sort as the days do, if and only if it is one year, or lies in -1 to 9999, or keeps one width past 9999, or is the two negative years at a change of width |
| DateText.TextOrderIsDateOrder | src/date.rs:4-6 | Texts of two days of years 0 to 9999 sort as the days do |
| DateText.SameYearOrder | src/date.rs:4-6 | Within one year, whichever it is, texts sort as days do |
| RangeText.RangeIsExactIff | src/entries/repo.rs:62-78 | Of the days the library has, selecting between two texts selects exactly those between the two days, if and only if both ends are in one year, or in years 0 to 9999, or in 26215 to 99999, or in years of six digits that agree in the first five |
| RangeText.SelectableSorts | src/date.rs:4-6 | And between such ends texts sort as days do |
| Calendar.MonthGrid | src/components/calendar.rs:16-32 | The two loops build the specified grid, with as many days as the month has |
| Calendar.GridIsACalendar | src/components/calendar.rs:16-32 | Whole weeks, blanks only in the first and the last, every day in its weekday's column |
| Calendar.GridHoldsTheMonth | src/components/calendar.rs:16-32 | Each day of the month and no other, in order |
| Entries.EntryTable.constructor | src/entries/repo.rs:41-58 | An empty table |
| Entries.EntryTable.Save | src/entries/repo.rs:41-58 | An upsert of that user's day |
| Entries.LoadAfterSave | src/entries/repo.rs:30-58 | A save is read back for its day and disturbs no other day or user |
| Entries.EntryTable.DatesInRange | src/entries/repo.rs:62-78 | The stored days whose texts lie between the two; for ends as in `RangeIsExactIff` exactly the stored days of the range, ascending, whatever else is stored |
| Entries.EntryTable.EntriesInRange | src/entries/repo.rs:81-98 | The same with the stored bodies |
| Entries.DatesInRangeIff | src/entries/repo.rs:62-78 | Every answer for every table and user is right, if and only if the ends are as in `RangeIsExactIff` |
| Entries.LongYearsExample | src/server_fns/entries.rs:31-44 | The concrete case: 9999-12-31 to 10000-01-01 is accepted, and not even its first day is selected |
| Entries.ParseRangeIff | src/server_fns/entries.rs:31-44 | Accepted exactly when both texts are days, in order and at most 366 days apart |
| Entries.WeeksAreAccepted | src/server_fns/entries.rs:31-44 | The week page's range is accepted exactly when the library has both its ends |
| Entries.MonthsAreAccepted | src/server_fns/entries.rs:31-44 | The month popover's range is always accepted |
| WeekTotals.Aggregate | src/components/week_view.rs:42-74 | The loops, the map walked in any order and the sorts give the totals specified |
| WeekTotals.DailyMinutesSumToTotal | src/components/week_view.rs:46-58 | The daily minutes add up to the total |
| WeekTotals.ProjectLinesSumToAll | src/components/week_view.rs:56-66 | The project lines add up to all projects' minutes of all days: nothing is lost or counted twice |
| WeekTotals.PerDayIsChronological | src/components/week_view.rs:49-67 | One line for each contributing day, in date order |
| WeekTotals.EmptiedDaysAreAbsent | src/components/week_view.rs:49-57 | A day whose text has neither minutes nor projects has no line, and every other day has its minutes |
| WeekTotals.LargestFirst | src/components/week_view.rs:63-66 | Projects come with most minutes first, and equals by name |
| WeekTotals.TotalsIgnoreOrder | src/components/week_view.rs:63-73 | Any two results for the same rows, in any order and with the map walked in any order, are equal |
| WeekTotals.SortSorts | src/components/week_view.rs:66-67 | The sort keeps the elements and orders them |

## Left out

- Views, copy, routing, hydration, clipboard, the panel's overview and its pure wording (`classify`, `Openers::of`, `EnableRoute::of`, `Screen::of`): user interface, easy beside the rest.
- WebAuthn, WebCrypto, IndexedDB events and the MAC: foreign calls, replaced by free datatypes, a queue of transactions and an arbitrary function.
- SMTP, HTTP, cookies, connection pool, environment: plumbing. The cookie appears as the account a request acts for.
- JSON texts of entries and keys, magic links, import, passkey rename, the startup check of wrap kinds: library-driven or easy.
- Counters (`Generation`, `keys`, `Forgets`) are unbounded; the source's are 64 bits wide. `session_epoch` likewise, except where a token prints it.
- Counting, weeks and months know no first or last year; reading, storing and selecting know the years -262143 to 262142 of the library (chrono 0.4), whose own arithmetic stops the program at its ends.
- `Tab`: a ceremony's own fetches and prompts are one task that ends in a key, in hand or at once; what its wraps and key were is in `World`.
- `Tab`: the day's and the week's loads, and the gate, are kept live together, where the source has one view at a time. A page with one of them has fewer runs.
- `World`: a ceremony may use any wraps the server ever sent for its account, which is more than it could have, and a week's range may hold any of the account's bodies, in any number.
- Accounts.Apply: takes `encryption_add_passkey_wrap` with nothing between its checks and its insert; `Database.Database.EncryptionAddPasskeyWrap` has calls in between, and the insert at any later time is the `LateInsert` act of `World`.
- Keystore: a record carries which page wrote it under which forget count. That is history for the theorems; nothing reads it.
- Spawned saves of the text area: nothing orders them, so nothing is stated about their order.
- Between the sign-out click and the user clearing, an unlock or ceremony begun in that window may publish a key or leave a record; the theorems say what holds before and after it.
- RateLimit: 64-bit floats are real numbers, so rounding is not modelled. The mutex is one call at a time.
- Entries.EntryTable.DatesInRange: gives days, and in order, only for ends that texts can select between; for all others `Entries.DatesInRangeIff` proves that some table is answered wrongly.
- WeekTotals: the parser is any function, and sums are unbounded where the source has 32 bits.
- The order in which the database returns wrap rows is arbitrary; range queries are given an answer in the order the query asks for.
