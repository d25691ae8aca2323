# Sub-Zero subscription cancellation: a Dafny model

Sub-Zero cancels a user's subscriptions by driving a browser agent through the
service's website. This project models the logic at the core of that system and
proves properties of it.

- **Cancellation workflow** (module `Workflows`). The Temporal workflow:
  - it moves through the statuses STARTING, NAVIGATING, AWAITING_2FA,
    VERIFYING_2FA, CAPTURING_PROOF and COMPLETED, or ends in TIMEOUT or FAILED;
  - it sends one push notification when a verification code is needed;
  - it waits for the code signal, injects the code and captures proof.

  `CancellationWorkflow` is a class whose `status` and `twoFaCode` fields are
  updated in place. Two ghost fields record every status assigned and every
  activity executed. `Run` is proved equal to the trace function `RunTrace`,
  and the workflow's promises are lemmas about that function.
- **Browser activities** (module `BrowserActivities`). `start_cancellation`,
  `inject_2fa_code` and `capture_proof` map a request dictionary, and what the
  agent returned, to a fresh response dictionary.
- **Notification activity** (module `NotificationActivities`). The validation
  and the response shape of `send_push_notification`.
- **Browser agent** (module `BrowserAgent`). The browser configuration, the
  classification of an agent run into SUCCESS, 2FA_REQUIRED or FAILED, and the
  browser that `cancel_subscription` opens and, once the agent is built,
  closes. The exceptions that escape it are modelled too.
- **Plaid client** (module `PlaidClient`). The following parts:
  - transaction formatting;
  - subscription detection: group by merchant, sort each group by date, then
    require one amount and an average interval of 25 to 35 days;
  - merchant-name normalisation.

  `DetectSubscriptions` is a method with the source's two loops. It is proved
  equal to the specification function `Detected`, and `Detected` is
  characterised by the lemma `DetectionReports`.
- **Credential vault** (module `CredentialVault`). The following parts:
  - credential validation;
  - log redaction, as a loop that builds a new dictionary;
  - the choice of the encryption-key source;
  - the `get_vault` singleton, modelled as a class holding the module global.

Supporting modules:

- `Wrappers` holds `Option` and `Result`.
- `Strings` models the Python `str` operations on ASCII: truthiness, `in`,
  `lower`, `strip`, `replace`, `split`, `join` and `title`.
- `Statuses` holds the three status strings that cross module boundaries.

Conventions:

- A dictionary key that is absent, or present with the value None, is `None`.
- Amounts are integer cents and dates are integer day numbers.
- Clock readings are opaque strings passed in as parameters.

## Model

| member | source | states |
|---|---|---|
| Workflows.CancellationWorkflow.constructor | orchestration/workflows/cancellation_workflow.py:25-27 | a fresh workflow has status PENDING, no code, and has executed nothing |
| Workflows.FreshWorkflowIsPending | orchestration/workflows/cancellation_workflow.py:25-27 | querying a fresh workflow answers "PENDING" |
| Workflows.CancellationWorkflow.ProvideTwoFaCode | orchestration/workflows/cancellation_workflow.py:29-32 | the signal stores the code and changes nothing else |
| Workflows.LaterSignalWins | orchestration/workflows/cancellation_workflow.py:29-32 | two signals leave the second code stored: there is no write-once guard |
| Workflows.CancellationWorkflow.GetStatus | orchestration/workflows/cancellation_workflow.py:34-36 | the query returns the status name and modifies nothing |
| Workflows.CancellationWorkflow.SetStatus | orchestration/workflows/cancellation_workflow.py:50-59 | each status assignment sets the field and is appended to the recorded history |
| Workflows.CancellationWorkflow.Run | orchestration/workflows/cancellation_workflow.py:38-122 | the statuses set, the activities executed (with their requests) and the returned dictionary are exactly `RunTrace`; the stored code is the signalled one when the run waits |
| Workflows.CancellationWorkflow.AwaitCode | orchestration/workflows/cancellation_workflow.py:68-101 | the 2FA branch is exactly `AwaitTrace`: AWAITING_2FA, one notification, the signalled code stored, then the wait's outcome; the status ends on the last phase recorded |
| Workflows.CancellationWorkflow.Verify | orchestration/workflows/cancellation_workflow.py:83-101 | after the wait is exactly `VerifyTrace`: TIMEOUT without a code, or VERIFYING_2FA and an inject call with the start session and the stored code, whose result goes on to step 4 |
| Workflows.CancellationWorkflow.Finish | orchestration/workflows/cancellation_workflow.py:103-122 | step 4: on SUCCESS, CAPTURING_PROOF, a capture call with the result's session, then COMPLETED; otherwise FAILED; the status ends on the last phase recorded |
| Workflows.RunMovesForward | orchestration/workflows/cancellation_workflow.py:27-122 | every run starts at PENDING, only moves forward through the phases, and ends in a terminal phase unless a key is missing |
| Workflows.Notifications | orchestration/workflows/cancellation_workflow.py:72-80 | the notifications among the executed activities, never more than the activities |
| Workflows.NotificationsAppend | orchestration/workflows/cancellation_workflow.py:72-80 | the notifications of two activity lists concatenated are the notifications of each, concatenated |
| Workflows.RunCallsShape | orchestration/workflows/cancellation_workflow.py:60-80 | start_cancellation is always executed first, and exactly one notification "<service> needs verification" is sent if and only if the run waits: the start result asks for 2FA and the request has user_id and service_name (none otherwise) |
| Workflows.DirectSuccess | orchestration/workflows/cancellation_workflow.py:68-119 | a SUCCESS start sends no notification and injects nothing: proof is captured for the start session and the run reports SUCCESS with the proof URLs |
| Workflows.TimeoutStopsRun | orchestration/workflows/cancellation_workflow.py:83-90 | without a code the status becomes TIMEOUT, the run fails with "2FA code not provided in time", and neither inject nor capture_proof runs |
| Workflows.CodeIsInjected | orchestration/workflows/cancellation_workflow.py:93-104 | with a code, VERIFYING_2FA is set and inject receives the start session and the code; its result replaces the start result for step 4 |
| Workflows.FailureReturnsLastResult | orchestration/workflows/cancellation_workflow.py:104-122 | when the last activity result is not SUCCESS, the status is FAILED, that result is returned unchanged and capture_proof never runs |
| Workflows.SuccessReport | orchestration/workflows/cancellation_workflow.py:104-119 | the run reports success if and only if it ends COMPLETED, if and only if proof was captured; the savings default to 0 and the URLs come from the proof |
| BrowserActivities.AgentInvocation | orchestration/activities/browser_activities.py:47-68 | the agent is called if and only if the four fields are truthy, and then gets the request's service_name, login_url, email and password unchanged, with use_steel defaulting to false |
| BrowserActivities.StartCancellation | orchestration/activities/browser_activities.py:21-106 | the status is one of the three outcomes; it follows the agent's status; the missing-parameter and exception responses; the session id is present exactly when the status is not FAILED; the message defaults; on SUCCESS the agent's screenshot and timestamp |
| BrowserActivities.InvalidRequestSkipsAgent | orchestration/activities/browser_activities.py:54-59 | a request failing validation gets the same response whatever the agent would do, and no agent call is made |
| BrowserActivities.SessionId | orchestration/activities/browser_activities.py:71 | the session identifier: the service name, the user id ("None" when absent) and the clock reading, joined by underscores |
| BrowserActivities.SessionIdNamesService | orchestration/activities/browser_activities.py:71 | the session identifier starts with the service name and an underscore |
| BrowserActivities.StartFollowsAgentRun | orchestration/activities/browser_activities.py:62-98 | composed with the agent: a completed run gives SUCCESS with the agent's screenshot; a verification message gives 2FA_REQUIRED with the agent's message; anything else gives FAILED with the exception text |
| BrowserActivities.Inject2faCode | orchestration/activities/browser_activities.py:110-162 | fails if and only if the session id or the code is falsy; on success it echoes the session id |
| BrowserActivities.CaptureProof | orchestration/activities/browser_activities.py:166-216 | URLs are produced if and only if the session id is truthy; both embed the session id; the timestamp is the capture time |
| BrowserActivities.UrlRoundTrip | orchestration/activities/browser_activities.py:206-207 | a session id is recovered from any URL built as prefix + id + suffix |
| BrowserActivities.ProofUrlsIdentifySession | orchestration/activities/browser_activities.py:206-207 | both proof URLs identify their session, so different sessions never share a proof URL |
| NotificationActivities.SendPushNotification | orchestration/activities/notification_activities.py:15-74 | SUCCESS if and only if user_id, title and body are truthy; on failure, the missing-parameter delivery status; on success, the user id and the notification echoed, with data defaulting to an empty map |
| BrowserAgent.GetBrowserConfig | agent/browser_agent.py:21-27 | headless if and only if the hosted browser is used, and only then with the STEEL_CDP_URL endpoint |
| BrowserAgent.Classify | agent/browser_agent.py:69-95 | SUCCESS if and only if the run completed, with the screenshot path and timestamp; after an exception, 2FA_REQUIRED if and only if the message asks for verification, else FAILED with the message |
| BrowserAgent.VerificationInAnyCase | agent/browser_agent.py:85 | "verification" in any letter case is recognised as a verification request |
| BrowserAgent.LowerCase2faFails | agent/browser_agent.py:85 | "2FA" is matched case-sensitively, so "enter the 2fa code" is classified FAILED |
| BrowserAgent.Browser.constructor | agent/browser_agent.py:42 | a new browser keeps the configuration it was built with and starts with no screenshots and not yet closed |
| BrowserAgent.Browser.Screenshot | agent/browser_agent.py:73-74 | a screenshot is recorded at the given path |
| BrowserAgent.Browser.Close | agent/browser_agent.py:96-97 | closing counts one close and changes no screenshot |
| BrowserAgent.CancelSubscription | agent/browser_agent.py:30-97 | the browser is created with the configuration for use_steel; an exception while building the agent escapes with the browser never closed; otherwise the browser is closed exactly once, a screenshot is taken only after a completed run, and the result is `Classify` of the run unless closing raises, whose exception then replaces it |
| PlaidClient.FormatTransaction | backend/lib/plaid_client.py:164-174 | merchant_name falls back to name and category to an empty list; the other fields are copied |
| PlaidClient.Merchants | backend/lib/plaid_client.py:193-198 | the dictionary's keys, in first-appearance order, have no duplicates |
| PlaidClient.MerchantsCover | backend/lib/plaid_client.py:194-198 | every transaction's merchant is a key |
| PlaidClient.MerchantsOccur | backend/lib/plaid_client.py:194-198 | every key is some transaction's merchant |
| PlaidClient.ChargesOf | backend/lib/plaid_client.py:194-198 | a merchant's charge list is no longer than the transactions |
| PlaidClient.ChargesMembers | backend/lib/plaid_client.py:194-198 | a merchant's charge list holds exactly the transactions with that merchant |
| PlaidClient.ChargesOfAbsent | backend/lib/plaid_client.py:196-197 | a merchant that is not a key has no charges |
| PlaidClient.GroupSizesSnoc | backend/lib/plaid_client.py:198 | appending one transaction grows the total group size by one exactly when its merchant is counted |
| PlaidClient.GroupingSnoc | backend/lib/plaid_client.py:194-198 | one loop step adds the merchant as a new key only if unseen and appends the transaction to its list only |
| PlaidClient.GroupingPartitions | backend/lib/plaid_client.py:193-198 | the groups partition the transactions: their sizes add up to the number of transactions |
| PlaidClient.GroupedSnoc | backend/lib/plaid_client.py:195-198 | one iteration of the grouping loop keeps the dictionary equal to the grouping of the transactions seen |
| PlaidClient.GroupByMerchant | backend/lib/plaid_client.py:193-198 | the first loop builds the dictionary mapping each merchant to its charges, keys in first-appearance order |

| PlaidClient.InsertByDate | backend/lib/plaid_client.py:208 | inserting into a date-sorted list keeps it sorted and adds exactly that transaction |
| PlaidClient.EarliestFirst | backend/lib/plaid_client.py:208 | a transaction dated no later than everything in a sorted list can head it |
| PlaidClient.SortByDate | backend/lib/plaid_client.py:208 | the sort by date yields a date-sorted permutation of the charges |
| PlaidClient.Amounts | backend/lib/plaid_client.py:211 | the amounts of the charges, position by position |
| PlaidClient.Dates | backend/lib/plaid_client.py:217 | the dates of the charges, position by position |
| PlaidClient.Gaps | backend/lib/plaid_client.py:218 | the intervals between consecutive dates, one fewer than the dates |
| PlaidClient.GapsTelescope | backend/lib/plaid_client.py:218-219 | the intervals add up to the last date minus the first |
| PlaidClient.MinDate | backend/lib/plaid_client.py:208-217 | the earliest charge date is a date of some charge and no later than any |
| PlaidClient.MaxDate | backend/lib/plaid_client.py:208-227 | the latest charge date is a date of some charge and no earlier than any |
| PlaidClient.SortedSummary | backend/lib/plaid_client.py:208-227 | what the second loop reads off the sorted charges: one amount exactly when all charges share it, the latest date last, and intervals that number one fewer than the charges and add up to the date span |
| PlaidClient.SortedEnds | backend/lib/plaid_client.py:208-227 | after sorting, the first and last charges carry the earliest and latest dates |
| PlaidClient.SingleAmount | backend/lib/plaid_client.py:211-214 | the set of amounts has size 1 if and only if every charge has the same amount |
| PlaidClient.SameAmountRearranged | backend/lib/plaid_client.py:208-214 | sorting keeps the amounts all equal and keeps the first amount |
| PlaidClient.EntryMeaning | backend/lib/plaid_client.py:202-231 | one iteration of the second loop appends a record if and only if the charges recur (at least two, one amount, average interval 25 to 35 days), and the record appended is the merchant's report |
| PlaidClient.Recurring | backend/lib/plaid_client.py:204-222 | a merchant's charges recur when there are at least two, they share one amount, and the span from the first to the last date is 25 to 35 days per interval; tied to the loop's own test in EntryMeaning |
| PlaidClient.Report | backend/lib/plaid_client.py:223-231 | the record for a recurring merchant: its name, its normalised name, the common amount, the latest charge date, "active" and no URLs; tied to the appended record in EntryMeaning |
| PlaidClient.QualifyingMember | backend/lib/plaid_client.py:202-222 | a merchant qualifies if and only if it is listed and its charges recur |
| PlaidClient.QualifyingDistinct | backend/lib/plaid_client.py:202-222 | the qualifying merchants are no more than the listed ones, and without duplicates when the list has none |
| PlaidClient.QualifyingMeaning | backend/lib/plaid_client.py:202-222 | the merchants reported are exactly the listed merchants whose charges recur, without duplicates |
| PlaidClient.CollectMeaning | backend/lib/plaid_client.py:202-231 | the i-th record is the report of the i-th qualifying merchant |
| PlaidClient.DetectionReports | backend/lib/plaid_client.py:176-233 | one record per merchant that occurs and recurs, in the order of the merchant list, with the merchant's common amount, its latest charge date, status "active" and no URLs |
| PlaidClient.MerchantsInOrder | backend/lib/plaid_client.py:193-198 | the dictionary's keys are in order of each merchant's first transaction, and each has one |
| PlaidClient.QualifyingKeepsOrder | backend/lib/plaid_client.py:202-222 | skipping the merchants that do not recur keeps the others in their order |
| PlaidClient.DetectionOrder | backend/lib/plaid_client.py:193-231 | the records come in order of each merchant's first transaction |
| PlaidClient.DetectSubscriptions | backend/lib/plaid_client.py:176-233 | the two loops compute exactly `Detected` of the transactions |
| PlaidClient.NormalizeMerchantName | backend/lib/plaid_client.py:235-248 | strip, delete '*', '.COM' and '.com' in that order, collapse whitespace to single spaces, title-case; shape proved in NormalizedShape, examples in NormalizeNetflix and NormalizeAdobe |
| PlaidClient.NormalizedShape | backend/lib/plaid_client.py:245-248 | a normalised name has no '*' and single spaces between words, with none at either end |
| PlaidClient.CleanDotCom | backend/lib/plaid_client.py:245-246 | a non-empty word w with no '.', no '*' and no leading whitespace, followed by ".COM", cleans to w |
| PlaidClient.CleanStar | backend/lib/plaid_client.py:245-246 | for non-empty parts a and b free of '*' and '.', with a not starting and b not ending in whitespace, a + "*" + b cleans to a + b |
| PlaidClient.DeleteStar | backend/lib/plaid_client.py:246 | replacing '*' by nothing joins the parts around it |
| PlaidClient.ThreeWords | backend/lib/plaid_client.py:247 | collapsing whitespace keeps three single-spaced words unchanged |
| PlaidClient.NormalizeNetflix | backend/lib/plaid_client.py:241-248 | "NETFLIX.COM" normalises to "Netflix" |
| PlaidClient.NormalizeAdobe | backend/lib/plaid_client.py:242-248 | "Adobe* Creative Cloud" normalises to "Adobe Creative Cloud" |
| CredentialVault.ValidateCredentials | backend/lib/credential_vault.py:151-162 | valid if and only if both 'email' and 'password' are keys |
| CredentialVault.ValidationIgnoresValues | backend/lib/credential_vault.py:161-162 | validation never looks at the values |
| CredentialVault.EmailNotSecret | backend/lib/credential_vault.py:182-184 | the key 'email' is not secret, so its value reaches the email rule |
| CredentialVault.SecretInAnyCase | backend/lib/credential_vault.py:182 | a key containing "secret" in any letter case ("Secret", "sEcReT", ...) is masked |
| CredentialVault.SplitOnFirst | backend/lib/credential_vault.py:186-187 | the first piece of a split runs up to the first separator |
| CredentialVault.MaskEmail | backend/lib/credential_vault.py:186-187 | raises IndexError if and only if the value starts with '@'; otherwise the first character + "***@" + the text between the first and second '@' |
| CredentialVault.MaskedValueMeaning | backend/lib/credential_vault.py:181-189 | a secret key masks to "***" first; an email string with '@' is masked; everything else is copied unchanged |
| CredentialVault.FailsOnlyOnBareEmail | backend/lib/credential_vault.py:184-187 | redaction raises if and only if the 'email' value is a string starting with '@' |
| CredentialVault.SanitizeCredentialsForLogging | backend/lib/credential_vault.py:165-191 | fails if and only if some entry fails; otherwise it has exactly the input's keys and each value is that entry's redaction |
| CredentialVault.MaskEmailShape | backend/lib/credential_vault.py:185-187 | an email first+local@domain with no other '@' masks to first***@domain |
| CredentialVault.SecretMasked | backend/lib/credential_vault.py:182-183 | the password's value becomes "***" whatever it is |
| CredentialVault.EmailMasked | backend/lib/credential_vault.py:184-187 | an 'email' entry first+local@domain is logged as first***@domain |
| CredentialVault.MaskedExample | backend/lib/credential_vault.py:177 | the masked documented email is spelled "u***@example.com" |
| CredentialVault.DocumentedExample | backend/lib/credential_vault.py:176-177 | 'user@example.com' is logged as 'u***@example.com' and the password as '***' |
| CredentialVault.GetEncryptionKey | backend/lib/credential_vault.py:31-71 | fails with the ValueError message if and only if neither variable is truthy; a truthy key is used as given; otherwise PBKDF2 with the fixed salt, 480000 iterations and 32 bytes |
| CredentialVault.KeyTakesPrecedence | backend/lib/credential_vault.py:43-69 | a set key makes the password irrelevant, and an empty key counts as unset |
| CredentialVault.Vault.constructor | backend/lib/credential_vault.py:26-29 | a vault holds the key source it was built from |
| CredentialVault.VaultHolder.constructor | backend/lib/credential_vault.py:195 | the global starts unset, with no vault constructed |
| CredentialVault.VaultHolder.GetVault | backend/lib/credential_vault.py:198-203 | returns the stored instance when set; otherwise builds one vault, stores and returns it, or raises and leaves the global unset; at most one vault is ever constructed |
| CredentialVault.GetVaultTwice | backend/lib/credential_vault.py:198-203 | after a successful first call, a second call returns the same instance whatever the environment says |
| Strings.TitleFixed | backend/lib/plaid_client.py:248 | a string already in title case is unchanged by `title` |
| Strings.StripTrimmed | backend/lib/plaid_client.py:245 | `strip` leaves a string without surrounding whitespace unchanged |
| Strings.ReplaceAbsent | backend/lib/plaid_client.py:246 | `replace` leaves a string unchanged when the first character of the (non-empty) pattern does not occur in it |
| Strings.ReplaceAt | backend/lib/plaid_client.py:246 | `replace` substitutes the first occurrence and continues after it |
| Strings.ReplaceDeletes | backend/lib/plaid_client.py:246 | replacing a character by nothing removes every copy of it |
| Strings.WordsCons | backend/lib/plaid_client.py:247 | `split()` of a word followed by whitespace yields that word first |
| Strings.JoinSingleSpaced | backend/lib/plaid_client.py:247 | joining the words of `split()` with one space gives single spacing |
| Strings.SplitJoin | backend/lib/credential_vault.py:186 | joining the pieces of `split(sep)` with `sep` gives the string back |

## Left out

- agent/dark_pattern_shield.py: it is a single vision-model call with no decision logic of its own.
- Temporal runtime semantics are abstracted to inputs of `Run`: the activity results, the code present when the wait ends, and the `workflow.now()` reading that fills `cancelled_at`. Left out are durability and replay, the RetryPolicy, start-to-close timeouts and the 10-minute timer.
- Workflows.CancellationWorkflow.Run: only the last signal delivered before the wait ends is modelled; signals arriving after that point are not.
- Workflows.CancellationWorkflow.Run: the KeyError raised when the request lacks user_id or service_name, or a result lacks session_id, is the result `KeyMissing`. The exception itself is not modelled. Since an absent key and a key holding None are not distinguished, a request whose user_id is present but None also ends in `KeyMissing` with no notification, where the source would send the notification with user_id None.
- The language-model agent, the prompt text, `agent.run` and `browser.screenshot` are not modelled. A run is given by its outcome: completed, or raised with a message.
- BrowserAgent.Classify: the `agent_history` entry of the success dictionary is not modelled.
- BrowserAgent.CancelSubscription: an exception raised by the screenshot itself is folded into the agent run's outcome, so no screenshot is recorded for it.
- BrowserAgent.CancelSubscription: an exception raised by `Browser(...)` itself, before any browser exists, is not modelled.
- BrowserActivities.Inject2faCode, BrowserActivities.CaptureProof and NotificationActivities.SendPushNotification: their `except` branches are not modelled, because the placeholder bodies contain nothing that raises.
- Logging, `asyncio.sleep`, `datetime.now()` and `workflow.now()` are left out. Clock readings are opaque string parameters.
- A dictionary key that is absent and one present with the value None are not distinguished.
- PlaidClient.FormatTransaction: a merchant_name present with the value None is replaced by the name, whereas the source keeps None. The model therefore does not capture two consequences. `detect_subscriptions` groups such transactions under the key None. If that group recurs, normalising the name None raises AttributeError at `.strip()`, so PlaidClient.DetectSubscriptions never fails in the model.
- The Plaid network calls (`create_link_token`, `exchange_public_token`, `get_transactions` and its pagination) and `_get_plaid_host` are left out: they are I/O.
- PlaidClient.FormatTransaction: `float(amount)` is not modelled, because amounts are integer cents.
- PlaidClient.Report: `Decimal(str(...))` is not modelled, because the price is kept as integer cents.
- PlaidClient.Recurring: `strptime` is not modelled, because dates are integer day numbers. The floating-point average is replaced by exact integer bounds on the date span (25·(n−1) ≤ span ≤ 35·(n−1)).
- PlaidClient.SortByDate: the in-place `list.sort` is modelled as a stable insertion sort on values, so update in place is not captured.
- PlaidClient.DetectSubscriptions: the dictionary's insertion order is carried as a separate sequence of keys beside the map.
- Strings: `title`, `lower`, `isspace` and `split` are modelled on ASCII only. Other characters are uncased and not whitespace.
- PlaidClient.NormalizeMerchantName: the doc-comment example "SPOTIFY USA" → "Spotify" is not asserted, because the code yields "Spotify Usa".
- CredentialVault.SanitizeCredentialsForLogging: the dictionary is a map, so the order of its keys is not modelled. No failing entry comes before another, so the result does not depend on that order.
- Fernet encryption, decryption and key rotation, PBKDF2, base64 and JSON are foreign libraries. A key source records what would be handed to them.
- CredentialVault.VaultHolder.GetVault: a configured key that Fernet would reject is not modelled as a failure of the vault's constructor.
- The FastAPI handlers under backend/api and backend/main.py, orchestration/verify_structure.py and the `__init__.py` re-export files are not part of this model.
- The docstring of the workflow's `run` (orchestration/workflows/cancellation_workflow.py:43-48) shows a request carrying `encrypted_credentials` but no email or password, while `start_cancellation` requires both. The model follows the code: such a request fails validation.
