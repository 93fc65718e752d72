# stripe-php split endpoints, modelled in Dafny

The `public/split/` endpoints of stripe-php are a proof of concept for Stripe
Connect in Brazil. Each endpoint reads a JSON body, checks a few fields,
drives the payment provider's PHP SDK and answers with JSON. This project
models the four endpoints that hold logic of their own. It proves what each
one sends to the provider and what it answers.

- **`simulate_transfer.php`** (modules `Redact`, `AuditLog`, `SimulateTransfer`)
  - It validates `account_id` and `amount_brl`, and enforces a 50-cent minimum.
  - It then makes seven SDK calls in order: customer, payment intent, payment method, attach, update, confirm, transfer.
  - It appends three audit records to a JSON file under an exclusive lock, through `json_store_append_locked`.
  - It scrubs each record's request and response with `redact_array`. A `SimulateTransfer.AuditRecord` holds the two arrays as the script builds them, and `ToValue` redacts them into the stored value.
  - `redact_array` JSON-encodes the array, runs three case-insensitive `preg_replace` passes (`sk_…`, `pk_…`, `whsec_…`) and decodes the text again.
  - None of the three patterns can match a quote, a backslash or an escape that `json_encode` writes. So every match lies inside one string token, and the passes are modelled on each string key and value (`Redact.Mask`).
  - The decoder then rebuilds each array. Keys that masking made equal collapse into one entry (`Redact.Rebuild`).
  - The append is a class, `AuditLog.Store`, whose `Append` rewrites the stored document.
  - The request script is the function `SimulateTransfer.Plan`. It is implemented step by step by `SimulateTransfer.SimulateTransfer` against a `Store`.
- **`create_connected_account_prefilled.php`** (module `CreateAccount`)
  - It creates an Express account from a base payload plus up to four optional blocks, each an `array_filter` over listed input fields.
  - It then opens an account session for the new account.
  - The payload is built step by step by `CreateAccount.BuildPayload`. `Php.Laid` describes what such a run of guarded assignments leaves behind.
- **`prefill_account.php`** (module `PrefillAccount`): it sends an account update made of up to three filtered blocks.
- **`create_onboarding_link.php`** (module `OnboardingLink`): it creates an account link whose refresh and return URLs point back to the embedded onboarding page.

Shared PHP semantics live in `php_values.dfy` (module `Php`):
- decoded JSON values are ordered arrays with integer or string keys;
- truthiness and `empty()`;
- `??`, array assignment, `array_filter` and `strtoupper`.

Module `Sdk` holds the outcome of an SDK call: it returned, raised `ApiErrorException`, or raised another throwable. Module `Http` holds the reply shapes.

Environment lookups, the request body, the clock (`date('c')`), the provider's answers and the file lock's success are all parameters.

## Model

| member | source | states |
|---|---|---|
| Php.Truthy | public/split/prefill_account.php:13 | a value is falsy exactly when it is null, `false`, `0`, `""`, `"0"` or `[]` |
| Php.IsEmpty | public/split/prefill_account.php:19 | `empty($a['k'])` is false exactly when the value is an array holding the key with a truthy value |
| Php.Find | public/split/simulate_transfer.php:60-62 | a key lookup misses exactly when no entry has that key, and a hit is an entry of the array |
| Php.Get | public/split/create_connected_account_prefilled.php:22 | `$a['k'] ?? null` on a non-array or a missing key gives null, otherwise the stored value |
| Php.GetOr | public/split/create_connected_account_prefilled.php:23-24 | `??` falls back to the default only when the value is missing or null |
| Php.Put | public/split/create_connected_account_prefilled.php:46-52 | after `$a[k] = v` the key holds `v`, and a key that was absent is appended at the end |
| Php.PutKeepsOthers | public/split/create_connected_account_prefilled.php:46-52 | `$a[k] = v` leaves the lookup of every other key as it was |
| Php.PutMembers | public/split/create_connected_account_prefilled.php:46-52 | `$a[k] = v` brings in no entry other than `k => v` |
| Php.PutDistinct | public/split/create_connected_account_prefilled.php:46-52 | assigning into an array keeps its keys distinct |
| Php.FindAppend | public/split/create_connected_account_prefilled.php:33-86 | a lookup in two arrays laid end to end finds the first one's entry first |
| Php.ArrayFilter | public/split/prefill_account.php:20-24 | `array_filter` without a callback never grows the array |
| Php.FilterMembers | public/split/prefill_account.php:20-24 | `array_filter` keeps exactly the entries whose value is truthy |
| Php.FilterAppend | public/split/prefill_account.php:20-24 | `array_filter` keeps the order: filtering two arrays laid end to end is filtering each |
| Php.PickFiltered | public/split/prefill_account.php:20-24 | a field survives `array_filter([...'f' => $s['f'] ?? null...])` exactly when it is listed and its input value is truthy, and with that value |
| Php.FilterConsFind | public/split/prefill_account.php:29-36 | looking up a key after `array_filter` finds the first entry only if its value is truthy, else searches the rest |
| Php.FilterKeepsAbsent | public/split/prefill_account.php:29-36 | `array_filter` never adds a key |
| Php.Upper | public/split/create_connected_account_prefilled.php:23 | `strtoupper` maps each character, keeps the length and leaves no ASCII lower-case letter |
| Php.UpperFixes | public/split/create_connected_account_prefilled.php:23 | a string without lower-case ASCII letters is its own upper case |
| Php.ChosenLength | public/split/prefill_account.php:19-46 | the guarded assignments add at most one entry per block |
| Php.ChosenSnoc | public/split/prefill_account.php:19-46 | one more guarded block appends that block after the earlier chosen ones exactly when its guard holds |
| Php.LaidStep | public/split/create_connected_account_prefilled.php:46-86 | one more guarded assignment of a new key keeps the description: the front is untouched, the block is present exactly when its guard holds, and it comes after the blocks chosen before it |
| Php.AssignedLaid | public/split/create_connected_account_prefilled.php:46-86 | a sequence of guarded assignments of distinct new keys leaves the front untouched, followed by exactly the blocks whose guards hold, in the order of the `if`s |
| Http.SuccessResponse | public/split/simulate_transfer.php:10-17 | `successResponse` answers 200 with the success envelope carrying the data |
| Http.PlainError | public/split/prefill_account.php:53-55 | `http_response_code($c); echo json_encode(['error' => $m])` answers that code with a body holding only `error` |
| Http.ErrorResponse | public/split/simulate_transfer.php:19-27 | `errorResponse` answers the given code with the error envelope; `details` is always present and null when absent |
| Http.Caught | public/split/simulate_transfer.php:217-221 | a provider error answers 400 with "Stripe API error", any other throwable 500 with "Internal server error", both with the message as details |
| Redact.RunLength | public/split/simulate_transfer.php:32-34 | the greedy run `[A-Za-z0-9_]+` (or `[A-Za-z0-9]+`) is maximal: every character in it belongs to the class, and the next one does not |
| Redact.Replace | public/split/simulate_transfer.php:32-34 | one `preg_replace` pass; what it writes is stated by `ReplaceKeepsClearFront` and `ReplaceAtMatch`, what it leaves by `ReplaceLeavesNoMatch` and `ReplaceFixes` |
| Redact.ReplaceKeepsClearFront | public/split/simulate_transfer.php:32-34 | text in front of the first match is copied unchanged, and the pass goes on over the rest |
| Redact.ReplaceAtMatch | public/split/simulate_transfer.php:32-34 | a match is the prefix plus the longest non-empty run after it, and it becomes the lower-case prefix and `***` in place, the pass resuming right after the run |
| Redact.ReplaceLeavesNoMatch | public/split/simulate_transfer.php:32-34 | after a pass no match of that pattern is left, and no match of an earlier pattern is created |
| Redact.ReplaceFixes | public/split/simulate_transfer.php:32-34 | a pass leaves a string with no match unchanged |
| Redact.PatternsValid | public/split/simulate_transfer.php:32-34 | the three patterns and their replacements do not overlap in a way that could create a new match |
| Redact.Mask | public/split/simulate_transfer.php:32-34 | after the three passes no `sk_`, `pk_` or `whsec_` run is left, in any case |
| Redact.PassesLeaveNoSecret | public/split/simulate_transfer.php:32-34 | running the `sk_`, `pk_` and `whsec_` passes in that order leaves no match of any of the three, because no later pass creates a match of an earlier pattern |
| Redact.MaskFixesExactlySecretless | public/split/simulate_transfer.php:32-34 | the passes change a string if and only if it holds a secret-shaped run |
| Redact.MaskIdempotent | public/split/simulate_transfer.php:32-34 | masking twice is masking once |
| Redact.Rebuild | public/split/simulate_transfer.php:35 | `json_decode` yields distinct keys, and every entry it keeps comes from the text |
| Redact.LastValPresent | public/split/simulate_transfer.php:35 | a key has a last occurrence exactly when it occurs |
| Redact.RebuildLookup | public/split/simulate_transfer.php:35 | after decoding, each key holds the value of its last occurrence in the text, so decoded keys are exactly the text's keys |
| Redact.RedactArray | public/split/simulate_transfer.php:29-37 | an array nested deeper than `json_encode`'s limit redacts to `[]` |
| Redact.RebuildDistinct | public/split/simulate_transfer.php:35 | decoding an array whose keys are already distinct gives it back unchanged |
| Redact.MaskValueClean | public/split/simulate_transfer.php:30-35 | masking leaves no secret in any key or value at any depth, keeps keys distinct, and nests no deeper |
| Redact.MaskValueFixes | public/split/simulate_transfer.php:30-35 | a well-formed value with no secret comes through masking unchanged |
| Redact.RedactLeavesNoSecret | public/split/simulate_transfer.php:29-37 | the result of `redact_array` holds no secret-shaped run in any key or value |
| Redact.RedactIdempotent | public/split/simulate_transfer.php:29-37 | `redact_array(redact_array(x)) == redact_array(x)` |
| Redact.RedactFixesExactlyClean | public/split/simulate_transfer.php:29-37 | an array within the nesting limit comes back unchanged if and only if it holds no secret |
| Redact.RedactKeepsEntries | public/split/simulate_transfer.php:29-37 | when masking merges no two top-level keys, every entry is kept in order with its key and value masked |
| RedactExamples.LeadAbsent | public/split/simulate_transfer.php:32-34 | a string without a character that can start the prefix holds no match |
| RedactExamples.TaskIdMasked | public/split/simulate_transfer.php:32 | with no word boundary in the pattern, `task_id` becomes `task_***` |
| RedactExamples.MaskSkA | public/split/simulate_transfer.php:32 | `sk_` followed by one tail letter or digit of either case becomes `sk_***` |
| RedactExamples.KeysCollapse | public/split/simulate_transfer.php:29-37 | keys `sk_a` and `sk_b` collapse into one entry `sk_***` holding the later value |
| RedactExamples.WhsecNoKeys | public/split/simulate_transfer.php:32-33 | `whsec_ab_c` holds no `sk_` and no `pk_` match, so the first two passes leave it alone |
| RedactExamples.WhsecPass | public/split/simulate_transfer.php:34 | the `whsec_` pass on `whsec_ab_c` gives `whsec_***_c` |
| RedactExamples.WhsecRunStopsAtUnderscore | public/split/simulate_transfer.php:34 | the `whsec_` run excludes `_`, which stays with what follows |
| AuditLog.MaxIntKey | public/split/simulate_transfer.php:46 | the largest integer key of the array, or none exactly when every key is a string |
| AuditLog.NextIndex | public/split/simulate_transfer.php:46 | `$list[] =` uses a key no entry has |
| AuditLog.Appended | public/split/simulate_transfer.php:39-54 | without a handle or the lock the document is untouched; otherwise the decoded list, or `[]` for anything else, gets exactly the entry appended under a new key |
| AuditLog.Store.Append | public/split/simulate_transfer.php:39-54 | the stored document becomes `Appended(old document, entry, access)` |
| AuditLog.AppendedValues | public/split/simulate_transfer.php:43-49 | a granted append adds exactly the entry at the end, and anything that was not an array restarts as `[entry]` |
| AuditLog.AppendedDistinct | public/split/simulate_transfer.php:46 | the stored array keeps distinct keys |
| AuditLog.MaxOfCount | public/split/simulate_transfer.php:46 | in a JSON list counted from `off`, the largest key is the last position |
| AuditLog.AppendedStaysList | public/split/simulate_transfer.php:44-49 | a JSON list stays a JSON list after an append |
| AuditLog.AppendedTwice | public/split/simulate_transfer.php:39-54 | two granted appends in a row lose neither entry |
| AuditLog.AppendAllValues | public/split/simulate_transfer.php:154-203 | when every append is granted, the entries land at the end, in order |
| AuditLog.AppendAllDenied | public/split/simulate_transfer.php:40-42 | when no append gets the handle and the lock, the document is untouched |
| SimulateTransfer.Plan | public/split/simulate_transfer.php:56-221 | the script calls the provider exactly when the request is accepted, and writes records only when accepted, after all seven calls, with the success envelope |
| SimulateTransfer.Charge | public/split/simulate_transfer.php:79-216 | after validation the customer is created first, at most seven calls are made, and records are written only after all seven, with the three records and the success envelope |
| SimulateTransfer.ValidationFirst | public/split/simulate_transfer.php:59-73 | a rejected request makes no SDK call and writes no record; the missing-field and minimum-amount replies |
| SimulateTransfer.KindsGiveOrder | public/split/simulate_transfer.php:79-151 | calls of the script's kinds, in its order, sit at their script positions |
| SimulateTransfer.StoppedGivesReturned | public/split/simulate_transfer.php:79-151 | a run stopped at the first raise had every earlier call return |
| SimulateTransfer.ChargeCallsInOrder | public/split/simulate_transfer.php:79-151 | the accepted branch issues the calls in the script's order and stops at the first call that raises |
| SimulateTransfer.CallsFollowScript | public/split/simulate_transfer.php:56-221 | at most seven calls, in script order, each but the last one having returned |
| SimulateTransfer.ErrorsClassified | public/split/simulate_transfer.php:56-221 | every reply is one envelope; 500 exactly when the last call raised something other than a provider error; a provider error answers 400 with its message |
| SimulateTransfer.SuccessExactly | public/split/simulate_transfer.php:124-216 | success exactly when every call returns and the payment succeeded with a charge; records are written exactly then |
| SimulateTransfer.NoTransferWithoutCharge | public/split/simulate_transfer.php:124-135 | a payment that did not succeed, or has no charge, stops after the confirmation with its 400 reply and no record |
| SimulateTransfer.SuccessTrail | public/split/simulate_transfer.php:87-203 | intent and transfer carry the same cents in BRL, the transfer goes to the requested account out of the intent's charge, and the three records are intent, charge, transfer with the right ids and shared fields |
| SimulateTransfer.AuditRedacted | public/split/simulate_transfer.php:164-199 | the value stored for any audit record has a `request` and a `response` entry, and neither holds a secret-shaped run in any key or value |
| SimulateTransfer.CompletedCalls | public/split/simulate_transfer.php:79-151 | a completed run issues seven calls; the second creates the intent for the cents in BRL with the customer, order reference and account, and the last transfers those cents to the account out of the intent's charge |
| SimulateTransfer.ChargeCompletedCalls | public/split/simulate_transfer.php:79-151 | the same seven calls, stated for the script after validation when every call returns, the payment succeeded and it has a charge |
| SimulateTransfer.CompletedAudit | public/split/simulate_transfer.php:154-203 | a completed run writes exactly the intent, charge and transfer records, in that order, with the ids the provider returned |
| SimulateTransfer.StoreAfterRun | public/split/simulate_transfer.php:153-203 | a failed run leaves the store as it was; a successful run whose appends are granted adds its three records at the end |
| SimulateTransfer.AppendRecords | public/split/simulate_transfer.php:154-203 | the three appends, in order, leave the document the fold of `Appended` over the records |
| SimulateTransfer.SimulateTransfer | public/split/simulate_transfer.php:56-221 | reply and calls are those of `Plan`, and the store receives `Plan`'s records |
| SimulateTransfer.ChargeAndTransfer | public/split/simulate_transfer.php:79-216 | reply, calls and the store follow `Charge`, the script after validation |
| CreateAccount.StringArg | public/split/create_connected_account_prefilled.php:23 | weak-mode coercion refuses exactly an array and keeps a string as it is |
| CreateAccount.Country | public/split/create_connected_account_prefilled.php:23 | the country is "BR" when absent, the upper case of a given string, an error exactly for an array, and never has lower-case letters |
| CreateAccount.BaseLookups | public/split/create_connected_account_prefilled.php:33-43 | the base payload has distinct keys and none of the optional blocks' keys |
| CreateAccount.BuildPayload | public/split/create_connected_account_prefilled.php:33-86 | the built payload is the six base entries followed by exactly the blocks whose guards hold, in the order of the `if`s |
| CreateAccount.AssignSections | public/split/create_connected_account_prefilled.php:46-86 | the four `if`s leave the array that `Assigned` gives for the base, the guards and the blocks |
| CreateAccount.AssignedDescribes | public/split/create_connected_account_prefilled.php:46-86 | the four guarded assignments on the base payload give a payload that describes the input |
| CreateAccount.BlocksFit | public/split/create_connected_account_prefilled.php:46-86 | the blocks use distinct keys that no base entry uses |
| CreateAccount.PayloadBlocks | public/split/create_connected_account_prefilled.php:46-86 | each block is present exactly when its section is non-empty (and, for the identity blocks, the business type matches) |
| CreateAccount.OneIdentityBlock | public/split/create_connected_account_prefilled.php:55-76 | `individual` and `company` are never both sent |
| CreateAccount.ProfileFieldsForwarded | public/split/create_connected_account_prefilled.php:46-52 | a profile field is sent exactly when it is listed and truthy, with the caller's value |
| CreateAccount.IndividualEmail | public/split/create_connected_account_prefilled.php:55-65 | the individual's email is their own when given (a given "" is filtered out), else the account email |
| CreateAccount.FilteredEmail | public/split/create_connected_account_prefilled.php:56-63 | the email survives the filter exactly when the `??` result is truthy |
| CreateAccount.Handle | public/split/create_connected_account_prefilled.php:8-112 | missing key 500; `account_id` 400; array country 500; missing email 400; the creation call is made exactly when every guard passes, and it describes the input; then the session for the new id, the success body, or the 400/500 catch |
| CreateAccount.Submit | public/split/create_connected_account_prefilled.php:89-112 | creation first, the session only after it returns, then the success body; the first raise answers 400 or 500 with its message |
| PrefillAccount.BuildUpdate | public/split/prefill_account.php:16-46 | the update holds exactly the filtered blocks of the non-empty sections, in order |
| PrefillAccount.AssignSections | public/split/prefill_account.php:16-46 | the three `if`s on `[]` leave the array that `Assigned` gives for the guards and the blocks |
| PrefillAccount.AssignedDescribes | public/split/prefill_account.php:16-46 | the three guarded assignments on `[]` describe the input |
| PrefillAccount.UpdateBlocks | public/split/prefill_account.php:19-46 | each block is present exactly when its input section is non-empty |
| PrefillAccount.UpdateSize | public/split/prefill_account.php:16-46 | at most the three blocks are sent |
| PrefillAccount.IndividualFieldsForwarded | public/split/prefill_account.php:28-37 | an individual field is sent exactly when listed and truthy, with no email fallback |
| PrefillAccount.Handle | public/split/prefill_account.php:8-56 | no call exactly when `account_id` is empty (400); otherwise one update for that account describing the input, then the success body or the 400/500 catch |
| OnboardingLink.TrimSlashes | public/split/create_onboarding_link.php:39 | `rtrim($s, '/')` is a prefix without a trailing slash, and only slashes were cut |
| OnboardingLink.TrimSlashesFixes | public/split/create_onboarding_link.php:39 | `rtrim` leaves a string without a trailing slash alone |
| OnboardingLink.BaseUrl | public/split/create_onboarding_link.php:39 | a truthy `APP_URL` gives its value with trailing slashes cut; unset, `""` or `"0"` give the local address; the base never ends in `/` |
| OnboardingLink.LinkRequest | public/split/create_onboarding_link.php:41-46 | an `account_onboarding` link for the given account, whose refresh and return URLs differ |
| OnboardingLink.LinkUrlsShape | public/split/create_onboarding_link.php:41-46 | both URLs start with the base, have exactly one `/` at the join, and end with the encoded account id |
| OnboardingLink.HandleAsWritten | public/split/create_onboarding_link.php:29-51 | empty id 400; a non-string id is a fatal `TypeError` with no call; a string id makes one link call; success envelope, provider error 400, any other throwable fatal |
| OnboardingLink.IntegerIdEscapes | public/split/create_onboarding_link.php:44 | an integer `account_id` gives a fatal reply, not JSON |
| OnboardingLink.Handle | public/split/create_onboarding_link.php:29-51 | the corrected endpoint always answers JSON |
| OnboardingLink.HandleAlwaysEnvelope | public/split/create_onboarding_link.php:29-51 | every corrected reply is the success envelope, or the error envelope with 400 or 500 |
| OnboardingLink.HandleKeepsAnswers | public/split/create_onboarding_link.php:29-51 | wherever the endpoint as written answers JSON, the corrected one answers the same |

## Left out

- Amount conversion: `(int) round((float)$amount_brl * 100)` uses floating point. The amount in cents is an input of `SimulateTransfer.Plan`, and only its comparison with 50 is modelled.
- Idempotency keys: the hash of the request with `time()` is not modelled. A call records only the key's prefix (`pi-sim:`, `tr-sim:`).
- SDK internals, the HTTP transport and the objects the provider returns are not modelled. Each call is an outcome given as input: a value, an `ApiErrorException` message, or another throwable's message.
- Concurrency under `flock`: appends are modelled one after another. Whether `fopen` and `flock` succeeded is an input per append.
- AuditLog.Appended: a failing `json_encode` is not modelled; the model appends as if the write succeeded. Under `strict_types`, a list nested deeper than 512 levels makes `json_encode` return `false`, and `fwrite($fp, false)` throws a `TypeError` after `ftruncate` has emptied the file. The `Throwable` catch then answers 500 although the transfer was made. A deeply nested `amount_brl` array reaches this, since `(float)` of a non-empty array is 1.0.
- `AuditLog.NextIndex` follows PHP 8.3 and later. Before 8.3, an array whose keys are all negative appended at key 0.
- Floating point: `Php.Value` has no float, so JSON numbers with a fraction or an exponent are not modelled.
- AuditLog.NextIndex: integers are unbounded. PHP throws an `Error` when `$list[] =` would need a key past `PHP_INT_MAX`, and `json_decode` turns integers beyond 64 bits into floats; neither is modelled.
- Numeric-string keys, which PHP turns into integer keys, are not modelled: decoded keys are taken as given.
- `redact_array` is modelled on decoded strings, not on the JSON text. The README intro gives the argument that the two agree.
- The endpoints that only pass through to the SDK (`account_status.php`, `create_account_session.php`, `delete_account.php`) are not part of this model.
- Headers, `exit`, `Stripe::setApiKey` and the reading of the request body are not modelled. `json_decode(...) ?: []` is taken as the body value.
- `date('c')` is one `now` string per request.
- `urlencode` is a function parameter of `OnboardingLink.LinkRequest`.
- PrefillAccount.Handle: the missing `STRIPE_SECRET_KEY` is not checked by the endpoint. It surfaces only as the SDK's own exception, which is one of the modelled outcomes.
- CreateAccount.Country: the `TypeError` message is modelled only for an array. Other scalars are coerced as weak mode does.
- The account-creation endpoint passes no idempotency key to the SDK, and none is modelled.
- `simulate_transfer.php` and `create_onboarding_link.php` answer with the `success`/`error`/`details`/`timestamp` envelope; `create_connected_account_prefilled.php` and `prefill_account.php` answer errors with an `{error}` body only (`Http.PlainError`).

## Findings

| source | as written | input that shows it | evidently intended | confidence | as-written member | corrected member |
|---|---|---|---|---|---|---|
| public/split/create_onboarding_link.php:49-51 | under `strict_types`, a truthy non-string `account_id` reaches `urlencode`, which throws a `TypeError`; only `ApiErrorException` is caught, so PHP answers with a fatal error and no JSON | body `{"account_id": 123}` | every reply is one JSON envelope, with a 500 for an unexpected throwable as `simulate_transfer.php` does | not executed | OnboardingLink.IntegerIdEscapes | OnboardingLink.HandleAlwaysEnvelope |
