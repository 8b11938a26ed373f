# Coupon manager — a Dafny model

This project models the core of a small coupon manager for a chain of five
branches (GDXC, GDXR, NWXC, GNXC, SWXC). Staff **issue** a coupon under a
random eight-symbol code. They then **verify** (redeem) it at a branch with
that branch's five-digit password. The pieces modelled are:

- The **verification panel**:
  - it counts wrong passwords on the coupon row;
  - it locks the (code, branch) pair on the device for ten minutes once the
    count reaches five;
  - it changes the row from `ISSUED` to `VERIFIED` with a conditional update.
- The **issue panel**:
  - it validates the form;
  - it draws up to three codes until an insert is accepted.
- The **completed-coupons list**:
  - it filters by branch and by phone digits;
  - it pages by fifteen rows;
  - it shows status labels and formatted phone numbers.
- The **SMS template settings page**, which keeps one default template per
  type (`issue`, `verify`).
- The **`send-coupon-sms` edge function**:
  - it converts the customer's phone to domestic form;
  - it fills `{{placeholder}}` tokens into the default template;
  - it answers with a fixed order of HTTP statuses.

Each source file becomes one module:

| file | module | form |
|---|---|---|
| `js_builtins.dfy` | `JsBuiltins` | `Option` and the JavaScript built-ins the code relies on: `replace(/\D/g, "")`, `trim`, `String(n)`, `Number(s)`, `repeat` |
| `coupon_utils.dfy` | `CouponUtils` | Branch tables and code generation (a `for` loop over caller-supplied draws). Normalisation. The lock, as class `LocalStorage` over a `map` |
| `coupon_store.dfy` | `CouponStore` | The `coupons` and `coupon_events` tables, as class `Store`. Every write is also a pure `Apply` on the map, so properties over sequences of writes can be stated with `Run` |
| `coupon_verify.dfy` | `CouponVerify` | Class `VerifyPanel`, whose `Verify` is specified against the pure decision `Path` |
| `coupon_issue.dfy` | `CouponIssue` | Class `IssuePanel`, whose `CreateCoupon` loop is specified against `Validate`, `AttemptRows` and `FirstInserted` |
| `sms_templates.dfy` | `SmsTemplates` | Class `TemplateTable` (in-place update loops) and class `SmsTemplatesPage`, specified by `Cleared`, `Promoted` and `Edited` |
| `completed_list.dfy` | `CompletedList` | Pure functions |
| `send_coupon_sms.dfy` | `SendCouponSms` | `Substitute` is a loop proved equal to `SubstituteResult`. The handler is the pure decision `Handle` |

Inputs the program takes from its environment are parameters here:

- the clock, as `now` in milliseconds;
- `Math.random`, as a draw of eight alphabet indices;
- what the backend reports for an insert or the redeem update, as a fault;
- whether a template load fails;
- the deployment's environment variables;
- the SMS gateway's answer.

Every operation runs to completion before the next one starts.

## Model

| member | source | states |
|---|---|---|
| JsBuiltins.Digits | src/components/CouponVerifyPanel.tsx:24 | The result is all digits and no longer than the input. A string of digits is kept whole. The result is empty exactly when the input has no digit |
| JsBuiltins.Trim | src/utils/couponUtils.ts:20 | `trim` never lengthens its input; its shape is stated by `TrimShape` |
| JsBuiltins.TrimShape | src/utils/couponUtils.ts:20 | `trim` gives a contiguous part of the input whose two ends are not white space. It is empty exactly when the input is all white space |
| JsBuiltins.TrimCutsSpace | src/utils/couponUtils.ts:20 | `trim` cuts only white space: the trimmed text is the slice of the input between an all-white-space head and an all-white-space tail |
| JsBuiltins.Repeat | src/components/CouponVerifyPanel.tsx:29 | `"*".repeat(n)` has length n and holds only the character |
| JsBuiltins.IntToString | src/utils/couponUtils.ts:46 | `String(until)` is never empty |
| JsBuiltins.ParseInt | src/utils/couponUtils.ts:32-33 | `Number(raw)` is defined only on non-empty text, and a string of digits reads as its decimal value |
| JsBuiltins.ParseIntToString | src/utils/couponUtils.ts:32-46 | The expiry the lock writes with `String` reads back, through `Number`, as the same integer |
| CouponUtils.BranchPasswordsAreFiveDigits | src/utils/couponUtils.ts:1-10 | The code list and the password table have the same branches. Every password is five digits |
| CouponUtils.InitialBranch | src/components/CouponVerifyPanel.tsx:47-50 | The starting branch is the profile's branch when that is a known code, and GDXC otherwise; it is always a known code |
| CouponUtils.PasswordInput | src/components/CouponVerifyPanel.tsx:267 | The password input holds at most five characters, all digits. They are the first digits typed, and all of them when fewer than five were typed |
| CouponUtils.PasswordOk | src/components/CouponVerifyPanel.tsx:60 | The password check passes exactly when the branch has a password and the input equals it; a passing input is five digits of a known branch |
| CouponUtils.PasswordTypedIsKept | src/components/CouponVerifyPanel.tsx:60 | Typing a branch's password into the input keeps it whole, so the password check passes |
| CouponUtils.AlphabetShape | src/utils/couponUtils.ts:13 | The alphabet has 32 pairwise distinct symbols and contains none of I, O, 0, 1 |
| CouponUtils.CodeOf | src/utils/couponUtils.ts:12-17 | The code has length 8 and character i is the alphabet symbol at the i-th drawn index |
| CouponUtils.GenerateCouponCode8 | src/utils/couponUtils.ts:12-17 | The loop builds a code of length 8 from alphabet symbols, equal to `CodeOf(draw)` |
| CouponUtils.ToUpperAscii | src/utils/couponUtils.ts:20 | Upper-casing keeps the length, maps each of a–z to its capital 32 code points lower, and keeps every other character |
| CouponUtils.KeepCodeChars | src/utils/couponUtils.ts:20 | `replace(/[^A-Z0-9]/g, "")` leaves only A–Z and 0–9, and keeps such a string whole |
| CouponUtils.NormalizeCouponCode | src/utils/couponUtils.ts:19-21 | The normalised code holds only A–Z and 0–9 and is no longer than the input |
| CouponUtils.NormalizeFixesCodeStrings | src/utils/couponUtils.ts:19-21 | Normalisation leaves a string of A–Z and 0–9 unchanged |
| CouponUtils.NormalizeIdempotent | src/utils/couponUtils.ts:19-21 | Normalising twice gives the same as normalising once |
| CouponUtils.GeneratedCodeIsCodeChars | src/utils/couponUtils.ts:13-15 | A generated code is made of upper-case letters and digits |
| CouponUtils.GeneratedCodeIsNormalized | src/utils/couponUtils.ts:12-21 | Every generated code is a fixed point of normalisation |
| CouponUtils.LockKey | src/utils/couponUtils.ts:23-25 | The key is `coupon_lock:`, then the code, then `:`, then the branch, with that exact length |
| CouponUtils.LockKeyInjective | src/utils/couponUtils.ts:23-25 | For codes without `:`, equal lock keys mean equal (code, branch) pairs |
| CouponUtils.CeilSeconds | src/utils/couponUtils.ts:40 | `Math.ceil(ms / 1000)` is the least whole number of seconds covering ms, and at least 1 |
| CouponUtils.LockStatus | src/utils/couponUtils.ts:27-41 | The result is locked exactly when the entry reads as a number later than now. An unlocked answer has 0 seconds left |
| CouponUtils.ItemsAfterCheck | src/utils/couponUtils.ts:27-41 | The check removes the entry for its key exactly when the entry is numeric and has expired. Every other entry stays as it was |
| CouponUtils.LockedUntilExpiry | src/utils/couponUtils.ts:27-47 | A lock set at t is reported at every t′ in [t, t+600000) with `ceil((t+600000−t′)/1000)` seconds left, which lies in 1..600. The check keeps the lock |
| CouponUtils.UnlockedAtExpiry | src/utils/couponUtils.ts:27-47 | From t+600000 on, the check reports {false, 0} and removes that key only |
| CouponUtils.UnreadableEntryIgnored | src/utils/couponUtils.ts:29-33 | A missing, empty or non-numeric entry reads as {false, 0} and is not removed |
| CouponUtils.LocalStorage.IsLocallyLocked | src/utils/couponUtils.ts:27-41 | The answer is `LockStatus` of the old entries. The entries become `ItemsAfterCheck` of them |
| CouponUtils.LocalStorage.SetLocalLock10Min | src/utils/couponUtils.ts:43-47 | The key of (code, branch) now holds `String(now + 600000)`. Every other entry is kept |
| CouponStore.InsertError | src/components/CouponIssuePanel.tsx:94-111 | An insert succeeds exactly when the backend reports no fault and the code is not yet a key |
| CouponStore.Affected | src/components/CouponVerifyPanel.tsx:152-160 | A write touches at most one row. A write that touches none changes nothing |
| CouponStore.Apply | src/components/CouponVerifyPanel.tsx:135-160 | A write keeps every code and changes only its own target row. A code that was not a key appears only through an insert |
| CouponStore.ApplyKeepsSettled | src/components/CouponVerifyPanel.tsx:152-160 | No write deletes a row. A row no longer ISSUED keeps its status, verified branch and verified time through any write |
| CouponStore.RunKeepsSettled | src/components/CouponVerifyPanel.tsx:152-160 | Over any sequence of writes, rows stay. A settled coupon's status and verified fields never change again |
| CouponStore.NoVerifiedWriteOnceSettled | src/components/CouponVerifyPanel.tsx:159-160 | A coupon that has left ISSUED receives no conditional verification write |
| CouponStore.VerifiedAtMostOnce | src/components/CouponVerifyPanel.tsx:152-160 | Over any sequence of writes, at most one conditional update writes a coupon's verified fields |
| CouponStore.SecondVerificationIsNoOp | src/components/CouponVerifyPanel.tsx:159-160 | Once a coupon was verified, a second conditional update matches no row and changes nothing |
| CouponStore.Store.Insert | src/components/CouponIssuePanel.tsx:94-109 | The insert reports `InsertError` and changes the table as `Apply` of the insert. The log is unchanged |
| CouponStore.Store.RecordFailedAttempt | src/components/CouponVerifyPanel.tsx:135-141 | Sets the attempt count and time of the coupon's row, if there is one. The log is unchanged |
| CouponStore.Store.MarkVerified | src/components/CouponVerifyPanel.tsx:152-162 | Without a backend fault, changes the row to VERIFIED only if it is ISSUED and reports how many rows matched. A fault is returned and leaves the table unchanged. The log is unchanged |
| CouponStore.Store.LogEvent | src/components/CouponVerifyPanel.tsx:99-104 | Appends exactly the event to the log. Coupons are unchanged |
| CouponVerify.MaskPhoneInline | src/components/CouponVerifyPanel.tsx:22-30 | A missing phone shows "-". With 7 or more digits: the first 3, then `-****-`, then the last 4. With 2 or fewer: the digits. Otherwise stars, then the last 2 digits |
| CouponVerify.Path | src/components/CouponVerifyPanel.tsx:111-149 | The decision is to redeem exactly when the code is non-empty, not locked, names an ISSUED row, and the password is the branch's. A wrong password on an ISSUED row raises its count by one |
| CouponVerify.Outcome | src/components/CouponVerifyPanel.tsx:152-171 | A redeem goes through exactly when the decision was to redeem and the update reports no fault. A fault turns it into a failed update; every other path is kept |
| CouponVerify.RedeemFailureEffect | src/components/CouponVerifyPanel.tsx:160-171 | When the redeem update fails, the error is that failure. Nothing is written or logged, and only the lock check's own clean-up touches the device locks |
| CouponVerify.RejectedBeforeStoreRead | src/components/CouponVerifyPanel.tsx:111-120 | An empty code or an active lock rejects whatever the table holds. Nothing is written and nothing is logged |
| CouponVerify.SettledCouponRejected | src/components/CouponVerifyPanel.tsx:129-132 | A coupon that is not ISSUED is never redeemed and its count is not raised. The error names its status |
| CouponVerify.WrongPasswordEffect | src/components/CouponVerifyPanel.tsx:134-149 | A wrong password raises that row's count by exactly one and stamps the time. Every other field and row is kept. Exactly one VERIFY_FAIL with reason WRONG_PASSWORD is logged |
| CouponVerify.LockSetAtFifthFailure | src/components/CouponVerifyPanel.tsx:145-146 | The device lock is set exactly when the raised count is 5 or more. Other entries are unchanged |
| CouponVerify.AcceptEffect | src/components/CouponVerifyPanel.tsx:152-164 | A correct password on an unlocked ISSUED coupon sets VERIFIED, the branch and the time on that row only. One VERIFY_SUCCESS is logged |
| CouponVerify.VerifyPanel.constructor | src/components/CouponVerifyPanel.tsx:45-55 | The code starts normalised, and the branch starts as `InitialBranch` |
| CouponVerify.VerifyPanel.SetCouponCode | src/components/CouponVerifyPanel.tsx:184 | The code field stores the normalised input |
| CouponVerify.VerifyPanel.SetPw | src/components/CouponVerifyPanel.tsx:267 | The password field stores `PasswordInput` of what was typed |
| CouponVerify.VerifyPanel.SelectBranch | src/components/CouponVerifyPanel.tsx:249-253 | Only an administrator changes the branch |
| CouponVerify.VerifyPanel.NormalizedCode | src/components/CouponVerifyPanel.tsx:111 | Normalising the stored code gives it back |
| CouponVerify.VerifyPanel.FetchCoupon | src/components/CouponVerifyPanel.tsx:76-95 | Loads the row for a non-empty code. Reports not-found when there is no row. Clears the notice |
| CouponVerify.VerifyPanel.LogEvent | src/components/CouponVerifyPanel.tsx:97-105 | Logs one event for the code and branch, or none when the code is empty |
| CouponVerify.VerifyPanel.Verify | src/components/CouponVerifyPanel.tsx:107-175 | The error, notice, table, log and device locks afterwards are those of `Outcome` of the path `Path` takes and the update's fault. Fields are cleared exactly on success. The code field stays normalised |
| CouponVerify.VerifyPanel.RejectWrongPassword | src/components/CouponVerifyPanel.tsx:134-149 | Records the attempt, logs VERIFY_FAIL, and sets the lock when the count is 5 or more |
| CouponVerify.VerifyPanel.FinishVerification | src/components/CouponVerifyPanel.tsx:152-171 | Sends the conditional update. Without a fault it logs VERIFY_SUCCESS, reports success and clears the fields whether or not a row matched. With a fault it shows the error and keeps the table, log, notice and fields |
| CouponVerify.LostRace | src/components/CouponVerifyPanel.tsx:124-166 | Two devices both show success for one coupon; the log holds two VERIFY_SUCCESS events and the row keeps the second device's branch |
| CouponVerify.RedeemOnFreshDevice | src/components/CouponVerifyPanel.tsx:107-169 | A whole `verify` of an ISSUED coupon, with the branch's password and no lock, changes the row to VERIFIED at that branch and logs one VERIFY_SUCCESS |
| CouponIssue.Validate | src/components/CouponIssuePanel.tsx:57-86 | Validation passes exactly when all six checks pass. Each of the six errors is reported exactly when the earlier checks pass and its own fails |
| CouponIssue.CustomText | src/components/CouponIssuePanel.tsx:100-102 | A custom text is stored exactly for CUSTOM. It is a contiguous part of the typed text with only white space cut from either end, its ends are not white space, and it is empty exactly when the typed text is all white space |
| CouponIssue.NewRow | src/components/CouponIssuePanel.tsx:95-105 | The row has the given code, branch and time. It is ISSUED with no attempts and no verification, keeps the phone's digits and the two types, and stores `CustomText` of each type and its typed text |
| CouponIssue.AttemptRows | src/components/CouponIssuePanel.tsx:92-105 | Attempt i inserts the row for the code of draw i |
| CouponIssue.FirstInserted | src/components/CouponIssuePanel.tsx:92-118 | Gives the first attempt whose insert is accepted, with every earlier attempt refused, or none when all are refused |
| CouponIssue.IssuedRowShape | src/components/CouponIssuePanel.tsx:96-105 | A generated row's code is 8 upper-case letters and digits. Once validated, the phone and custom texts are non-empty |
| CouponIssue.IssuedThenRedeemable | src/components/CouponIssuePanel.tsx:96-105 | A freshly inserted coupon is redeemed by any branch's correct password on a device with no lock for it |
| CouponIssue.InsertWithRetries | src/components/CouponIssuePanel.tsx:90-118 | The loop inserts the first accepted attempt's row, whose code was free, and logs one ISSUE event. When all attempts are refused, nothing changes and the last refusal is reported |
| CouponIssue.IssuePanel.constructor | src/components/CouponIssuePanel.tsx:26-39 | The branch starts as `InitialBranch` and every field starts empty |
| CouponIssue.IssuePanel.SetPw | src/components/CouponIssuePanel.tsx:158 | The password field stores `PasswordInput` of what was typed |
| CouponIssue.IssuePanel.SelectBranch | src/components/CouponIssuePanel.tsx:141-145 | Only an administrator changes the branch |
| CouponIssue.IssuePanel.CreateCoupon | src/components/CouponIssuePanel.tsx:53-127 | A failed validation shows its error and writes nothing. Otherwise the first accepted attempt's row is inserted; its code was free; one ISSUE event is logged. When all three attempts are refused, the last error is shown and nothing changes. The password is cleared once past validation |
| SmsTemplates.OfType | src/components/SmsTemplatesPage.tsx:103-104 | Holds exactly the templates of the type, and is empty exactly when there is none |
| SmsTemplates.OfTypeAppend | src/components/SmsTemplatesPage.tsx:103-104 | Filtering by type keeps the list's order |
| SmsTemplates.Cleared | src/components/SmsTemplatesPage.tsx:60 | Every row of the type loses its default flag; nothing else in any row changes |
| SmsTemplates.Promoted | src/components/SmsTemplatesPage.tsx:61 | The rows with that id become default with the new time. Other rows are unchanged |
| SmsTemplates.Edited | src/components/SmsTemplatesPage.tsx:74 | The rows with that id get the new content and time. Other rows are unchanged |
| SmsTemplates.WithDefault | src/components/SmsTemplatesPage.tsx:56-62 | The two updates keep every row's id, type, name and content. A row of the type is default exactly when it has the id; other rows of other ids are unchanged |
| SmsTemplates.WithDefaultIsSoleDefault | src/components/SmsTemplatesPage.tsx:56-62 | After the two updates, ids stay distinct and there is at most one default per type. A template of that type exists exactly then, and it is the default |
| SmsTemplates.EditKeepsInvariants | src/components/SmsTemplatesPage.tsx:69-76 | Editing content keeps ids distinct and one default per type |
| SmsTemplates.NewTemplate | src/components/SmsTemplatesPage.tsx:88-93 | The new template has trimmed name and content. It is default exactly when the listed templates hold none of its type |
| SmsTemplates.AddKeepsInvariants | src/components/SmsTemplatesPage.tsx:83-96 | Adding with a fresh id, from a list equal to the table, keeps both invariants |
| SmsTemplates.StaleListCanDoubleDefault | src/components/SmsTemplatesPage.tsx:92 | From a list older than the table, an insert can give a type two defaults |
| SmsTemplates.TemplateTable.ClearDefaults | src/components/SmsTemplatesPage.tsx:60 | The loop leaves the rows equal to `Cleared` of the old rows |
| SmsTemplates.TemplateTable.MarkDefault | src/components/SmsTemplatesPage.tsx:61 | The loop leaves the rows equal to `Promoted` of the old rows |
| SmsTemplates.TemplateTable.UpdateContent | src/components/SmsTemplatesPage.tsx:74 | The loop leaves the rows equal to `Edited` of the old rows |
| SmsTemplates.TemplateTable.Insert | src/components/SmsTemplatesPage.tsx:88-93 | The row is appended |
| SmsTemplates.SmsTemplatesPage.constructor | src/components/SmsTemplatesPage.tsx:24-33 | The page starts with an empty list, no edit and type `issue` |
| SmsTemplates.SmsTemplatesPage.Load | src/components/SmsTemplatesPage.tsx:39-54 | The list is the table, or empty with the error when the read fails |
| SmsTemplates.SmsTemplatesPage.StartEdit | src/components/SmsTemplatesPage.tsx:172 | Editing starts on that template's id and content |
| SmsTemplates.SmsTemplatesPage.CancelEdit | src/components/SmsTemplatesPage.tsx:163 | Editing stops and the text is cleared |
| SmsTemplates.SmsTemplatesPage.SetDefault | src/components/SmsTemplatesPage.tsx:56-67 | The table becomes `WithDefault`. A valid table stays valid when the id is of that type. The page reloads |
| SmsTemplates.SmsTemplatesPage.SaveContent | src/components/SmsTemplatesPage.tsx:69-81 | Nothing happens without a template being edited. Otherwise the content is stored, editing stops and the page reloads. Validity is kept |
| SmsTemplates.SmsTemplatesPage.AddTemplate | src/components/SmsTemplatesPage.tsx:83-101 | Nothing happens while the trimmed name or content is empty. Otherwise the new template is appended and the inputs cleared. Validity is kept when the list shows the table |
| CompletedList.FilterAppend | src/components/CompletedListPage.tsx:59-69 | The filters keep order: filtering a concatenation filters its parts in turn |
| CompletedList.BaseFiltered | src/components/CompletedListPage.tsx:59-62 | The ALL tab or the ALL filter keeps every row. Otherwise a row is kept exactly when its verified or issued branch is the filter |
| CompletedList.Includes | src/components/CompletedListPage.tsx:69 | `includes` holds exactly when the query occurs as a contiguous part |
| CompletedList.Filtered | src/components/CompletedListPage.tsx:64-69 | A query without digits keeps every row. Otherwise a row is kept exactly when its phone's digits contain the query's digits |
| CompletedList.MaxPage | src/components/CompletedListPage.tsx:72 | The number of pages is the least page count of 15 rows that holds all rows, and at least 1 |
| CompletedList.Visible | src/components/CompletedListPage.tsx:73 | The visible rows are the prefix of length min(n, page·15) |
| CompletedList.VisiblePaging | src/components/CompletedListPage.tsx:71-73 | From the last page on, all rows show. Each page's rows start the next page's, and pages before the last are full |
| CompletedList.StatusLabel | src/components/CompletedListPage.tsx:75-86 | ISSUED, VERIFIED and VOID get their labels. Any other status shows as it is |
| CompletedList.FormatPhone | src/components/CompletedListPage.tsx:88-107 | A missing phone shows "-". Fewer than 4 digits show the phone unchanged. The full format shows 11 digits as 3-4-4, 10 digits as 3-3-4, and other lengths as plain digits. The masked format is as in the verification panel |
| CompletedList.FullFormatKeepsDigits | src/components/CompletedListPage.tsx:92-101 | Removing the dashes from the full format gives back the digits |
| CompletedList.MaskedFormatMatchesInlineMask | src/components/CompletedListPage.tsx:102-106 | With 4 or more digits, the list's masked phone equals the verification panel's |
| SendCouponSms.ToKoreanPhone | supabase/functions/send-coupon-sms/index.ts:14-20 | The result is all digits. `82` with 11 or more digits: drop the 82. Leading `0`: unchanged. Other inputs with 9 or more digits: `0` plus the digits without a leading 82. Shorter inputs: the digits |
| SendCouponSms.KoreanPhoneReadsDigitsOnly | supabase/functions/send-coupon-sms/index.ts:15 | Only the digits of the input matter |
| SendCouponSms.DomesticFormIsStable | supabase/functions/send-coupon-sms/index.ts:17 | A domestic number is sent as it is. Converting a result with a leading 0 again changes nothing |
| SendCouponSms.CountryCodeBranchAddsNoZero | supabase/functions/send-coupon-sms/index.ts:16 | `82` followed by nine or more digits gives exactly those digits; no 0 is added |
| SendCouponSms.ReplaceAll | supabase/functions/send-coupon-sms/index.ts:25 | The global replace. Its properties are the lemmas `ReplaceAllAbsent`, `ReplaceAllSplit` and `ReplacesEveryOccurrence` |
| SendCouponSms.ReplaceAllAbsent | supabase/functions/send-coupon-sms/index.ts:25 | A text without the token is unchanged by the global replace |
| SendCouponSms.ReplaceAllSplit | supabase/functions/send-coupon-sms/index.ts:25 | The global replace distributes over a concatenation that no occurrence crosses |
| SendCouponSms.PlaceholdersDoNotOverlap | supabase/functions/send-coupon-sms/index.ts:25 | Two occurrences of `{{k}}` never overlap |
| SendCouponSms.ReplacesEveryOccurrence | supabase/functions/send-coupon-sms/index.ts:23-26 | Every occurrence of `{{k}}` is replaced by its value, wherever it stands |
| SendCouponSms.TokenLength | supabase/functions/send-coupon-sms/index.ts:27 | At the front of a text, a leftover token is exactly `{{`, one or more characters other than `}`, then `}}` (`TokenAt`). It is the only such token there, and none is found when the text does not start with one |
| SendCouponSms.StripPlaceholders | supabase/functions/send-coupon-sms/index.ts:27 | Removing leftover tokens never lengthens the text |
| SendCouponSms.StripWithoutBraces | supabase/functions/send-coupon-sms/index.ts:27 | Stripping leftover tokens leaves a text without `{{` unchanged |
| SendCouponSms.StripDropsToken | supabase/functions/send-coupon-sms/index.ts:27 | A leftover `{{name}}` at the front of the text is removed |
| SendCouponSms.StripPrefix | supabase/functions/send-coupon-sms/index.ts:27 | A prefix without `{{`, not ending in `{` where the rest starts with `{`, is kept as it is |
| SendCouponSms.StripDropsTokenAnywhere | supabase/functions/send-coupon-sms/index.ts:27 | A leftover `{{name}}` after such a prefix is removed and the text around it kept |
| SendCouponSms.SubstituteResult | supabase/functions/send-coupon-sms/index.ts:22-28 | Each variable's global replace in order, then leftover tokens removed. `Substitute` is proved equal to it |
| SendCouponSms.Substitute | supabase/functions/send-coupon-sms/index.ts:22-28 | The loop's result is `SubstituteResult`: each variable substituted in order, then leftover tokens removed |
| SendCouponSms.TemplateWithoutPlaceholders | supabase/functions/send-coupon-sms/index.ts:22-28 | A template with no `{{` is returned unchanged |
| SendCouponSms.SingleVariable | supabase/functions/send-coupon-sms/index.ts:24-26 | Substituting one variable puts its value where its token stood |
| SendCouponSms.SmsType | supabase/functions/send-coupon-sms/index.ts:66 | The type is the body's when it is non-empty, else `issue` |
| SendCouponSms.DefaultsOf | supabase/functions/send-coupon-sms/index.ts:82-87 | Holds exactly the default templates of the type |
| SendCouponSms.OneDefaultPerType | supabase/functions/send-coupon-sms/index.ts:82-87 | With one default per type, at most one row matches the query |
| SendCouponSms.LookupDefault | supabase/functions/send-coupon-sms/index.ts:82-89 | A found content is that of a default template of the type. No template means no default of the type exists |
| SendCouponSms.SoleDefaultFound | supabase/functions/send-coupon-sms/index.ts:82-94 | Under one default per type, the query finds exactly the default template's content |
| SendCouponSms.Vars | supabase/functions/send-coupon-sms/index.ts:96-104 | The seven variables, in the handler's order, all with valid names |
| SendCouponSms.Handle | supabase/functions/send-coupon-sms/index.ts:55-139 | OPTIONS gets the bare CORS answer, and only OPTIONS does. Success comes only from a posted message the gateway accepted, with status 200 |
| SendCouponSms.HandlerStatusOrder | supabase/functions/send-coupon-sms/index.ts:70-135 | The statuses come in this order: missing phone or code 400; database settings 503; no usable template 400; gateway secrets 503. A message is posted exactly when all four pass. Then 200 exactly on a gateway ok, 502 exactly on a refusal |
| SendCouponSms.SentMessageShape | supabase/functions/send-coupon-sms/index.ts:96-125 | A posted message goes to the converted phone, from the sender's digits. It carries the type's default template with the variables substituted |
| SendCouponSms.TemplateCheck | supabase/functions/send-coupon-sms/index.ts:82-94 | Under one default per type, a non-empty default is always found. Two defaults of a type make the query fail |

## Left out

- Network, Supabase client and gateway calls are replaced by the `Store` class, the template table, fault parameters and the `Upstream` outcome. Error messages are modelled as "error or ok". Only the coupon insert and the redeem update take a backend fault.
- CouponStore.Store.RecordFailedAttempt and CouponStore.Store.LogEvent always succeed. The code does not read the error of the attempt-count update (src/components/CouponVerifyPanel.tsx:135-143) or of the `coupon_events` insert (src/components/CouponVerifyPanel.tsx:99-104), so the panel's flow is the same either way. A failed write would leave the row or the log unchanged, which the model does not capture.
- A failed coupon read in `verify` is modelled as not-found: the code reports the read error's message, and a missing row is a read error (src/components/CouponVerifyPanel.tsx:124-125).
- Busy flags, the disabled state of buttons (src/components/CouponVerifyPanel.tsx:273) and all JSX rendering are left out. A call to `Verify` models the button being pressed in any state.
- The render-time memo of the lock (src/components/CouponVerifyPanel.tsx:59) is left out: `Verify` checks the lock at its own `now`. The memo depends only on the code and the branch, so in the code the lock set by a fifth failure does not block a sixth attempt on the same panel until one of them changes. The model's `Verify` rejects that attempt.
- Concurrency is left out. This covers the unguarded read-modify-write of the attempt count and the two-step `setDefault`. The lost race between two devices is shown by running the steps one after the other (`CouponVerify.LostRace`).
- `verify_attempt_count ?? 0` is not modelled: the count is a `nat` that is always set.
- `issued_at` is a database default, modelled as the `now` of the insert.
- The list's load query (order by `issued_at` descending with limit 200) and the templates page's ordering of its load are not modelled. Both lists are taken as given.
- `buildSolapiAuth` (supabase/functions/send-coupon-sms/index.ts:30-53) is left out: it is HMAC-SHA256 over the clock and random bytes. Reading the code (not running it), it uses `await` inside a function not declared `async` (lines 30, 37, 44), which is a syntax error in an ES module.
- SendCouponSms.Substitute: the value is inserted literally; the `$&`, `$1` and similar patterns of `String.prototype.replace` are not modelled.
- SendCouponSms.ValidName: a variable name is assumed free of `{`, `}` and `\`, which holds for the seven names the handler uses. Names with regular-expression metacharacters are not modelled.
- SendCouponSms.Handle: JSON values other than strings in the body are not modelled, nor is the error payload of a gateway refusal.
- JsBuiltins.ParseInt: `Number` is modelled on optional-minus decimal integers only; other numeric forms (`1e3`, ` 12`, `0x10`) read as not a number.
- CouponUtils.ToUpperAscii: upper-casing is modelled over ASCII; the Unicode behaviour of `toUpperCase` is not.
- The write errors of `setDefault`, `saveContent` and `addTemplate` are left out: the client returns them instead of throwing, and the code does not look at them (src/components/SmsTemplatesPage.tsx:60-61, 74, 88-96). `TemplateTable.Insert` always appends, so the model does not capture that a refused insert in `addTemplate` still clears the name and content and reloads.
- CouponScanPanel, App, LoginPanel and CouponManagerPage are not part of this model; they cover the camera, authentication and view routing. The scanner's normalise-then-log logic is covered by `NormalizeCouponCode` and `LogEvent`.
- Plain input setters on the panels that store the raw value (phone, discount, headcount, template name and content fields) have no member; the fields are set directly.
- The list's page state is not modelled as a class. `Visible` takes the page as a parameter (the page is reset to 1 when the phone query changes). The reset button sets the page to 1 without clearing the query (src/components/CompletedListPage.tsx:156-164).

The code shows success without reading the affected row count (src/components/CouponVerifyPanel.tsx:152-166), so a device that loses the race also reports success: see `CouponVerify.VerifyPanel.FinishVerification` and `CouponVerify.LostRace`.
