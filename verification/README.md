# PyAuthorize `PaymentProcessor`, modelled in Dafny

PyAuthorize is a small client for the Authorize.net AIM gateway. This project
models the logic of its `PaymentProcessor` class:

- the eight field validators (`_transaction`, `_address`, `_zip`,
  `_card_num_last_four`, `_card_num`, `_card_code`, `_exp_date`, `_amount`);
- the transaction builders (`_auth`, `auth_only`, `auth_and_capture`,
  `prior_auth_capture`, `void`, `credit`), which fill the processor's
  `transaction_data` map;
- `process_void_or_credit`, with the gateway round trip as a boolean oracle;
- the pure half of `process()`: splitting the gateway's `|`-delimited reply
  and reading it by position.

Layout, one module per file:

| file | module | what it holds |
|---|---|---|
| `wrappers.dfy` | `Wrappers` | `Option` and `Result` |
| `ascii.dfy` | `Ascii` | digit, whitespace and lower-casing over ASCII |
| `regex.dfy` | `Regex` | the fragment of Python's `re` syntax the validators use, a matcher, and closed forms for class repetitions |
| `float_syntax.dfy` | `FloatSyntax` | the strings Python 2's `float()` accepts, as a grammar |
| `float_scan.dfy` | `FloatScan` | `float()` run as CPython runs it (skip whitespace, `strtod`'s longest prefix, skip whitespace, end of string), and the proof that it accepts exactly the grammar |
| `validators.dfy` | `Validators` | each validator's pattern written token by token, its language stated directly, and the proof that the two agree |
| `processor.dfy` | `Processor` | processor fields, the keys of `transaction_data`, and fail-fast runs of assignments |
| `transactions.dfy` | `Transactions` | `_auth`, the five builders and `process_void_or_credit` |
| `session.dfy` | `Session` | what the never-cleared map can hold after any sequence of builder calls |
| `gateway.dfy` | `Gateway` | reply splitting and positional reading in `process()` |
| `scenarios.dfy` | `Scenarios` | the concrete cases of the repository's test suite, stated against the model |

Each builder is a function from the processor's fields and the current map
to the map it leaves behind together with the `ValueError` it raised, if any.
A builder is a sequence of statements `transaction_data[key] = validator()`.
When a validator raises, the sequence stops before writing that key, and the
assignments already made stay in the map. The map is created once, in
`__init__` (`pyauthorize.py:79`), and is never cleared, so every builder call
starts from whatever earlier calls left.

The model reproduces the code's quirks as written:

- `prior_auth_capture` writes the bare key `amount`, never `x_amount`. It
  stores Python's `None` there when no amount is set (`pyauthorize.py:106-109`).
  `Scenarios.PriorCaptureWithoutAmount` shows `None` stored under `amount`
  and `x_amount` absent, the one thing
  `build/lib/pyauthorize_test.py:463-469` checks.
- `prior_auth_capture`, `void` and `credit` write `x_type` before validating
  anything. `auth_only` and `auth_and_capture` write it only after `_auth`
  returns.
- The four-digit-year branch of the expiry pattern contains the class
  `[0-o{1}]`. That class is the range `'0'`..`'o'` plus the characters `{`,
  `1` and `}`, so the month's second character may be a letter.
  `Scenarios.ExpDateLetterMonth` shows `0A2012` accepted and `0A12` refused.
- Stale keys survive. After a successful `auth_only`, a `prior_auth_capture`
  on the same object still carries the old `x_amount` and `x_card_num`
  (`Scenarios.PriorCaptureAfterAuthKeepsStaleAmount`).

Notes on the test suite (`build/lib/pyauthorize_test.py`):

- The tests at lines 228-267 call `_card_num_or_last_four`, which the class
  does not define. The model has the method the class does define,
  `_card_num_last_four`. The lengths those tests expect (4 and 13 to 16) are
  exactly what it accepts (`Scenarios.CardNumLastFourLengths`).
- The tests at lines 107, 137, 144 and 547 assign the bad value to the test
  object instead of the processor, so they do not exercise the format errors
  they name. The scenarios state those cases against the validator directly.

## Model

| member | source | states |
|---|---|---|
| Regex.RepeatClass | pyauthorize.py:187 | `c{m,n}` for a character class `c` matches a slice exactly when the slice has `m` to `n` characters, all in the class |
| Regex.PlusClass | pyauthorize.py:177 | `c+` for a character class matches a slice exactly when it is non-empty and every character is in the class |
| Regex.OnceThen | pyauthorize.py:231-232 | `c{1}` followed by `b` matches exactly when the first character is in the class and `b` matches the rest |
| Regex.OptionalThen | pyauthorize.py:231-232 | `c{0,1}` followed by `b` matches exactly when `b` matches the whole slice, or one class member is followed by a match of `b` |
| Regex.ClassThen | pyauthorize.py:232 | a bare class followed by `b` consumes exactly one class member, then `b` matches the rest |
| FloatSyntax.IsFloatLiteral | pyauthorize.py:247 | the reference definition of what `float()` accepts: surrounding whitespace stripped, an optional sign, then a decimal literal (digits with at most one `.`, at least one digit, an optional exponent) or `inf`, `infinity`, `nan` in any case |
| FloatScan.AcceptsIffFloatLiteral | pyauthorize.py:247 | for every string, `float()` as CPython runs it (leading whitespace, the longest prefix `strtod` converts, trailing whitespace, end of string) accepts exactly the grammar's float literals |
| FloatScan.AcceptsSound | pyauthorize.py:247 | every string the `float()` scanner accepts is a float literal of the grammar |
| FloatScan.AcceptsComplete | pyauthorize.py:247 | every float literal of the grammar is accepted by the `float()` scanner |
| FloatScan.DecimalSound | pyauthorize.py:247 | whatever `strtod` reads as a decimal number (digits, an optional point and digits, at least one digit, an optional exponent with digits) is a decimal literal of the grammar |
| FloatScan.DecimalComplete | pyauthorize.py:247 | a decimal literal followed by whitespace or the end of the string is read whole by `strtod` |
| FloatScan.InfNanComplete | pyauthorize.py:247 | `inf`, `infinity` or `nan` in any letter case, followed by whitespace or the end, is read whole |
| FloatSyntax.PointAt | pyauthorize.py:247 | `float()` accepts digits, one `.` at a position after at least one digit, then digits |
| FloatSyntax.PointDecimal | pyauthorize.py:247 | `float()` accepts every `a.b` with `a` a non-empty digit string and `b` a digit string |
| FloatSyntax.Digits | pyauthorize.py:247 | `float()` accepts every non-empty digit string |
| FloatSyntax.DecimalChars | pyauthorize.py:247 | a decimal literal contains only digits, `.`, `e`, `E`, `+` and `-` |
| FloatSyntax.NotFloatLiteral | pyauthorize.py:247 | `float()` refuses a string with no surrounding whitespace or leading sign that contains a character no decimal literal has and is not the length of `inf`, `nan` or `infinity` |
| Validators.ValidateTransaction | pyauthorize.py:173-181 | unset or empty raises "required"; otherwise returns the value unchanged exactly when it is one or more ASCII digits, else raises "invalid" with the value |
| Validators.ValidateAddress | pyauthorize.py:183-190 | unset or empty raises "required"; otherwise returns the value exactly when it has 1 to 60 characters from `[A-Za-z0-9_. ]`, else raises "invalid" |
| Validators.ValidateZip | pyauthorize.py:192-199 | unset or empty raises "required"; otherwise returns the value exactly when it is 5 or 9 ASCII digits, else raises "invalid" |
| Validators.ValidateCardNumLastFour | pyauthorize.py:201-209 | unset or empty raises "required" naming the card number; otherwise returns the value exactly when it is 4 or 13 to 16 ASCII digits, else raises "invalid" naming the last four |
| Validators.ValidateCardNum | pyauthorize.py:211-218 | unset or empty raises "required"; otherwise returns the value exactly when it is 13 to 16 ASCII digits, else raises "invalid" |
| Validators.ValidateCardCode | pyauthorize.py:220-227 | unset or empty raises "required"; otherwise returns the value exactly when it is 3 or 4 ASCII digits, else raises "invalid" |
| Validators.ValidateExpDate | pyauthorize.py:229-238 | unset or empty raises "required"; otherwise returns the value exactly when it is a short date (`[01]`, a digit, an optional `-` or `/`, two digits) or a long date (`[01]`, a `[0-o{1}]` character, an optional separator, `20`, two digits), else raises "invalid" |
| Validators.ValidateAmount | pyauthorize.py:240-249 | unset or empty raises "required"; a set value is passed to the `float()` scanner and returned unchanged (never converted to a number) exactly when it is a float literal of the `FloatSyntax.IsFloatLiteral` grammar, else raises "invalid" with the value |
| Validators.AmountAcceptsDecimal | pyauthorize.py:240-249 | every non-empty digit string `a`, and every `a.b` with `b` a digit string, is an amount returned as written |
| Validators.TransactionLanguage | pyauthorize.py:177 | the pattern `^\d+$` matches exactly the non-empty ASCII digit strings |
| Validators.AddressLanguage | pyauthorize.py:187 | the pattern `^[\w. ]{1,60}$` matches exactly the strings of 1 to 60 characters from `[A-Za-z0-9_. ]` |
| Validators.ZipLanguage | pyauthorize.py:196 | the zip pattern (five digits, or nine digits) matches exactly the digit strings of length 5 or 9 |
| Validators.CardNumLastFourLanguage | pyauthorize.py:205 | the last-four pattern (four digits, or 13 to 16 digits) matches exactly the digit strings of length 4 or 13 to 16 |
| Validators.CardNumLanguage | pyauthorize.py:215 | the pattern `^\d{13,16}$` matches exactly the digit strings of length 13 to 16 |
| Validators.CardCodeLanguage | pyauthorize.py:224 | the pattern `^\d{3,4}$` matches exactly the digit strings of length 3 or 4 |
| Validators.ExpDateLanguage | pyauthorize.py:231-235 | the expiry pattern matches exactly the short and the long dates |
| Validators.ShortExpDateLanguage | pyauthorize.py:231 | the two-digit-year branch matches exactly `[01]`, a digit, an optional `-` or `/`, and two digits |
| Validators.LongExpDateLanguage | pyauthorize.py:232 | the four-digit-year branch matches exactly `[01]`, a character from `'0'`..`'o'` or `{` or `}`, an optional separator, `20` and two digits |
| Validators.LongMonthUnitsClass | pyauthorize.py:232 | the class `[0-o{1}]` holds exactly the characters `'0'`..`'o'`, `{` and `}` |
| Validators.SeparatorClass | pyauthorize.py:231-232 | the class `[-/]` holds exactly `-` and `/` |
| Processor.WireNameInjective | pyauthorize.py:92-123 | distinct keys of the model have distinct wire names, so the map over keys is a map over the source's string keys |
| Processor.RunFailFast | pyauthorize.py:254-263 | a run of assignments raises the error of the first failing validator; every earlier assignment holds its validated value; no other key changes |
| Processor.RunAllPass | pyauthorize.py:254-263 | when no validator raises, the run succeeds having added exactly the assignments' keys, each with its value, and nothing else changes |
| Transactions.AuthStepsKeys | pyauthorize.py:254-263 | `_auth` assigns distinct keys: card number, expiry and amount always, address and zip when AVS is required, card code when CCV is required |
| Transactions.AuthStepsValid | pyauthorize.py:254-263 | no validated assignment of `_auth` raises exactly when every field the flags require is valid |
| Transactions.AuthSucceedsIff | pyauthorize.py:251-278 | `_auth` raises nothing exactly when every field the flags require is valid |
| Transactions.AuthWrites | pyauthorize.py:251-278 | a successful `_auth` adds exactly the validated keys plus the keys of the set metadata fields, each holding its field's value verbatim, and changes nothing else |
| Transactions.AuthFails | pyauthorize.py:254-263 | a failing `_auth` raises the first failing validator's error, keeps every earlier validated assignment, and changes no other key |
| Transactions.AuthFrame | pyauthorize.py:251-278 | whether it succeeds or raises, `_auth` leaves every key outside its own keys as it was |
| Transactions.CopyMetadataEffect | pyauthorize.py:265-278 | the metadata copies add exactly the keys of the non-empty metadata fields, each with its field's value, and change nothing else |
| Transactions.TypedAuthEffect | pyauthorize.py:88-98 | `_auth` followed by setting `x_type`: success exactly when `_auth`'s fields are valid, and then `_auth`'s keys plus `x_type` hold the right values; on failure the result is `_auth`'s own and `x_type` is untouched |
| Transactions.AuthOnly | pyauthorize.py:88-92 | succeeds exactly when `_auth`'s fields are valid, then holds `x_type = AUTH_ONLY` and everything `_auth` writes; on failure equals `_auth`'s result with `x_type` untouched; keys outside `_auth`'s and `x_type` never change |
| Transactions.AuthAndCapture | pyauthorize.py:94-98 | as `AuthOnly`, with `x_type = AUTH_CAPTURE` |
| Transactions.VoidWith | pyauthorize.py:111-115 | `x_type = VOID` always; success exactly when the id validator returned a value, which is then stored under `x_trans_id`; on failure `x_trans_id` is untouched; no other key changes |
| Transactions.Void | pyauthorize.py:111-115 | `x_type = VOID` always; success exactly when the transaction id is valid, and then `x_trans_id` holds it; otherwise the id's error and `x_trans_id` untouched; no other key changes |
| Transactions.PriorCaptureWith | pyauthorize.py:100-109 | `x_type = PRIOR_AUTH_CAPTURE` always; the id's error first, then the amount's; on success `amount` holds the validated amount or `None`; no other key changes |
| Transactions.PriorAuthCapture | pyauthorize.py:100-109 | `x_type = PRIOR_AUTH_CAPTURE` always; success exactly when the id is valid and the amount is unset or a float literal; on success `amount` holds the amount, or `None` when unset; `x_amount` and every other key are never written |
| Transactions.CreditWith | pyauthorize.py:117-123 | `x_type = CREDIT` always; success exactly when all three validators returned a value; the error is the first failing one's; each of `x_trans_id`, `x_card_num` and `x_amount` holds its value when it and every earlier validator returned one, and otherwise keeps its earlier entry or absence; no other key changes |
| Transactions.Credit | pyauthorize.py:117-123 | `x_type = CREDIT` always; success exactly when the id, the full card number and the amount are valid; otherwise the error of the first invalid one in that order; a valid id is written even when a later field fails, a valid card number is written when the id is valid too, and a field at or after the first failure keeps its earlier entry or absence; no other key changes |
| Transactions.ProcessVoidOrCredit | pyauthorize.py:125-137 | an invalid id propagates the void's error; an accepted void returns `(True, "Void")` without building a credit; a refused void builds a credit over the void's map, propagates its error, or returns the gateway's verdict with `"Credit"`; the reported kind matches `x_type` |
| Session.RunPreserves | pyauthorize.py:254-263 | a run of assignments whose values passed their validators keeps every map entry valid for its key, however far it gets |
| Session.AuthPreserves | pyauthorize.py:251-278 | `_auth` keeps every map entry valid for its key, whether it succeeds or raises |
| Session.TypedAuthPreserves | pyauthorize.py:88-98 | `auth_only` and `auth_and_capture` keep every map entry valid |
| Session.VoidPreserves | pyauthorize.py:111-115 | `void` keeps every map entry valid |
| Session.PriorAuthCapturePreserves | pyauthorize.py:100-109 | `prior_auth_capture` keeps every map entry valid, `None` under `amount` included |
| Session.CreditPreserves | pyauthorize.py:117-123 | `credit` keeps every map entry valid |
| Session.ProcessVoidOrCreditPreserves | pyauthorize.py:125-137 | `process_void_or_credit` keeps every map entry valid, whatever the gateway answers |
| Session.PerformPreserves | pyauthorize.py:88-123 | every builder call keeps every map entry valid |
| Session.PerformKeepsKeys | pyauthorize.py:88-123 | no builder call removes a key, even when it raises |
| Session.ReplayWellFormed | pyauthorize.py:79-123 | after any sequence of builder calls on one object, starting from a well-formed map, validated keys hold values their validator accepts, `x_type` holds a builder's type name, metadata keys hold non-empty strings, `amount` holds an accepted amount or `None`, and every earlier key is still present |
| Session.FreshSessionWellFormed | pyauthorize.py:79 | starting from the empty map of `__init__`, after any sequence of builder calls the validated keys hold values their validator accepts, `x_type` holds a builder's type name and metadata keys hold non-empty strings |
| Gateway.Split | pyauthorize.py:157-158 | the reply splits into at least one piece, none containing the delimiter |
| Gateway.SplitJoin | pyauthorize.py:157-158 | joining the pieces with the delimiter gives back the reply |
| Gateway.JoinSplit | pyauthorize.py:157-158 | splitting a join of delimiter-free pieces gives back the pieces |
| Gateway.FirstMissing | pyauthorize.py:160-166 | the first position `process()` reads that a short reply lacks |
| Gateway.ParseResponse | pyauthorize.py:160-166 | a reply is read exactly when it has more than 39 fields, and then fields 0, 2-6 and 39 fill the response; otherwise reading raises at a position it reads that the reply lacks, the first such position in reading order |
| Gateway.Processed | pyauthorize.py:168-171 | the transaction is processed exactly when field 0 is `1`; a reply too short to read raises |
| Gateway.ParseJoined | pyauthorize.py:157-171 | a reply assembled from 40 or more delimiter-free fields is read back field by field, and is processed exactly when its first field is `1` |
| Scenarios.TransactionVectors | build/lib/pyauthorize_test.py:57-83 | `123123` passes; unset, `389fejk90` and `238932409432&893209` refuse |
| Scenarios.AddressVectors | build/lib/pyauthorize_test.py:89-108 | the sample street address passes; unset and `*` refuse |
| Scenarios.ZipAccepts | build/lib/pyauthorize_test.py:114-125 | `60654` and `606541234` pass |
| Scenarios.ZipRefuses | build/lib/pyauthorize_test.py:127-145 | unset, `a1234` and `123456` refuse |
| Scenarios.CardNumLastFourVectors | build/lib/pyauthorize_test.py:151-178 | `7890` and a full card number pass; `76%8`, `123456` and unset refuse |
| Scenarios.CardNumLastFourLengths | build/lib/pyauthorize_test.py:251-267 | a run of `n` digits passes exactly when `n` is 4 or 13 to 16 |
| Scenarios.CardNumAccepts | build/lib/pyauthorize_test.py:184-195 | 16 and 15 digit card numbers pass |
| Scenarios.CardNumRefusesLength | build/lib/pyauthorize_test.py:197-222 | unset, 2 digits and 17 digits refuse |
| Scenarios.CardNumRefusesCharacters | build/lib/pyauthorize_test.py:204-209 | a `%` in the number, or letters, refuse |
| Scenarios.CardCodeVectors | build/lib/pyauthorize_test.py:273-304 | `123` and `1234` pass; unset, `12a` and `12345` refuse |
| Scenarios.ShortExpDateAccepts | build/lib/pyauthorize_test.py:310-322 | `0112`, `01/12` and `01-12` pass |
| Scenarios.LongExpDateAccepts | build/lib/pyauthorize_test.py:310-322 | `012012`, `01/2012` and `01-2012` pass |
| Scenarios.ExpDateRefuses | build/lib/pyauthorize_test.py:324-336 | unset and `September 2012` refuse |
| Scenarios.ExpDateLetterMonth | pyauthorize.py:232 | `0A2012` passes through `[0-o{1}]`; `0A12` refuses |
| Scenarios.AmountAccepts | build/lib/pyauthorize_test.py:342-347 | `12.00` and `1.00` pass unchanged |
| Scenarios.AmountRefusesWords | build/lib/pyauthorize_test.py:355-360 | `12 dollars` refuses |
| Scenarios.AmountRefusesText | build/lib/pyauthorize_test.py:374-381 | `A lot of money` refuses |
| Scenarios.AmountRefusesSpelledOut | build/lib/pyauthorize_test.py:456-461 | `five trillion dollars` refuses |
| Scenarios.AmountRefusesSymbols | build/lib/pyauthorize_test.py:505-513 | `&^#@*()` refuses |
| Scenarios.AuthOnlyWithoutCardNum | build/lib/pyauthorize_test.py:392-399 | `auth_only` with the card number unset or `42` raises at once and leaves the map exactly as it was |
| Scenarios.AuthOnlyWithoutAmount | build/lib/pyauthorize_test.py:374-378 | `auth_only` with no amount raises "required" after writing the card number and expiry, without writing `x_amount` or `x_type` |
| Scenarios.AvsWithoutAddress | build/lib/pyauthorize_test.py:527-535 | with AVS required and no address, `auth_only` raises "required" for the address and writes no zip |
| Scenarios.AvsWithoutZip | build/lib/pyauthorize_test.py:537-539 | with AVS required, a valid address and no zip, `auth_only` raises "required" for the zip after writing the address |
| Scenarios.CcvWithoutCardCode | pyauthorize.py:262-263 | with CCV required and no card code, `auth_and_capture` raises "required" for the card code after writing the card number, and leaves `x_type` alone |
| Scenarios.PriorCaptureWithoutAmount | build/lib/pyauthorize_test.py:463-469 | on a fresh processor, `prior_auth_capture` without an amount succeeds, writes no `x_amount`, and stores `None` under `amount` |
| Scenarios.PriorCaptureAfterAuthKeepsStaleAmount | pyauthorize.py:79-109 | after `auth_only`, `prior_auth_capture` on the same object still holds the earlier `x_amount` and `x_card_num` |
| Scenarios.VoidWithSymbols | build/lib/pyauthorize_test.py:479-485 | `void` with id `&^#@*()` raises "invalid" having already written `x_type = VOID` |
| Scenarios.CreditWithLetterCard | build/lib/pyauthorize_test.py:515-525 | `credit` with card number `IOU` raises "invalid" after writing `x_type`, without writing `x_amount` |
| Scenarios.VoidRefusedCreditAccepted | pyauthorize.py:125-137 | a gateway that refuses voids and accepts credits makes the fallback return `(True, "Credit")` with the credit's fields written |
| Scenarios.VoidAccepted | pyauthorize.py:125-137 | a gateway that accepts the void gets `(True, "Void")`, and no credit field is written |

## Left out

- The network half of `process()` (`pyauthorize.py:139-156`): URL-encoding the configuration and the map, the POST request and reading the reply. These are I/O and library calls. `process_void_or_credit` takes the whole round trip as a boolean oracle on the map submitted. The parsing of the reply is modelled in `Gateway`.
- Transactions.ProcessVoidOrCredit: the oracle always answers, so a `process()` that raises (a network error, or `IndexError` on a short reply) is not modelled as an exception out of `process_void_or_credit`.
- `process()` also stores the parsed response fields on the processor. `Gateway.ParseResponse` returns them as a record instead.
- The `configuration` dictionary, the credentials, `post_url` and the test-mode flag (`pyauthorize.py:49-63`). These are static settings with no logic.
- `setup.py`: packaging only.
- Python's `$` also matches just before a trailing newline. The model treats `$` as end of string, so a value such as `"12345\n"` that `re.search` would accept is refused.
- `str()` coercion of non-string fields (`pyauthorize.py:196, 205, 215, 224`). Every field is an optional string.
- Python 2 byte strings are modelled as sequences of characters. No encoding is modelled.
- The floating-point value `float()` produces is discarded by `_amount`, and is not modelled. Only the set of strings it accepts is.
- The text of each `ValueError` message. An error is modelled as "required" or "invalid" with the field and the offending value.
- Insertion order of the map, which only affects the order of the URL-encoded request body.

