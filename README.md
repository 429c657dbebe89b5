# Transaction and attachment matching, modelled in Dafny

This project models the matching engine of `src/match.py`. The engine pairs
bank transactions with the receipts and invoices (attachments) that justify
them, in both directions:

- `find_attachment` looks for the best attachment for one transaction;
- `find_transaction` looks for the best transaction for one attachment.

Each lookup works in two passes. The reference pass returns the first
candidate whose normalised reference equals the record's own. The reference
is normalised by deleting all whitespace and then the leading zeros. When no
reference matches, the scoring pass gives every candidate one point for each
of three comparators that holds:

- the amounts are equal up to sign;
- the dates are at most 30 days apart;
- the counterparty names match.

A candidate whose counterparty is known on both sides but does not match is
vetoed. The first candidate with the strictly highest score wins, provided
that score is at least 2.

Modules, in dependency order:

- `Wrappers`: the `Option` type.
- `Text`: the Python string operations the engine uses:
  - `split()` is `Words`, over the characters `str.isspace()` accepts;
  - `"".join` is `Concat`, `" ".join` is `JoinWithSpace`;
  - `lstrip("0")` is `StripLeadingZeros`;
  - `lower()` is `Lower`.
- `Records`: transactions and attachments as records. The keys of a
  transaction and of an attachment's `data` are `Option` fields, with `None`
  standing for a missing key or a `None` value. An attachment's `type` and
  `data` are not optional: they take the defaults of `.get("type", "")` and
  `.get("data", {})`. A missing type acts as not-a-receipt, and a missing
  `data` has every field `None`. The module also holds `COMPANY_NAME` and
  Python truthiness (`Truthy`, `Or`).
- `Calendar`: parsing of `YYYY-MM-DD` dates, and the day number of
  `datetime.date.toordinal`, whose difference is the distance in days.
- `Normalizers`: `normalize_reference`, `get_attachment_date` and
  `get_counterparty_from_attachment`.
- `Comparators`: `amount_matches`, `date_within_range` and
  `company_name_match`.
- `Selector`: both lookups as imperative methods. Each lookup is split into
  its reference pass and its scoring pass, and both lookups share the scoring
  block `ScoreCandidate`. The methods are proved against `Selects`, one
  specification of what a lookup returns. `Selects` is stated over, for each
  candidate:
  - whether its reference matches (the "hits");
  - its comparator outcomes, the `Signals`.
- `Scenarios`: worked examples of the engine's behaviour, proved from the
  general lemmas.

Amounts are integer cents. The source's float comparison
`abs(abs(a) - abs(b)) < 0.01` becomes "the absolute values are equal".

`data.get("due_date") or data.get("invoicing_date")` tests truthiness, so an
empty due date also falls through to the invoicing date
(`Normalizers.GetAttachmentDate`).

## Model

| member | source | states |
|---|---|---|
| Normalizers.NormalizeReference | src/match.py:10-15 | an absent reference stays absent; a present result is non-empty, holds no whitespace and does not start with '0' |
| Normalizers.NormalizeReferenceAbsent | src/match.py:13-15 | a present reference normalises to nothing exactly when it consists only of whitespace and '0' characters |
| Normalizers.NormalizeReferenceBySplit | src/match.py:13-15 | the model equals the source's form: `"".join(s.split())`, then `lstrip("0")`, with the empty result mapped to absent |
| Normalizers.NormalizeReferenceIdempotent | src/match.py:10-15 | normalising a normalised reference changes nothing |
| Normalizers.NormalizeReferenceIgnoresSpace | src/match.py:13 | inserting a whitespace character anywhere in a reference leaves its normal form unchanged |
| Normalizers.NormalizeReferenceIgnoresLeadingZero | src/match.py:14 | a leading '0' does not change the normal form |
| Normalizers.GetAttachmentDate | src/match.py:92-99 | a receipt gives its receiving date; any other type gives its due date when that is truthy, else its invoicing date |
| Normalizers.GetCounterpartyFromAttachment | src/match.py:18-40 | the result is absent, or a non-empty name other than the company's, taken from the supplier, issuer or recipient field |
| Normalizers.FirstCounterparty | src/match.py:22-38 | for an ordered list of fields: absent exactly when no field qualifies; otherwise a qualifying field with no qualifying field before it |
| Normalizers.CounterpartyFollowsPrecedence | src/match.py:18-40 | the extractor returns the first qualifying field in the order: supplier (receipts only), issuer, recipient, supplier |
| Comparators.AmountMatches | src/match.py:85-89 | true exactly when both amounts are present and equal up to sign |
| Comparators.DateWithinRange | src/match.py:72-82 | true only for two present dates that both parse and a window that is not negative; a valid date is always within range of itself |
| Comparators.DateWithinRangeSymmetric | src/match.py:79-80 | swapping the two dates does not change the answer |
| Comparators.DateWithinRangeIsDayDistance | src/match.py:76-80 | for two parseable dates, true exactly when their day numbers differ by at most the window |
| Comparators.NextDayWithinOneDay | src/match.py:79-80 | a date and the next calendar day are within a 1-day window but not within a 0-day window |
| Calendar.ParseDate | src/match.py:77-78 | a successful parse has the `DDDD-DD-DD` shape and yields a real calendar date |
| Calendar.ParseFormatDate | src/match.py:77-78 | every valid date is parsed back from its canonical text |
| Calendar.FormatParseDate | src/match.py:77-78 | a text that parses is exactly the canonical text of its date, so parsing is one-to-one |
| Calendar.OrdinalCountsDays | src/match.py:79 | consecutive calendar days have consecutive day numbers, across month and year ends and leap days |
| Comparators.CompanyNameMatch | src/match.py:42-69 | a missing name never matches; names with equal normal forms always match |
| Comparators.StartsWithWholeWordsEitherWay | src/match.py:52-57 | the shorter/longer prefix test holds exactly when the normal forms are equal or one is a whole-word prefix of the other |
| Comparators.WordSetRule | src/match.py:59-67 | the set test is equivalent to: same last word, and every word of the list with fewer words (the first on a tie) occurs in the other |
| Comparators.WordsOfNormalizedName | src/match.py:46-60 | splitting the normalised name gives the words of the lower-cased name |
| Comparators.NameMatchCharacterization | src/match.py:42-69 | the match holds exactly when the normal forms are equal, one is a whole-word prefix of the other, or the word rule holds |
| Comparators.WordPrefixMatches | src/match.py:52-57 | a name whose normal form is a whole-word prefix of the other's matches it, in both argument orders |
| Comparators.NameMatchIsNotSymmetric | src/match.py:52-66 | the tie rules make the match order-dependent: "a b oy" does not match "b b oy", yet "b b oy" matches "a b oy" |
| Text.ConcatWords | src/match.py:13 | `"".join(s.split())` deletes exactly the whitespace of `s` and keeps the rest in order |
| Text.WordsShape | src/match.py:59-60 | every element of `split()` is non-empty and holds no whitespace |
| Text.WordsOfJoin | src/match.py:46-47 | splitting a space-joined list of whitespace-free non-empty words gives the list back |
| Selector.ScoreCandidate | src/match.py:133-153 | score and match count both equal the number of comparators that hold; the skip condition holds exactly when the candidate is vetoed |
| Selector.ScanStep | src/match.py:155-157 | one loop step keeps the invariant: the kept candidate is the first eligible one with the highest score seen so far |
| Selector.AttachmentByReference | src/match.py:117-122 | returns the first attachment whose normalised reference is present and equal to the transaction's, or reports that there is none |
| Selector.BestAttachment | src/match.py:124-159 | nothing exactly when no attachment is eligible; otherwise the first eligible attachment with the highest score |
| Selector.FindAttachment | src/match.py:102-159 | nothing for an empty list; the first reference match if any; otherwise the best eligible attachment |
| Selector.TransactionByReference | src/match.py:177-181 | returns the first transaction whose normalised reference is present and equal to the attachment's, or reports that there is none |
| Selector.BestTransaction | src/match.py:183-217 | nothing exactly when no transaction is eligible; otherwise the first eligible transaction with the highest score |
| Selector.FindTransaction | src/match.py:162-217 | nothing for an empty list; the first reference match if any; otherwise the best eligible transaction |
| Selector.SelectsFirstHit | src/match.py:117-122 | returning the first reference match satisfies the lookup specification |
| Selector.BestIsUnique | src/match.py:155-159 | at most one candidate is the best, because ties keep the earlier candidate |
| Selector.SelectsIsDeterministic | src/match.py:102-159 | at most one result meets the lookup specification, so it fixes the answer |
| Selector.FirstHitExists | src/match.py:117-122 | a list with some reference match has a first one |
| Selector.MatchBothWays | src/match.py:102-217 | on one transaction and one attachment, each lookup finds the other exactly when the references match or the pair is eligible by score |
| Scenarios.ZerosReferenceExample | src/match.py:13-15 | "000" normalises to nothing |
| Scenarios.PaddedReference | src/match.py:13-15 | whitespace, then zeros, then a non-empty code that holds no whitespace and does not start with '0', normalise to that code |
| Scenarios.PaddedReferenceExample | src/match.py:13-15 | "  007-ABC" normalises to "7-ABC" |
| Scenarios.LeadingZerosReferenceExample | src/match.py:14 | "0042" and "42" have the same normal form |
| Scenarios.AmountExamples | src/match.py:85-89 | 100.00 matches -100.00; 100.00 does not match 100.02 |
| Scenarios.FormattedWithinRange | src/match.py:76-80 | two canonical date texts are within the window exactly when their day numbers differ by at most the window |
| Scenarios.DateInsideWindowExample | src/match.py:72-82 | 2024-01-01 and 2024-01-31 are within 30 days: the bound is inclusive |
| Scenarios.DateOutsideWindowExample | src/match.py:72-82 | 2024-01-01 and 2024-02-01 are 31 days apart, outside the window |
| Scenarios.NameCaseExample | src/match.py:46-50 | "Acme Oy" matches "acme oy" |
| Scenarios.LeadingWordMatches | src/match.py:52-57 | for names that lower-case to words of the letters a to z joined by single spaces: a one-word name matches a three-word name that it begins |
| Scenarios.GluedWordDoesNotMatch | src/match.py:42-69 | for names that lower-case to words of the letters a to z joined by single spaces: a one-word name does not match a two-word name whose first word merely begins with it, when the last word differs from it |
| Scenarios.ExtraMiddleWordMatches | src/match.py:59-67 | for names that lower-case to words of the letters a to z joined by single spaces: a three-word name matches the two-word name without its middle word |
| Scenarios.NamePrefixExample | src/match.py:52-57 | "Acme" matches "Acme Logistics Oy" |
| Scenarios.NameNoWordBoundaryExample | src/match.py:42-69 | "Acme" does not match "AcmeLogistics Oy" |
| Scenarios.NameWordSetExample | src/match.py:59-67 | "Acme Trading Oy" matches "Acme Oy" |
| Scenarios.ReferenceShortCircuitExample | src/match.py:117-122 | a reference match is returned even when a later candidate agrees on amount, date and counterparty |
| Scenarios.CounterpartyVetoExample | src/match.py:151-153 | amount and date agree, but a known counterparty that differs vetoes the candidate |
| Scenarios.ThresholdExample | src/match.py:155-159 | one agreeing signal selects nothing; two, with no counterparty conflict, select the candidate |
| Scenarios.DifferentTwoWordNamesDoNotMatch | src/match.py:42-69 | for names that lower-case to two words of the letters a to z joined by a single space: names whose first letters differ and whose last words differ do not match |
| Scenarios.CounterpartyVetoOnRecords | src/match.py:146-153 | a transaction from "Acme Oy" and an attachment whose counterparty resolves to "Other Corp" are vetoed, whatever their amounts and dates |
| Scenarios.CounterpartyVetoLookup | src/match.py:102-159 | for such a pair without a reference match, `find_attachment` finds nothing |

## Left out

- Date parsing is strict: a four-digit year from 1 to 9999, a two-digit month and a two-digit day. `strptime` also accepts one-digit months and days and some other spellings; those inputs fall on the "no match" side here.
- Amounts are integer cents rather than floats. Values that differ by a fraction of a cent, and floating-point rounding, are not modelled.
- `Text.Lower`: lowercases only the ASCII and Latin-1 capital letters, not the rest of Unicode. The capitals that `str.lower()` maps to several characters are not modelled.
- Records are typed. A field holding a value of the wrong type, where the source would raise `TypeError` or `AttributeError`, cannot be expressed. Neither can an attachment `data` that is not a dictionary.
- An attachment `type` other than "receipt" is `Invoice` or `Other`. The source only distinguishes "receipt" from everything else, so the remaining type strings are not kept.
- The window argument of `date_within_range` is a parameter of `Comparators.DateWithinRange`. The lookups call it with the default of 30 days, as the source does.
- `matches` and `score` in the scoring loop are always equal in the source. Both are kept in `Selector.ScoreCandidate`, and the loop tests them as the source does.
