# typ2anki auto-numbering, modelled in Dafny

typ2anki turns Typst flash cards into Anki notes. Every card carries an
`id: "..."` field. The `auto-number` command fills in ids that are still
placeholders: an empty id, or a bare `YYMMDD` date. It writes them back into
the document text. This project models that pass, from
`typ2anki-rust/src/auto_number.rs`, and proves properties of it:

- `Digits` — the pieces of the Rust standard library the pass uses:
  - ASCII digit predicates;
  - `format!("{}")` and `format!("{:02}")` of integers, including the
    signed form, where the sign counts toward the width;
  - `str::parse::<u8>()`, which accepts a leading `+` and fails on overflow
    above 255.
- `DateId` — three pieces:
  - `is_to_autoid`, the placeholder test;
  - `increment_date_id`, the one-minute step on a `YYMMDDHHmm` id;
  - the `YYMMDDHHmm` stamp formatted from the local time.
- `TextReplace` — `str::replacen(pattern, replacement, 1)`: only the leftmost
  occurrence of a literal pattern is replaced.
- `AutoNumber` — the numbering loop and the bounded conflict loop, in two forms:
  - as functions over a `PassState`, which holds the working text, the cards
    and the previous id: `Step`, `RunUpTo`, `Run`, `Resolve`;
  - as the imperative methods `RunAutoNumber`, `ResolveConflicts` and
    `AutoNumberAt`, each proved equal to those functions.
- `AutoNumberProperties` — what a whole run guarantees.
  - Each card's entry in the card vector is changed only by its own
    iteration. The text is another matter: a rewrite can hit another card's
    field.
  - `prev_id` threads through from card to card.
  - The conflict loop picks the first free successor.
  - Assigned ids are distinct unless some conflict loop settled on an id a
    card still held.
  - No card in memory is left a placeholder. So a second run, given the card
    vector the first run leaves in memory, changes nothing. Cards extracted
    afresh from the rewritten text can differ from that vector, and then a
    second run may rewrite again (`EmptyCardInFrontRerun`).
- `AutoNumberScenarios` — whole runs over small decks with their exact output
  text, including the cases where `replacen` rewrites a field other than the
  card's own.

The function's doc comment (lines 20-22) says the pass either does "previous
minute + 1" or "current time", deduplicated by stepping the minute further.
The code makes that choice as follows, and behaves as follows at the edges:

- A card with an empty id always starts from the stamp (lines 94-95). Only a
  six-digit placeholder continues from the previous id, and only when that
  is ten digits (lines 96-97); otherwise it starts from the stamp too.
- The rewrite replaces the first `id: "<old id>"` in the whole working text.
  For an empty id this can be an earlier card's field: for example a card
  with an empty body, which the loop passes over.
- The hour is never carried into the day. `{:02}` of 100 gives three digits,
  so `..9959` steps to an eleven-character id.
- A field that does not parse as `u8` counts as 0, and `+5` parses as 5.
- `year % 100` truncates toward zero. So a year before the common era that is
  not divisible by 100 gives a stamp with a leading `-`; a year divisible by
  100 gives `00`.

## Model

| member | source | states |
|---|---|---|
| Digits.Decimal | typ2anki-rust/src/auto_number.rs:155 | `format!("{}")` of an unsigned integer is never empty |
| Digits.Format02 | typ2anki-rust/src/auto_number.rs:79 | `{:02}` of an unsigned integer: its decimal form padded with `0` to width two |
| Digits.Format02Digits | typ2anki-rust/src/auto_number.rs:155 | `{:02}` prints at least two digits, and they read back as the number |
| Digits.FormatSigned02 | typ2anki-rust/src/auto_number.rs:79-80 | `{:02}` of a signed integer: a negative value keeps its `-` and is not padded |
| Digits.ParseU8 | typ2anki-rust/src/auto_number.rs:146-147 | `parse::<u8>` succeeds only with values up to 255 |
| Digits.DecimalDigits | typ2anki-rust/src/auto_number.rs:155 | `{}` formatting prints only digits and reads back as the number |
| Digits.Format02Small | typ2anki-rust/src/auto_number.rs:155 | below 100, `{:02}` gives exactly two digits, zero-padded, whose value is the number |
| Digits.ParseTwoCharsBound | typ2anki-rust/src/auto_number.rs:146-147 | a two-character field never parses above 99, so the `u8` additions cannot overflow |
| Digits.ParseTwoDigits | typ2anki-rust/src/auto_number.rs:146-147 | two ASCII digits parse to their value |
| DateId.IsSixDigits | typ2anki-rust/src/auto_number.rs:17 | `^\d{6}$`: exactly six ASCII digits |
| DateId.IsTenDigits | typ2anki-rust/src/auto_number.rs:18 | `^\d{10}$`: exactly ten ASCII digits |
| DateId.IsToAutoId | typ2anki-rust/src/auto_number.rs:135-140 | `is_to_autoid`: the id is empty, or it is six ASCII digits |
| DateId.DatePrefixIsPlaceholder | typ2anki-rust/src/auto_number.rs:135-140 | the `YYMMDD` date part of a stamp is a placeholder, and the ten-digit stamp is not |
| DateId.FieldOr0 | typ2anki-rust/src/auto_number.rs:146-147 | `parse::<u8>().unwrap_or(0)` of a field: the parsed value, always within the `u8` range, or 0 when parsing fails |
| DateId.NextHour | typ2anki-rust/src/auto_number.rs:149-154 | the hour goes up by one exactly when the minute is 59 |
| DateId.NextMinute | typ2anki-rust/src/auto_number.rs:149-154 | minute 59 becomes 0; any other minute goes up by one |
| DateId.YearRem | typ2anki-rust/src/auto_number.rs:80 | `year % 100` with Rust's signed remainder: between -99 and 99, with the sign of the year, and the year minus it a multiple of 100 |
| DateId.LongIdIsNotPlaceholder | typ2anki-rust/src/auto_number.rs:135-140 | an id longer than six characters, such as every assigned id, is never a placeholder |
| DateId.IncrementDateId | typ2anki-rust/src/auto_number.rs:142-156 | an input that is not ten characters long comes back unchanged; a ten-character input gives a result of at least ten characters |
| DateId.IncrementKeepsDate | typ2anki-rust/src/auto_number.rs:155 | the step never changes the `YYMMDD` prefix |
| DateId.IncrementTenDigits | typ2anki-rust/src/auto_number.rs:146-155 | on ten digits that do not widen a field, the result is ten digits with the same prefix. The minute advances, or rolls over to 00 of the next hour, and the numeric value grows by 1, or by 41 on a rollover |
| DateId.IncrementChars | typ2anki-rust/src/auto_number.rs:149-155 | the step spelled out character by character for the next hour and minute |
| DateId.IncrementOfTen | typ2anki-rust/src/auto_number.rs:146-155 | on ten digits the step is the prefix followed by `{:02}` of the next hour and minute |
| DateId.IncrementRolloverExample | typ2anki-rust/src/auto_number.rs:149-151 | `2501011259` steps to `2501011300` |
| DateId.IncrementPastMidnightExample | typ2anki-rust/src/auto_number.rs:149-151 | `2501012359` steps to `2501012400`: no carry into the day |
| DateId.IncrementMinuteExample | typ2anki-rust/src/auto_number.rs:152-153 | `2506011430` steps to `2506011431` |
| DateId.UnparsedHourIsZero | typ2anki-rust/src/auto_number.rs:146 | an hour field that does not parse behaves as `00` |
| DateId.UnparsedMinuteIsZero | typ2anki-rust/src/auto_number.rs:147 | a minute field that does not parse behaves as `00` |
| DateId.PlusSignExample | typ2anki-rust/src/auto_number.rs:146-155 | `250101+5+9` steps to `2501010510`, because `u8` parsing takes a leading `+` |
| DateId.SignedDigitField | typ2anki-rust/src/auto_number.rs:146-147 | a `+` followed by one digit parses to that digit |
| DateId.WidensAtHourHundredExample | typ2anki-rust/src/auto_number.rs:149-155 | `2501019959` steps to the eleven-character `25010110000` |
| DateId.FormatStamp | typ2anki-rust/src/auto_number.rs:76-86 | the stamp is at least ten characters long |
| DateId.StampFields | typ2anki-rust/src/auto_number.rs:76-86 | for a non-negative year the stamp is ten digits whose five two-digit fields read back as year mod 100, month, day, hour and minute |
| DateId.NegativeYearStampIsNotTenDigits | typ2anki-rust/src/auto_number.rs:80 | a year before the common era, not divisible by 100, gives a stamp that is not ten digits |
| DateId.SplitTen | typ2anki-rust/src/auto_number.rs:146-147 | a ten-digit id is its prefix and two fields; its value is their positional sum |
| DateId.Assemble | typ2anki-rust/src/auto_number.rs:155 | a six-digit prefix followed by two `{:02}` fields below 100 is ten digits whose fields read back |
| DateId.DateFields | typ2anki-rust/src/auto_number.rs:79-82 | three `{:02}` fields below 100 make six digits whose fields read back |
| TextReplace.FindFrom | typ2anki-rust/src/auto_number.rs:110-114 | a match found lies within the text, at or after the start of the search |
| TextReplace.ReplaceFirst | typ2anki-rust/src/auto_number.rs:110-114 | `replacen(pattern, replacement, 1)` over the leftmost match found by `FindFrom` |
| TextReplace.FindFromLeftmost | typ2anki-rust/src/auto_number.rs:110-114 | a match found is a real match with none before it; when none is found there is none at all |
| TextReplace.ReplaceFirstNoMatch | typ2anki-rust/src/auto_number.rs:110-114 | a text without the pattern comes back unchanged |
| TextReplace.ReplaceFirstAtLeftmost | typ2anki-rust/src/auto_number.rs:110-114 | exactly the leftmost occurrence is replaced, and the text on either side is kept |
| AutoNumber.Resolve | typ2anki-rust/src/auto_number.rs:102-109 | the conflict loop keeps an id of at least ten characters at ten or more |
| AutoNumber.Eligible | typ2anki-rust/src/auto_number.rs:91 | a card is numbered when its body is non-empty and its id is a placeholder |
| AutoNumber.IdPattern | typ2anki-rust/src/auto_number.rs:111-112 | the literal `id: "<id>"` searched for and written |
| AutoNumber.HeldBy | typ2anki-rust/src/auto_number.rs:103 | some card of the batch currently has exactly this id |
| AutoNumber.Candidate | typ2anki-rust/src/auto_number.rs:93-100 | the first candidate: the stamp for an empty id; for a six-digit id, one minute after a ten-digit previous id, else the stamp |
| AutoNumber.Step | typ2anki-rust/src/auto_number.rs:90-118 | one iteration changes only card `i`, keeps its empty flag, and sets `prev_id` to its id; an ineligible card changes neither the text nor the cards |
| AutoNumber.RunUpTo | typ2anki-rust/src/auto_number.rs:88-119 | the card vector keeps its length |
| AutoNumber.Run | typ2anki-rust/src/auto_number.rs:88-119 | the card vector keeps its length over the whole run |
| AutoNumber.ResolveConflicts | typ2anki-rust/src/auto_number.rs:102-109 | the `for`/`break` loop computes the conflict resolution `Resolve` with the 1000-try bound |
| AutoNumber.RunAutoNumber | typ2anki-rust/src/auto_number.rs:88-119 | the imperative loop yields exactly the text and cards of `Run` |
| AutoNumber.AutoNumberAt | typ2anki-rust/src/auto_number.rs:76-119 | the whole pass gives `Run` with the stamp formatted from the given local time |
| AutoNumberProperties.ResolveFirstFree | typ2anki-rust/src/auto_number.rs:102-109 | the loop returns the first successor no card holds; it returns a held one only when all `tries` steps are taken |
| AutoNumberProperties.Steps | typ2anki-rust/src/auto_number.rs:102-109 | the conflict loop takes at most `tries` steps |
| AutoNumberProperties.ResolveTakesSteps | typ2anki-rust/src/auto_number.rs:102-109 | the loop returns the candidate stepped once per iteration that found a conflict |
| AutoNumberProperties.StepsOverHeld | typ2anki-rust/src/auto_number.rs:103-105 | every id the loop steps over is held by some card |
| AutoNumberProperties.StopsAtFree | typ2anki-rust/src/auto_number.rs:103-107 | unless it used up its tries, the loop stops at an id no card holds |
| AutoNumberProperties.ResolveHeldOnlyWhenExhausted | typ2anki-rust/src/auto_number.rs:102-109 | a returned id still held by a card means every id from the candidate to 1000 steps on is held, and the loop used up its bound |
| AutoNumberProperties.RunFrames | typ2anki-rust/src/auto_number.rs:90-116 | before iteration `n`, later cards are as extracted; earlier cards already have their final ids |
| AutoNumberProperties.SuffixUntouched | typ2anki-rust/src/auto_number.rs:90-116 | the first `n` iterations leave cards `n` onward unchanged |
| AutoNumberProperties.PrefixFrozen | typ2anki-rust/src/auto_number.rs:90-116 | later iterations never change the first `n` cards |
| AutoNumberProperties.CardFrozen | typ2anki-rust/src/auto_number.rs:116 | card `k` keeps its id through every iteration after its own |
| AutoNumberProperties.StepSeesOriginalCard | typ2anki-rust/src/auto_number.rs:91 | iteration `k` tests card `k` exactly as extracted |
| AutoNumberProperties.PrevIdThreads | typ2anki-rust/src/auto_number.rs:118 | after card `n-1`, `prev_id` is that card's id, which is also its final one |
| AutoNumberProperties.NotEligibleUntouched | typ2anki-rust/src/auto_number.rs:91-92 | an ineligible card keeps its id, and its iteration leaves the text alone |
| AutoNumberProperties.NoEligibleNoChange | typ2anki-rust/src/auto_number.rs:90-119 | a batch without an eligible card leaves the text and the cards unchanged |
| AutoNumberProperties.EligibleAssigned | typ2anki-rust/src/auto_number.rs:93-116 | for an eligible card: an empty id starts from the stamp; a six-digit id starts from one minute after a ten-digit previous final id, otherwise from the stamp. Conflicts resolve against the current ids, and the first `id: "<old>"` becomes the new id |
| AutoNumberProperties.AssignedIdIsFree | typ2anki-rust/src/auto_number.rs:102-116 | unless its conflict loop settled on an id some card still held, an assigned id differs from every earlier card's final id and from every ineligible card's id |
| AutoNumberProperties.AssignedIdsDistinct | typ2anki-rust/src/auto_number.rs:102-116 | if no conflict loop settled on an id some card still held, all assigned ids are pairwise distinct |
| AutoNumberProperties.AssignedIsNotPlaceholder | typ2anki-rust/src/auto_number.rs:93-116 | with a stamp of ten or more characters, every assigned id has at least ten characters and is no placeholder |
| AutoNumberProperties.NothingLeftToNumber | typ2anki-rust/src/auto_number.rs:90-118 | after a run, no card of the card vector in memory is eligible any more |
| AutoNumberProperties.SecondRunChangesNothing | typ2anki-rust/src/auto_number.rs:88-119 | running the pass again on its own output, given the card vector the first run leaves in memory and any stamp, changes neither the text nor the ids |
| AutoNumberScenarios.IdPatternShape | typ2anki-rust/src/auto_number.rs:111-112 | the pattern is `id: "`, the id, and `"`, with its characters in place |
| AutoNumberScenarios.NoMatchScan | typ2anki-rust/src/auto_number.rs:110-114 | an id pattern can start only at an `i` |
| AutoNumberScenarios.FirstMatchAfter | typ2anki-rust/src/auto_number.rs:110-114 | when nothing matches before the end of a prefix, the field right after it is the one rewritten |
| AutoNumberScenarios.NoMatchAcross | typ2anki-rust/src/auto_number.rs:110-114 | within plain text around another id field, the only match before its end is that field itself |
| AutoNumberScenarios.ShorterIdMismatch | typ2anki-rust/src/auto_number.rs:110-114 | the pattern of a shorter id does not match at a field holding a longer id |
| AutoNumberScenarios.IncrementDiffers | typ2anki-rust/src/auto_number.rs:142-156 | on ten digits whose minute is at most 58, the step gives ten digits again, a different id, the minute plus one and a value greater by exactly 1 |
| AutoNumberScenarios.FirstFieldRewritten | typ2anki-rust/src/auto_number.rs:110-114 | the first id field in front of plain text is the one rewritten |
| AutoNumberScenarios.SecondFieldRewritten | typ2anki-rust/src/auto_number.rs:110-114 | the rewrite for a shorter id skips a first field holding a longer id |
| AutoNumberScenarios.TwoNewCards | typ2anki-rust/src/auto_number.rs:88-119 | two new cards get the stamp and one minute after it, and each `id: ""` is rewritten once, in order |
| AutoNumberScenarios.NextMinuteIsFree | typ2anki-rust/src/auto_number.rs:102-108 | after the first card takes the stamp, the stamp is held, and one minute after it is free |
| AutoNumberScenarios.TwoNewCardsExample | typ2anki-rust/src/auto_number.rs:76-119 | a two-card deck numbered at 14:30 on 2025-06-01 gets ids `2506011430` and `2506011431` |
| AutoNumberScenarios.EmptyCardInFront | typ2anki-rust/src/auto_number.rs:91-114 | an empty-bodied card is not numbered, but the rewrite for the next new card hits the empty card's `id: ""` first |
| AutoNumberScenarios.EmptyCardInFrontRerun | typ2anki-rust/src/auto_number.rs:88-119 | on that output, re-extracted, a second run at the same minute rewrites the remaining `id: ""` to one minute after the stamp: the pass is not idempotent there |
| AutoNumberScenarios.EmptyCardInFrontRerunSecond | typ2anki-rust/src/auto_number.rs:91-116 | the second card of that rerun skips the field holding the stamp and takes the next minute |
| AutoNumberScenarios.ConflictWithLaterCard | typ2anki-rust/src/auto_number.rs:93-116 | a `YYMMDD` placeholder continues from the previous card's id. It collides with a later card's id, moves one minute further, and the later card is left alone |
| AutoNumberScenarios.TwoMinutesOn | typ2anki-rust/src/auto_number.rs:142-156 | two steps from a stamp with minute at most 57 give ten-digit ids distinct from the stamp and from each other |
| AutoNumberScenarios.ResolvePastHeld | typ2anki-rust/src/auto_number.rs:102-108 | the conflict loop passes over the held id to the next free minute |
| AutoNumberScenarios.ConflictThird | typ2anki-rust/src/auto_number.rs:91-92 | a card that already holds a ten-digit id is passed over |

## Left out

- Reading the file or stdin (lines 124-133), the configuration lookup (lines 26-32), and printing the result (line 120): I/O. The model
  takes the document text as input and returns the rewritten text.
- Extraction of cards from the document (lines 33-74) — the Typst card
  parser, the emptiness test of a card body, and the output manager with its
  `Arc` (lines 39-42, 65-69). These are parsers and presentation outside this
  core. The model takes the extracted cards as a sequence of (id, body is
  empty).
- The wall clock `OffsetDateTime::now_local()` (line 77), and its `unwrap`
  panic when the local offset is unknown. The date and time fields are
  parameters, with the ranges the date-time type guarantees.
- The regexes `^\d{6}$` and `^\d{10}$` (lines 17-18): Unicode `\d` also
  accepts non-ASCII decimal digits. The model accepts only ASCII digits.
- Strings are sequences of characters. Rust slices `s[6..8]` by bytes and
  panics on a cut inside a multi-byte character; the model slices by
  characters and has no such panic.
- The card vector and the working text are modelled as values that the
  imperative loop reassigns, which is how the Rust function owns them. No
  aliasing is involved.
- DateId.IncrementTenDigits: requires a minute of at most 98, and an hour of
  at most 98 on a rollover. Beyond that, `{:02}` widens the field to three
  digits; DateId.WidensAtHourHundredExample states what happens then.
- AutoNumberProperties.AssignedIdsDistinct: assumes that no conflict loop
  settled on an id a card still held. That can happen only after all 1000
  tries, when the source keeps the last candidate even though a card holds
  it. AutoNumberProperties.ResolveHeldOnlyWhenExhausted states that case.
- AutoNumberProperties.SecondRunChangesNothing: the second run is given the
  card vector the first run leaves in memory, not cards extracted afresh
  from the rewritten text, because card extraction is not part of this
  model. The two differ when a rewrite hit another card's field, and then
  the source is not idempotent on its own output:
  AutoNumberScenarios.EmptyCardInFrontRerun shows such a case.
- AutoNumberScenarios: the text around the id fields is assumed not to
  contain the letter `i`. This keeps the proofs of which field `replacen`
  hits short. The general behaviour is stated by TextReplace.ReplaceFirstAtLeftmost.
