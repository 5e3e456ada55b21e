# Flashcard scheduler and deck generation, modelled in Dafny

This project models the core of a flashcard backend. The backend turns an
uploaded PDF into study cards through a language model and schedules card
reviews with the SuperMemo-2 (SM-2) algorithm. The model has two parts:

- **The SM-2 review update** (`Scheduler.Sm2`). It takes a card's repetition
  count, interval, easiness factor and due day, plus an integer grade, and
  returns the card's next scheduling state.
  - A failing grade (below 3) resets the repetition count and sets a one-day
    interval.
  - A passing grade picks the interval from the repetition count held before
    the review: 1 day, then 6 days, then the old interval times the old
    easiness, rounded. It then counts the repetition and adjusts the easiness
    by +0.10, 0.00 or -0.14, never letting it fall below 1.3.
  - In both cases the card falls due `interval` days after the review day.
- **Deck generation** (`Decks.GenerateDeck`). Each question/answer pair the
  language model returns becomes a card seeded with 0 repetitions, interval 0,
  easiness 2.5 and due today. The cards are bundled into a deck that is not
  yet studied, with `total == due == number of cards` and `learned == 0`.
  The deck is appended to the stored deck list.

Files:

- `cards.dfy`, module `Cards`: the card record, its initial state, and the
  `ValidSchedule` invariant. `ValidSchedule` is a shape that includes every
  state a card can reach from a fresh card.
- `scheduler.dfy`, module `Scheduler`: the review update, its lemmas, and
  review histories. It also holds a transcription of the update over exact
  `real` numbers (`SourceSm2`), which is proved equal to the integer model
  for every input.
- `decks.dfy`, module `Decks`: card and deck assembly, the deck name, the
  generation request with its error replies, and unique identifiers.

Units and abstractions:

- The easiness factor is an integer number of hundredths (`ef100`): floor 130,
  start 250. Every value the update can produce is a whole number of
  hundredths, so this is exact. `Sm2MatchesSource` proves it agrees with the
  formula in real arithmetic.
- `Math.round(x)` is `floor(x + 1/2)`, which is JavaScript's rounding (ties
  go up). On hundredths this is `(n + 50) / 100`.
- Days are integer day numbers. The due date computed from "now plus
  `interval` days" is the UTC calendar day `today + interval`. "Today" is a
  parameter of every operation.
- Identifiers come from a counter rather than from random UUIDs. The handler
  mints them in this order: one per card, in pair order, then one for the
  deck. With a counter, "no identifier is reused" becomes a provable
  property (`GenerateDeckKeepsIdsFresh`) instead of an assumption.
- Grades, repetition counts and intervals are unbounded `int`s, because the
  source checks none of them. The update is total over all of them.

Notes on the code in routes/generate.js:

- Cards have no `point` counter, keyword or image field.
- Deck generation does not reject pairs with an empty question or answer.
- A failed read of the deck file (unreadable, not JSON, or not a list)
  yields an empty list. The generation handler then saves that list with
  only the new deck in it (lines 118-134), so every earlier deck in the file
  is lost.
- `sm2` is defined in routes/generate.js but has no caller there. Review
  submission is therefore modelled as the bare update, without a route.

## Model

| member | source | states |
|---|---|---|
| Cards.NewCard | routes/generate.js:108-116 | A new card keeps the given id, question and answer, and starts with 0 repetitions, interval 0, easiness 2.5 and due on the creation day, which is a valid schedule |
| Scheduler.EfDelta | routes/generate.js:57 | The easiness adjustment is +0.10 at grade 5, 0.00 at grade 4 and -0.14 at grade 3 |
| Scheduler.EfDeltaIsSourceFormula | routes/generate.js:57 | For every integer grade, the adjustment in hundredths equals 0.1 - (5 - q) * (0.08 + (5 - q) * 0.02) computed over the reals |
| Scheduler.EfDeltaMonotone | routes/generate.js:57 | On the 0..5 scale, a higher grade never gives a smaller easiness adjustment |
| Scheduler.NextEf | routes/generate.js:55-58 | The new easiness is the maximum of 1.3 and the adjusted value: at least both, and equal to one of them |
| Scheduler.RoundHundredths | routes/generate.js:52 | The rounded value is the integer nearest to the product, with ties going up |
| Scheduler.RoundHundredthsIsRound | routes/generate.js:52 | Rounding in hundredths equals floor(x + 1/2) of the real product, which is what Math.round computes |
| Scheduler.Sm2 | routes/generate.js:45-66 | Failing grade: repetitions 0, interval 1, easiness kept. Passing grade: dispatch on the old repetition count by strict equality (0 gives 1 day, 1 gives 6 days, anything else the rounded product of old interval and old easiness), repetitions plus one, easiness clamped at 1.3. Always: due == today + interval, and id, question and answer are unchanged |
| Scheduler.Round | routes/generate.js:52 | Math.round gives the integer r with r <= x + 1/2 < r + 1 |
| Scheduler.SourceSm2 | routes/generate.js:45-66 | The update transcribed over exact reals: due is today plus the interval; a failing grade gives repetitions 0, interval 1 and the easiness unchanged; a passing grade adds one repetition and leaves the easiness at least 1.3 |
| Scheduler.Sm2MatchesSource | routes/generate.js:45-66 | For every card, grade and day, the integer model gives the same state as the update written over exact reals with the source's branches, constants, Math.max and Math.round |
| Scheduler.Sm2KeepsEfFloor | routes/generate.js:46-58 | If the easiness is at least 1.3 before a review, it still is after the review, for a failing or a passing grade |
| Scheduler.Sm2EfMonotoneInQuality | routes/generate.js:55-58 | Among passing grades 3..5, a better grade never leaves the card with a lower easiness |
| Scheduler.GrowthStep | routes/generate.js:52 | With easiness at least 1.3 and interval at least 6 days, the multiplicative step lengthens the interval by at least 2 days |
| Scheduler.Sm2KeepsValidSchedule | routes/generate.js:45-59 | Every review keeps a card in the valid shape, which includes every reachable state: easiness at least 1.3, interval 0 or 1 before the first success, 1 after one success, exactly 6 after two, at least 6 days from then on |
| Scheduler.SuccessNeverShortensInterval | routes/generate.js:50-52 | On a reachable card a passing review never shortens the interval, and once the card has a success it strictly lengthens it |
| Scheduler.ReviewPushesDueIntoFuture | routes/generate.js:61-63 | After any review of a reachable card, the card is due strictly after the review day |
| Scheduler.IntervalLadder | routes/generate.js:50-54 | From zero repetitions, three passing reviews give intervals 1, 6 and round(6 * easiness after the second review), and repetition counts 1, 2, 3 |
| Scheduler.FailureRestartsLadder | routes/generate.js:46-58 | After a failing review, the next two passing reviews give intervals 1 and 6 again, and only those two reviews change the easiness |
| Scheduler.ReviewScenario | routes/generate.js:45-66 | Worked example on a fresh card: grade 5 gives (1 rep, 1 day, 2.6), then grade 5 gives (2, 6, 2.7), then grade 2 gives (0, 1, 2.7) or grade 5 gives (3, 16, 2.8) |
| Scheduler.ReviewAll | routes/generate.js:45-66 | Any sequence of reviews keeps a card's id and content, keeps a reachable state reachable, and leaves the card due interval days after the last review day, strictly later than that day |
| Scheduler.FailuresKeepEf | routes/generate.js:46-48 | Any run of failing grades leaves the easiness exactly as it was |
| Scheduler.SuccessesCountRepetitions | routes/generate.js:54 | A run of n passing grades adds exactly n to the repetition count |
| Decks.AssembleCards | routes/generate.js:108-116 | One card per pair, in order: card i carries pair i's question and answer, the i-th minted id, and the initial schedule for today |
| Decks.CountDue | routes/generate.js:129 | The due count is at most the number of cards; it is 0 exactly when no card is due and equals the number of cards exactly when every card is due |
| Decks.CountDueAll | routes/generate.js:129 | When every card is due, the due count equals the number of cards |
| Decks.AssembledCardsAreFresh | routes/generate.js:108-116 | Every assembled card copies its pair's content, starts at the initial schedule in a valid state, and all of them count as due on the creation day |
| Decks.StripPdfExtension | routes/generate.js:124 | A name ending in ".pdf" in any letter case loses exactly those four characters; any other name is kept |
| Decks.StripPdfExtensionRoundTrip | routes/generate.js:124 | Stripping a base name with any-case ".pdf" added gives the base back, even when the base itself ends in ".pdf" |
| Decks.DeckName | routes/generate.js:124 | A non-empty requested name is used as given; a missing or empty one falls back to the file name without its ".pdf" |
| Decks.Description | routes/generate.js:125 | The description is "Generated from " followed by the uploaded file's name, unchanged |
| Decks.NewDeck | routes/generate.js:122-131 | A new deck holds the given cards, is not studied, has learned 0, and has total and due equal to the number of cards |
| Decks.AssembleDeck | routes/generate.js:107-131 | The assembled deck has one card per pair with ids in minting order, then the deck's own id; total == due == number of pairs; learned 0; not studied; the request or file name; "Generated from" plus the file name; the counter advances by pairs + 1 |
| Decks.AssembledDeckConsistent | routes/generate.js:126-130 | A freshly assembled deck's total equals its card count and its due count equals the number of its cards due that day |
| Decks.AppendDeck | routes/generate.js:133 | Appending grows the deck list by one, puts the new deck last, and leaves the earlier decks unchanged |
| Decks.GenerateDeck | routes/generate.js:99-137 | An unparsable reply, a non-list reply, or a list with a null entry is rejected, leaving the store and the id counter unchanged; a list of pairs appends the assembled deck to the stored list and returns it |
| Decks.AssembledDeckIds | routes/generate.js:108-123 | The ids of a new deck (cards in order, then the deck) are consecutive counter values starting at the counter |
| Decks.GenerateDeckKeepsIdsFresh | routes/generate.js:107-133 | If the store's ids are pairwise different and all below the counter, then after generation they still are, and the counter never moves back |

## Left out

- Reading and writing the deck file (`loadDecks`, `saveDecks`, routes/generate.js:19-42) is file I/O with JSON. Generation takes the loaded list as a parameter and returns the list to save. In the source, a read error or a non-list payload yields an empty list, and a write error is only logged.
- The `Array.isArray(decks)` else branch (routes/generate.js:138-140) cannot be taken, because `loadDecks` always returns a list. It is not modelled.
- PDF upload and parsing, the prompt text, the language-model call, the temporary-file cleanup and the HTTP reply (routes/generate.js:68-98, 136-144) are external libraries, network and I/O. The model starts from the language model's reply, already parsed or known to be unparsable.
- Decks.GenerateDeck: reply entries are modelled only as pairs of strings or as `null`. A `null` entry (`HasNullEntry`) makes reading `c.question` at line 110 throw, and the request is rejected with the store and counter unchanged. Other entries are not modelled. A non-object entry, or an object without a `question` or `answer` field, gives a card whose field is `undefined`. A field holding a number, list or object is copied into the card unchanged.
- The exact text of the error for a reply that parses but is not a list is not modelled. It is a JavaScript TypeError whose wording depends on the value, so `Decks.Error` carries only the error kind.
- UUID generation is replaced by a counter. The counter stands for a source of identifiers that never repeats.
- ISO date formatting (`toISOString().slice(0, 10)`) and the clock are left out. Days are integers and "today" is a parameter.
- Scheduler.Sm2 and Scheduler.ReviewAll do not model the JavaScript date range. `sm2` does not check that a card is due, so repeated passing reviews grow the interval without bound. With grade 5 every time, the 14th review puts the due date after year 9999, where `toISOString()` gives an expanded year ("+0232...") and `.slice(0, 10)` is no longer a date. At the 16th review, now + interval × 86400000 ms exceeds 8.64e15 ms and `toISOString()` throws a RangeError. The model keeps `due == today + interval` for every interval.
- IEEE-754 floating point: the easiness factor is exact. JavaScript can produce values such as 2.5999999999999996 where the model has 2.6, and a rounding tie in the interval product can then go the other way.
- Grades outside 0..5 are accepted by the model, as by the source. `EfDeltaMonotone` is stated only up to grade 5; the polynomial is not monotone for grades above 7.
- routes/fetchImage.js (image search over HTTP) and server.js (Express wiring) hold no scheduling or deck logic.
- Concurrent requests that each load, change and save the whole deck file can lose updates. The model is sequential.
