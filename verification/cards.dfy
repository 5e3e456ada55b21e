/** The flashcard record that the review scheduler updates and the deck
    builder creates. A card is content (question and answer) plus the
    SuperMemo-2 scheduling state.

    Units used throughout the model:
    - days are integer day numbers, so "today plus n days" is `today + n`;
    - the easiness factor is an integer number of hundredths (`ef100 == 250`
      stands for an easiness of 2.5), which is exact for every value the
      scheduler can produce, because every step it takes is a whole number
      of hundredths;
    - identifiers are natural numbers drawn from a counter (see Decks). */
module Cards {

  type Day = int
  type Id = nat

  /** Easiness factor floor, 1.3, in hundredths. */
  const MinEf: int := 130
  /** Easiness factor of a freshly generated card, 2.5, in hundredths. */
  const InitialEf: int := 250

  /** A card as stored in a deck. `repetitions`, `interval` and `ef100` are
      plain integers because the scheduler reads them back from storage and
      checks none of them; `ValidSchedule` states the shape they keep. */
  datatype Card = Card(
    id: Id,
    question: string,
    answer: string,
    repetitions: int,  // consecutive successful reviews
    interval: int,     // days from the last review to `due`
    ef100: int,        // easiness factor in hundredths
    due: Day           // day on which the card is next due
  )

  /** A shape that includes every scheduling state a card can reach from a
      fresh card through any number of reviews: the easiness factor never
      drops below 1.3, the interval is 0 or 1 before the first success, 1
      after one success, exactly 6 days after two, and at least 6 days from
      then on. */
  predicate ValidSchedule(c: Card) {
    && c.ef100 >= MinEf
    && c.repetitions >= 0
    && (c.repetitions == 0 ==> c.interval == 0 || c.interval == 1)
    && (c.repetitions == 1 ==> c.interval == 1)
    && (c.repetitions == 2 ==> c.interval == 6)
    && (c.repetitions >= 2 ==> c.interval >= 6)
  }

  /** The card created for one generated question/answer pair on day `today`. */
  function NewCard(id: Id, question: string, answer: string, today: Day): (c: Card)
    ensures c.id == id && c.question == question && c.answer == answer
    ensures c.repetitions == 0 && c.interval == 0 && c.due == today
    ensures c.ef100 == InitialEf
    ensures ValidSchedule(c)
  {
    Card(id, question, answer, 0, 0, InitialEf, today)
  }

  /** A card is due on `today` once its due day has been reached. */
  predicate IsDue(c: Card, today: Day) {
    c.due <= today
  }
}
