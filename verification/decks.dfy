/** Deck generation: the question/answer pairs returned by the language model
    become fresh cards, the cards are bundled into a new deck, and the deck
    is appended to the stored deck list.

    Identifiers come from a counter `nextId`: each minted identifier is the
    counter's value, and the counter moves on. Card identifiers are minted
    first, one per pair in order, and the deck identifier last, which is the
    order in which the handler asks for them. */
module Decks {
  import opened Cards

  datatype Option<T> = None | Some(value: T)

  /** One entry of the language model's JSON reply. */
  datatype RawCard = RawCard(question: string, answer: string)

  datatype Deck = Deck(
    id: Id,
    name: string,
    description: string,
    studied: bool,
    total: int,    // number of cards
    learned: int,  // cards learned so far
    due: int,      // cards due for review
    cards: seq<Card>
  )

  /** The stored deck list, in insertion order. */
  type Store = seq<Deck>

  // ---------------------------------------------------------------------
  // Cards

  /** One fresh card per pair, in order, with consecutive identifiers from
      `firstId`, all created on `today`. */
  function AssembleCards(raws: seq<RawCard>, firstId: Id, today: Day): (cards: seq<Card>)
    decreases |raws|
    ensures |cards| == |raws|
    ensures forall i :: 0 <= i < |raws| ==>
              cards[i] == NewCard(firstId + i, raws[i].question, raws[i].answer, today)
  {
    if |raws| == 0 then []
    else [NewCard(firstId, raws[0].question, raws[0].answer, today)]
         + AssembleCards(raws[1..], firstId + 1, today)
  }

  /** Number of cards due on `today`. */
  function CountDue(cards: seq<Card>, today: Day): (n: nat)
    decreases |cards|
    ensures n <= |cards|
    ensures n == 0 <==> forall i :: 0 <= i < |cards| ==> !IsDue(cards[i], today)
    ensures n == |cards| <==> forall i :: 0 <= i < |cards| ==> IsDue(cards[i], today)
  {
    if |cards| == 0 then 0
    else (if IsDue(cards[0], today) then 1 else 0) + CountDue(cards[1..], today)
  }

  /** When every card is due, all of them are counted. */
  lemma {:induction false} CountDueAll(cards: seq<Card>, today: Day)
    requires forall i :: 0 <= i < |cards| ==> IsDue(cards[i], today)
    ensures CountDue(cards, today) == |cards|
    decreases |cards|
  {
    if |cards| > 0 {
      CountDueAll(cards[1..], today);
    }
  }

  /** The freshly assembled cards keep the pairs' content, start at the
      initial scheduling state, and are all due on the day they are made. */
  lemma AssembledCardsAreFresh(raws: seq<RawCard>, firstId: Id, today: Day)
    ensures var cards := AssembleCards(raws, firstId, today);
            && (forall i :: 0 <= i < |cards| ==>
                  && cards[i].question == raws[i].question
                  && cards[i].answer == raws[i].answer
                  && cards[i].repetitions == 0 && cards[i].interval == 0
                  && cards[i].ef100 == InitialEf && cards[i].due == today
                  && ValidSchedule(cards[i]))
            && CountDue(cards, today) == |raws|
  {
    var cards := AssembleCards(raws, firstId, today);
    CountDueAll(cards, today);
  }

  // ---------------------------------------------------------------------
  // Deck name

  /** `.pdf` in any letter case. */
  predicate IsPdfExtension(ext: string) {
    && |ext| == 4
    && ext[0] == '.'
    && (ext[1] == 'p' || ext[1] == 'P')
    && (ext[2] == 'd' || ext[2] == 'D')
    && (ext[3] == 'f' || ext[3] == 'F')
  }

  predicate EndsWithPdf(name: string) {
    |name| >= 4 && IsPdfExtension(name[|name| - 4..])
  }

  /** The file name with one trailing `.pdf` (any case) removed. */
  function StripPdfExtension(name: string): (base: string)
    ensures EndsWithPdf(name) ==> |name| == |base| + 4 && name == base + name[|base|..]
    ensures !EndsWithPdf(name) ==> base == name
  {
    if EndsWithPdf(name) then name[..|name| - 4] else name
  }

  /** Adding a `.pdf` extension and stripping it gives the base name back,
      whatever the base ends with: only one extension is removed. */
  lemma StripPdfExtensionRoundTrip(base: string, ext: string)
    requires IsPdfExtension(ext)
    ensures StripPdfExtension(base + ext) == base
  {
    assert (base + ext)[|base + ext| - 4..] == ext;
    assert (base + ext)[..|base + ext| - 4] == base;
  }

  /** The deck is named by the request when it gives a non-empty name, and
      after the uploaded file otherwise. */
  function DeckName(requested: Option<string>, fileName: string): (name: string)
    ensures requested.Some? && requested.value != "" ==> name == requested.value
    ensures requested.None? || requested.value == "" ==> name == StripPdfExtension(fileName)
  {
    match requested
    case Some(n) => if n != "" then n else StripPdfExtension(fileName)
    case None => StripPdfExtension(fileName)
  }

  /** "Generated from " followed by the uploaded file's name. */
  function Description(fileName: string): (d: string)
    ensures |d| == 15 + |fileName|
    ensures d[..15] == "Generated from " && d[15..] == fileName
  {
    "Generated from " + fileName
  }

  // ---------------------------------------------------------------------
  // Deck

  /** Deck counters agree with its cards on `today`. */
  predicate CountersConsistent(d: Deck, today: Day) {
    d.total == |d.cards| && d.due == CountDue(d.cards, today)
  }

  /** A deck not yet studied, with every card counted and due. */
  function NewDeck(id: Id, name: string, description: string, cards: seq<Card>): (d: Deck)
    ensures d.id == id && d.name == name && d.description == description
    ensures d.cards == cards && !d.studied && d.learned == 0
    ensures d.total == |cards| && d.due == |cards|
  {
    Deck(id, name, description, false, |cards|, 0, |cards|, cards)
  }

  /** A deck and the identifier counter after minting its identifiers. */
  datatype Minted = Minted(deck: Deck, nextId: Id)

  /** The deck built from the language model's pairs on `today`. */
  function AssembleDeck(raws: seq<RawCard>, requested: Option<string>, fileName: string,
                        today: Day, nextId: Id): (m: Minted)
    ensures |m.deck.cards| == |raws|
    ensures m.deck.total == |raws| && m.deck.due == |raws|
    ensures m.deck.learned == 0 && !m.deck.studied
    ensures m.deck.name == DeckName(requested, fileName)
    ensures m.deck.description == Description(fileName)
    ensures forall i :: 0 <= i < |raws| ==>
              m.deck.cards[i] == NewCard(nextId + i, raws[i].question, raws[i].answer, today)
    ensures m.deck.id == nextId + |raws|
    ensures m.nextId == nextId + |raws| + 1
  {
    var cards := AssembleCards(raws, nextId, today);
    var deck := NewDeck(nextId + |raws|, DeckName(requested, fileName), Description(fileName), cards);
    Minted(deck, nextId + |raws| + 1)
  }

  /** A freshly assembled deck's counters agree with its cards. */
  lemma AssembledDeckConsistent(raws: seq<RawCard>, requested: Option<string>, fileName: string,
                                today: Day, nextId: Id)
    ensures CountersConsistent(AssembleDeck(raws, requested, fileName, today, nextId).deck, today)
  {
    AssembledCardsAreFresh(raws, nextId, today);
  }

  // ---------------------------------------------------------------------
  // Store

  /** The store with `d` added at the end. */
  function AppendDeck(decks: Store, d: Deck): (r: Store)
    ensures |r| == |decks| + 1
    ensures r[..|decks|] == decks && r[|decks|] == d
  {
    decks + [d]
  }

  /** Why a generation request fails after the language model has replied. */
  datatype Error =
    | InvalidJson    // the reply is not JSON: "Model did not return valid JSON"
    | NotAList       // the reply is JSON but not a list, so it cannot be mapped
    | NullEntry      // a list entry is null, so reading its question throws

  /** The language model's reply, after the attempt to parse it as JSON. A
      list holding a `null` entry fails while the cards are being built,
      before the stored decks are read; `HasNullEntry` stands for it. */
  datatype Reply = Unparsable | NotAnArray | HasNullEntry | Pairs(raws: seq<RawCard>)

  datatype Outcome = Created(deck: Deck) | Rejected(error: Error)

  /** The store and counter after a request, and what the client is sent. */
  datatype Generated = Generated(decks: Store, nextId: Id, outcome: Outcome)

  /** Handling one generation request once the language model has replied: a usable
      reply appends the new deck to `stored` and returns it; any other reply
      is rejected with the store and the counter left as they were. */
  function GenerateDeck(stored: Store, reply: Reply, requested: Option<string>,
                        fileName: string, today: Day, nextId: Id): (g: Generated)
    ensures reply.Unparsable? ==> g == Generated(stored, nextId, Rejected(InvalidJson))
    ensures reply.NotAnArray? ==> g == Generated(stored, nextId, Rejected(NotAList))
    ensures reply.HasNullEntry? ==> g == Generated(stored, nextId, Rejected(NullEntry))
    ensures reply.Pairs? ==>
              && g.outcome.Created?
              && g.decks == stored + [g.outcome.deck]
              && g.outcome.deck == AssembleDeck(reply.raws, requested, fileName, today, nextId).deck
              && g.nextId == nextId + |reply.raws| + 1
  {
    match reply
    case Unparsable => Generated(stored, nextId, Rejected(InvalidJson))
    case NotAnArray => Generated(stored, nextId, Rejected(NotAList))
    case HasNullEntry => Generated(stored, nextId, Rejected(NullEntry))
    case Pairs(raws) =>
      var m := AssembleDeck(raws, requested, fileName, today, nextId);
      Generated(AppendDeck(stored, m.deck), m.nextId, Created(m.deck))
  }

  // ---------------------------------------------------------------------
  // Identifiers stay unique

  predicate Distinct(ids: seq<Id>) {
    forall i, j :: 0 <= i < j < |ids| ==> ids[i] != ids[j]
  }

  predicate AllBelow(ids: seq<Id>, bound: Id) {
    forall i :: 0 <= i < |ids| ==> ids[i] < bound
  }

  /** The identifiers a deck holds: its cards' and its own. */
  function DeckIds(d: Deck): seq<Id> {
    seq(|d.cards|, i requires 0 <= i < |d.cards| => d.cards[i].id) + [d.id]
  }

  /** Every identifier in the store, deck by deck. */
  function StoreIds(decks: Store): seq<Id>
    decreases |decks|
  {
    if |decks| == 0 then []
    else StoreIds(decks[..|decks| - 1]) + DeckIds(decks[|decks| - 1])
  }

  /** No identifier is used twice, and the counter is past all of them. */
  predicate FreshCounter(decks: Store, nextId: Id) {
    Distinct(StoreIds(decks)) && AllBelow(StoreIds(decks), nextId)
  }

  /** The identifiers of a freshly assembled deck are the counter's values
      in minting order. */
  lemma AssembledDeckIds(raws: seq<RawCard>, requested: Option<string>, fileName: string,
                         today: Day, nextId: Id)
    ensures var ids := DeckIds(AssembleDeck(raws, requested, fileName, today, nextId).deck);
            |ids| == |raws| + 1 && forall i :: 0 <= i < |ids| ==> ids[i] == nextId + i
  {
  }

  /** Joining two identifier lists keeps them unique when the first lies
      below `bound` and the second at or above it. */
  lemma DistinctJoin(a: seq<Id>, b: seq<Id>, bound: Id)
    requires Distinct(a) && Distinct(b) && AllBelow(a, bound)
    requires forall i :: 0 <= i < |b| ==> b[i] >= bound
    ensures Distinct(a + b)
  {
    forall i, j | 0 <= i < j < |a + b|
      ensures (a + b)[i] != (a + b)[j]
    {
      if j < |a| {
        assert (a + b)[i] == a[i] && (a + b)[j] == a[j];
      } else if i >= |a| {
        assert (a + b)[i] == b[i - |a|] && (a + b)[j] == b[j - |a|];
      } else {
        assert (a + b)[i] == a[i] && (a + b)[j] == b[j - |a|];
      }
    }
  }

  /** Generating a deck never reuses an identifier: if the counter was past
      every identifier in the store, it still is afterwards, and the
      identifiers in the store are still pairwise different. */
  lemma GenerateDeckKeepsIdsFresh(stored: Store, reply: Reply, requested: Option<string>,
                                  fileName: string, today: Day, nextId: Id)
    requires FreshCounter(stored, nextId)
    ensures var g := GenerateDeck(stored, reply, requested, fileName, today, nextId);
            FreshCounter(g.decks, g.nextId) && g.nextId >= nextId
  {
    if reply.Pairs? {
      var g := GenerateDeck(stored, reply, requested, fileName, today, nextId);
      var d := g.outcome.deck;
      var old_ids := StoreIds(stored);
      var new_ids := DeckIds(d);
      AssembledDeckIds(reply.raws, requested, fileName, today, nextId);
      assert g.decks[..|g.decks| - 1] == stored;
      assert StoreIds(g.decks) == old_ids + new_ids;
      DistinctJoin(old_ids, new_ids, nextId);
      forall i | 0 <= i < |old_ids + new_ids|
        ensures (old_ids + new_ids)[i] < g.nextId
      {
        if i >= |old_ids| {
          assert (old_ids + new_ids)[i] == new_ids[i - |old_ids|];
        }
      }
    }
  }
}
