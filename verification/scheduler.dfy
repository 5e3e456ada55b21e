/** The SuperMemo-2 review scheduler: one review with an integer grade
    (`quality`) turns a card's scheduling state into the next one. */
module Scheduler {
  import opened Cards

  /** Change of the easiness factor, in hundredths, for a passing grade:
      0.1 - (5 - q) * (0.08 + (5 - q) * 0.02), scaled by 100. */
  function EfDelta(quality: int): (d: int)
    ensures quality == 5 ==> d == 10
    ensures quality == 4 ==> d == 0
    ensures quality == 3 ==> d == -14
  {
    var miss := 5 - quality;
    10 - miss * (8 + 2 * miss)
  }

  /** Easiness after a passing review: the adjusted value, but never below
      the 1.3 floor. */
  function NextEf(ef100: int, quality: int): (e: int)
    ensures e >= MinEf && e >= ef100 + EfDelta(quality)
    ensures e == MinEf || e == ef100 + EfDelta(quality)
  {
    var adjusted := ef100 + EfDelta(quality);
    if adjusted > MinEf then adjusted else MinEf
  }

  /** `Math.round(x100 / 100)`: the nearest integer, ties going up. */
  function RoundHundredths(x100: int): (r: int)
    ensures 100 * r - 50 <= x100 < 100 * r + 50
  {
    (x100 + 50) / 100
  }

  /** One review. A failing grade (below 3) restarts the repetition count
      with a one-day interval and keeps the easiness factor. A passing grade
      picks the interval from the repetition count BEFORE this review (0
      gives 1 day, 1 gives 6 days, anything else the old interval times the
      old easiness, rounded), then counts the repetition and adjusts the
      easiness. Either way the card falls due `interval` days after `today`,
      and its identity and content are kept. */
  function Sm2(c: Card, quality: int, today: Day): (r: Card)
    ensures r.id == c.id && r.question == c.question && r.answer == c.answer
    ensures r.due == today + r.interval
    ensures quality < 3 ==> r.repetitions == 0 && r.interval == 1 && r.ef100 == c.ef100
    ensures quality >= 3 ==> r.repetitions == c.repetitions + 1
    ensures quality >= 3 && c.repetitions == 0 ==> r.interval == 1
    ensures quality >= 3 && c.repetitions == 1 ==> r.interval == 6
    ensures quality >= 3 && c.repetitions != 0 && c.repetitions != 1 ==>
              100 * r.interval - 50 <= c.interval * c.ef100 < 100 * r.interval + 50
    ensures quality >= 3 ==> r.ef100 >= MinEf && r.ef100 >= c.ef100 + EfDelta(quality)
    ensures quality >= 3 ==> r.ef100 == MinEf || r.ef100 == c.ef100 + EfDelta(quality)
  {
    if quality < 3 then
      c.(repetitions := 0, interval := 1, due := today + 1)
    else
      var interval :=
        if c.repetitions == 0 then 1
        else if c.repetitions == 1 then 6
        else RoundHundredths(c.interval * c.ef100);
      c.(repetitions := c.repetitions + 1,
         interval := interval,
         ef100 := NextEf(c.ef100, quality),
         due := today + interval)
  }

  // ---------------------------------------------------------------------
  // Easiness factor

  /** The easiness floor is kept by every review, passing or failing. */
  lemma Sm2KeepsEfFloor(c: Card, quality: int, today: Day)
    requires c.ef100 >= MinEf
    ensures Sm2(c, quality, today).ef100 >= MinEf
  {
  }

  /** On the 0..5 grading scale a better grade never yields a smaller
      easiness adjustment. */
  lemma EfDeltaMonotone(q1: int, q2: int)
    requires q1 <= q2 <= 5
    ensures EfDelta(q1) <= EfDelta(q2)
  {
    var m1, m2 := 5 - q1, 5 - q2;
    assert EfDelta(q1) == 10 - 8 * m1 - 2 * (m1 * m1);
    assert EfDelta(q2) == 10 - 8 * m2 - 2 * (m2 * m2);
    SquareMonotone(m2, m1);
  }

  lemma SquareMonotone(a: int, b: int)
    requires 0 <= a <= b
    ensures a * a <= b * b
  {
    assert a * a <= a * b;
    assert a * b <= b * b;
  }

  /** Consequently, among passing grades the easiness after the review is
      monotone in the grade. */
  lemma Sm2EfMonotoneInQuality(c: Card, q1: int, q2: int, today: Day)
    requires 3 <= q1 <= q2 <= 5
    ensures Sm2(c, q1, today).ef100 <= Sm2(c, q2, today).ef100
  {
    EfDeltaMonotone(q1, q2);
  }

  // ---------------------------------------------------------------------
  // Intervals

  /** From the second success on, the interval strictly grows: with an
      easiness of at least 1.3 and an interval of at least 6 days, the
      rounded product is at least 2 days longer. */
  lemma GrowthStep(interval: int, ef100: int)
    requires interval >= 6 && ef100 >= MinEf
    ensures RoundHundredths(interval * ef100) >= interval + 2
  {
    assert interval * ef100 >= interval * MinEf;
  }

  /** Every review keeps a card in a reachable scheduling state. */
  lemma Sm2KeepsValidSchedule(c: Card, quality: int, today: Day)
    requires ValidSchedule(c)
    ensures ValidSchedule(Sm2(c, quality, today))
  {
    if quality >= 3 && c.repetitions >= 2 {
      GrowthStep(c.interval, c.ef100);
    }
  }

  /** On a card in a reachable state a passing review never shortens the
      interval, and from the second success on it lengthens it. */
  lemma SuccessNeverShortensInterval(c: Card, quality: int, today: Day)
    requires ValidSchedule(c) && quality >= 3
    ensures Sm2(c, quality, today).interval >= c.interval
    ensures c.repetitions >= 1 ==> Sm2(c, quality, today).interval > c.interval
  {
    if c.repetitions >= 2 {
      GrowthStep(c.interval, c.ef100);
    }
  }

  /** After any review of a reachable card, the card is due strictly after
      the review day. */
  lemma ReviewPushesDueIntoFuture(c: Card, quality: int, today: Day)
    requires ValidSchedule(c)
    ensures Sm2(c, quality, today).due > today
  {
    if quality >= 3 && c.repetitions >= 2 {
      GrowthStep(c.interval, c.ef100);
    }
  }

  /** The interval ladder: starting from no successful repetition (a fresh
      card, or one just failed), three passing reviews give 1 day, 6 days,
      and then 6 days times the easiness reached after the second review. */
  lemma IntervalLadder(c: Card, q1: int, q2: int, q3: int, t1: Day, t2: Day, t3: Day)
    requires c.repetitions == 0 && q1 >= 3 && q2 >= 3 && q3 >= 3
    ensures var c1 := Sm2(c, q1, t1);
            var c2 := Sm2(c1, q2, t2);
            var c3 := Sm2(c2, q3, t3);
            && c1.interval == 1 && c1.repetitions == 1
            && c2.interval == 6 && c2.repetitions == 2
            && c3.interval == RoundHundredths(6 * c2.ef100) && c3.repetitions == 3
  {
  }

  /** A failing review sends any card back to the bottom of the ladder: the
      next two passing reviews give 1 and 6 days again. */
  lemma FailureRestartsLadder(c: Card, q0: int, q1: int, q2: int, t0: Day, t1: Day, t2: Day)
    requires q0 < 3 && q1 >= 3 && q2 >= 3
    ensures var c0 := Sm2(c, q0, t0);
            var c1 := Sm2(c0, q1, t1);
            var c2 := Sm2(c1, q2, t2);
            && c0.interval == 1 && c1.interval == 1 && c2.interval == 6
            && c2.ef100 == NextEf(NextEf(c.ef100, q1), q2)
  {
  }

  /** Worked example on a fresh card: grades 5, 5, then 2, reviewed on days
      t1, t2, t3. */
  lemma ReviewScenario(id: Id, q: string, a: string, created: Day, t1: Day, t2: Day, t3: Day)
    ensures var c0 := NewCard(id, q, a, created);
            var c1 := Sm2(c0, 5, t1);
            var c2 := Sm2(c1, 5, t2);
            var c3 := Sm2(c2, 2, t3);
            var c4 := Sm2(c2, 5, t3);
            && c1 == Card(id, q, a, 1, 1, 260, t1 + 1)
            && c2 == Card(id, q, a, 2, 6, 270, t2 + 6)
            && c3 == Card(id, q, a, 0, 1, 270, t3 + 1)
            && c4 == Card(id, q, a, 3, 16, 280, t3 + 16)
  {
  }

  // ---------------------------------------------------------------------
  // A history of reviews

  datatype Review = Review(quality: int, today: Day)

  /** The card after applying `reviews` in order. */
  function ReviewAll(c: Card, reviews: seq<Review>): (r: Card)
    decreases |reviews|
    ensures r.id == c.id && r.question == c.question && r.answer == c.answer
    ensures ValidSchedule(c) ==> ValidSchedule(r)
    ensures |reviews| > 0 ==> r.due == reviews[|reviews| - 1].today + r.interval
    ensures ValidSchedule(c) && |reviews| > 0 ==> r.due > reviews[|reviews| - 1].today
  {
    if |reviews| == 0 then c
    else
      var next := Sm2(c, reviews[0].quality, reviews[0].today);
      assert ValidSchedule(c) ==> ValidSchedule(next) by {
        if ValidSchedule(c) {
          Sm2KeepsValidSchedule(c, reviews[0].quality, reviews[0].today);
        }
      }
      ReviewAll(next, reviews[1..])
  }

  /** A run of failing grades keeps the easiness factor where it was. */
  lemma {:induction false} FailuresKeepEf(c: Card, reviews: seq<Review>)
    requires forall i :: 0 <= i < |reviews| ==> reviews[i].quality < 3
    ensures ReviewAll(c, reviews).ef100 == c.ef100
    decreases |reviews|
  {
    if |reviews| > 0 {
      FailuresKeepEf(Sm2(c, reviews[0].quality, reviews[0].today), reviews[1..]);
    }
  }

  /** A run of passing grades counts one repetition per review. */
  lemma {:induction false} SuccessesCountRepetitions(c: Card, reviews: seq<Review>)
    requires forall i :: 0 <= i < |reviews| ==> reviews[i].quality >= 3
    ensures ReviewAll(c, reviews).repetitions == c.repetitions + |reviews|
    decreases |reviews|
  {
    if |reviews| > 0 {
      SuccessesCountRepetitions(Sm2(c, reviews[0].quality, reviews[0].today), reviews[1..]);
    }
  }

  // ---------------------------------------------------------------------
  // Reference: the update as the source writes it, in exact real arithmetic

  /** `Math.round`: floor of x + 1/2. */
  function Round(x: real): (r: int)
    ensures r as real <= x + 0.5 < r as real + 1.0
  {
    (x + 0.5).Floor
  }

  /** Scheduling state with the easiness factor as a real number. */
  datatype RealSchedule = RealSchedule(repetitions: int, interval: int, ef: real, due: Day)

  /** The review update transcribed over exact reals: the same branches, the
      same constants and the same formula as the source, with `Math.max`
      and `Math.round` spelled out. */
  function SourceSm2(s: RealSchedule, quality: int, today: Day): (r: RealSchedule)
    ensures r.due == today + r.interval
    ensures quality < 3 ==> r.repetitions == 0 && r.interval == 1 && r.ef == s.ef
    ensures quality >= 3 ==> r.repetitions == s.repetitions + 1 && r.ef >= 1.3
    ensures s.ef >= 1.3 ==> r.ef >= 1.3
  {
    if quality < 3 then
      RealSchedule(0, 1, s.ef, today + 1)
    else
      var interval :=
        if s.repetitions == 0 then 1
        else if s.repetitions == 1 then 6
        else Round(s.interval as real * s.ef);
      var miss := (5 - quality) as real;
      var ef := s.ef + (0.1 - miss * (0.08 + miss * 0.02));
      RealSchedule(s.repetitions + 1, interval, if 1.3 >= ef then 1.3 else ef, today + interval)
  }

  function ScheduleOf(c: Card): RealSchedule {
    RealSchedule(c.repetitions, c.interval, c.ef100 as real / 100.0, c.due)
  }

  /** Integer division by 100 is the floor of the real quotient. */
  lemma FloorOfHundredths(n: int)
    ensures (n as real / 100.0).Floor == n / 100
  {
    var k := n / 100;
    assert 100 * k <= n < 100 * k + 100;
    assert (100 * k) as real <= n as real < (100 * k + 100) as real;
    assert k as real <= n as real / 100.0 < k as real + 1.0;
  }

  /** Rounding in hundredths is `Math.round` of the real value. */
  lemma RoundHundredthsIsRound(x100: int)
    ensures RoundHundredths(x100) == Round(x100 as real / 100.0)
  {
    FloorOfHundredths(x100 + 50);
    assert x100 as real / 100.0 + 0.5 == (x100 + 50) as real / 100.0;
  }

  /** The hundredths adjustment is exactly the source's real formula. */
  lemma EfDeltaIsSourceFormula(quality: int)
    ensures EfDelta(quality) as real / 100.0
         == 0.1 - (5 - quality) as real * (0.08 + (5 - quality) as real * 0.02)
  {
    var m := 5 - quality;
    var mr := m as real;
    assert (m * m) as real == mr * mr;
    assert EfDelta(quality) == 10 - 8 * m - 2 * (m * m);
  }

  /** The integer model agrees with the real-arithmetic transcription on
      every card, grade and day. */
  lemma Sm2MatchesSource(c: Card, quality: int, today: Day)
    ensures ScheduleOf(Sm2(c, quality, today)) == SourceSm2(ScheduleOf(c), quality, today)
  {
    if quality >= 3 {
      var ef := c.ef100 as real / 100.0;
      if c.repetitions != 0 && c.repetitions != 1 {
        RoundHundredthsIsRound(c.interval * c.ef100);
        assert (c.interval * c.ef100) as real / 100.0 == c.interval as real * ef;
      }
      EfDeltaIsSourceFormula(quality);
      var miss := (5 - quality) as real;
      var adjusted := ef + (0.1 - miss * (0.08 + miss * 0.02));
      assert adjusted == (c.ef100 + EfDelta(quality)) as real / 100.0;
    }
  }
}
