/** The lesson pointer of a subject plan: a chapter and a part within it, parts
    running 1, 2, 3 before the next chapter starts; and the completion
    percentage of a subscription. */
module Advancement {

  const PartsPerChapter: int := 3

  datatype Position = Position(chapter: int, part: int)

  /** A pointer the plans can hold: chapter 1 or later, part 1 to 3. */
  predicate ValidPosition(p: Position) {
    p.chapter >= 1 && 1 <= p.part <= PartsPerChapter
  }

  /** The number of parts taught before reaching `p` from chapter 1, part 1. */
  function Ordinal(p: Position): int {
    (p.chapter - 1) * PartsPerChapter + (p.part - 1)
  }

  /** The pointer after one more taught part: the next part, or part 1 of the
      next chapter once the third part is done. */
  function Advance(p: Position): (r: Position)
    ensures ValidPosition(p) ==> ValidPosition(r) && Ordinal(r) == Ordinal(p) + 1
    ensures r.chapter == p.chapter || (r.chapter == p.chapter + 1 && r.part == 1)
  {
    var part := p.part + 1;
    if part > PartsPerChapter then Position(p.chapter + 1, 1) else Position(p.chapter, part)
  }

  /** The pointer after `done` taught parts, counted from chapter 1, part 1. */
  function PositionAfter(done: nat): (r: Position)
    ensures ValidPosition(r) && Ordinal(r) == done
  {
    Position(1 + done / PartsPerChapter, 1 + done % PartsPerChapter)
  }

  /** A valid pointer is determined by the number of parts taught to reach it. */
  lemma PositionOfOrdinal(p: Position)
    requires ValidPosition(p)
    ensures Ordinal(p) >= 0 && p == PositionAfter(Ordinal(p))
  {
    var n := Ordinal(p);
    assert n == (p.chapter - 1) * 3 + (p.part - 1);
    assert n / 3 == p.chapter - 1 && n % 3 == p.part - 1;
  }

  /** One advance moves the pointer of `done` parts to that of `done + 1`. */
  lemma AdvanceAfter(done: nat)
    ensures Advance(PositionAfter(done)) == PositionAfter(done + 1)
  {
    var q := Advance(PositionAfter(done));
    PositionOfOrdinal(q);
  }

  /** The pointer after `k` advances from `p`. */
  function AdvanceTimes(p: Position, k: nat): Position {
    if k == 0 then p else Advance(AdvanceTimes(p, k - 1))
  }

  /** From chapter 1, part 1, `k` completions reach chapter 1 + k / 3, part 1 + k % 3. */
  lemma {:induction false} CompletionsFromStart(k: nat)
    ensures AdvanceTimes(Position(1, 1), k) == PositionAfter(k)
  {
    if k > 0 {
      CompletionsFromStart(k - 1);
      AdvanceAfter(k - 1);
    }
  }

  /** The transition law on its first values: (1,3) after two completions,
      (2,1) after three, (2,3) after five, (3,1) after six. */
  lemma TransitionLaw()
    ensures AdvanceTimes(Position(1, 1), 2) == Position(1, 3)
    ensures AdvanceTimes(Position(1, 1), 3) == Position(2, 1)
    ensures AdvanceTimes(Position(1, 1), 5) == Position(2, 3)
    ensures AdvanceTimes(Position(1, 1), 6) == Position(3, 1)
  {
    CompletionsFromStart(2);
    CompletionsFromStart(3);
    CompletionsFromStart(5);
    CompletionsFromStart(6);
  }

  /** `progress_percent`: completed / total * 100, or 0 when the total is not
      positive. */
  function Percent(completed: int, total: int): (p: real)
    ensures total > 0 ==> p * (total as real) == (completed as real) * 100.0
    ensures total <= 0 ==> p == 0.0
  {
    if total > 0 then (completed as real) / (total as real) * 100.0 else 0.0
  }

  /** The percentage stays within 0..100 while the completed count does not
      exceed the total ... */
  lemma PercentBounds(completed: int, total: int)
    requires 0 <= completed <= total
    ensures 0.0 <= Percent(completed, total) <= 100.0
  {
    if total > 0 {
      var p := Percent(completed, total);
      assert p * (total as real) <= 100.0 * (total as real);
    }
  }

  /** ... and exceeds 100 once it does, since completions are never capped. */
  lemma PercentOverrun(completed: int, total: int)
    requires 0 < total < completed
    ensures Percent(completed, total) > 100.0
  {
    var p := Percent(completed, total);
    assert p * (total as real) > 100.0 * (total as real);
  }
}
