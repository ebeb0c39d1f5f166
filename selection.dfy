/**
 The selection index and the rule of the "Next" button: add one, and go
 back to 0 once the count of cycled effects is reached. The index starts
 outside that cycle, at the last entry of the dispatch table.
 */
module Selection {

  /** The bound the "Next" button wraps at. */
  const EFFECTS_COUNT: nat := 13

  /** The index the program starts with (the Collision entry). */
  const INITIAL_INDEX: nat := 14

  /** The index after one press of "Next". */
  function NextIndex(k: nat): (r: nat)
    ensures r < EFFECTS_COUNT
  {
    if k + 1 >= EFFECTS_COUNT then 0 else k + 1
  }

  /** The index after `n` presses of "Next", starting from `k`. */
  function Clicks(k: nat, n: nat): (r: nat)
    decreases n
  {
    if n == 0 then k else NextIndex(Clicks(k, n - 1))
  }

  /** One press inside the cycle is a step of one modulo the bound. */
  lemma NextIndexMod(x: nat)
    ensures NextIndex(x % EFFECTS_COUNT) == (x + 1) % EFFECTS_COUNT
  {
  }

  /** Inside the cycle, `n` presses add `n` modulo the bound. */
  lemma {:induction false} ClicksInCycle(k: nat, n: nat)
    requires k < EFFECTS_COUNT
    ensures Clicks(k, n) == (k + n) % EFFECTS_COUNT
  {
    if n > 0 {
      ClicksInCycle(k, n - 1);
      assert k % EFFECTS_COUNT == k;
      NextIndexMod(k + n - 1);
    } else {
      assert k % EFFECTS_COUNT == k;
    }
  }

  /** Below twice the bound, the remainder is one subtraction away. */
  lemma ModBelowTwice(x: nat)
    requires x < 2 * EFFECTS_COUNT
    ensures x % EFFECTS_COUNT == if x < EFFECTS_COUNT then x else x - EFFECTS_COUNT
  {
  }

  /**
   From inside the cycle, exactly EFFECTS_COUNT presses come back to the
   start, and no smaller positive number of presses does.
   */
  lemma CyclePeriod(k: nat)
    requires k < EFFECTS_COUNT
    ensures Clicks(k, EFFECTS_COUNT) == k
    ensures forall n :: 0 < n < EFFECTS_COUNT ==> Clicks(k, n) != k
  {
    ClicksInCycle(k, EFFECTS_COUNT);
    ModBelowTwice(k + EFFECTS_COUNT);
    forall n | 0 < n < EFFECTS_COUNT
      ensures Clicks(k, n) != k
    {
      ClicksInCycle(k, n);
      ModBelowTwice(k + n);
    }
  }

  /** Presses never skip an index of the cycle: every one of them is reached from every other. */
  lemma ClicksVisitAll(k: nat, j: nat)
    requires k < EFFECTS_COUNT && j < EFFECTS_COUNT
    ensures Clicks(k, (j + EFFECTS_COUNT - k) % EFFECTS_COUNT) == j
  {
    var n := (j + EFFECTS_COUNT - k) % EFFECTS_COUNT;
    ModBelowTwice(j + EFFECTS_COUNT - k);
    ClicksInCycle(k, n);
    ModBelowTwice(k + n);
  }

  /** From the initial index, press `n + 1` lands on `n` modulo the bound; the first press gives 0. */
  lemma {:induction false} ClicksFromInitial(n: nat)
    ensures Clicks(INITIAL_INDEX, n + 1) == n % EFFECTS_COUNT
  {
    if n > 0 {
      ClicksFromInitial(n - 1);
      NextIndexMod(n - 1);
    }
  }

  /**
   The initial index is never seen again once "Next" has been pressed, and
   neither is the entry just below it: after the first press the index
   stays inside the cycle for good.
   */
  lemma InitialLeftForGood(n: nat)
    ensures Clicks(INITIAL_INDEX, n) == INITIAL_INDEX <==> n == 0
    ensures n > 0 ==> Clicks(INITIAL_INDEX, n) < EFFECTS_COUNT
    ensures Clicks(INITIAL_INDEX, n) != EFFECTS_COUNT
  {
  }
}
