/**
 The application state of the simulator: the selection index the "Next"
 button advances, and the fifteen generators with the number of frames each
 has produced so far. A ghost history of events (presses of "Next" and
 frames pulled) ties that state to pure functions, about which the lemmas
 below prove what selection and redrawing can and cannot reach.
 */
module Simulator {
  import opened Effects
  import opened Selection
  import opened Render

  /** What has happened to the application state, in order. */
  datatype Event = Clicked | Pulled(effect: EffectId)

  /** The selection index after the events of `h`. */
  function IndexAt(h: seq<Event>): (i: nat)
    decreases |h|
  {
    if h == [] then INITIAL_INDEX
    else if h[|h| - 1].Clicked? then NextIndex(IndexAt(h[..|h| - 1]))
    else IndexAt(h[..|h| - 1])
  }

  /** The number of presses of "Next" in `h`. */
  function ClickCount(h: seq<Event>): (n: nat)
    decreases |h|
  {
    if h == [] then 0
    else ClickCount(h[..|h| - 1]) + (if h[|h| - 1].Clicked? then 1 else 0)
  }

  /** The number of frames pulled from instance `e` in `h`. */
  function Pulls(h: seq<Event>, e: EffectId): (n: nat)
    decreases |h|
  {
    if h == [] then 0
    else Pulls(h[..|h| - 1], e) + (if h[|h| - 1] == Pulled(e) then 1 else 0)
  }

  /**
   Every frame in `h` was pulled by a redraw, that is, from the instance
   the selection index named at that moment.
   */
  ghost predicate Redrawn(h: seq<Event>)
    decreases |h|
  {
    h == [] ||
    (Redrawn(h[..|h| - 1]) &&
     (h[|h| - 1].Pulled? ==> h[|h| - 1].effect == Resolve(IndexAt(h[..|h| - 1]))))
  }

  /** The index after any history is where that many presses take the initial index. */
  lemma {:induction false} IndexAtClicks(h: seq<Event>)
    ensures IndexAt(h) == Clicks(INITIAL_INDEX, ClickCount(h))
  {
    if h != [] {
      IndexAtClicks(h[..|h| - 1]);
    }
  }

  /** Appending events never lowers the number of presses. */
  lemma {:induction false} ClickCountGrows(h: seq<Event>, t: seq<Event>)
    ensures ClickCount(h + t) >= ClickCount(h)
    decreases |t|
  {
    if t != [] {
      var n := |t| - 1;
      assert (h + t)[..|h + t| - 1] == h + t[..n];
      ClickCountGrows(h, t[..n]);
    } else {
      assert h + t == h;
    }
  }

  /**
   An instance from which no frame is pulled keeps its count: switching
   away and back resumes it where it stopped, it does not restart.
   */
  lemma {:induction false} PullsUnchangedWhileUnselected(h: seq<Event>, t: seq<Event>, e: EffectId)
    requires forall k | 0 <= k < |t| :: t[k] != Pulled(e)
    ensures Pulls(h + t, e) == Pulls(h, e)
    decreases |t|
  {
    if t != [] {
      var n := |t| - 1;
      assert (h + t)[..|h + t| - 1] == h + t[..n];
      PullsUnchangedWhileUnselected(h, t[..n], e);
    } else {
      assert h + t == h;
    }
  }

  /** The Christmas entry is never selected: no redraw ever pulls a frame from it. */
  lemma {:induction false} ChristmasNeverDrawn(h: seq<Event>)
    requires Redrawn(h)
    ensures Pulls(h, Christmas) == 0
  {
    if h != [] {
      var front := h[..|h| - 1];
      ChristmasNeverDrawn(front);
      IndexAtClicks(front);
      InitialLeftForGood(ClickCount(front));
      assert Resolve(IndexAt(front)) != Christmas by {
        ResolveInjective(IndexAt(front), 13);
        if IndexAt(front) >= REGISTRY_SIZE {
          ResolveFallback(IndexAt(front));
        }
      }
    }
  }

  /**
   Collision is drawn only before the first press of "Next": once a press
   is in the history, redraws pull no further frame from it, nor from
   Christmas.
   */
  lemma {:induction false} CollisionOnlyBeforeFirstClick(h: seq<Event>, t: seq<Event>)
    requires Redrawn(h + t) && ClickCount(h) > 0
    ensures Pulls(h + t, Collision) == Pulls(h, Collision)
    ensures Pulls(h + t, Christmas) == Pulls(h, Christmas)
    decreases |t|
  {
    if t == [] {
      assert h + t == h;
    } else {
      var n := |t| - 1;
      var front := h + t[..n];
      assert (h + t)[..|h + t| - 1] == front;
      assert (h + t)[|h + t| - 1] == t[n];
      CollisionOnlyBeforeFirstClick(h, t[..n]);
      ClickCountGrows(h, t[..n]);
      IndexAtClicks(front);
      InitialLeftForGood(ClickCount(front));
      var i := IndexAt(front);
      assert i < EFFECTS_COUNT;
      ResolveInjective(i, 13);
      ResolveInjective(i, 14);
    }
  }

  /**
   The simulator's state. The index and the step counters are the real
   state; `frames` stands for the fifteen declared generator instances,
   and `history` records what has happened, for the specifications.
   */
  class App {
    var index: nat
    var steps: seq<nat>
    const frames: Generators
    ghost var history: seq<Event>

    /** Counter `Ordinal(e)` is the number of frames pulled from `e`; the index follows the presses. */
    ghost predicate Valid()
      reads this
    {
      FixedLength(frames) &&
      |steps| == REGISTRY_SIZE &&
      (forall e: EffectId :: steps[Ordinal(e)] == Pulls(history, e)) &&
      index == IndexAt(history)
    }

    /** The initial state: index 14, no frame pulled from any generator yet. */
    constructor (frames: Generators)
      requires FixedLength(frames)
      ensures Valid()
      ensures this.frames == frames && history == []
      ensures index == INITIAL_INDEX && steps == seq(REGISTRY_SIZE, _ => 0)
    {
      this.frames := frames;
      index := INITIAL_INDEX;
      steps := seq(REGISTRY_SIZE, _ => 0);
      history := [];
    }

    /** The "Next" button: add one, and go back to 0 at EFFECTS_COUNT. */
    method Click()
      requires Valid()
      modifies this`index, this`history
      ensures Valid()
      ensures index == NextIndex(old(index)) && index < EFFECTS_COUNT
      ensures steps == old(steps)
      ensures history == old(history) + [Clicked]
      ensures Redrawn(old(history)) ==> Redrawn(history)
    {
      index := index + 1;
      if index >= EFFECTS_COUNT {
        index := 0;
      }
      ghost var before := history;
      history := history + [Clicked];
      assert history[..|history| - 1] == before;
      assert IndexAt(history) == NextIndex(IndexAt(before));
      forall e: EffectId
        ensures Pulls(history, e) == Pulls(before, e)
      {
      }
    }

    /**
     Pull the next frame of the instance index `i` resolves to: it is the
     frame numbered by how many that instance has produced before, and it
     advances that instance's counter alone.
     */
    method GetEffect(i: nat) returns (frame: Frame)
      requires Valid()
      modifies this`steps, this`history
      ensures Valid()
      ensures var e := Resolve(i);
        frame == frames(e, Pulls(old(history), e)) &&
        history == old(history) + [Pulled(e)] &&
        steps == old(steps)[Ordinal(e) := old(steps)[Ordinal(e)] + 1]
      ensures |frame| == COUNT
    {
      var e := Resolve(i);
      var slot := Ordinal(e);
      frame := frames(e, steps[slot]);
      steps := steps[slot := steps[slot] + 1];
      history := history + [Pulled(e)];
      assert history[..|history| - 1] == old(history);
    }

    /**
     One redraw: pull a frame from the selected instance, then draw its
     pixels from the left. The index is read and left as it is.
     */
    method DrawPixels(width: int, height: int) returns (ops: seq<Op>)
      requires Valid()
      modifies this`steps, this`history
      ensures Valid()
      ensures var e := Resolve(index);
        ops == Projection(frames(e, Pulls(old(history), e)), width, height) &&
        history == old(history) + [Pulled(e)] &&
        steps == old(steps)[Ordinal(e) := old(steps)[Ordinal(e)] + 1]
      ensures |ops| == 4 * COUNT
      ensures Redrawn(old(history)) ==> Redrawn(history)
    {
      var frame := GetEffect(index);
      assert history[..|history| - 1] == old(history);
      ops := [];
      var k := 0;
      while k < |frame|
        invariant 0 <= k <= |frame|
        invariant ops == Projection(frame[..k], width, height)
      {
        assert frame[..k + 1][..k] == frame[..k];
        ops := ops + PixelOps(k, frame[k], width, height);
        k := k + 1;
      }
      assert frame[..k] == frame;
      ProjectionLayout(frame, width, height);
    }
  }
}
