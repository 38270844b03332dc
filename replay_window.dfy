/**
 * The anti-replay sliding window kept by both encryption handlers: the
 * highest counter accepted so far and a bitmap whose bit d records that
 * counter (highest - d) has been accepted. It is the sequence-number check
 * of section 3.4.3 of RFC 4303 with a window of 64.
 *
 * The bitmap is Python's unbounded int, shifted left without masking, so it
 * is a `nat` here; bits at offsets of 64 or more are never read.
 */
module ReplayWindow {
  import opened Bytes

  const WINDOW_SIZE: nat := 64

  /** `b & (1 << d) != 0` */
  predicate Bit(b: nat, d: nat)
    decreases d
  {
    if d == 0 then b % 2 == 1 else Bit(b / 2, d - 1)
  }

  /** `b | (1 << d)` */
  function SetBit(b: nat, d: nat): nat {
    if Bit(b, d) then b else b + Pow2(d)
  }

  /** Setting bit d sets it and leaves every other bit as it was. */
  lemma SetBitSpec(b: nat, d: nat)
    ensures Bit(SetBit(b, d), d)
    ensures forall e :: e != d ==> Bit(SetBit(b, d), e) == Bit(b, e)
  {
    if !Bit(b, d) {
      AddPowerBits(b, d);
    }
  }

  /** `(b << g) | 1` */
  function ShiftIn(b: nat, g: nat): nat {
    b * Pow2(g) + 1
  }

  /** Shifting in moves every bit up by g, leaves the g−1 bits above bit 0 clear and sets bit 0. */
  lemma ShiftInSpec(b: nat, g: nat)
    requires g >= 1
    ensures Bit(ShiftIn(b, g), 0)
    ensures forall e :: 0 < e < g ==> !Bit(ShiftIn(b, g), e)
    ensures forall e :: e >= g ==> Bit(ShiftIn(b, g), e) == Bit(b, e - g)
  {
    ShiftBits(b, g);
  }

  lemma {:induction false} AddPowerBits(b: nat, d: nat)
    requires !Bit(b, d)
    ensures Bit(b + Pow2(d), d)
    ensures forall e :: e != d ==> Bit(b + Pow2(d), e) == Bit(b, e)
    decreases d
  {
    forall e | e != d
      ensures Bit(b + Pow2(d), e) == Bit(b, e)
    {
      AddPowerBitsAt(b, d, e);
    }
    if d > 0 {
      AddPowerBits(b / 2, d - 1);
      assert (b + Pow2(d)) / 2 == b / 2 + Pow2(d - 1);
    }
  }

  lemma {:induction false} AddPowerBitsAt(b: nat, d: nat, e: nat)
    requires !Bit(b, d) && e != d
    ensures Bit(b + Pow2(d), e) == Bit(b, e)
    decreases d
  {
    if d == 0 {
      assert e > 0;
      assert (b + 1) / 2 == b / 2;
    } else {
      assert (b + Pow2(d)) / 2 == b / 2 + Pow2(d - 1);
      assert (b + Pow2(d)) % 2 == b % 2;
      if e > 0 {
        AddPowerBitsAt(b / 2, d - 1, e - 1);
      }
    }
  }

  lemma ShiftBits(b: nat, g: nat)
    requires g >= 1
    ensures var r := b * Pow2(g) + 1;
      Bit(r, 0) &&
      (forall e :: 0 < e < g ==> !Bit(r, e)) &&
      (forall e :: e >= g ==> Bit(r, e) == Bit(b, e - g))
  {
    var r := b * Pow2(g) + 1;
    assert b * Pow2(g) == 2 * (b * Pow2(g - 1));
    assert r % 2 == 1 && r / 2 == b * Pow2(g - 1);
    forall e | e > 0
      ensures Bit(r, e) == (e >= g && Bit(b, e - g))
    {
      MulPowBits(b, g - 1, e - 1);
    }
  }

  /** Bit e of b·2^g is bit e−g of b, and clear below g. */
  lemma {:induction false} MulPowBits(b: nat, g: nat, e: nat)
    ensures Bit(b * Pow2(g), e) == (e >= g && Bit(b, e - g))
    decreases g
  {
    if g > 0 {
      assert b * Pow2(g) == 2 * (b * Pow2(g - 1));
      if e == 0 {
        assert (b * Pow2(g)) % 2 == 0;
      } else {
        assert (b * Pow2(g)) / 2 == b * Pow2(g - 1);
        MulPowBits(b, g - 1, e - 1);
      }
    }
  }

  datatype Window = Window(highest: nat, bitmap: nat)

  /** The window of a fresh handler. */
  const INITIAL_WINDOW: Window := Window(0, 0)

  /** `_check_replay(counter)`: true when the counter has not been seen and is not too old. */
  predicate Check(w: Window, counter: nat) {
    if counter + WINDOW_SIZE < w.highest then false
    else if counter > w.highest then true
    else
      var diff := w.highest - counter;
      if diff >= WINDOW_SIZE then false
      else !Bit(w.bitmap, diff)
  }

  /** `_update_replay_window(counter)`: slide forward on a new high, otherwise mark the bit. */
  function Update(w: Window, counter: nat): (r: Window)
    ensures r.highest >= w.highest && r.highest >= counter
    ensures r.highest == w.highest || r.highest == counter
    ensures counter > w.highest && counter - w.highest >= WINDOW_SIZE ==> r.bitmap == 1
  {
    if counter > w.highest then
      var diff := counter - w.highest;
      Window(counter, if diff < WINDOW_SIZE then ShiftIn(w.bitmap, diff) else 1)
    else
      Window(w.highest, SetBit(w.bitmap, w.highest - counter))
  }

  /**
   * The acceptance rule in one statement: a counter is accepted iff it is a
   * new high, or lies less than 64 behind the highest and is unmarked.
   */
  lemma CheckSpec(w: Window, counter: nat)
    ensures Check(w, counter) <==>
      counter > w.highest ||
      (w.highest - counter < WINDOW_SIZE && !Bit(w.bitmap, w.highest - counter))
  {
  }

  /** After the window records a counter, that counter is refused. */
  lemma UpdateRejects(w: Window, counter: nat)
    ensures !Check(Update(w, counter), counter)
  {
    if counter > w.highest {
      if counter - w.highest < WINDOW_SIZE {
        ShiftInSpec(w.bitmap, counter - w.highest);
      }
    } else {
      SetBitSpec(w.bitmap, w.highest - counter);
    }
  }

  /** A counter the window refuses stays refused after any further update. */
  lemma {:induction false} RejectedStaysRejected(w: Window, x: nat, counter: nat)
    requires !Check(w, x)
    ensures !Check(Update(w, counter), x)
  {
    CheckSpec(w, x);
    CheckSpec(Update(w, counter), x);
    if counter > w.highest {
      var gap := counter - w.highest;
      if gap < WINDOW_SIZE && w.highest - x < WINDOW_SIZE {
        ShiftInSpec(w.bitmap, gap);
        assert Bit(Update(w, counter).bitmap, counter - x) == Bit(w.bitmap, w.highest - x);
      }
    } else {
      SetBitSpec(w.bitmap, w.highest - counter);
    }
  }

  /** A higher counter keeps the marks still inside the window, moved up by the gap. */
  lemma SlideKeepsMarks(w: Window, counter: nat, d: nat)
    requires counter > w.highest && counter - w.highest < WINDOW_SIZE
    requires d + (counter - w.highest) < WINDOW_SIZE
    ensures Bit(Update(w, counter).bitmap, d + (counter - w.highest)) == Bit(w.bitmap, d)
  {
    ShiftInSpec(w.bitmap, counter - w.highest);
  }

  predicate Distinct(s: seq<nat>) {
    forall i, j :: 0 <= i < j < |s| ==> s[i] != s[j]
  }

  /** Feeding counters to the window in order: it records each counter it accepts. */
  function Run(w: Window, counters: seq<nat>): (r: (Window, seq<nat>))
    decreases |counters|
  {
    if counters == [] then (w, [])
    else
      var c := counters[0];
      if Check(w, c) then
        var rest := Run(Update(w, c), counters[1..]);
        (rest.0, [c] + rest.1)
      else Run(w, counters[1..])
  }

  /**
   * At-most-once delivery: along any sequence of arriving counters, the
   * accepted ones are pairwise distinct, and each is refused by the final window.
   */
  lemma {:induction false} RunAcceptsAtMostOnce(w: Window, counters: seq<nat>)
    ensures Distinct(Run(w, counters).1)
    ensures forall i :: 0 <= i < |Run(w, counters).1| ==> !Check(Run(w, counters).0, Run(w, counters).1[i])
    decreases |counters|
  {
    if counters != [] {
      var c := counters[0];
      if Check(w, c) {
        var w' := Update(w, c);
        RunAcceptsAtMostOnce(w', counters[1..]);
        UpdateRejects(w, c);
        RunKeepsRejected(w', counters[1..], c);
      } else {
        assert Run(w, counters) == Run(w, counters[1..]);
        RunAcceptsAtMostOnce(w, counters[1..]);
      }
    }
  }

  /** A refused counter is never accepted later in a run and is still refused at its end. */
  lemma {:induction false} RunKeepsRejected(w: Window, counters: seq<nat>, x: nat)
    requires !Check(w, x)
    ensures x !in Run(w, counters).1 && !Check(Run(w, counters).0, x)
    decreases |counters|
  {
    if counters != [] {
      var c := counters[0];
      if Check(w, c) {
        RejectedStaysRejected(w, x, c);
        RunKeepsRejected(Update(w, c), counters[1..], x);
      } else {
        RunKeepsRejected(w, counters[1..], x);
      }
    }
  }

  /** Strictly increasing counters, as one sender emits them, are all accepted by a fresh window. */
  lemma {:induction false} IncreasingRunAllAccepted(w: Window, counters: seq<nat>)
    requires forall i :: 0 <= i < |counters| ==> counters[i] > w.highest
    requires forall i, j :: 0 <= i < j < |counters| ==> counters[i] < counters[j]
    ensures Run(w, counters).1 == counters
    decreases |counters|
  {
    if counters != [] {
      var c := counters[0];
      assert Check(w, c);
      IncreasingRunAllAccepted(Update(w, c), counters[1..]);
    }
  }

  /**
   * A fresh handler accepts every strictly increasing stream in full,
   * counter 0 included: the first counter is checked against the empty
   * window and becomes the highest, and every later one lies above it.
   */
  lemma {:induction false} FreshWindowAcceptsInOrder(counters: seq<nat>)
    requires forall i, j :: 0 <= i < j < |counters| ==> counters[i] < counters[j]
    ensures Run(INITIAL_WINDOW, counters).1 == counters
  {
    if counters != [] {
      var c := counters[0];
      assert !Bit(0, 0);
      assert Check(INITIAL_WINDOW, c);
      var w' := Update(INITIAL_WINDOW, c);
      assert w'.highest == c;
      var rest := counters[1..];
      assert forall i :: 0 <= i < |rest| ==> rest[i] == counters[i + 1];
      IncreasingRunAllAccepted(w', rest);
    }
  }
}
