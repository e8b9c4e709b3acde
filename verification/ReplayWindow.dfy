/**
 The 64-bit sliding replay window of a datagram channel. The bitmap refines the set of
 sequence numbers accepted so far, over every run of genuine and forged frames.
 */
module ReplayWindow {
  import opened Wrappers

  const REPLAY_WINDOW_BITS: nat := 64

  function Pow2(n: nat): (p: nat)
    ensures p > 0
  {
    if n == 0 then 1 else 2 * Pow2(n - 1)
  }

  /** Whether bit `d` is set. */
  predicate Bit(m: nat, d: nat) {
    if d == 0 then m % 2 == 1 else Bit(m / 2, d - 1)
  }

  /** The left shift of a 64-bit word, which loses the bits pushed out at the top. */
  function ShiftLeft(m: nat, d: nat): nat
    decreases d
  {
    if d == 0 then m else ShiftLeft(2 * m % Pow2(REPLAY_WINDOW_BITS), d - 1)
  }

  /** The word with bit `d` set. */
  function WithBit(m: nat, d: nat): nat
    decreases d
  {
    if d == 0 then m / 2 * 2 + 1 else 2 * WithBit(m / 2, d - 1) + m % 2
  }

  datatype Window = Window(highest: Option<U64>, bitmap: nat)

  /** The window after accepting a sequence number; None is a replay. */
  function Accept(w: Window, sequence: U64): Option<Window> {
    match w.highest
    case None => Some(Window(Some(sequence), 1))
    case Some(highest) =>
      if sequence > highest then
        var distance := sequence - highest;
        var bitmap := if distance >= REPLAY_WINDOW_BITS then 1 else WithBit(ShiftLeft(w.bitmap, distance), 0);
        Some(Window(Some(sequence), bitmap))
      else
        var distance := highest - sequence;
        if distance >= REPLAY_WINDOW_BITS || Bit(w.bitmap, distance) then None
        else Some(Window(w.highest, WithBit(w.bitmap, distance)))
  }

  // ---------------------------------------------------------------------------
  // Bits of words
  // ---------------------------------------------------------------------------

  lemma {:induction false} Scales(p: nat, a: nat, b: nat)
    requires a < b
    ensures p * a + p <= p * b
  {
    assert p * b == p * a + p * (b - a) && p * (b - a) == p + p * (b - a - 1);
  }

  lemma RemainderOfSum(p: nat, q: nat, s: nat)
    requires s < p
    ensures (p * q + s) % p == s
  {
    var n := p * q + s;
    var x := n / p;
    assert n == p * x + n % p;
    if x < q {
      Scales(p, x, q);
    } else if q < x {
      Scales(p, q, x);
    }
  }

  /** Halving commutes with truncation. */
  lemma Halves(m: nat, p: nat)
    requires p > 0
    ensures (m % (2 * p)) % 2 == m % 2
    ensures (m % (2 * p)) / 2 == (m / 2) % p
  {
    var q, r := m / (2 * p), m % (2 * p);
    assert m == 2 * (p * q) + r;
    assert m / 2 == p * q + r / 2 && m % 2 == r % 2;
    RemainderOfSum(p, q, r / 2);
  }

  lemma {:induction false} TruncationKeepsBit(m: nat, n: nat, i: nat)
    requires i < n
    ensures Bit(m % Pow2(n), i) == Bit(m, i)
    decreases n
  {
    Halves(m, Pow2(n - 1));
    if i > 0 {
      TruncationKeepsBit(m / 2, n - 1, i - 1);
    }
  }

  lemma {:induction false} ShiftedBit(m: nat, d: nat, i: nat)
    requires i < REPLAY_WINDOW_BITS
    ensures Bit(ShiftLeft(m, d), i) <==> i >= d && Bit(m, i - d)
    decreases d
  {
    if d > 0 {
      var next := 2 * m % Pow2(REPLAY_WINDOW_BITS);
      ShiftedBit(next, d - 1, i);
      if i >= d - 1 {
        TruncationKeepsBit(2 * m, REPLAY_WINDOW_BITS, i - (d - 1));
        assert 2 * m % 2 == 0 && 2 * m / 2 == m;
      }
    }
  }

  lemma {:induction false} SetBit(m: nat, d: nat, i: nat)
    ensures Bit(WithBit(m, d), i) <==> i == d || Bit(m, i)
    decreases d
  {
    var w := WithBit(m, d);
    if d == 0 {
      assert w / 2 == m / 2 && w % 2 == 1;
    } else {
      assert w / 2 == WithBit(m / 2, d - 1) && w % 2 == m % 2;
      if i > 0 {
        SetBit(m / 2, d - 1, i - 1);
      }
    }
  }

  lemma OneHasBitZero(i: nat)
    ensures Bit(1, i) <==> i == 0
  {
    if i > 0 {
      NoBits(i - 1);
    }
  }

  lemma {:induction false} NoBits(i: nat)
    ensures !Bit(0, i)
  {
    if i > 0 {
      NoBits(i - 1);
    }
  }

  // ---------------------------------------------------------------------------
  // Refinement
  // ---------------------------------------------------------------------------

  /** The reference: a sequence number is fresh when it is new and within the window. */
  ghost predicate Fresh(accepted: set<U64>, sequence: U64) {
    sequence !in accepted && forall a | a in accepted :: a < sequence + REPLAY_WINDOW_BITS
  }

  /** The bitmap records exactly the accepted numbers of the window below the highest. */
  ghost predicate Represents(w: Window, accepted: set<U64>) {
    match w.highest
    case None => accepted == {}
    case Some(highest) =>
      && highest in accepted
      && (forall a | a in accepted :: a <= highest)
      && (forall d: nat | d < REPLAY_WINDOW_BITS :: Bit(w.bitmap, d) <==> d <= highest && (highest - d) in accepted)
  }

  /** The window accepts exactly the fresh numbers. */
  lemma AcceptsExactlyFresh(w: Window, accepted: set<U64>, sequence: U64)
    requires Represents(w, accepted)
    ensures Accept(w, sequence).Some? <==> Fresh(accepted, sequence)
  {
    if w.highest.Some? && sequence <= w.highest.value {
      var distance := w.highest.value - sequence;
      if distance < REPLAY_WINDOW_BITS {
        assert Bit(w.bitmap, distance) <==> sequence in accepted;
      } else {
        assert w.highest.value in accepted;
      }
    }
  }

  lemma AdvanceBit(w: Window, accepted: set<U64>, sequence: U64, d: nat)
    requires Represents(w, accepted) && w.highest.Some? && sequence > w.highest.value && d < REPLAY_WINDOW_BITS
    ensures Bit(Accept(w, sequence).value.bitmap, d) <==> d <= sequence && (sequence - d) in accepted + {sequence}
  {
    hide Bit, ShiftLeft, WithBit;
    var highest := w.highest.value;
    var distance := sequence - highest;
    if distance >= REPLAY_WINDOW_BITS {
      OneHasBitZero(d);
    } else {
      SetBit(ShiftLeft(w.bitmap, distance), 0, d);
      ShiftedBit(w.bitmap, distance, d);
      if d >= distance {
        assert highest - (d - distance) == sequence - d;
        assert Bit(w.bitmap, d - distance) <==> d - distance <= highest && (highest - (d - distance)) in accepted;
      }
    }
  }

  /** Accepting keeps the bitmap and the set in step. */
  lemma AcceptKeepsRepresents(w: Window, accepted: set<U64>, sequence: U64)
    requires Represents(w, accepted) && Accept(w, sequence).Some?
    ensures Represents(Accept(w, sequence).value, accepted + {sequence})
  {
    hide Bit, ShiftLeft, WithBit;
    var w' := Accept(w, sequence).value;
    forall d: nat | d < REPLAY_WINDOW_BITS
      ensures Bit(w'.bitmap, d) <==> d <= w'.highest.value && (w'.highest.value - d) in accepted + {sequence}
    {
      if w.highest.None? {
        OneHasBitZero(d);
      } else if sequence > w.highest.value {
        AdvanceBit(w, accepted, sequence, d);
      } else {
        SetBit(w.bitmap, w.highest.value - sequence, d);
      }
    }
  }

  // ---------------------------------------------------------------------------
  // Runs
  // ---------------------------------------------------------------------------

  /** A received frame; only a genuine one authenticates. */
  datatype Arrival = Arrival(sequence: U64, genuine: bool)

  datatype Receiver = Receiver(window: Window, accepted: set<U64>)

  function Receive(r: Receiver, a: Arrival): Receiver {
    match Accept(r.window, a.sequence)
    case None => r
    case Some(next) => if a.genuine then Receiver(next, r.accepted + {a.sequence}) else r
  }

  function Run(arrivals: seq<Arrival>): Receiver {
    if arrivals == [] then Receiver(Window(None, 0), {})
    else Receive(Run(arrivals[..|arrivals| - 1]), arrivals[|arrivals| - 1])
  }

  lemma {:induction false} RunsKeepRepresents(arrivals: seq<Arrival>)
    ensures Represents(Run(arrivals).window, Run(arrivals).accepted)
  {
    if arrivals != [] {
      hide Represents, Accept;
      var r, a := Run(arrivals[..|arrivals| - 1]), arrivals[|arrivals| - 1];
      RunsKeepRepresents(arrivals[..|arrivals| - 1]);
      if Accept(r.window, a.sequence).Some? {
        AcceptKeepsRepresents(r.window, r.accepted, a.sequence);
      }
    }
  }

  /**
   After every run the next sequence number is accepted exactly when it was never accepted
   before and lies above the highest accepted one minus 64; bit d of the bitmap is set
   exactly when the highest minus d was accepted.
   */
  lemma {:induction false} WindowRefinesAcceptedSet(arrivals: seq<Arrival>, sequence: U64, d: nat)
    requires d < REPLAY_WINDOW_BITS
    ensures var r := Run(arrivals);
      && (Accept(r.window, sequence).Some? <==>
        sequence !in r.accepted && forall a | a in r.accepted :: sequence > a - REPLAY_WINDOW_BITS)
      && (r.window.highest == None <==> r.accepted == {})
      && (r.window.highest.Some? ==>
            && r.window.highest.value in r.accepted && (forall a | a in r.accepted :: a <= r.window.highest.value)
            && (Bit(r.window.bitmap, d) <==> d <= r.window.highest.value && (r.window.highest.value - d) in r.accepted))
  {
    hide Run, Accept, Bit;
    RunsKeepRepresents(arrivals);
    var r := Run(arrivals);
    AcceptsExactlyFresh(r.window, r.accepted, sequence);
    assert Fresh(r.accepted, sequence) <==>
      sequence !in r.accepted && forall a | a in r.accepted :: sequence > a - REPLAY_WINDOW_BITS;
  }

  lemma EightMore(n: nat)
    ensures Pow2(n + 8) == 256 * Pow2(n)
  {
    assert Pow2(n + 2) == 2 * Pow2(n + 1) == 4 * Pow2(n);
    assert Pow2(n + 4) == 2 * Pow2(n + 3) == 4 * Pow2(n + 2);
    assert Pow2(n + 6) == 2 * Pow2(n + 5) == 4 * Pow2(n + 4);
    assert Pow2(n + 8) == 2 * Pow2(n + 7) == 4 * Pow2(n + 6);
  }

  lemma WordSize(bits: nat)
    requires bits == REPLAY_WINDOW_BITS
    ensures Pow2(bits) == U64_MAX + 1
  {
    hide Pow2;
    EightMore(bits - 8);
    EightMore(bits - 16);
    EightMore(bits - 24);
    EightMore(bits - 32);
    EightMore(bits - 40);
    EightMore(bits - 48);
    EightMore(bits - 56);
    assert Pow2(bits - 56) == 256 by {
      EightMore(0);
      NoPower();
    }
  }

  lemma NoPower()
    ensures Pow2(0) == 1
  {
  }

  lemma {:induction false} SetBitFits(m: nat, d: nat, n: nat)
    requires d < n && m < Pow2(n)
    ensures WithBit(m, d) < Pow2(n)
    decreases d
  {
    if d > 0 {
      SetBitFits(m / 2, d - 1, n - 1);
    } else {
      assert Pow2(n) == 2 * Pow2(n - 1);
    }
  }

  lemma {:induction false} ShiftFits(m: nat, d: nat)
    requires m < Pow2(REPLAY_WINDOW_BITS)
    ensures ShiftLeft(m, d) < Pow2(REPLAY_WINDOW_BITS)
    decreases d
  {
    if d > 0 {
      ShiftFits(2 * m % Pow2(REPLAY_WINDOW_BITS), d - 1);
    }
  }

  /** In every run the bitmap is a 64-bit word. */
  lemma {:induction false} BitmapIsAWord(arrivals: seq<Arrival>)
    ensures Run(arrivals).window.bitmap <= U64_MAX
  {
    WordSize(REPLAY_WINDOW_BITS);
    if arrivals != [] {
      hide Bit, WithBit, ShiftLeft, Pow2;
      var before, a := arrivals[..|arrivals| - 1], arrivals[|arrivals| - 1];
      BitmapIsAWord(before);
      var w := Run(before).window;
      if w.highest.Some? {
        if a.sequence > w.highest.value {
          ShiftFits(w.bitmap, a.sequence - w.highest.value);
          SetBitFits(ShiftLeft(w.bitmap, a.sequence - w.highest.value), 0, REPLAY_WINDOW_BITS);
        } else if w.highest.value - a.sequence < REPLAY_WINDOW_BITS {
          SetBitFits(w.bitmap, w.highest.value - a.sequence, REPLAY_WINDOW_BITS);
        }
      }
    }
  }

  /** The genuine arrivals whose sequence number the window let through, in order. */
  function Delivered(arrivals: seq<Arrival>): seq<U64> {
    if arrivals == [] then []
    else
      var before, a := arrivals[..|arrivals| - 1], arrivals[|arrivals| - 1];
      if a.genuine && Accept(Run(before).window, a.sequence).Some? then Delivered(before) + [a.sequence]
        else Delivered(before)
  }

  /** No sequence number is delivered twice in any run. */
  lemma {:induction false} NothingDeliveredTwice(arrivals: seq<Arrival>)
    ensures forall x :: x in Delivered(arrivals) <==> x in Run(arrivals).accepted
    ensures forall i, j | 0 <= i < j < |Delivered(arrivals)| :: Delivered(arrivals)[i] != Delivered(arrivals)[j]
  {
    if arrivals != [] {
      hide Accept, Bit;
      var before, a := arrivals[..|arrivals| - 1], arrivals[|arrivals| - 1];
      NothingDeliveredTwice(before);
      RunsKeepRepresents(before);
      AcceptsExactlyFresh(Run(before).window, Run(before).accepted, a.sequence);
    }
  }
}
