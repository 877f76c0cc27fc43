/**
 * Classification of a percent price change into a MarketState, and the
 * trend score that `predictMarket` computes over the market history
 * (AetherTrader.java).
 */
module Market {

  /** The short-term market movement of one sample. */
  datatype MarketState = VolatileUp | UUp | Up | Flat | Dw | DDw | VolatileDw | Unknown

  /** The direction `predictMarket` reports. */
  datatype Trend = Up | Flat | Down

  /**
   * Twice the weight `v` an enum constant carries (2, 1, 0.5, 0, -0.5,
   * -1, -2 and 0 for UNKNOWN); every weight is a multiple of 0.5.
   */
  function Weight2(m: MarketState): int
  {
    match m
    case VolatileUp => 4
    case UUp => 2
    case Up => 1
    case Flat => 0
    case Dw => -1
    case DDw => -2
    case VolatileDw => -4
    case Unknown => 0
  }

  /**
   * `getMarketState`: buckets a percent change. The boundaries are those of
   * the code (1.5% between UP and UUP), which partition the whole axis.
   */
  function Classify(percent: real): (m: MarketState)
    ensures m != MarketState.Unknown
    ensures m == MarketState.Flat <==> -0.20 < percent < 0.20
    ensures m == MarketState.Up <==> 0.20 <= percent < 1.5
    ensures m == MarketState.UUp <==> 1.5 <= percent < 5.0
    ensures m == MarketState.VolatileUp <==> 5.0 <= percent
    ensures m == MarketState.Dw <==> -1.5 < percent <= -0.20
    ensures m == MarketState.DDw <==> -5.0 < percent <= -1.5
    ensures m == MarketState.VolatileDw <==> percent <= -5.0
  {
    if percent < 0.20 && percent > -0.20 then MarketState.Flat
    else if percent > 0.0 then
      if percent < 1.5 then MarketState.Up
      else if percent < 5.0 then MarketState.UUp
      else MarketState.VolatileUp
    else
      if percent > -1.5 then MarketState.Dw
      else if percent > -5.0 then MarketState.DDw
      else MarketState.VolatileDw
  }

  /** A larger change never lands in a bucket of smaller weight. */
  lemma ClassifyMonotone(p: real, q: real)
    requires p <= q
    ensures Weight2(Classify(p)) <= Weight2(Classify(q))
  {
  }

  /**
   * Java's `(int) (x * 1.25)`: five quarters of `x`, truncated toward zero
   * (not rounded down, which Dafny's `/` would do for negative `x`).
   */
  function FiveQuarters(x: int): (r: int)
    ensures x >= 0 ==> 0 <= 4 * r <= 5 * x < 4 * r + 4
    ensures x < 0 ==> 4 * r - 4 < 5 * x <= 4 * r <= 0
  {
    if x >= 0 then (5 * x) / 4 else -((-5 * x) / 4)
  }

  /** Java's `(int) (x * 0.75)`: three quarters of `x`, truncated toward zero. */
  function ThreeQuarters(x: int): (r: int)
    ensures x >= 0 ==> 0 <= 4 * r <= 3 * x < 4 * r + 4
    ensures x < 0 ==> 4 * r - 4 < 3 * x <= 4 * r <= 0
  {
    if x >= 0 then (3 * x) / 4 else -((-3 * x) / 4)
  }

  /** One step of the `overall` accumulator: `overall *= 1.25`, `*= 0.75`, `+=` or `-=`. */
  function ScoreStep(overall: int, m: MarketState): int
  {
    match m
    case VolatileUp => FiveQuarters(overall)
    case UUp => overall + 2
    case Up => overall + 1
    case Flat => ThreeQuarters(overall)
    case Dw => overall - 1
    case DDw => overall - 2
    case VolatileDw => FiveQuarters(overall)
    case Unknown => overall
  }

  /** `LinkedList.indexOf`: the first position holding `x`, or -1. */
  function IndexOf<T(==)>(s: seq<T>, x: T): (i: int)
    ensures -1 <= i < |s|
    ensures i >= 0 ==> s[i] == x && forall j :: 0 <= j < i ==> s[j] != x
    ensures i == -1 ==> x !in s
  {
    if s == [] then -1
    else if s[0] == x then 0
    else var k := IndexOf(s[1..], x); if k == -1 then -1 else k + 1
  }

  /** The three loop variables of `predictMarket` besides `last`. */
  datatype Tally = Tally(overall: int, allUp: bool, allDw: bool)

  /**
   * The loop state of `predictMarket` after visiting the first `n` elements
   * of `h`, head (newest) first. The monotonicity test is skipped for every
   * element whose `indexOf` is 0, i.e. every element equal to the head.
   */
  function TallyOf(h: seq<MarketState>, n: nat): Tally
    requires n <= |h|
  {
    if n == 0 then Tally(0, true, true)
    else
      var t := TallyOf(h, n - 1);
      var ms := h[n - 1];
      var flags :=
        if IndexOf(h, ms) == 0 then (t.allUp, t.allDw)
        else if t.allUp && Weight2(ms) < Weight2(h[n - 2]) then (false, t.allDw)
        else if t.allDw && Weight2(ms) > Weight2(h[n - 2]) then (t.allUp, false)
        else (t.allUp, t.allDw);
      Tally(ScoreStep(t.overall, ms), flags.0, flags.1)
  }

  /**
   * `decider = overall * 1.0 + ((allUp ? 1 : 0) + (allDw ? -1 : 0)) * 1.5`.
   * Its sign is that of `2 * overall + 3 * (allUp - allDw)`.
   */
  function Decider(t: Tally): (d: real)
    ensures var k := 2 * t.overall + 3 * ((if t.allUp then 1 else 0) - (if t.allDw then 1 else 0));
      (d > 0.0 <==> k > 0) && (d < 0.0 <==> k < 0) && (d == 0.0 <==> k == 0)
  {
    t.overall as real * 1.0 + ((if t.allUp then 1 else 0) + (if t.allDw then -1 else 0)) as real * 1.5
  }

  /** The trend `predictMarket` returns for the history `h` (newest first). */
  function PredictTrend(h: seq<MarketState>): (r: Trend)
    ensures MarketState.Unknown in h ==> r == Trend.Flat
    ensures h == [] ==> r == Trend.Flat
  {
    var d := Decider(TallyOf(h, |h|));
    if MarketState.Unknown in h then Trend.Flat
    else if d > 0.0 then Trend.Up
    else if d < 0.0 then Trend.Down
    else Trend.Flat
  }

  /** `predictMarket`: one pass over the history, head to tail. */
  method PredictMarket(h: seq<MarketState>) returns (trend: Trend)
    ensures trend == PredictTrend(h)
  {
    var overall := 0;
    var allUp := true;
    var allDw := true;
    var last := MarketState.Unknown;  // null before the first element
    for i := 0 to |h|
      invariant Tally(overall, allUp, allDw) == TallyOf(h, i)
      invariant i > 0 ==> last == h[i - 1]
    {
      var ms := h[i];
      if IndexOf(h, ms) != 0 {
        if allUp && Weight2(ms) < Weight2(last) {
          allUp := false;
        } else if allDw && Weight2(ms) > Weight2(last) {
          allDw := false;
        }
      }
      overall := ScoreStep(overall, ms);
      last := ms;
    }
    var decider := Decider(Tally(overall, allUp, allDw));
    if MarketState.Unknown in h {
      trend := Trend.Flat;
    } else if decider > 0.0 {
      trend := Trend.Up;
    } else if decider < 0.0 {
      trend := Trend.Down;
    } else {
      trend := Trend.Flat;
    }
  }

  /**
   * What `allUp` means: it survives iff no compared element is lighter than
   * its predecessor, where an element is compared only when it differs from
   * the head (the `indexOf(ms) != 0` test).
   */
  lemma {:induction false} AllUpMeaning(h: seq<MarketState>, n: nat)
    requires n <= |h|
    ensures TallyOf(h, n).allUp <==>
      forall i :: 1 <= i < n && h[i] != h[0] ==> Weight2(h[i - 1]) <= Weight2(h[i])
  {
    if n > 0 {
      AllUpMeaning(h, n - 1);
      var ms := h[n - 1];
      assert IndexOf(h, ms) == 0 <==> ms == h[0];
    }
  }

  /** What `allDw` means: it survives iff no compared element is heavier than its predecessor. */
  lemma {:induction false} AllDwMeaning(h: seq<MarketState>, n: nat)
    requires n <= |h|
    ensures TallyOf(h, n).allDw <==>
      forall i :: 1 <= i < n && h[i] != h[0] ==> Weight2(h[i - 1]) >= Weight2(h[i])
  {
    if n > 0 {
      AllDwMeaning(h, n - 1);
      var ms := h[n - 1];
      assert IndexOf(h, ms) == 0 <==> ms == h[0];
    }
  }

  /**
   * The `indexOf` quirk: in [UP, DW, UP] the last UP equals the head and is
   * never compared, so `allDw` stays true although the history rises again,
   * and the history is read as falling despite a positive score.
   */
  lemma IndexOfQuirk()
    ensures TallyOf([MarketState.Up, MarketState.Dw, MarketState.Up], 3) == Tally(1, false, true)
    ensures PredictTrend([MarketState.Up, MarketState.Dw, MarketState.Up]) == Trend.Down
  {
    var h := [MarketState.Up, MarketState.Dw, MarketState.Up];
    assert IndexOf(h, MarketState.Dw) == 1;
    assert TallyOf(h, 1) == Tally(1, true, true);
    assert TallyOf(h, 2) == Tally(0, false, true);
  }

  /** Five UP samples: both flags stay set (every element equals the head) and the trend is UP. */
  lemma SteadyRise()
    ensures var h := [MarketState.Up, MarketState.Up, MarketState.Up, MarketState.Up, MarketState.Up];
      TallyOf(h, 5) == Tally(5, true, true) && PredictTrend(h) == Trend.Up
  {
    var h := [MarketState.Up, MarketState.Up, MarketState.Up, MarketState.Up, MarketState.Up];
    assert TallyOf(h, 1) == Tally(1, true, true);
    assert TallyOf(h, 2) == Tally(2, true, true);
    assert TallyOf(h, 3) == Tally(3, true, true);
    assert TallyOf(h, 4) == Tally(4, true, true);
  }

  /**
   * The multiplicative steps do not commute with the additive ones, so the
   * newest-first order of the history matters: UUP then FLAT scores 1,
   * FLAT then UUP scores 2.
   */
  lemma ScoreOrderMatters()
    ensures TallyOf([MarketState.UUp, MarketState.Flat], 2).overall == 1
    ensures TallyOf([MarketState.Flat, MarketState.UUp], 2).overall == 2
  {
    assert TallyOf([MarketState.UUp, MarketState.Flat], 1).overall == 2;
    assert TallyOf([MarketState.Flat, MarketState.UUp], 1).overall == 0;
  }

  /** The int accumulator truncates toward zero: -1 * 1.25 gives -1 and -2 * 0.75 gives -1. */
  lemma TruncatesTowardZero()
    ensures ScoreStep(-1, MarketState.VolatileDw) == -1
    ensures ScoreStep(-2, MarketState.Flat) == -1
    ensures ScoreStep(3, MarketState.VolatileUp) == 3
  {
  }

  /** A history without any falling bucket never gives a negative score. */
  lemma {:induction false} RisingScoreNonNegative(h: seq<MarketState>, n: nat)
    requires n <= |h|
    requires forall i :: 0 <= i < n ==> Weight2(h[i]) >= 0
    ensures TallyOf(h, n).overall >= 0
  {
    if n > 0 {
      RisingScoreNonNegative(h, n - 1);
    }
  }

  /** A history without any rising bucket never gives a positive score. */
  lemma {:induction false} FallingScoreNonPositive(h: seq<MarketState>, n: nat)
    requires n <= |h|
    requires forall i :: 0 <= i < n ==> Weight2(h[i]) <= 0
    ensures TallyOf(h, n).overall <= 0
  {
    if n > 0 {
      FallingScoreNonPositive(h, n - 1);
    }
  }
}
