/** Arithmetic of proportional shares: floor(t p / S). */
module Shares {
  import opened Numbers
  import opened Processor

  lemma ShareBounds(t: nat, p: nat, S: nat)
    requires S > 0
    ensures Share(t, p, S) * S <= t * p < (Share(t, p, S) + 1) * S
  {
    FloorBounds(t * p, S);
  }

  lemma ShareIff(t: nat, p: nat, S: nat, q: nat)
    requires S > 0
    ensures q <= Share(t, p, S) <==> q * S <= t * p
  {
    FloorIff(t * p, S, q);
  }

  /** Redeeming at most the supply never asks a vault for more than it holds. */
  lemma ShareAtMostVault(t: nat, p: nat, S: nat)
    requires S > 0 && t <= S
    ensures Share(t, p, S) <= p
    ensures t == S ==> Share(t, p, S) == p
  {
    MulMonotone(t, S, p, p);
    ShareIff(t, p, S, p);
    ShareBounds(t, p, S);
    CancelFactor(Share(t, p, S), p, S);
  }

  // ----- Deposit then redeem -----

  /** The round trip on one vault: a deposit that mints E pays share(E); redeeming t <= E right after it
      returns no more than was paid, and redeeming all of E returns exactly what was paid. */
  lemma RoundTrip(E: nat, p: nat, S: nat, t: nat)
    requires S > 0 && t <= E
    ensures var paid := Share(E, p, S);
            && Share(t, p + paid, S + E) <= paid
            && (t == E ==> Share(t, p + paid, S + E) == paid)
  {
    var paid := Share(E, p, S);
    ShareBounds(E, p, S);
    MulMonotone(t, E, p + paid, p + paid);
    assert E * (p + paid) == E * p + E * paid;
    assert (paid + 1) * (S + E) == (paid + 1) * S + paid * E + E;
    assert paid * (S + E) == paid * S + paid * E;
    ShareIff(t, p + paid, S + E, paid + 1);
    ShareIff(t, p + paid, S + E, paid);
  }

  /** A deposit keeps the backing of a token to within one base unit: p/S against p'/(S + E). */
  lemma BackingAfterDeposit(E: nat, p: nat, S: nat)
    requires S > 0
    ensures var p' := p + Share(E, p, S);
            p * (S + E) - S < p' * S <= p * (S + E)
  {
    ShareBounds(E, p, S);
    var q := Share(E, p, S);
    assert (p + q) * S == p * S + q * S;
    assert p * (S + E) == p * S + E * p;
    assert (q + 1) * S == q * S + S;
  }

  // ----- Runs of redemptions -----

  /** p1 of S1 is what is left of p of S after m redemptions: at least the exact proportion, and less
      than m units above it. */
  ghost predicate LeftAfter(p: nat, S: nat, p1: nat, S1: nat, m: nat) {
    p * S1 <= p1 * S <= p * S1 + m * S && (m > 0 ==> p1 * S < p * S1 + m * S)
  }

  lemma RemainderBounds(p1: nat, S1: nat, t: nat)
    requires S1 > 0 && t <= S1
    ensures var p2, S2 := p1 - Share(t, p1, S1), S1 - t;
            0 <= p2 && p1 * S2 <= p2 * S1 < p1 * S2 + S1
  {
    ShareAtMostVault(t, p1, S1);
    ShareBounds(t, p1, S1);
    var q := Share(t, p1, S1);
    assert (p1 - q) * S1 == p1 * S1 - q * S1;
    assert p1 * (S1 - t) == p1 * S1 - t * p1;
    assert (q + 1) * S1 == q * S1 + S1;
  }

  lemma LowerStep(p: nat, S: nat, p1: nat, S1: nat, p2: nat, S2: nat)
    requires S1 > 0 && p * S1 <= p1 * S && p1 * S2 <= p2 * S1
    ensures p * S2 <= p2 * S
  {
    MulMonotone(p * S1, p1 * S, S2, S2);
    MulMonotone(p1 * S2, p2 * S1, S, S);
    assert (p * S1) * S2 == (p * S2) * S1;
    assert (p1 * S) * S2 == (p1 * S2) * S;
    assert (p2 * S1) * S == (p2 * S) * S1;
    CancelFactor(p * S2, p2 * S, S1);
  }

  lemma ScaledLess(a: nat, b: nat, c: nat, d: nat, s: nat)
    requires s > 0 && a * b < c * d + b
    ensures (a * s) * b < (c * s) * d + s * b
  {
    var x, y := a * b, c * d + b;
    CancelFactor(y, x, s);
    assert x * s == (a * s) * b;
    assert y * s == (c * s) * d + s * b;
  }

  lemma ScaledAtMost(x: nat, p: nat, s1: nat, extra: nat, s2: nat)
    requires x <= p * s1 + extra
    ensures x * s2 <= (p * s2) * s1 + extra * s2
  {
    MulMonotone(x, p * s1 + extra, s2, s2);
    assert (p * s1 + extra) * s2 == (p * s2) * s1 + extra * s2;
  }

  lemma UpperStep(p: nat, S: nat, p1: nat, S1: nat, p2: nat, S2: nat, mS: nat)
    requires S > 0 && 0 < S1 && S2 <= S1
    requires p1 * S <= p * S1 + mS && p2 * S1 < p1 * S2 + S1
    ensures p2 * S < p * S2 + mS + S
  {
    ScaledLess(p2, S1, p1, S2, S);
    ScaledAtMost(p1 * S, p, S1, mS, S2);
    MulMonotone(mS, mS, S2, S1);
    var bound, left := p * S2 + mS + S, p2 * S;
    assert bound * S1 == (p * S2) * S1 + mS * S1 + S * S1;
    CancelFactor(bound, left, S1);
  }

  /** One more redemption keeps the relation. */
  lemma RedeemOnce(p: nat, S: nat, p1: nat, S1: nat, m: nat, t: nat)
    requires LeftAfter(p, S, p1, S1, m) && 0 < S1 && S > 0 && t <= S1
    ensures Share(t, p1, S1) <= p1
    ensures LeftAfter(p, S, p1 - Share(t, p1, S1), S1 - t, m + 1)
  {
    RemainderBounds(p1, S1, t);
    LowerStep(p, S, p1, S1, p1 - Share(t, p1, S1), S1 - t);
    UpperStep(p, S, p1, S1, p1 - Share(t, p1, S1), S1 - t, m * S);
    assert (m + 1) * S == m * S + S;
  }

  /** A later redemption of t pays at least what t was worth at the start. */
  lemma LaterIsNoWorse(p: nat, S: nat, p1: nat, S1: nat, t: nat)
    requires S > 0 && S1 > 0 && p * S1 <= p1 * S
    ensures Share(t, p, S) <= Share(t, p1, S1)
  {
    var q := Share(t, p, S);
    ShareBounds(t, p, S);
    MulMonotone(q * S, t * p, S1, S1);
    MulMonotone(t, t, p * S1, p1 * S);
    assert (t * p) * S1 == t * (p * S1);
    assert t * (p1 * S) == (t * p1) * S;
    assert (q * S) * S1 == (q * S1) * S;
    CancelFactor(q * S1, t * p1, S);
    ShareIff(t, p1, S1, q);
  }

  /** The relation turned into money: T tokens redeemed in m calls were paid the share of T, less at most m - 1. */
  lemma TotalPaid(p: nat, S: nat, p1: nat, T: nat, m: nat)
    requires S > 0 && m > 0 && T <= S && p1 <= p && LeftAfter(p, S, p1, S - T, m)
    ensures Share(T, p, S) - (m - 1) <= p - p1 <= Share(T, p, S)
  {
    var share, paid := Share(T, p, S), p - p1;
    assert p * (S - T) == p * S - T * p;
    assert paid * S == p * S - p1 * S;
    ShareBounds(T, p, S);
    ShareIff(T, p, S, paid);
    assert (paid + m) * S == paid * S + m * S;
    CancelFactor(paid + m, share, S);
  }

  // ----- Runs of deposits -----

  /** p1 of S1 is what p of S has become after m deposits: at most the exact proportion, and the first S
      tokens have lost less than m units of it. */
  ghost predicate GrownAfter(p: nat, S: nat, p1: nat, S1: nat, m: nat) {
    p1 * S <= p * S1 <= p1 * S + m * S1 && (m > 0 ==> p * S1 < p1 * S + m * S1)
  }

  lemma GrowthStep(p: nat, S: nat, p1: nat, S1: nat, p2: nat, S2: nat, m: nat)
    requires S1 > 0 && 0 < S <= S2
    requires p * S1 <= p1 * S + m * S1 && p1 * S2 < p2 * S1 + S1
    ensures p * S2 < p2 * S + (m + 1) * S2
  {
    var mine, left := p1 * S, p * S2;
    MulMonotone(p * S1, mine + m * S1, S2, S2);
    assert (p * S1) * S2 == left * S1;
    assert (mine + m * S1) * S2 == mine * S2 + (m * S2) * S1;
    ScaledGrowth(p1, S2, p2, S1, S);
    var bound := p2 * S + S + m * S2;
    assert bound * S1 == (p2 * S) * S1 + S * S1 + (m * S2) * S1;
    CancelFactor(bound, left, S1);
    assert (m + 1) * S2 == m * S2 + S2;
  }

  lemma ScaledGrowth(a: nat, b: nat, c: nat, d: nat, s: nat)
    requires s > 0 && a * b < c * d + d
    ensures (a * s) * b < (c * s) * d + s * d
  {
    var x, y := a * b, c * d + d;
    CancelFactor(y, x, s);
    assert x * s == (a * s) * b;
    assert y * s == (c * s) * d + s * d;
  }

  /** One more deposit keeps the relation. */
  lemma DepositOnce(p: nat, S: nat, p1: nat, S1: nat, m: nat, E: nat)
    requires GrownAfter(p, S, p1, S1, m) && 0 < S <= S1
    ensures GrownAfter(p, S, p1 + Share(E, p1, S1), S1 + E, m + 1)
  {
    var p2, S2 := p1 + Share(E, p1, S1), S1 + E;
    BackingAfterDeposit(E, p1, S1);
    GrowthStep(p, S, p1, S1, p2, S2, m);
    LowerStep(p2, S2, p1, S1, p, S);
  }

  /** Redeeming all T tokens of m deposits returns less than m units more than was paid for them: nothing more for m = 1. */
  lemma GainBelow(p: nat, S: nat, p1: nat, T: nat, m: nat)
    requires S > 0 && m > 0 && p <= p1 && GrownAfter(p, S, p1, S + T, m)
    ensures Share(T, p1, S + T) < p1 - p + m
  {
    var S1 := S + T;
    var back, paid := Share(T, p1, S1), p1 - p;
    ShareBounds(T, p1, S1);
    BelowGain(p, S, p1, T, S1, m * S1);
    assert (paid + m) * S1 == paid * S1 + m * S1;
    CancelFactor(paid + m, back, S1);
  }

  lemma BelowGain(p: nat, S: nat, p1: nat, T: nat, S1: nat, mS1: nat)
    requires S1 == S + T && p <= p1 && p * S1 < p1 * S + mS1
    ensures T * p1 < (p1 - p) * S1 + mS1
  {
    assert p1 * S1 == p1 * S + T * p1;
    assert (p1 - p) * S1 == p1 * S1 - p * S1;
  }
}
