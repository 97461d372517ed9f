/** Decimal odds and the home/draw/away outcome probabilities drawn from them
    (`odds_implied_probability`, `normalize_probs` and the three calls that
    turn the three match-result odds into displayed percentages). */
module OddsConverter {
  import opened Numbers

  /** The probability a decimal price implies: its reciprocal. */
  function ImpliedProbability(odds: real): (p: real)
    requires odds != 0.0
    ensures p * odds == 1.0
    ensures odds > 1.0 ==> 0.0 < p < 1.0
    ensures odds > 0.0 <==> p > 0.0
  {
    1.0 / odds
  }

  /** Reading a probability back as a price gives the original price: the
      conversion is its own inverse. */
  lemma {:induction false} ImpliedProbabilityInvolution(odds: real)
    requires odds != 0.0
    ensures ImpliedProbability(odds) != 0.0
    ensures ImpliedProbability(ImpliedProbability(odds)) == odds
  {
    var p := ImpliedProbability(odds);
    assert p * odds == 1.0;
  }

  /** Over positive prices a longer price always implies a smaller
      probability, and only a longer price does. */
  lemma {:induction false} ImpliedProbabilityDecreasing(a: real, b: real)
    requires a > 0.0 && b > 0.0
    ensures a < b <==> ImpliedProbability(a) > ImpliedProbability(b)
    ensures a == b <==> ImpliedProbability(a) == ImpliedProbability(b)
  {
    if a < b {
      ReciprocalOrder(a, b);
    } else if b < a {
      ReciprocalOrder(b, a);
    }
    if ImpliedProbability(a) == ImpliedProbability(b) {
      ImpliedProbabilityInvolution(a);
      ImpliedProbabilityInvolution(b);
    }
  }

  /** For positive reals, a smaller number has the larger reciprocal. */
  lemma {:induction false} ReciprocalOrder(a: real, b: real)
    requires a > 0.0 && b > 0.0 && a < b
    ensures 1.0 / a > 1.0 / b
  {
    var p, q := 1.0 / a, 1.0 / b;
    assert p * a == 1.0 && q * b == 1.0;
    assert q * a < q * b;
  }

  /** A home/draw/away triple. */
  datatype ThreeWay = ThreeWay(home: real, draw: real, away: real)

  /** The sum of the three components. */
  function Total(t: ThreeWay): real
  {
    t.home + t.draw + t.away
  }

  /** The triple divided by its own sum. */
  function NormalizeProbs(home: real, draw: real, away: real): (r: ThreeWay)
    requires home + draw + away != 0.0
    ensures Total(r) == 1.0
    ensures r.home * (home + draw + away) == home
    ensures r.draw * (home + draw + away) == draw
    ensures r.away * (home + draw + away) == away
  {
    var total := home + draw + away;
    DivideDistribute(home + draw, home, draw, total);
    DivideDistribute(total, home + draw, away, total);
    DivideSelf(total);
    ThreeWay(home / total, draw / total, away / total)
  }

  /** Positive inputs give outputs strictly between 0 and 1. */
  lemma {:induction false} NormalizeProbsBounds(home: real, draw: real, away: real)
    requires home > 0.0 && draw > 0.0 && away > 0.0
    ensures var r := NormalizeProbs(home, draw, away);
      0.0 < r.home < 1.0 && 0.0 < r.draw < 1.0 && 0.0 < r.away < 1.0
  {
    var total := home + draw + away;
    ProperFraction(home, total);
    ProperFraction(draw, total);
    ProperFraction(away, total);
  }

  /** A positive part of a larger total is a proper fraction of it. */
  lemma {:induction false} ProperFraction(x: real, total: real)
    requires 0.0 < x < total
    ensures 0.0 < x / total < 1.0
  {
    DivideDistribute(total, x, total - x, total);
    DivideSelf(total);
    assert (total - x) / total > 0.0;
  }

  /** Dividing by a positive total keeps both the strict and the weak order
      of two numbers, in both directions. */
  lemma {:induction false} QuotientOrder(x: real, y: real, total: real)
    requires total > 0.0
    ensures x <= y <==> x / total <= y / total
    ensures x < y <==> x / total < y / total
  {
    var p, q := x / total, y / total;
    assert p * total == x && q * total == y;
    if p < q {
      assert p * total < q * total;
    }
    if p == q {
      assert x == y;
    }
  }

  /** With a positive total, normalising keeps the order of every pair of
      outcomes: one outcome is at least as likely as another before exactly
      when it is after, and likewise for strictly more likely. */
  lemma {:induction false} NormalizeProbsOrder(home: real, draw: real, away: real)
    requires home + draw + away > 0.0
    ensures var r := NormalizeProbs(home, draw, away);
      && (home <= draw <==> r.home <= r.draw) && (home < draw <==> r.home < r.draw)
      && (home <= away <==> r.home <= r.away) && (home < away <==> r.home < r.away)
      && (draw <= away <==> r.draw <= r.away) && (draw < away <==> r.draw < r.away)
      && (draw <= home <==> r.draw <= r.home) && (draw < home <==> r.draw < r.home)
      && (away <= home <==> r.away <= r.home) && (away < home <==> r.away < r.home)
      && (away <= draw <==> r.away <= r.draw) && (away < draw <==> r.away < r.draw)
  {
    var total := home + draw + away;
    QuotientOrder(home, draw, total);
    QuotientOrder(home, away, total);
    QuotientOrder(draw, away, total);
    QuotientOrder(draw, home, total);
    QuotientOrder(away, home, total);
    QuotientOrder(away, draw, total);
  }

  /** Normalising an already normalised triple changes nothing. */
  lemma {:induction false} NormalizeProbsIdempotent(home: real, draw: real, away: real)
    requires home + draw + away != 0.0
    ensures var r := NormalizeProbs(home, draw, away);
      r.home + r.draw + r.away != 0.0 && NormalizeProbs(r.home, r.draw, r.away) == r
  {
    var r := NormalizeProbs(home, draw, away);
    assert Total(r) == 1.0;
  }

  /** Scaling all three inputs by the same non-zero factor leaves the result
      unchanged: only the ratios between the outcomes matter. */
  lemma {:induction false} NormalizeProbsScaleInvariant(home: real, draw: real, away: real, c: real)
    requires home + draw + away != 0.0 && c != 0.0
    ensures c * home + c * draw + c * away != 0.0
    ensures NormalizeProbs(c * home, c * draw, c * away) == NormalizeProbs(home, draw, away)
  {
    var total := home + draw + away;
    assert c * home + c * draw + c * away == c * total;
    CancelFactor(home, total, c);
    CancelFactor(draw, total, c);
    CancelFactor(away, total, c);
  }

  /** A common non-zero factor cancels from a quotient. */
  lemma {:induction false} CancelFactor(x: real, total: real, c: real)
    requires total != 0.0 && c != 0.0
    ensures c * total != 0.0
    ensures (c * x) / (c * total) == x / total
  {
    var q := x / total;
    assert q * total == x;
    assert (c * x) == q * (c * total);
  }

  /** The displayed home/draw/away probabilities: the implied probability of
      each price, normalised so that the three add up to 1. */
  function MatchOutcomeProbabilities(homeOdds: real, drawOdds: real, awayOdds: real): (r: ThreeWay)
    requires homeOdds != 0.0 && drawOdds != 0.0 && awayOdds != 0.0
    requires ImpliedProbability(homeOdds) + ImpliedProbability(drawOdds) + ImpliedProbability(awayOdds) != 0.0
    ensures Total(r) == 1.0
  {
    NormalizeProbs(ImpliedProbability(homeOdds), ImpliedProbability(drawOdds), ImpliedProbability(awayOdds))
  }

  /** The implied probabilities of three prices, before normalising. */
  function Implied(homeOdds: real, drawOdds: real, awayOdds: real): (t: ThreeWay)
    requires homeOdds != 0.0 && drawOdds != 0.0 && awayOdds != 0.0
  {
    ThreeWay(ImpliedProbability(homeOdds), ImpliedProbability(drawOdds), ImpliedProbability(awayOdds))
  }

  /** With positive prices, the outcome with the shorter price gets the larger
      displayed probability, and equal prices get equal probabilities. */
  lemma {:induction false} MatchOutcomeFavourite(homeOdds: real, drawOdds: real, awayOdds: real)
    requires homeOdds > 0.0 && drawOdds > 0.0 && awayOdds > 0.0
    ensures ImpliedProbability(homeOdds) + ImpliedProbability(drawOdds) + ImpliedProbability(awayOdds) > 0.0
    ensures var r := MatchOutcomeProbabilities(homeOdds, drawOdds, awayOdds);
      && (homeOdds < drawOdds <==> r.home > r.draw) && (homeOdds == drawOdds <==> r.home == r.draw)
      && (homeOdds < awayOdds <==> r.home > r.away) && (homeOdds == awayOdds <==> r.home == r.away)
      && (drawOdds < awayOdds <==> r.draw > r.away) && (drawOdds == awayOdds <==> r.draw == r.away)
      && (drawOdds < homeOdds <==> r.draw > r.home)
      && (awayOdds < homeOdds <==> r.away > r.home)
      && (awayOdds < drawOdds <==> r.away > r.draw)
  {
    ImpliedProbabilityDecreasing(homeOdds, drawOdds);
    ImpliedProbabilityDecreasing(homeOdds, awayOdds);
    ImpliedProbabilityDecreasing(drawOdds, awayOdds);
    ImpliedProbabilityDecreasing(drawOdds, homeOdds);
    ImpliedProbabilityDecreasing(awayOdds, homeOdds);
    ImpliedProbabilityDecreasing(awayOdds, drawOdds);
    NormalizeProbsOrder(ImpliedProbability(homeOdds), ImpliedProbability(drawOdds), ImpliedProbability(awayOdds));
  }

  /** When the implied probabilities add up to more than 1 (the bookmaker's
      overround), normalising strictly lowers each of them. */
  lemma {:induction false} MatchOutcomeOverround(homeOdds: real, drawOdds: real, awayOdds: real)
    requires homeOdds > 0.0 && drawOdds > 0.0 && awayOdds > 0.0
    requires Total(Implied(homeOdds, drawOdds, awayOdds)) > 1.0
    ensures var r := MatchOutcomeProbabilities(homeOdds, drawOdds, awayOdds);
      && r.home < ImpliedProbability(homeOdds)
      && r.draw < ImpliedProbability(drawOdds)
      && r.away < ImpliedProbability(awayOdds)
  {
    var total := Total(Implied(homeOdds, drawOdds, awayOdds));
    Shrink(ImpliedProbability(homeOdds), total);
    Shrink(ImpliedProbability(drawOdds), total);
    Shrink(ImpliedProbability(awayOdds), total);
  }

  /** Dividing a positive number by more than 1 makes it smaller. */
  lemma {:induction false} Shrink(x: real, total: real)
    requires x > 0.0 && total > 1.0
    ensures x / total < x
  {
    var q := x / total;
    assert q * total == x;
    LeftDistribute(total, total - 1.0, 1.0, q);
    PositiveProduct(q, total - 1.0);
  }
}
