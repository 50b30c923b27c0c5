/** Bearer tokens used in rotation. */
module Tokens {
  import opened Arithmetic
  import opened Options

  function NonEmpty(tokens: seq<string>): seq<string> {
    if tokens == [] then [] else (if tokens[0] == "" then [] else [tokens[0]]) + NonEmpty(tokens[1..])
  }

  class RotatingTokenProvider {
    const staticToken: Option<string>
    const tokens: seq<string>
    const period: int
    var requests: nat

    constructor (staticToken: Option<string>, tokens: seq<string>, period: int)
      ensures this.staticToken == staticToken && this.tokens == NonEmpty(tokens)
      ensures this.period == (if period < 1 then 1 else period) && requests == 0
    {
      this.staticToken, this.tokens := staticToken, NonEmpty(tokens);
      this.period := if period < 1 then 1 else period;
      requests := 0;
    }

    method NextToken() returns (token: Option<string>)
      requires period >= 1
      modifies this
      ensures token == Chosen(staticToken, tokens, period, old(requests))
      ensures requests == old(requests) + if Rotates(staticToken, tokens) then 1 else 0
    {
      if staticToken.Some? && staticToken.value != "" {
        return staticToken;
      }
      if |tokens| == 0 {
        return None;
      }
      var index := (requests / period) % |tokens|;
      requests := requests + 1;
      token := Some(tokens[index]);
    }
  }

  predicate Rotates(staticToken: Option<string>, tokens: seq<string>) {
    (staticToken.None? || staticToken.value == "") && tokens != []
  }

  function Position(n: nat, period: nat, count: nat): nat
    requires period >= 1 && count >= 1
  {
    (n / period) % count
  }

  function Chosen(staticToken: Option<string>, tokens: seq<string>, period: int, n: nat): Option<string>
    requires period >= 1
  {
    if Rotates(staticToken, tokens) then Some(tokens[Position(n, period, |tokens|)])
    else if tokens == [] && (staticToken.None? || staticToken.value == "") then None
    else staticToken
  }

  // ---------- Fairness ----------

  /** How often position `i` has been used after `n` calls. */
  function Uses(n: nat, period: nat, count: nat, i: nat): nat
    requires period >= 1 && count >= 1
  {
    if n == 0 then 0
    else Uses(n - 1, period, count, i) + if Position(n - 1, period, count) == i then 1 else 0
  }

  /** `a` confined to the range from 0 to `hi`. */
  function Clamp(a: int, hi: nat): nat {
    if a < 0 then 0 else if a > hi then hi else a
  }

  /** Whole rounds give every position `period` uses; the round under way gives what it has reached. */
  function Share(n: nat, period: nat, count: nat, i: nat): nat
    requires period >= 1 && count >= 1 && period * count >= 1
  {
    period * (n / (period * count)) + Clamp(n % (period * count) - i * period, period)
  }

  /** The quotient is `i` exactly within the i-th stretch. */
  lemma InStretch(m: nat, d: nat, i: nat)
    requires d >= 1
    ensures m / d == i <==> i * d <= m < i * d + d
  {
    var e := m / d - i;
    assert m == (m / d) * d + m % d;
    assert e * d == (m / d) * d - i * d;
    MultiplesAreApart(e, d);
  }

  lemma RoundIndex(m: nat, period: nat, count: nat)
    requires period >= 1 && count >= 1 && m < period * count
    ensures m / period < count
  {
    var e := m / period - count;
    assert m == (m / period) * period + m % period;
    assert e * period == (m / period) * period - count * period;
    MultiplesAreApart(e, period);
  }

  lemma RoundIsPositive(period: nat, count: nat)
    requires period >= 1 && count >= 1
    ensures period * count >= 1
  {
  }

  /** The position depends on the place within the round only. */
  lemma PositionInRound(n: nat, period: nat, count: nat)
    requires period >= 1 && count >= 1 && period * count >= 1
    ensures Position(n, period, count) == (n % (period * count)) / period
  {
    var round := period * count;
    var q, m := n / round, n % round;
    var a, b := m / period, m % period;
    RoundIndex(m, period, count);
    assert q * round == (q * count) * period;
    assert n == (q * count + a) * period + b;
    QuotientIs(n, period, q * count + a, b);
    QuotientIs(q * count + a, count, q, a);
  }

  lemma ClampGrows(m: nat, period: nat, i: nat)
    requires period >= 1
    ensures Clamp(m + 1 - i * period, period) == Clamp(m - i * period, period) + if m / period == i then 1 else 0
  {
    InStretch(m, period, i);
  }

  /** The last call of a round completes every share. */
  lemma RoundCompletes(period: nat, count: nat, i: nat)
    requires period >= 1 && i < count
    ensures Clamp(period * count - i * period, period) == period
  {
    assert (count - i) * period == period * count - i * period;
    MultiplesAreApart(count - i, period);
  }

  lemma ShareGrows(n: nat, period: nat, count: nat, i: nat)
    requires period >= 1 && count >= 1 && period * count >= 1 && i < count
    ensures Share(n + 1, period, count, i) ==
      Share(n, period, count, i) + if Position(n, period, count) == i then 1 else 0
  {
    var m := n % (period * count);
    PositionInRound(n, period, count);
    ClampGrows(m, period, i);
    if m + 1 < period * count {
      RoundGoesOn(n, period * count);
    } else {
      RoundTurns(n, period, count, i);
    }
  }

  lemma RoundGoesOn(n: nat, round: nat)
    requires round >= 1 && n % round + 1 < round
    ensures (n + 1) / round == n / round && (n + 1) % round == n % round + 1
  {
    QuotientIs(n + 1, round, n / round, n % round + 1);
  }

  lemma RoundTurns(n: nat, period: nat, count: nat, i: nat)
    requires period >= 1 && period * count >= 1 && i < count
    requires n % (period * count) + 1 == period * count
    ensures Share(n + 1, period, count, i) == period * (n / (period * count)) + period
    ensures Clamp(n % (period * count) + 1 - i * period, period) == period
  {
    var round, q := period * count, n / (period * count);
    assert (q + 1) * round == q * round + round;
    QuotientIs(n + 1, round, q + 1, 0);
    RoundCompletes(period, count, i);
    assert period * (q + 1) == period * q + period;
    MultiplesAreApart(i, period);
  }

  /** After any number of calls, each position has had exactly its share, and no two differ by more than the period. */
  lemma {:induction false} RotationIsFair(n: nat, period: nat, count: nat, i: nat)
    requires period >= 1 && count >= 1 && i < count
    ensures period * count >= 1
    ensures Uses(n, period, count, i) == Share(n, period, count, i)
  {
    RoundIsPositive(period, count);
    if n == 0 {
      assert i * period >= 0;
    } else {
      RotationIsFair(n - 1, period, count, i);
      ShareGrows(n - 1, period, count, i);
    }
  }

  lemma PositionsDifferByAtMostThePeriod(n: nat, period: nat, count: nat, i: nat, j: nat)
    requires period >= 1 && count >= 1 && i < count && j < count
    ensures Uses(n, period, count, i) <= Uses(n, period, count, j) + period
  {
    RotationIsFair(n, period, count, i);
    RotationIsFair(n, period, count, j);
  }

  // ---------- The tokens returned ----------

  /** How often one of the first `n` calls returns the token. */
  function Returned(staticToken: Option<string>, tokens: seq<string>, period: int, n: nat, token: string): nat
    requires period >= 1
  {
    if n == 0 then 0
    else
      Returned(staticToken, tokens, period, n - 1, token) +
        if Chosen(staticToken, tokens, period, n - 1) == Some(token) then 1 else 0
  }

  /** The shares of the first `k` positions that hold the token, after `n` calls. */
  function SharesOf(tokens: seq<string>, period: nat, n: nat, token: string, k: nat): nat
    requires period >= 1 && k <= |tokens| && period * |tokens| >= 1
  {
    if k == 0 then 0
    else
      SharesOf(tokens, period, n, token, k - 1) +
        if tokens[k - 1] == token then Share(n, period, |tokens|, k - 1) else 0
  }

  /** The uses of the first `k` positions that hold the token. */
  function UsesOf(tokens: seq<string>, period: nat, n: nat, token: string, k: nat): nat
    requires period >= 1 && k <= |tokens|
  {
    if k == 0 then 0
    else
      UsesOf(tokens, period, n, token, k - 1) + if tokens[k - 1] == token then Uses(n, period, |tokens|, k - 1) else 0
  }

  lemma {:induction false} UsesGrow(tokens: seq<string>, period: nat, n: nat, token: string, k: nat)
    requires period >= 1 && k <= |tokens| && tokens != []
    ensures UsesOf(tokens, period, n + 1, token, k) == UsesOf(tokens, period, n, token, k) +
      var i := Position(n, period, |tokens|); if i < k && tokens[i] == token then 1 else 0
  {
    if k > 0 {
      UsesGrow(tokens, period, n, token, k - 1);
    }
  }

  lemma {:induction false} NoUsesYet(tokens: seq<string>, period: nat, token: string, k: nat)
    requires period >= 1 && k <= |tokens|
    ensures UsesOf(tokens, period, 0, token, k) == 0
  {
    if k > 0 {
      NoUsesYet(tokens, period, token, k - 1);
    }
  }

  lemma {:induction false} UsesAreShares(tokens: seq<string>, period: nat, n: nat, token: string, k: nat)
    requires period >= 1 && k <= |tokens| && tokens != [] && period * |tokens| >= 1
    ensures UsesOf(tokens, period, n, token, k) == SharesOf(tokens, period, n, token, k)
  {
    if k > 0 {
      UsesAreShares(tokens, period, n, token, k - 1);
      RotationIsFair(n, period, |tokens|, k - 1);
    }
  }

  lemma {:induction false} ReturnedIsUses(staticToken: Option<string>, tokens: seq<string>, period: int, n: nat,
                                          token: string)
    requires period >= 1 && Rotates(staticToken, tokens)
    ensures Returned(staticToken, tokens, period, n, token) == UsesOf(tokens, period, n, token, |tokens|)
  {
    if n == 0 {
      NoUsesYet(tokens, period, token, |tokens|);
    } else {
      ReturnedIsUses(staticToken, tokens, period, n - 1, token);
      UsesGrow(tokens, period, n - 1, token, |tokens|);
    }
  }

  /**
   * What `n` calls return. A static token is always returned, and without any token nothing is. In rotation,
   * each token is returned as often as the shares of its positions say.
   */
  lemma TokensAreSharedOut(staticToken: Option<string>, tokens: seq<string>, period: int, n: nat, token: string)
    requires period >= 1
    ensures if staticToken.Some? && staticToken.value != "" then Chosen(staticToken, tokens, period, n) == staticToken
            else if tokens == [] then Chosen(staticToken, tokens, period, n) == None
            else
              && period * |tokens| >= 1
              && Returned(staticToken, tokens, period, n, token) == SharesOf(tokens, period, n, token, |tokens|)
  {
    if Rotates(staticToken, tokens) {
      RoundIsPositive(period, |tokens|);
      ReturnedIsUses(staticToken, tokens, period, n, token);
      UsesAreShares(tokens, period, n, token, |tokens|);
    }
  }

  /** Only empty tokens are left out, and the others keep their order. */
  lemma {:induction false} OnlyEmptyTokensGo(a: seq<string>, b: seq<string>, token: string)
    ensures NonEmpty(a + b) == NonEmpty(a) + NonEmpty(b)
    ensures NonEmpty([token]) == if token == "" then [] else [token]
  {
    assert [token][1..] == [];
    if a == [] {
      assert a + b == b;
    } else {
      OnlyEmptyTokensGo(a[1..], b, token);
      assert (a + b)[0] == a[0] && (a + b)[1..] == a[1..] + b;
    }
  }
}
