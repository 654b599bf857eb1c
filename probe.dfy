/** What one timeout-bounded TCP connection attempt can end in, and the arithmetic used to
    reduce a series of attempts. The network itself is not modelled: the outcome of every
    attempt is an input. */
module Probe {

  /** One attempt `timeout(1s, TcpStream::connect(addr))`, with the elapsed milliseconds
      where the attempt finished before the timeout. */
  datatype Attempt =
    | Connected(ms: nat)      // Ok(Ok(_)): the connection was established
    | ConnectError(ms: nat)   // Ok(Err(_)): refused or unreachable within the timeout
    | TimedOut                // Err(Elapsed): the one-second timeout fired

  /** A configured endpoint: its socket address and display alias. */
  datatype Target = Target(address: string, alias: string)

  function Aliases(targets: seq<Target>): (r: seq<string>)
    ensures |r| == |targets|
    ensures forall i :: 0 <= i < |r| ==> r[i] == targets[i].alias
  {
    if targets == [] then [] else Aliases(targets[..|targets| - 1]) + [targets[|targets| - 1].alias]
  }

  function RealSum(s: seq<real>): real
  {
    if s == [] then 0.0 else RealSum(s[..|s| - 1]) + s[|s| - 1]
  }

  function NatSum(s: seq<nat>): nat
  {
    if s == [] then 0 else NatSum(s[..|s| - 1]) + s[|s| - 1]
  }

  function RealMin(s: seq<real>): real
    requires s != []
  {
    if |s| == 1 then s[0]
    else var m := RealMin(s[..|s| - 1]); if s[|s| - 1] < m then s[|s| - 1] else m
  }

  function RealMax(s: seq<real>): real
    requires s != []
  {
    if |s| == 1 then s[0]
    else var m := RealMax(s[..|s| - 1]); if s[|s| - 1] > m then s[|s| - 1] else m
  }

  /** The arithmetic mean, 0 for no samples. */
  function Mean(s: seq<real>): real
  {
    if s == [] then 0.0 else RealSum(s) / |s| as real
  }

  /** The least and the greatest sample bound every sample. */
  lemma {:induction false} MinMaxBound(s: seq<real>)
    requires s != []
    ensures forall i :: 0 <= i < |s| ==> RealMin(s) <= s[i] <= RealMax(s)
  {
    if |s| > 1 {
      var init := s[..|s| - 1];
      MinMaxBound(init);
      assert forall i :: 0 <= i < |init| ==> s[i] == init[i];
    }
  }

  /** A lower bound of every sample, times the count, bounds the sum from below. */
  lemma {:induction false} SumAtLeast(s: seq<real>, m: real)
    requires forall i :: 0 <= i < |s| ==> m <= s[i]
    ensures |s| as real * m <= RealSum(s)
  {
    if s != [] {
      var init := s[..|s| - 1];
      assert forall i :: 0 <= i < |init| ==> init[i] == s[i];
      SumAtLeast(init, m);
      assert |s| as real * m == |init| as real * m + m;
    }
  }

  /** An upper bound of every sample, times the count, bounds the sum from above. */
  lemma {:induction false} SumAtMost(s: seq<real>, m: real)
    requires forall i :: 0 <= i < |s| ==> s[i] <= m
    ensures RealSum(s) <= |s| as real * m
  {
    if s != [] {
      var init := s[..|s| - 1];
      assert forall i :: 0 <= i < |init| ==> init[i] == s[i];
      SumAtMost(init, m);
      assert |s| as real * m == |init| as real * m + m;
    }
  }

  /** The mean of a non-empty series lies between its least and its greatest sample. */
  lemma MeanBetween(s: seq<real>)
    requires s != []
    ensures RealMin(s) <= Mean(s) <= RealMax(s)
  {
    MinMaxBound(s);
    SumAtLeast(s, RealMin(s));
    SumAtMost(s, RealMax(s));
    DivideBounds(RealMin(s), RealMax(s), RealSum(s), |s| as real);
  }

  lemma DivideBounds(lo: real, hi: real, sum: real, n: real)
    requires n > 0.0 && lo * n <= sum <= hi * n
    ensures lo <= sum / n <= hi
  {
    var q := sum / n;
    assert q * n == sum;
  }

  /** Euclidean division of naturals is the floor: `x / d` is the unique `q` with
      `q * d <= x < (q + 1) * d`. */
  lemma FloorDiv(x: nat, d: nat)
    requires d > 0
    ensures (x / d) * d <= x < (x / d + 1) * d
  {
    var q, r := x / d, x % d;
    assert x == q * d + r && 0 <= r < d;
    assert (q + 1) * d == q * d + d;
  }

  /** `fails as f64 / count as f64 * 100.0`: the failures as a percentage of the attempts. */
  function LossPercent(fails: nat, count: nat): real
    requires count > 0
  {
    fails as real / count as real * 100.0
  }

  lemma LossPercentBounds(fails: nat, count: nat)
    requires 0 < count && fails <= count
    ensures 0.0 <= LossPercent(fails, count) <= 100.0
    ensures LossPercent(fails, count) == 0.0 <==> fails == 0
    ensures LossPercent(fails, count) == 100.0 <==> fails == count
  {
    var q := fails as real / count as real;
    assert q * count as real == fails as real;
    assert LossPercent(fails, count) == q * 100.0;
    assert q == 1.0 <==> fails == count;
  }
}
