/** What the two roundings of the memory-per-CPU ratio amount to. All statements are about
    exact amounts; `Ratio` connects the computation to them. */
module FairUse {
  import opened Rounding

  const MIB := 1048576

  /** Exact totals of CPU (cores) and memory (bytes). */
  datatype Usage = Usage(cpu: real, mem: real) {
    ghost function Plus(other: Usage): Usage {
      Usage(cpu + other.cpu, mem + other.mem)
    }

    ghost function Times(n: int): Usage {
      Usage(cpu * n as real, mem * n as real)
    }

    ghost predicate NonNegative() {
      cpu >= 0.0 && mem >= 0.0
    }
  }

  /** Twice the memory that gives exactly half a byte per core more than the given bytes. */
  ghost function Edge(bytes: int, cpu: real): real {
    (2 * bytes + 1) as real * cpu
  }

  lemma EdgeMonotone(a: int, b: int, cpu: real)
    requires cpu > 0.0
    ensures a <= b ==> Edge(a, cpu) <= Edge(b, cpu)
  {
    ScaleOrder((2 * a + 1) as real, (2 * b + 1) as real, cpu);
  }

  lemma QuotientAtEdge(q: real, n: int, cpu: real)
    requires cpu > 0.0
    ensures q <= n as real + 0.5 <==> 2.0 * (q * cpu) <= Edge(n, cpu)
    ensures q < n as real + 0.5 <==> 2.0 * (q * cpu) < Edge(n, cpu)
  {
    ScaleOrder(2.0 * q, (2 * n + 1) as real, cpu);
    MulAssoc(2.0, q, cpu);
  }

  /** k mebibytes is what mem / cpu becomes when it is rounded half-even to bytes and then
      away from zero to mebibytes, written without any division. */
  ghost predicate InBracket(u: Usage, k: int) {
    if k >= 1 then Edge((k - 1) * MIB, u.cpu) < 2.0 * u.mem <= Edge(k * MIB, u.cpu)
    else if k == 0 then Edge(-1, u.cpu) <= 2.0 * u.mem <= Edge(0, u.cpu)
    else Edge(k * MIB - 1, u.cpu) <= 2.0 * u.mem < Edge((k + 1) * MIB - 1, u.cpu)
  }

  /** Rounding twice puts the quotient in the bracket of the resulting mebibyte count; ties never
      matter because a mebibyte is an even number of bytes. */
  lemma RoundedTwice(u: Usage, bytes: int, k: int)
    requires u.cpu > 0.0
    requires RoundsTo(RoundHalfEven, u.mem / u.cpu, bytes)
    requires RoundsTo(RoundUp, bytes as real / MIB as real, k)
    ensures InBracket(u, k)
  {
    var q := u.mem / u.cpu;
    assert q * u.cpu == u.mem;
    QuotientAtEdge(q, k * MIB, u.cpu);
    QuotientAtEdge(q, (k - 1) * MIB, u.cpu);
    QuotientAtEdge(q, -1, u.cpu);
    QuotientAtEdge(q, k * MIB - 1, u.cpu);
    QuotientAtEdge(q, (k + 1) * MIB - 1, u.cpu);
    if k >= 1 {
      assert (k - 1) * MIB + 1 <= bytes <= k * MIB;
    } else if k == 0 {
      assert bytes == 0;
    } else {
      assert k * MIB <= bytes < (k + 1) * MIB;
    }
  }

  /** The number of mebibytes needed to cover an amount. */
  ghost function Steps(amount: real): (k: int)
    ensures ((k - 1) * MIB) as real < amount <= (k * MIB) as real
  {
    -((-amount / MIB as real).Floor)
  }

  /** The one linear inequality that decides whether a ratio counts as below an amount. */
  ghost predicate LinearTest(u: Usage, amount: real) {
    var k := Steps(amount);
    if k >= 1 then 2.0 * u.mem <= Edge((k - 1) * MIB, u.cpu) else 2.0 * u.mem < Edge(k * MIB - 1, u.cpu)
  }

  ghost predicate IsBelow(u: Usage, amount: real) {
    u.cpu > 0.0 && LinearTest(u, amount)
  }

  /** Comparing the doubly rounded ratio with any amount is the linear test. */
  lemma BracketBelow(u: Usage, k: int, amount: real)
    requires u.cpu > 0.0 && InBracket(u, k)
    ensures (k * MIB) as real < amount <==> LinearTest(u, amount)
  {
    var s := Steps(amount);
    assert (k * MIB) as real < amount <==> k <= s - 1;
    forall a, b | a in {k - 1, k, k + 1, s - 1, s, 0} && b in {k - 1, k, k + 1, s - 1, s, 0}
      ensures a <= b ==> Edge(a * MIB, u.cpu) <= Edge(b * MIB, u.cpu)
      ensures a <= b ==> Edge(a * MIB - 1, u.cpu) <= Edge(b * MIB - 1, u.cpu)
      ensures a <= b ==> Edge(a * MIB - 1, u.cpu) <= Edge(b * MIB, u.cpu)
      ensures a < b ==> Edge(a * MIB, u.cpu) <= Edge(b * MIB - 1, u.cpu)
    {
      EdgeMonotone(a * MIB, b * MIB, u.cpu);
      EdgeMonotone(a * MIB - 1, b * MIB - 1, u.cpu);
      EdgeMonotone(a * MIB - 1, b * MIB, u.cpu);
      EdgeMonotone(a * MIB, b * MIB - 1, u.cpu);
    }
  }

  /** An amount that is the doubly rounded ratio of a workload. */
  ghost predicate IsRoundedRatio(u: Usage, bytes: real) {
    exists k :: bytes == (k * MIB) as real && InBracket(u, k)
  }

  lemma RoundedRatioBelow(u: Usage, bytes: real, amount: real)
    requires u.cpu > 0.0 && IsRoundedRatio(u, bytes)
    ensures bytes < amount <==> LinearTest(u, amount)
  {
    var k :| bytes == (k * MIB) as real && InBracket(u, k);
    BracketBelow(u, k, amount);
  }

  /** Each workload falls in one bracket only. */
  lemma BracketUnique(u: Usage, j: int, k: int)
    requires u.cpu > 0.0 && InBracket(u, j) && InBracket(u, k)
    ensures j == k
  {
    BracketBelow(u, j, (k * MIB) as real);
    BracketBelow(u, k, (k * MIB) as real);
    BracketBelow(u, j, (j * MIB) as real);
    BracketBelow(u, k, (j * MIB) as real);
  }

  /** The reported amount is never more than half a byte under the exact quotient and less than
      a mebibyte minus half a byte over it. */
  lemma NearlyExact(u: Usage, k: int)
    requires u.cpu > 0.0 && u.mem >= 0.0 && InBracket(u, k)
    ensures k >= 0
    ensures u.mem / u.cpu - 0.5 <= (k * MIB) as real < u.mem / u.cpu + MIB as real - 0.5
  {
    var q := u.mem / u.cpu;
    assert q * u.cpu == u.mem;
    QuotientAtEdge(q, k * MIB, u.cpu);
    QuotientAtEdge(q, (k - 1) * MIB, u.cpu);
    QuotientAtEdge(q, (k + 1) * MIB - 1, u.cpu);
    if k < 0 {
      EdgeMonotone((k + 1) * MIB - 1, -1, u.cpu);
    }
    ScaleOrder(q, 0.0, u.cpu);
  }

  // ---------- pooling and scaling ----------

  lemma EdgeAdditive(n: int, c: real, d: real)
    ensures Edge(n, c + d) == Edge(n, c) + Edge(n, d)
  {
  }

  /** Two workloads that are both below an amount are below it together. */
  lemma PooledBelow(u: Usage, v: Usage, amount: real)
    requires IsBelow(u, amount) && IsBelow(v, amount)
    ensures IsBelow(u.Plus(v), amount)
  {
    var s := Steps(amount);
    EdgeAdditive((s - 1) * MIB, u.cpu, v.cpu);
    EdgeAdditive(s * MIB - 1, u.cpu, v.cpu);
  }

  /** Two workloads of which neither is below an amount are not below it together. */
  lemma PooledFair(u: Usage, v: Usage, amount: real)
    requires u.NonNegative() && v.NonNegative()
    requires !IsBelow(u, amount) && !IsBelow(v, amount)
    ensures !IsBelow(u.Plus(v), amount)
  {
    var s := Steps(amount);
    var n := if s >= 1 then (s - 1) * MIB else s * MIB - 1;
    EdgeAdditive(n, u.cpu, v.cpu);
    EdgeSign(n, u.cpu);
    EdgeSign(n, v.cpu);
    EdgeSign(n, u.cpu + v.cpu);
  }

  lemma EdgeSign(n: int, cpu: real)
    requires cpu >= 0.0
    ensures n < 0 ==> Edge(n, cpu) <= 0.0
    ensures cpu == 0.0 ==> Edge(n, cpu) == 0.0
  {
  }

  /** Replicas do not matter: any positive number of copies is below exactly when one is. */
  lemma ScaledBelow(u: Usage, n: int, amount: real)
    requires n > 0
    ensures IsBelow(u.Times(n), amount) <==> IsBelow(u, amount)
  {
    var t := n as real;
    var s := Steps(amount);
    var m := if s >= 1 then (s - 1) * MIB else s * MIB - 1;
    ScaleOrder(u.cpu, 0.0, t);
    MulAssoc((2 * m + 1) as real, u.cpu, t);
    MulAssoc(2.0, u.mem, t);
    ScaleOrder(2.0 * u.mem, Edge(m, u.cpu), t);
  }

  // ---------- how far the roundings move the documented limit ----------

  /** "No workload whose exact ratio reaches the amount is reported as below it." */
  ghost predicate NeverReportsFair(amount: real) {
    forall u: Usage :: u.cpu > 0.0 && u.mem >= amount * u.cpu ==> !IsBelow(u, amount)
  }

  /** "Every workload whose exact ratio is under the amount is reported as below it." */
  ghost predicate ReportsEveryUnfair(amount: real) {
    forall u: Usage :: u.cpu > 0.0 && 0.0 <= u.mem < amount * u.cpu ==> IsBelow(u, amount)
  }

  /** The amount lies at most half a byte above a multiple of a mebibyte. */
  ghost predicate JustAboveMebibyte(amount: real) {
    amount <= ((Steps(amount) - 1) * MIB) as real + 0.5
  }

  /** For a workload of one core the test reads directly as a comparison of bytes. */
  lemma OneCore(mem: real, amount: real)
    requires amount > 0.0
    ensures IsBelow(Usage(1.0, mem), amount) <==> mem <= ((Steps(amount) - 1) * MIB) as real + 0.5
  {
    assert Steps(amount) >= 1;
    QuotientAtEdge(mem, (Steps(amount) - 1) * MIB, 1.0);
  }

  /** The guarantee to fair workloads fails exactly for amounts just above a mebibyte multiple,
      and a whole number of bytes never is one. */
  lemma FairNeverReportedIff(amount: real)
    requires amount > 0.0
    ensures NeverReportsFair(amount) <==> !JustAboveMebibyte(amount)
  {
    var n := (Steps(amount) - 1) * MIB;
    if JustAboveMebibyte(amount) {
      OneCore(amount, amount);
      var u := Usage(1.0, amount);
      assert u.mem >= amount * u.cpu && IsBelow(u, amount);
    } else {
      forall u: Usage | u.cpu > 0.0 && u.mem >= amount * u.cpu ensures !IsBelow(u, amount) {
        ScaleOrder(amount, n as real + 0.5, u.cpu);
        MulAssoc(2.0, n as real + 0.5, u.cpu);
      }
    }
  }

  /** The other direction holds exactly for those amounts, so the two never hold together. */
  lemma UnfairAlwaysReportedIff(amount: real)
    requires amount > 0.0
    ensures ReportsEveryUnfair(amount) <==> JustAboveMebibyte(amount)
  {
    var n := (Steps(amount) - 1) * MIB;
    if JustAboveMebibyte(amount) {
      forall u: Usage | u.cpu > 0.0 && 0.0 <= u.mem < amount * u.cpu ensures IsBelow(u, amount) {
        ScaleOrder(amount, n as real + 0.5, u.cpu);
        MulAssoc(2.0, n as real + 0.5, u.cpu);
      }
    } else {
      var mem := (amount + n as real + 0.5) / 2.0;
      OneCore(mem, amount);
      var u := Usage(1.0, mem);
      assert 0.0 <= u.mem < amount * u.cpu && !IsBelow(u, amount);
    }
  }

  /** A limit of a whole number of bytes never lets a fair workload be reported. */
  lemma WholeBytesAreSafe(bytes: int)
    requires bytes > 0
    ensures NeverReportsFair(bytes as real)
  {
    assert Steps(bytes as real) >= 1 && bytes >= (Steps(bytes as real) - 1) * MIB + 1;
    FairNeverReportedIff(bytes as real);
  }
}
