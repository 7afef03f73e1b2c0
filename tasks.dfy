/**
 * The bodies of the task handlers: integer arithmetic, a summary of a list of
 * numbers, a list of random numbers, and a long-running task that reports its
 * progress once per step.
 */
module Tasks {

  import opened Wrappers
  import opened Strings
  import Decimal

  /** `add(x, y)`: Python ints are unbounded, so the sum never wraps around. */
  function Add(x: int, y: int): (r: int)
    ensures r - y == x && r - x == y
  {
    x + y
  }

  /** `multiply(x, y)`, again on unbounded ints. */
  function Multiply(x: int, y: int): (r: int)
    ensures x != 0 ==> r / x == y && r % x == 0
    ensures y != 0 ==> r / y == x && r % y == 0
    ensures x == 0 || y == 0 <==> r == 0
  {
    MultiplyDivides(x, y);
    x * y
  }

  lemma MultiplyDivides(x: int, y: int)
    ensures x != 0 ==> (x * y) / x == y && (x * y) % x == 0
    ensures y != 0 ==> (x * y) / y == x && (x * y) % y == 0
    ensures x == 0 || y == 0 <==> x * y == 0
  {
    if x != 0 {
      DivOfMultiple(x, y);
    }
    if y != 0 {
      DivOfMultiple(y, x);
    }
  }

  lemma DivOfMultiple(d: int, q: int)
    requires d != 0
    ensures (d * q) / d == q && (d * q) % d == 0
  {
    var n := d * q;
    // Euclidean division: n == d * (n / d) + n % d with 0 <= n % d < |d|;
    // q and 0 satisfy that equation, and the pair satisfying it is unique.
    assert n == d * q + 0;
    UniqueDivision(n, d, q, 0);
  }

  lemma UniqueDivision(n: int, d: int, q: int, m: int)
    requires d != 0 && 0 <= m < Abs(d) && n == d * q + m
    ensures n / d == q && n % d == m
  {
    var k := q - n / d;
    assert d * k == n % d - m;
    if k != 0 {
      ProductMagnitude(d, k);
    }
  }

  function Abs(x: int): nat {
    if x < 0 then -x else x
  }

  lemma ProductMagnitude(d: int, k: int)
    requires d != 0 && k != 0
    ensures Abs(d * k) >= Abs(d)
  {
    if d > 0 && k > 0 {
      assert d * k >= d * 1;
    } else if d > 0 {
      assert d * k <= d * -1;
    } else if k > 0 {
      assert d * k <= d * 1;
    } else {
      assert d * k >= d * -1;
    }
  }

  /** Python's `sum` of a list of ints. */
  function Sum(s: seq<int>): int
    decreases |s|
  {
    if s == [] then 0 else s[0] + Sum(s[1..])
  }

  /** `sum` adds front to back: the sum of a list extended by one element. */
  lemma {:induction false} SumAppend(s: seq<int>, x: int)
    ensures Sum(s + [x]) == Sum(s) + x
  {
    if s != [] {
      assert (s + [x])[1..] == s[1..] + [x];
      SumAppend(s[1..], x);
    }
  }

  /** What `process_list` returns. */
  datatype ListSummary = ListSummary(numbers: seq<int>, sum: int, average: real, count: nat)

  /** `process_list(numbers)`: the average is the exact quotient, and 0 for an empty list. */
  function ProcessList(numbers: seq<int>): (r: ListSummary)
    ensures r.numbers == numbers && r.count == |numbers| && r.sum == Sum(numbers)
    ensures numbers == [] ==> r.average == 0.0
    ensures numbers != [] ==> r.average * (|numbers| as real) == r.sum as real
  {
    var total := Sum(numbers);
    var average := if numbers != [] then (total as real) / (|numbers| as real) else 0.0;
    ListSummary(numbers, total, average, |numbers|)
  }

  /** A sum of `count` numbers in [lo, hi] lies in [count * lo, count * hi]. */
  lemma {:induction false} SumBounds(s: seq<int>, lo: int, hi: int)
    requires forall i :: 0 <= i < |s| ==> lo <= s[i] <= hi
    ensures |s| * lo <= Sum(s) <= |s| * hi
    decreases |s|
  {
    if s != [] {
      SumBounds(s[1..], lo, hi);
      assert |s| * lo == lo + (|s| - 1) * lo;
      assert |s| * hi == hi + (|s| - 1) * hi;
    }
  }

  const MinRandom := 1
  const MaxRandom := 100

  /**
   * Summarising numbers drawn from [1, 100] (the demo chain that feeds
   * `generate_random_numbers` into `process_list`) gives a sum between
   * `count` and `100 * count`, and an average in [1, 100].
   */
  lemma SummaryOfRandomNumbers(numbers: seq<int>)
    requires forall i :: 0 <= i < |numbers| ==> MinRandom <= numbers[i] <= MaxRandom
    ensures var r := ProcessList(numbers);
      && r.count <= r.sum <= MaxRandom * r.count
      && (numbers != [] ==> MinRandom as real <= r.average <= MaxRandom as real)
  {
    SumBounds(numbers, MinRandom, MaxRandom);
    if numbers != [] {
      var n := |numbers| as real;
      QuotientBounds(Sum(numbers) as real, n, MinRandom as real, MaxRandom as real);
    }
  }

  lemma QuotientBounds(s: real, n: real, lo: real, hi: real)
    requires n > 0.0 && lo * n <= s <= hi * n
    ensures lo <= s / n <= hi
  {
    var a := s / n;
    assert a * n == s;
    assert (a - lo) * n == s - lo * n;
    assert (hi - a) * n == hi * n - s;
    NonNegativeFactor(a - lo, n);
    NonNegativeFactor(hi - a, n);
  }

  lemma NonNegativeFactor(x: real, n: real)
    requires n > 0.0 && x * n >= 0.0
    ensures x >= 0.0
  {
  }

  /**
   * `generate_random_numbers(count)`: `count` values (none when `count` is
   * not positive), each an arbitrary choice in [1, 100] as `randint(1, 100)`.
   */
  method GenerateRandomNumbers(count: int) returns (numbers: seq<int>)
    ensures |numbers| == if count < 0 then 0 else count
    ensures forall i :: 0 <= i < |numbers| ==> MinRandom <= numbers[i] <= MaxRandom
  {
    numbers := [];
    var i := 0;
    while i < count
      invariant count >= 0 ==> 0 <= i <= count
      invariant count < 0 ==> i == 0
      invariant |numbers| == i
      invariant forall k :: 0 <= k < |numbers| ==> MinRandom <= numbers[k] <= MaxRandom
    {
      var x :| MinRandom <= x <= MaxRandom;
      numbers := numbers + [x];
      i := i + 1;
    }
  }

  /** The metadata of a progress report. */
  datatype Progress = Progress(current: int, total: int, status: string)

  /** One `update_state(state, meta)` call. */
  datatype StateUpdate = StateUpdate(state: string, meta: Progress)

  /** What `long_running_task` returns. */
  datatype Completion = Completion(current: int, total: int, status: string, result: string)

  /** The text every progress status starts with. */
  const ProgressPrefix := "处理中... "

  /** The report issued after step `step` (counted from 1) of `duration` steps. */
  function ProgressReport(step: int, duration: int): (r: StateUpdate)
    ensures r.state == "PROGRESS"
    ensures r.meta.current == step && r.meta.total == duration
    ensures ProgressPrefix <= r.meta.status
  {
    StateUpdate(
      "PROGRESS",
      Progress(step, duration,
        ProgressPrefix + StepOfTotal(step, duration)))
  }

  /** The `<step>/<total>` part of a progress status. */
  function StepOfTotal(step: int, total: int): string {
    Decimal.IntToDecimal(step) + "/" + Decimal.IntToDecimal(total)
  }

  /** Decimal text of an int never contains the separator `/`. */
  lemma NoSlashInDecimal(i: int)
    ensures '/' !in Decimal.IntToDecimal(i)
  {
    var t := Decimal.IntToDecimal(i);
    forall k | 0 <= k < |t|
      ensures t[k] != '/'
    {
      if i < 0 && k > 0 {
        assert Decimal.IsDigit(t[1..][k - 1]);
      }
    }
  }

  /**
   * Reads a progress status `<prefix><step>/<total>` back into its step and
   * total. Like `Decimal.ParseInt`, it also accepts numbers written with
   * leading zeros or as `-0`, which the status never contains.
   */
  function ParseProgressStatus(status: string): Option<(int, int)> {
    if ProgressPrefix <= status then ParseStepOfTotal(status[|ProgressPrefix|..]) else None
  }

  /** Reads `<step>/<total>`, splitting at the first `/`. */
  function ParseStepOfTotal(text: string): Option<(int, int)> {
    var slash := FirstIndex(text, '/');
    if slash == |text| then None
    else
      var step := Decimal.ParseInt(text[..slash]);
      var total := Decimal.ParseInt(text[slash + 1..]);
      if step.Some? && total.Some? then Some((step.value, total.value)) else None
  }

  /** The text after the prefix splits at its `/` into the two numbers' texts. */
  lemma SplitStatusRest(a: string, b: string)
    requires '/' !in a
    ensures FirstIndex(a + "/" + b, '/') == |a|
    ensures (a + "/" + b)[..|a|] == a && (a + "/" + b)[|a| + 1..] == b
  {
    FirstIndexOfSeparator(a, '/', b);
    assert (a + "/" + b)[..|a|] == a;
    assert (a + "/" + b)[|a| + 1..] == b;
  }

  /** `<step>/<total>` as the status writes it reads back as the two numbers. */
  lemma StepOfTotalReadsBack(step: int, duration: int)
    ensures ParseStepOfTotal(StepOfTotal(step, duration)) == Some((step, duration))
  {
    var a, b := Decimal.IntToDecimal(step), Decimal.IntToDecimal(duration);
    NoSlashInDecimal(step);
    SplitStatusRest(a, b);
    Decimal.IntToDecimalRoundTrip(step);
    Decimal.IntToDecimalRoundTrip(duration);
  }

  /** The status text of a progress report reads back as its step and its total. */
  lemma ProgressStatusReadsBack(step: int, duration: int)
    ensures ParseProgressStatus(ProgressReport(step, duration).meta.status) == Some((step, duration))
  {
    StripPrefix(ProgressPrefix, StepOfTotal(step, duration));
    StepOfTotalReadsBack(step, duration);
  }

  lemma StripPrefix(p: string, rest: string)
    ensures p <= p + rest && (p + rest)[|p|..] == rest
  {
  }

  /** Distinct steps or totals give distinct status texts. */
  lemma ProgressStatusInjective(step: int, duration: int, step': int, duration': int)
    requires ProgressReport(step, duration).meta.status == ProgressReport(step', duration').meta.status
    ensures step == step' && duration == duration'
  {
    ProgressStatusReadsBack(step, duration);
    ProgressStatusReadsBack(step', duration');
  }


  /**
   * `long_running_task(duration)`: one PROGRESS report per step, the k-th (from 1)
   * with current k and total `duration`; then the completion record. The one-second
   * sleep per step is not modelled.
   */
  method LongRunningTask(duration: int) returns (trace: seq<StateUpdate>, done: Completion)
    ensures |trace| == if duration < 0 then 0 else duration
    ensures forall k :: 0 <= k < |trace| ==> trace[k] == ProgressReport(k + 1, duration)
    ensures forall k :: 0 <= k < |trace| ==> trace[k].state == "PROGRESS"
    ensures forall j, k :: 0 <= j < k < |trace| ==> trace[j].meta.current < trace[k].meta.current
    ensures forall k :: 0 <= k < |trace| ==> 1 <= trace[k].meta.current <= trace[k].meta.total
    ensures done.current == duration && done.total == duration
    ensures trace != [] ==> trace[|trace| - 1].meta.current == done.current
  {
    trace := [];
    for i := 0 to if duration < 0 then 0 else duration
      invariant |trace| == i
      invariant forall k :: 0 <= k < i ==> trace[k] == ProgressReport(k + 1, duration)
    {
      trace := trace + [ProgressReport(i + 1, duration)];
    }
    done := Completion(duration, duration, "任务完成!",
      "任务执行了 " + Decimal.IntToDecimal(duration) + " 秒");
  }
}
