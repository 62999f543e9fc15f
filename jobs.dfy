/**
 * The jobs the repeat driver runs: pkg/repeat/repeater.go's `Repeater`
 * (`Repeat`, `Name`, `State`) with the `inc` and `dec` jobs of
 * pkg/repeatjobs/repeat_test.go. `Scripted` stands for any other
 * implementation, given by the outcomes its successive calls return.
 */
module Jobs {
  import opened Wrappers
  import opened Int64
  import Strconv

  /** What one call of `Repeat` returns: whether to run again, and an error message if it failed. */
  datatype Outcome = Outcome(again: bool, err: Option<string>)

  datatype Kind = Inc | Dec | Scripted(script: seq<Outcome>)

  /** The job's counter after one call and what the call returns. */
  datatype StepResult = StepResult(num: I64, again: bool, err: Option<string>)

  /**
   * One call of `Repeat` from counter `n`. `inc` adds one and asks to run
   * again while below 10; `dec` subtracts one and asks to run again while
   * above 0; a scripted job returns its `n`-th outcome, or stops once its
   * script is used up. Every call advances the counter by one step, with
   * the wrap-around of Go's 64-bit `int`.
   */
  function Step(kind: Kind, n: I64): (r: StepResult)
    ensures kind.Inc? ==> r.num == Wrap(n + 1) && (r.again <==> r.num < 10) && r.err.None?
    ensures kind.Dec? ==> r.num == Wrap(n - 1) && (r.again <==> r.num > 0) && r.err.None?
    ensures kind.Scripted? ==> r.num == Wrap(n + 1)
    ensures kind.Scripted? && r.again ==> 0 <= n < |kind.script|
  {
    match kind
    case Inc =>
      var m := Wrap(n + 1);
      StepResult(m, !(m >= 10), None)
    case Dec =>
      var m := Wrap(n - 1);
      StepResult(m, !(m <= 0), None)
    case Scripted(script) =>
      if 0 <= n < |script| then StepResult(Wrap(n + 1), script[n].again, script[n].err)
      else StepResult(Wrap(n + 1), false, None)
  }

  /** The largest counter wraps to the smallest on increment, and back on decrement. */
  lemma WrapsAtTheEnds()
    ensures Step(Inc, MAX).num == MIN && Step(Inc, MAX).again
    ensures Step(Dec, MIN).num == MAX && Step(Dec, MIN).again
  {
  }

  /**
   * How many more calls can still ask to run again: an upper bound on the
   * job's remaining rounds. An `inc` job at the largest counter wraps to the
   * smallest and counts all the way up; a `dec` job at the smallest wraps to
   * the largest and counts all the way down.
   */
  function Pot(kind: Kind, n: I64): nat {
    match kind
    case Inc => if n < 10 then 10 - n else if n == MAX then 11 - MIN else 0
    case Dec => if n > 0 then n else if n == MIN then MAX + 1 else 0
    case Scripted(script) => if 0 <= n < |script| then |script| - n else 0
  }

  /** A call that asks to run again lowers the potential. */
  lemma StepDecreases(kind: Kind, n: I64)
    ensures Step(kind, n).again ==> Pot(kind, Step(kind, n).num) < Pot(kind, n)
  {
  }

  /** The counter a job ends with when it is called until it stops asking to run again. */
  function Final(kind: Kind, n: I64): I64
    decreases Pot(kind, n)
  {
    var r := Step(kind, n);
    if r.again then (StepDecreases(kind, n); Final(kind, r.num)) else r.num
  }

  /**
   * An `inc` job ends at 10, or one above where it started if that is
   * already 10 or more; from the largest counter it wraps to the smallest
   * and counts up to 10.
   */
  lemma {:induction false} IncFinal(n: I64)
    ensures Final(Inc, n) == if n == MAX then 10 else if n + 1 >= 10 then n + 1 else 10
    decreases Pot(Inc, n)
  {
    if n == MAX {
      IncFinal(MIN);
    } else if n + 1 < 10 {
      IncFinal(n + 1);
    }
  }

  /**
   * A `dec` job ends at 0, or one below where it started if that is
   * already 0 or less; from the smallest counter it wraps to the largest
   * and counts down to 0.
   */
  lemma {:induction false} DecFinal(n: I64)
    ensures Final(Dec, n) == if n == MIN then 0 else if n - 1 <= 0 then n - 1 else 0
    decreases Pot(Dec, n)
  {
    if n == MIN {
      DecFinal(MAX);
    } else if n - 1 > 0 {
      DecFinal(n - 1);
    }
  }

  /** A job object: its kind, its `id`, and the counter its `Repeat` advances. */
  class Job {
    const kind: Kind
    const id: string
    var num: I64

    constructor (kind: Kind, id: string, num: I64)
      ensures this.kind == kind && this.id == id && this.num == num
    {
      this.kind := kind;
      this.id := id;
      this.num := num;
    }

    /** `Name`: the job's id, which no call changes. */
    function Name(): (name: string)
      ensures name == id
    {
      id
    }

    /** `State`: the counter in decimal, as `fmt`'s `%v` prints an int; the text reads back as the counter. */
    function State(): (state: string)
      reads this
      ensures Strconv.ParseInt(state) == Some(num)
    {
      Strconv.ParseFormatRoundTrip(num);
      Strconv.FormatInt(num)
    }

    /** `Repeat`: advances the counter by one step and says whether to run again. */
    method Repeat() returns (again: bool, err: Option<string>)
      modifies this
      ensures num == Step(kind, old(num)).num
      ensures again == Step(kind, old(num)).again && err == Step(kind, old(num)).err
    {
      match kind
      case Inc =>
        num := Wrap(num + 1);
        if num >= 10 {
          return false, None;
        }
        return true, None;
      case Dec =>
        num := Wrap(num - 1);
        if num <= 0 {
          return false, None;
        }
        return true, None;
      case Scripted(script) =>
        var n := num;
        num := Wrap(num + 1);
        if 0 <= n < |script| {
          return script[n].again, script[n].err;
        }
        return false, None;
    }
  }
}
