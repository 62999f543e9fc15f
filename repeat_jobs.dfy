/**
 * The three tests of pkg/repeatjobs/repeat_test.go: each builds `inc` and
 * `dec` jobs, reads their state, runs the repeat driver and reads their
 * state again. Their out-parameters are what the tests compare, and the
 * contracts are the tests' expected values.
 */
module RepeatJobs {
  import opened Jobs
  import opened RepeatDriver
  import Strconv

  lemma TenText()
    ensures Strconv.FormatInt(10) == "10"
  {
    assert Strconv.NatToDecimal(1) == "1";
  }

  /** `TestCountUpToTen`: an `inc` job from 1 reads "1" before the run and "10" after it; no error is recorded. */
  method CountUpToTen() returns (before: string, after: string, errors: seq<string>)
    ensures before == "1" && after == "10" && errors == []
  {
    var add := new Job(Inc, "Ten", 1);
    var jobs := [add];
    before := add.State();
    ghost var states := States(jobs);
    UnscriptedRunHasNoMessages(states);
    errors := Repeat(jobs, []);
    after := add.State();
    IncFinal(1);
    TenText();
  }

  /** `TestCountDownToZero`: a `dec` job from 10 reads "10" before the run and "0" after it; no error is recorded. */
  method CountDownToZero() returns (before: string, after: string, errors: seq<string>)
    ensures before == "10" && after == "0" && errors == []
  {
    var sub := new Job(Dec, "Ten", 10);
    var jobs := [sub];
    TenText();
    before := sub.State();
    ghost var states := States(jobs);
    UnscriptedRunHasNoMessages(states);
    errors := Repeat(jobs, []);
    after := sub.State();
    DecFinal(10);
  }

  /**
   * `TestUpAndDown`: an `inc` job from 0 and a `dec` job from 10, run
   * together, end at "10" and "0", the same as each run alone.
   */
  method UpAndDown() returns (addBefore: string, subBefore: string, addAfter: string, subAfter: string, errors: seq<string>)
    ensures addBefore == "0" && subBefore == "10"
    ensures addAfter == "10" && subAfter == "0"
    ensures errors == []
  {
    var add := new Job(Inc, "Ten", 0);
    var sub := new Job(Dec, "Ten", 10);
    var jobs := [add, sub];
    TenText();
    addBefore := add.State();
    subBefore := sub.State();
    ghost var states := States(jobs);
    UnscriptedRunHasNoMessages(states);
    errors := Repeat(jobs, []);
    addAfter := add.State();
    subAfter := sub.State();
    IncFinal(0);
    DecFinal(10);
  }
}
