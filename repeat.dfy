/**
 * pkg/repeat/repeat.go: `Repeat` calls every job of the list once per round,
 * in list order, records a message for each call that returned an error,
 * keeps for the next round exactly the jobs that asked to run again, and
 * stops when none is left. Its tail call is the outer loop of `Repeat` here.
 * The driver is specified by a simulation on job states (`JobState`), which
 * also gives the measure showing that every run stops.
 */
module RepeatDriver {
  import opened Wrappers
  import opened Jobs
  import opened Int64
  import Strconv
  import Text

  /** What the driver sees of a job: its kind, its name and its counter. */
  datatype JobState = JobState(kind: Kind, id: string, num: I64)

  /** A job's state after one call of its `Repeat`. */
  function Next(s: JobState): JobState {
    s.(num := Step(s.kind, s.num).num)
  }

  /** The message for an error returned by the job at index `i`, with its name and its state after the call. */
  function Message(i: nat, name: string, state: string, err: string): (m: string)
    ensures "error at index " + Strconv.FormatInt(i) + " for job " + name + " with state " <= m
    ensures Text.EndsWith(m, state + " err " + err)
  {
    Text.EndsWithAppend("error at index " + Strconv.FormatInt(i) + " for job " + name + " with state ", state + " err " + err);
    "error at index " + Strconv.FormatInt(i) + " for job " + name + " with state " + state + " err " + err
  }

  /** The messages one round over `states` records, in list order. */
  function RoundMessages(states: seq<JobState>): seq<string> {
    if |states| == 0 then []
    else
      var i := |states| - 1;
      var s := states[i];
      RoundMessages(states[..i]) +
        match Step(s.kind, s.num).err
        case None => []
        case Some(e) => [Message(i, s.id, Strconv.FormatInt(Next(s).num), e)]
  }

  /** The jobs one round over `states` keeps, each in its state after the call, in list order. */
  function Survivors(states: seq<JobState>): seq<JobState> {
    if |states| == 0 then []
    else
      var i := |states| - 1;
      Survivors(states[..i]) + if Step(states[i].kind, states[i].num).again then [Next(states[i])] else []
  }

  /** One plus the potential of each job, summed: every round lowers it by at least the number of jobs. */
  function Measure(states: seq<JobState>): nat {
    if |states| == 0 then 0
    else Measure(states[..|states| - 1]) + Pot(states[|states| - 1].kind, states[|states| - 1].num) + 1
  }

  lemma MeasureSnoc(states: seq<JobState>, s: JobState)
    ensures Measure(states + [s]) == Measure(states) + Pot(s.kind, s.num) + 1
  {
    assert (states + [s])[..|states|] == states;
  }

  /** A round lowers the measure by at least the number of jobs it runs. */
  lemma {:induction false} SurvivorsDecrease(states: seq<JobState>)
    ensures Measure(Survivors(states)) + |states| <= Measure(states)
  {
    if |states| > 0 {
      var i := |states| - 1;
      var s := states[i];
      SurvivorsDecrease(states[..i]);
      StepDecreases(s.kind, s.num);
      assert states == states[..i] + [s];
      SurvivorsSnoc(states[..i], s);
      MeasureSnoc(states[..i], s);
      if Step(s.kind, s.num).again {
        MeasureSnoc(Survivors(states[..i]), Next(s));
      } else {
        assert Survivors(states) == Survivors(states[..i]);
        assert Measure(Survivors(states[..i])) + i <= Measure(states[..i]);
        assert Measure(states) == Measure(states[..i]) + Pot(s.kind, s.num) + 1;
      }
    }
  }

  /** The messages of all rounds until no job is left. */
  function RunMessages(states: seq<JobState>): seq<string>
    decreases Measure(states)
  {
    if |states| == 0 then []
    else (SurvivorsDecrease(states); RoundMessages(states) + RunMessages(Survivors(states)))
  }

  /** Appending a job to a round appends its survivor, if it asks to run again. */
  lemma SurvivorsSnoc(states: seq<JobState>, s: JobState)
    ensures Survivors(states + [s]) == Survivors(states) + if Step(s.kind, s.num).again then [Next(s)] else []
  {
    assert (states + [s])[..|states|] == states;
  }

  /** Concatenation of message lists is associative. */
  lemma AppendAssociative(a: seq<string>, b: seq<string>, c: seq<string>)
    ensures a + b + c == a + (b + c)
  {
  }

  /** A run over a non-empty list is its first round followed by the run over the jobs that round keeps. */
  lemma RunMessagesUnfold(states: seq<JobState>)
    requires |states| > 0
    ensures Measure(Survivors(states)) < Measure(states)
    ensures RunMessages(states) == RoundMessages(states) + RunMessages(Survivors(states))
  {
    SurvivorsDecrease(states);
  }

  /** The survivors of a concatenation are the survivors of each part, so kept jobs keep their order. */
  lemma {:induction false} SurvivorsAppend(a: seq<JobState>, b: seq<JobState>)
    ensures Survivors(a + b) == Survivors(a) + Survivors(b)
    decreases |b|
  {
    if |b| == 0 {
      assert a + b == a;
    } else {
      SurvivorsAppend(a, b[..|b| - 1]);
      assert (a + b)[..|a + b| - 1] == a + b[..|b| - 1];
    }
  }

  /** A job is kept exactly when its call asked to run again, whether or not it also returned an error. */
  lemma SurvivorOfOne(s: JobState)
    ensures Survivors([s]) == if Step(s.kind, s.num).again then [Next(s)] else []
  {
    assert [s][..0] == [];
  }

  /** The number of calls of a round over `states` that return an error. */
  function ErrorCount(states: seq<JobState>): nat {
    if |states| == 0 then 0
    else
      var s := states[|states| - 1];
      ErrorCount(states[..|states| - 1]) + if Step(s.kind, s.num).err.Some? then 1 else 0
  }

  /** Each call that returns an error adds exactly one message. */
  lemma {:induction false} RoundMessagesCount(states: seq<JobState>)
    ensures |RoundMessages(states)| == ErrorCount(states)
  {
    if |states| > 0 {
      RoundMessagesCount(states[..|states| - 1]);
    }
  }

  /** Jobs that are not scripted. */
  predicate Unscripted(states: seq<JobState>) {
    forall k :: 0 <= k < |states| ==> !states[k].kind.Scripted?
  }

  lemma {:induction false} UnscriptedRound(states: seq<JobState>)
    requires Unscripted(states)
    ensures RoundMessages(states) == [] && Unscripted(Survivors(states))
  {
    if |states| > 0 {
      UnscriptedRound(states[..|states| - 1]);
    }
  }

  /** `inc` and `dec` jobs never return an error, so a run of them adds no message. */
  lemma {:induction false} UnscriptedRunHasNoMessages(states: seq<JobState>)
    requires Unscripted(states)
    ensures RunMessages(states) == []
    decreases Measure(states)
  {
    if |states| > 0 {
      UnscriptedRound(states);
      SurvivorsDecrease(states);
      UnscriptedRunHasNoMessages(Survivors(states));
    }
  }

  /** The job objects of a list are pairwise distinct. */
  predicate Distinct(jobs: seq<Job>) {
    forall a, b :: 0 <= a < b < |jobs| ==> jobs[a] != jobs[b]
  }

  function Snapshot(j: Job): JobState
    reads j
  {
    JobState(j.kind, j.id, j.num)
  }

  /** The states of a list of jobs. */
  function States(jobs: seq<Job>): (r: seq<JobState>)
    reads set j | j in jobs
    ensures |r| == |jobs|
    ensures forall k :: 0 <= k < |jobs| ==> r[k] == Snapshot(jobs[k])
  {
    if |jobs| == 0 then []
    else States(jobs[..|jobs| - 1]) + [Snapshot(jobs[|jobs| - 1])]
  }

  /**
   * After the first `i` calls of a round: `kept` are the jobs, at the
   * positions `index`, whose calls asked to run again, in order, and
   * `survivors` their states afterwards.
   */
  ghost predicate KeptSoFar(jobs: seq<Job>, before: seq<JobState>, i: nat, kept: seq<Job>, survivors: seq<JobState>, index: seq<nat>)
    requires i <= |jobs| == |before|
  {
    survivors == Survivors(before[..i]) &&
    |index| == |kept| == |survivors| &&
    (forall m :: 0 <= m < |index| ==>
      index[m] < i && kept[m] == jobs[index[m]] && survivors[m] == Next(before[index[m]])) &&
    Distinct(kept) &&
    (forall k :: 0 <= k < i ==> (k in index <==> Step(before[k].kind, before[k].num).again))
  }

  /** One more call keeps the round's bookkeeping. */
  lemma KeptStep(jobs: seq<Job>, before: seq<JobState>, i: nat, kept: seq<Job>, survivors: seq<JobState>, index: seq<nat>, again: bool)
    requires Distinct(jobs)
    requires i < |jobs| == |before|
    requires KeptSoFar(jobs, before, i, kept, survivors, index)
    requires again == Step(before[i].kind, before[i].num).again
    ensures again ==> KeptSoFar(jobs, before, i + 1, kept + [jobs[i]], survivors + [Next(before[i])], index + [i])
    ensures !again ==> KeptSoFar(jobs, before, i + 1, kept, survivors, index)
  {
    assert before[..i + 1] == before[..i] + [before[i]];
    SurvivorsSnoc(before[..i], before[i]);
  }

  /** At the end of a round, a job is kept exactly when its call asked to run again. */
  lemma KeptAtEnd(jobs: seq<Job>, before: seq<JobState>, kept: seq<Job>, survivors: seq<JobState>, index: seq<nat>)
    requires Distinct(jobs) && |jobs| == |before|
    requires KeptSoFar(jobs, before, |jobs|, kept, survivors, index)
    ensures forall k :: 0 <= k < |jobs| ==> (jobs[k] in kept <==> Step(before[k].kind, before[k].num).again)
    ensures forall j :: j in kept ==> j in jobs
  {
    forall k | 0 <= k < |jobs|
      ensures jobs[k] in kept <==> k in index
    {
      if k in index {
        var m :| 0 <= m < |index| && index[m] == k;
        assert kept[m] == jobs[k];
      }
      if jobs[k] in kept {
        var m :| 0 <= m < |kept| && kept[m] == jobs[k];
        assert jobs[index[m]] == jobs[k];
      }
    }
    forall j | j in kept
      ensures j in jobs
    {
      var m :| 0 <= m < |kept| && kept[m] == j;
      assert jobs[index[m]] == j;
    }
  }

  /** The body of the round's loop: calls the job at index `i` and records what it returns. */
  method Visit(jobs: seq<Job>, i: nat, kept: seq<Job>, messages: seq<string>,
               ghost before: seq<JobState>, ghost survivors: seq<JobState>, ghost index: seq<nat>)
    returns (kept': seq<Job>, messages': seq<string>, ghost survivors': seq<JobState>, ghost index': seq<nat>)
    requires Distinct(jobs) && i < |jobs| == |before|
    requires Snapshot(jobs[i]) == before[i]
    requires KeptSoFar(jobs, before, i, kept, survivors, index)
    requires messages == RoundMessages(before[..i])
    modifies jobs[i]
    ensures jobs[i].num == Next(before[i]).num
    ensures KeptSoFar(jobs, before, i + 1, kept', survivors', index')
    ensures messages' == RoundMessages(before[..i + 1])
  {
    ghost var f := FailureMessage(before[..i + 1], i);
    RoundMessagesLast(before[..i + 1]);
    assert before[..i + 1][..i] == before[..i];
    assert before[..i + 1][i] == before[i];
    var job := jobs[i];
    var again, err := job.Repeat();
    KeptStep(jobs, before, i, kept, survivors, index, again);
    messages' := messages;
    if err.Some? {
      var name, state := job.Name(), job.State();
      assert name == before[i].id && state == Strconv.FormatInt(Next(before[i]).num);
      var message := Message(i, name, state, err.value);
      assert f == Some(message);
      messages' := messages + [message];
    } else {
      assert f.None?;
    }
    kept', survivors', index' := kept, survivors, index;
    if again {
      kept', survivors', index' := kept + [job], survivors + [Next(before[i])], index + [i];
    }
  }

  /** What the round's loop leaves behind, stated on the states the round started from. */
  lemma RoundEnd(jobs: seq<Job>, before: seq<JobState>, kept: seq<Job>, survivors: seq<JobState>, index: seq<nat>)
    requires Distinct(jobs) && |jobs| == |before|
    requires KeptSoFar(jobs, before, |jobs|, kept, survivors, index)
    requires forall k :: 0 <= k < |jobs| ==> jobs[k].kind == before[k].kind && jobs[k].id == before[k].id
    requires forall k :: 0 <= k < |jobs| ==> jobs[k].num == Next(before[k]).num
    ensures States(kept) == Survivors(before)
    ensures forall k :: 0 <= k < |jobs| ==> (jobs[k] in kept <==> Step(before[k].kind, before[k].num).again)
    ensures Distinct(kept) && forall j :: j in kept ==> j in jobs
  {
    assert before[..|jobs|] == before;
    KeptAtEnd(jobs, before, kept, survivors, index);
    forall m | 0 <= m < |kept|
      ensures Snapshot(kept[m]) == survivors[m]
    {
      assert kept[m] == jobs[index[m]];
    }
  }

  /**
   * One pass of the `for` loop of `Repeat`: calls each job once in list
   * order, returning the messages of the calls that failed and the jobs that
   * asked to run again.
   */
  method Round(jobs: seq<Job>) returns (kept: seq<Job>, messages: seq<string>)
    requires Distinct(jobs)
    modifies set j | j in jobs
    ensures messages == RoundMessages(old(States(jobs)))
    ensures States(kept) == Survivors(old(States(jobs)))
    ensures forall j :: j in jobs ==> j.num == Step(j.kind, old(j.num)).num
    ensures forall j :: j in jobs ==> (j in kept <==> Step(j.kind, old(j.num)).again)
    ensures Distinct(kept) && forall j :: j in kept ==> j in jobs
  {
    ghost var before := States(jobs);
    assert forall k :: 0 <= k < |jobs| ==> before[k].num == jobs[k].num && before[k].kind == jobs[k].kind;
    kept, messages := [], [];
    ghost var survivors: seq<JobState> := [];
    ghost var index: seq<nat> := [];
    for i := 0 to |jobs|
      invariant forall k :: 0 <= k < i ==> jobs[k].num == Next(before[k]).num
      invariant forall k :: i <= k < |jobs| ==> jobs[k].num == before[k].num
      invariant messages == RoundMessages(before[..i])
      invariant KeptSoFar(jobs, before, i, kept, survivors, index)
    {
      kept, messages, survivors, index := Visit(jobs, i, kept, messages, before, survivors, index);
    }
    assert before[..|jobs|] == before;
    RoundEnd(jobs, before, kept, survivors, index);
    forall j | j in jobs
      ensures j.num == Step(j.kind, old(j.num)).num
      ensures j in kept <==> Step(j.kind, old(j.num)).again
    {
      var k :| 0 <= k < |jobs| && jobs[k] == j;
      assert before[k].num == old(j.num);
    }
  }

  /**
   * `Repeat`: runs rounds until no job is left, appending each round's
   * messages to `errors`. Every job ends at the counter its own calls lead
   * to, independently of the other jobs.
   */
  method Repeat(jobs: seq<Job>, errors: seq<string>) returns (res: seq<string>)
    requires Distinct(jobs)
    modifies set j | j in jobs
    ensures res == errors + RunMessages(old(States(jobs)))
    ensures forall j :: j in jobs ==> j.num == Final(j.kind, old(j.num))
  {
    ghost var start := States(jobs);
    var current := jobs;
    res := errors;
    while |current| > 0
      invariant Distinct(current) && forall j :: j in current ==> j in jobs
      invariant res + RunMessages(States(current)) == errors + RunMessages(start)
      invariant forall j :: j in jobs && j in current ==> Final(j.kind, j.num) == Final(j.kind, old(j.num))
      invariant forall j :: j in jobs && j !in current ==> j.num == Final(j.kind, old(j.num))
      decreases Measure(States(current))
    {
      ghost var states := States(current);
      label BeforeRound:
      var kept, messages := Round(current);
      ghost var rest := Survivors(states);
      assert States(kept) == rest;
      assert messages == RoundMessages(states);
      RunMessagesUnfold(states);
      AppendAssociative(res, messages, RunMessages(rest));
      forall j | j in jobs
        ensures j in kept ==> Final(j.kind, j.num) == Final(j.kind, old(j.num))
        ensures j !in kept ==> j.num == Final(j.kind, old(j.num))
      {
        if j in current {
          assert j.num == Step(j.kind, old@BeforeRound(j.num)).num;
        } else {
          assert j.num == old@BeforeRound(j.num);
        }
      }
      res := res + messages;
      current := kept;
    }
  }

  /** The message the call of the job at index `i` of a round records, if that call fails. */
  function FailureMessage(states: seq<JobState>, i: nat): Option<string>
    requires i < |states|
  {
    var s := states[i];
    match Step(s.kind, s.num).err
    case None => None
    case Some(e) => Some(Message(i, s.id, Strconv.FormatInt(Next(s).num), e))
  }

  /** A failing call's report is among its round's messages. */
  lemma {:induction false} FailingCallInRound(states: seq<JobState>, i: nat)
    requires i < |states| && FailureMessage(states, i).Some?
    ensures FailureMessage(states, i).value in RoundMessages(states)
    decreases |states|
  {
    var n := |states| - 1;
    var m := FailureMessage(states, i).value;
    var f := FailureMessage(states, n);
    var earlier := RoundMessages(states[..n]);
    var last := if f.Some? then [f.value] else [];
    RoundMessagesLast(states);
    assert RoundMessages(states) == earlier + last;
    if i < n {
      FailureMessagePrefix(states, n, i);
      FailingCallInRound(states[..n], i);
      assert m in earlier;
    } else {
      assert i == n && f.Some? && f.value == m;
      assert last[0] == m;
    }
  }

  /**
   * Every failing call is reported, with its index in the round, the job's
   * name, its state after the call and the error: in the round's messages,
   * and so in the messages of the whole run.
   */
  lemma FailingCallReported(states: seq<JobState>, i: nat)
    requires i < |states| && FailureMessage(states, i).Some?
    ensures FailureMessage(states, i).value in RoundMessages(states)
    ensures FailureMessage(states, i).value in RunMessages(states)
  {
    FailingCallInRound(states, i);
    RoundMessageInRun(states, FailureMessage(states, i).value);
  }

  /** The messages of the first round are among the messages of the run. */
  lemma RoundMessageInRun(states: seq<JobState>, m: string)
    requires m in RoundMessages(states)
    ensures m in RunMessages(states)
  {
    RunMessagesUnfold(states);
  }

  /** A round's messages are those of all its calls but the last, then the last call's report, if any. */
  lemma RoundMessagesLast(states: seq<JobState>)
    requires |states| > 0
    ensures var n := |states| - 1; var f := FailureMessage(states, n);
      RoundMessages(states) == RoundMessages(states[..n]) + if f.Some? then [f.value] else []
  {
  }

  /** A prefix of a round reports the calls it holds as the whole round does. */
  lemma FailureMessagePrefix(states: seq<JobState>, k: nat, i: nat)
    requires i < k <= |states|
    ensures FailureMessage(states[..k], i) == FailureMessage(states, i)
  {
    assert states[..k][i] == states[i];
  }

  /** Conversely, every message of a round is the report of one of its failing calls. */
  lemma {:induction false} RoundMessagesAreFailures(states: seq<JobState>, m: string)
    requires m in RoundMessages(states)
    ensures exists i :: 0 <= i < |states| && FailureMessage(states, i) == Some(m)
    decreases |states|
  {
    var n := |states| - 1;
    var f := FailureMessage(states, n);
    var earlier := RoundMessages(states[..n]);
    var last := if f.Some? then [f.value] else [];
    RoundMessagesLast(states);
    assert RoundMessages(states) == earlier + last;
    if m in earlier {
      RoundMessagesAreFailures(states[..n], m);
      var i :| 0 <= i < n && FailureMessage(states[..n], i) == Some(m);
      FailureMessagePrefix(states, n, i);
    } else {
      assert m in last;
      assert f.Some? && m == f.value;
    }
  }

  /** A job whose only call fails and stops is reported once, at index 0, with its state "1" after the call. */
  lemma OneFailingCall(name: string, e: string)
    ensures RunMessages([JobState(Scripted([Outcome(false, Some(e))]), name, 0)]) == [Message(0, name, "1", e)]
  {
    var s := JobState(Scripted([Outcome(false, Some(e))]), name, 0);
    RunMessagesUnfold([s]);
    assert [s][..0] == [];
    assert Strconv.FormatInt(1) == "1";
  }

  /** A round of one job reports that job's error, if any, at index 0. */
  lemma RoundOfOne(s: JobState)
    ensures RoundMessages([s]) ==
      match Step(s.kind, s.num).err
      case None => []
      case Some(e) => [Message(0, s.id, Strconv.FormatInt(Next(s).num), e)]
  {
    assert [s][..0] == [];
  }

  /**
   * A lone job whose first call fails but asks to run again is kept: it is
   * called a second time in the next round, and both failures are reported
   * at index 0.
   */
  lemma FailedJobRunsAgain(name: string, e: string, f: string)
    ensures var s := JobState(Scripted([Outcome(true, Some(e)), Outcome(false, Some(f))]), name, 0);
      RunMessages([s]) == [Message(0, name, "1", e), Message(0, name, "2", f)]
  {
    var s := JobState(Scripted([Outcome(true, Some(e)), Outcome(false, Some(f))]), name, 0);
    var t := Next(s);
    assert t.num == 1;
    assert Strconv.FormatInt(1) == "1";
    assert Strconv.FormatInt(2) == "2";
    RoundOfOne(s);
    SurvivorOfOne(s);
    RoundOfOne(t);
    SurvivorOfOne(t);
    var first := [Message(0, name, "1", e)];
    var second := [Message(0, name, "2", f)];
    assert RoundMessages([s]) == first;
    assert RoundMessages([t]) == second;
    RunMessagesUnfold([t]);
    assert RunMessages([t]) == second;
    RunMessagesUnfold([s]);
    assert RunMessages([s]) == first + second;
  }
}
