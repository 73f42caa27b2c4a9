/** Maintenance runs one at a time: the coordinator's two locked regions around the runner. */
module Coordinator {
  import opened Basics
  import opened Totals

  datatype Trigger = Startup | Schedule | Pressure | Operator

  datatype Result = Result(removedObjects: int, removedBytes: int, skippedObjects: int, errors: int)

  const NOTHING := Result(0, 0, 0, 0)

  /** A run as callers are handed it: a copy. failed: the runner returned an error. */
  datatype Record = Record(
    id: nat, trigger: Trigger, startedAt: int, finishedAt: Option<int>, result: Result, failed: bool)

  datatype Status = Idle | Running

  // ---------------------------------------------------------------- the coordinator's book

  /** Runs accepted so far, the one in progress, and the last one completed. */
  datatype Book = Book(accepted: nat, current: Option<Record>, last: Option<Record>)

  const EMPTY := Book(0, None, None)

  datatype Step =
    | Beginning(trigger: Trigger, now: int)
    | Filling(result: Result, failed: bool, now: int)
    | Completing

  /** A run is filled once, by the goroutine that began it, and completed after that. */
  predicate CanStep(b: Book, s: Step) {
    match s
    case Beginning(_, _) => true
    case Filling(_, _, _) => b.current.Some? && b.current.value.finishedAt.None?
    case Completing => b.current.Some? && b.current.value.finishedAt.Some?
  }

  function Filled(run: Record, result: Result, failed: bool, now: int): Record {
    run.(finishedAt := Some(now), failed := failed,
         result := if failed then result.(errors := result.errors + 1) else result)
  }

  function After(b: Book, s: Step): Book
    requires CanStep(b, s)
  {
    match s
    case Beginning(trigger, now) =>
      if b.current.Some? then b
      else b.(accepted := b.accepted + 1, current := Some(Record(b.accepted + 1, trigger, now, None, NOTHING, false)))
    case Filling(result, failed, now) => b.(current := Some(Filled(b.current.value, result, failed, now)))
    case Completing => b.(current := None, last := b.current)
  }

  ghost predicate Runs(b: Book, ss: seq<Step>, b': Book)
    decreases ss
  {
    if ss == [] then b' == b else CanStep(b, ss[0]) && Runs(After(b, ss[0]), ss[1..], b')
  }

  /** The newest accepted run is the current one or the last; the last is the one before the current
      one, and it has an end. */
  predicate BookOk(b: Book) {
    && (b.current.Some? ==> b.accepted > 0 && b.current.value.id == b.accepted)
    && (b.last.None? <==> b.accepted == (if b.current.Some? then 1 else 0))
    && (b.last.Some? ==> b.last.value.id == (if b.current.Some? then b.accepted - 1 else b.accepted)
                         && b.last.value.finishedAt.Some?)
  }

  lemma StepKeepsBook(b: Book, s: Step)
    requires BookOk(b) && CanStep(b, s)
    ensures BookOk(After(b, s))
  {
  }

  lemma {:induction false} RunKeepsBook(b: Book, ss: seq<Step>, b': Book)
    requires BookOk(b) && Runs(b, ss, b')
    ensures BookOk(b')
    decreases ss
  {
    if ss != [] {
      StepKeepsBook(b, ss[0]);
      RunKeepsBook(After(b, ss[0]), ss[1..], b');
    }
  }

  /** The ids of the runs that were accepted, in order. */
  ghost function Accepted(b: Book, ss: seq<Step>): seq<nat>
    decreases ss
  {
    if ss == [] || !CanStep(b, ss[0]) then []
    else (if ss[0].Beginning? && b.current.None? then [b.accepted + 1] else []) + Accepted(After(b, ss[0]), ss[1..])
  }

  lemma CountingMore(n: nat, ids: seq<nat>, m: nat)
    requires m == n + 1
    ensures Counting(n) + ([m] + ids) == Counting(m) + ids
  {
  }

  lemma {:induction false} IdsCount(b: Book, ss: seq<Step>, b': Book)
    requires Runs(b, ss, b')
    ensures Counting(b.accepted) + Accepted(b, ss) == Counting(b'.accepted)
    decreases ss
  {
    if ss == [] {
      assert Counting(b.accepted) + [] == Counting(b.accepted);
    } else {
      IdsCount(After(b, ss[0]), ss[1..], b');
      if ss[0].Beginning? && b.current.None? {
        CountingMore(b.accepted, Accepted(After(b, ss[0]), ss[1..]), b.accepted + 1);
      } else {
        assert [] + Accepted(After(b, ss[0]), ss[1..]) == Accepted(After(b, ss[0]), ss[1..]);
      }
    }
  }

  function Completions(ss: seq<Step>): nat {
    if ss == [] then 0 else (if ss[0].Completing? then 1 else 0) + Completions(ss[1..])
  }

  /** One run at a time: in every history the accepted runs have the ids 1, 2, 3, ... in order, and
      all but the current one, if there is one, are completed. */
  lemma {:induction false} OneRunAtATime(b: Book, ss: seq<Step>, b': Book)
    requires Runs(b, ss, b')
    ensures b'.accepted == b.accepted + Completions(ss)
            + (if b'.current.Some? then 1 else 0) - (if b.current.Some? then 1 else 0)
    ensures Counting(b.accepted) + Accepted(b, ss) == Counting(b'.accepted)
    decreases ss
  {
    IdsCount(b, ss, b');
    if ss != [] { OneRunAtATime(After(b, ss[0]), ss[1..], b'); }
  }

  /** The last run that was filled is not yet completed. */
  predicate BetweenFillAndComplete(ss: seq<Step>) {
    exists i :: 0 <= i < |ss| && ss[i].Filling? && NoCompletion(ss, i)
  }

  predicate NoCompletion(ss: seq<Step>, i: nat) { forall j :: i < j < |ss| ==> !ss[j].Completing? }

  predicate EndIsSet(b: Book) { b.current.Some? && b.current.value.finishedAt.Some? }

  predicate NeverCompletes(ss: seq<Step>) { forall j :: 0 <= j < |ss| ==> !ss[j].Completing? }

  lemma FillAheadOf(s: Step, rest: seq<Step>)
    ensures BetweenFillAndComplete([s] + rest) <==> BetweenFillAndComplete(rest) || (s.Filling? && NeverCompletes(rest))
    ensures NeverCompletes([s] + rest) <==> !s.Completing? && NeverCompletes(rest)
  {
    var all := [s] + rest;
    assert forall j :: 0 <= j < |rest| ==> all[j + 1] == rest[j];
    forall i | 0 <= i < |rest| && rest[i].Filling?
      ensures NoCompletion(all, i + 1) == NoCompletion(rest, i)
    {
      assert forall j :: i + 1 < j < |all| ==> all[j] == rest[j - 1];
    }
    assert NoCompletion(all, 0) == NeverCompletes(rest);
    if i :| 0 <= i < |rest| && rest[i].Filling? && NoCompletion(rest, i) {
      assert all[i + 1].Filling? && NoCompletion(all, i + 1);
    }
    if i :| 0 <= i < |all| && all[i].Filling? && NoCompletion(all, i) {
      if i > 0 { assert rest[i - 1].Filling? && NoCompletion(rest, i - 1); }
    }
  }

  lemma {:induction false} EndIsSetFrom(b: Book, ss: seq<Step>, b': Book)
    requires Runs(b, ss, b')
    ensures EndIsSet(b') <==> BetweenFillAndComplete(ss) || (EndIsSet(b) && NeverCompletes(ss))
    decreases ss
  {
    if ss != [] {
      assert ss == [ss[0]] + ss[1..];
      FillAheadOf(ss[0], ss[1..]);
      EndIsSetFrom(After(b, ss[0]), ss[1..], b');
    }
  }

  /** A run in progress is reported with its end already set exactly between its filling and its
      completion, in every history. */
  lemma RunningWithEndIff(ss: seq<Step>, b: Book)
    requires Runs(EMPTY, ss, b)
    ensures EndIsSet(b) <==> BetweenFillAndComplete(ss)
  {
    EndIsSetFrom(EMPTY, ss, b);
  }

  /** And such a state exists: the status says "running" beside an end. */
  lemma RunningWithEndExists(trigger: Trigger, now: int)
    ensures var filled := Filled(Record(1, trigger, now, None, NOTHING, false), NOTHING, false, now);
            Runs(EMPTY, [Beginning(trigger, now), Filling(NOTHING, false, now)], Book(1, Some(filled), None))
  {
    var ss := [Beginning(trigger, now), Filling(NOTHING, false, now)];
    assert ss[1..] == [Filling(NOTHING, false, now)] && ss[1..][1..] == [];
  }

  // ---------------------------------------------------------------- the coordinator

  /** A run as the coordinator and the goroutine that began it share it. */
  class Run {
    const id: nat
    const trigger: Trigger
    const startedAt: int
    var finishedAt: Option<int>
    var result: Result
    var failed: bool

    constructor (id: nat, trigger: Trigger, now: int)
      ensures Copy() == Record(id, trigger, now, None, NOTHING, false)
    {
      this.id, this.trigger, this.startedAt := id, trigger, now;
      finishedAt, result, failed := None, NOTHING, false;
    }

    function Copy(): Record
      reads this
    {
      Record(id, trigger, startedAt, finishedAt, result, failed)
    }
  }

  class Coordinator {
    var nextId: nat
    var current: Run?
    var last: Run?

    ghost function State(): Book
      reads this, current, last
    {
      Book(nextId,
           if current == null then None else Some(current.Copy()),
           if last == null then None else Some(last.Copy()))
    }

    ghost predicate Valid()
      reads this, current, last
    {
      BookOk(State()) && (current != null ==> current != last)
    }

    constructor ()
      ensures Valid() && State() == EMPTY
    {
      nextId, current, last := 0, null, null;
    }

    /** The first locked region: a caller starts a run, or is given a copy of the one in progress. */
    method Begin(trigger: Trigger, now: int) returns (run: Run?, seen: Record)
      requires Valid()
      modifies this
      ensures Valid() && State() == After(old(State()), Beginning(trigger, now))
      ensures run != null <==> old(current) == null
      ensures run != null ==> fresh(run) && current == run
      ensures last == old(last) && State().current == Some(seen)
      ensures run != null ==>
                nextId == old(nextId) + 1 && seen == Record(nextId, trigger, now, None, Result(0, 0, 0, 0), false)
      ensures run == null ==> nextId == old(nextId) && Some(seen) == old(State()).current
    {
      if current != null {
        return null, current.Copy();
      }
      nextId := nextId + 1;
      run := new Run(nextId, trigger, now);
      current := run;
      seen := run.Copy();
    }

    /** The runner's answer is written to the shared run without the lock. */
    method Fill(run: Run, result: Result, failed: bool, now: int)
      requires Valid() && current == run && run.finishedAt == None
      modifies run
      ensures Valid() && State() == After(old(State()), Filling(result, failed, now))
      ensures run.finishedAt == Some(now) && run.failed == failed
      ensures run.result == Result(result.removedObjects, result.removedBytes, result.skippedObjects,
                                   if failed then result.errors + 1 else result.errors)
    {
      run.result, run.finishedAt, run.failed := result, Some(now), failed;
      if failed {
        run.result := run.result.(errors := run.result.errors + 1);
      }
    }

    /** The second locked region. */
    method Complete(run: Run)
      requires Valid() && current == run && run.finishedAt.Some?
      modifies this
      ensures Valid() && State() == After(old(State()), Completing) && last == run && current == null
    {
      current, last := null, run;
    }

    /** A whole run with nobody in between: begun, filled and completed, or turned away unchanged. */
    method RunOnce(trigger: Trigger, result: Result, failed: bool, now: int, later: int)
      returns (run: Record, accepted: bool)
      requires Valid()
      modifies this
      ensures Valid() && (accepted <==> old(current) == null)
      ensures accepted ==>
                Runs(old(State()), [Beginning(trigger, now), Filling(result, failed, later), Completing], State())
      ensures accepted ==> State().last == Some(run) && State().current == None && nextId == old(nextId) + 1
      ensures accepted ==>
                run == Record(old(nextId) + 1, trigger, now, Some(later),
                              Result(result.removedObjects, result.removedBytes, result.skippedObjects,
                                     result.errors + if failed then 1 else 0), failed)
      ensures !accepted ==> State() == old(State()) && State().current == Some(run)
    {
      ghost var before := State();
      var mine, seen := Begin(trigger, now);
      if mine == null {
        return seen, false;
      }
      Fill(mine, result, failed, later);
      Complete(mine);
      run, accepted := mine.Copy(), true;
      ThreeSteps(before, Beginning(trigger, now), Filling(result, failed, later), Completing);
    }

    /** What status reports, as copies: running exactly while a run is in progress. */
    method Snapshot() returns (status: Status, inProgress: Option<Record>, finished: Option<Record>)
      requires Valid()
      ensures status.Running? <==> inProgress.Some?
      ensures inProgress == State().current && finished == State().last
      ensures finished.Some? ==> finished.value.finishedAt.Some?
                                 && finished.value.id == if status.Idle? then nextId else nextId - 1
    {
      status, inProgress, finished := Idle, None, None;
      if current != null {
        inProgress, status := Some(current.Copy()), Running;
      }
      if last != null {
        finished := Some(last.Copy());
      }
    }
  }

  lemma ThreeSteps(b: Book, s: Step, t: Step, u: Step)
    requires CanStep(b, s) && CanStep(After(b, s), t) && CanStep(After(After(b, s), t), u)
    ensures Runs(b, [s, t, u], After(After(After(b, s), t), u))
  {
    assert [s, t, u][1..] == [t, u] && [t, u][1..] == [u] && [u][1..] == [];
    var end := After(After(After(b, s), t), u);
    assert Runs(After(After(b, s), t), [u], end);
    assert Runs(After(b, s), [t, u], end);
  }
}
