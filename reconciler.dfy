/**
 * The reconciliation in the script's entry point: every task of the
 * configured section is deleted, then the calendar's months and events are
 * walked in order and one task is created for each event that is not past.
 */
module Reconciler {
  import opened Common
  import opened CalendarData
  import opened Tracker

  /** A Date's time value: a millisecond instant, or NaN for an invalid date. */
  datatype Instant = Invalid | At(ms: int)

  /** `today > startDate`: every comparison with an invalid date is false. */
  predicate IsPast(now: int, start: Instant)
  {
    start.At? && now > start.ms
  }

  /** `new Date(event.start_date)`: an absent start date gives an invalid date. */
  function StartInstant(e: Event, parse: string -> Instant): Instant
  {
    match e.startDate
    case None => Invalid
    case Some(d) => parse(d)
  }

  /** The attributes of the task created for an event. */
  function TaskFor(e: Event, projectId: string, sectionId: string): (args: TaskArgs)
    ensures args.content == e.description && args.dueString == e.startDate
    ensures args.labels == [CategoryLabel(e.category)]
    ensures args.projectId == projectId && args.sectionId == sectionId
  {
    TaskArgs(e.description, e.startDate, projectId, sectionId, [CategoryLabel(e.category)])
  }

  /** The task, if any, created for an event whose clock reading is `now`. */
  function Step(e: Event, now: int, parse: string -> Instant, projectId: string, sectionId: string): seq<TaskArgs>
  {
    if IsPast(now, StartInstant(e, parse)) then [] else [TaskFor(e, projectId, sectionId)]
  }

  /**
   * The tasks created for a sequence of events, in order, when the clock
   * readings for them are readings `start`, `start + 1`, ... (the clock is
   * read once per event).
   */
  function PlannedAt(events: seq<Event>, start: nat, clock: nat -> int, parse: string -> Instant,
                     projectId: string, sectionId: string): seq<TaskArgs>
  {
    if events == [] then []
    else Step(events[0], clock(start), parse, projectId, sectionId)
         + PlannedAt(events[1..], start + 1, clock, parse, projectId, sectionId)
  }

  /** The tasks created for all events of a run: event k is judged by the k-th clock reading. */
  function Planned(events: seq<Event>, clock: nat -> int, parse: string -> Instant,
                   projectId: string, sectionId: string): seq<TaskArgs>
  {
    PlannedAt(events, 0, clock, parse, projectId, sectionId)
  }

  /** Planning a run split in two is planning the halves, the second starting at the next reading. */
  lemma {:induction false} PlannedAppend(xs: seq<Event>, ys: seq<Event>, start: nat, clock: nat -> int,
                                         parse: string -> Instant, projectId: string, sectionId: string)
    ensures PlannedAt(xs + ys, start, clock, parse, projectId, sectionId)
      == PlannedAt(xs, start, clock, parse, projectId, sectionId)
         + PlannedAt(ys, start + |xs|, clock, parse, projectId, sectionId)
  {
    if xs == [] {
      assert xs + ys == ys;
    } else {
      assert (xs + ys)[0] == xs[0];
      assert (xs + ys)[1..] == xs[1..] + ys;
      PlannedAppend(xs[1..], ys, start + 1, clock, parse, projectId, sectionId);
    }
  }

  /** One more event adds the task for it, judged by the next clock reading. */
  lemma PlannedSnoc(events: seq<Event>, e: Event, start: nat, clock: nat -> int, parse: string -> Instant,
                    projectId: string, sectionId: string)
    ensures PlannedAt(events + [e], start, clock, parse, projectId, sectionId)
      == PlannedAt(events, start, clock, parse, projectId, sectionId)
         + Step(e, clock(start + |events|), parse, projectId, sectionId)
  {
    PlannedAppend(events, [e], start, clock, parse, projectId, sectionId);
    assert [e][1..] == [];
  }

  /** The positions below `hi` of the events that are not past, in increasing order. */
  function KeptUpTo(events: seq<Event>, clock: nat -> int, parse: string -> Instant, hi: nat): seq<nat>
    requires hi <= |events|
  {
    if hi == 0 then []
    else
      var k := hi - 1;
      KeptUpTo(events, clock, parse, k) + (if IsPast(clock(k), StartInstant(events[k], parse)) then [] else [k])
  }

  function Kept(events: seq<Event>, clock: nat -> int, parse: string -> Instant): seq<nat>
  {
    KeptUpTo(events, clock, parse, |events|)
  }

  predicate Increasing(r: seq<nat>)
  {
    forall a, b :: 0 <= a < b < |r| ==> r[a] < r[b]
  }

  /** A position is kept exactly when it is below `hi` and its event is not past. */
  lemma {:induction false} KeptUpToMembers(events: seq<Event>, clock: nat -> int, parse: string -> Instant, hi: nat, i: int)
    requires hi <= |events|
    ensures i in KeptUpTo(events, clock, parse, hi)
      <==> 0 <= i < hi && !IsPast(clock(i), StartInstant(events[i], parse))
  {
    if hi > 0 {
      KeptUpToMembers(events, clock, parse, hi - 1, i);
    }
  }

  /** The kept positions are strictly increasing and below `hi`. */
  lemma {:induction false} KeptUpToSorted(events: seq<Event>, clock: nat -> int, parse: string -> Instant, hi: nat)
    requires hi <= |events|
    ensures Increasing(KeptUpTo(events, clock, parse, hi))
    ensures forall a :: 0 <= a < |KeptUpTo(events, clock, parse, hi)| ==> KeptUpTo(events, clock, parse, hi)[a] < hi
  {
    if hi > 0 {
      KeptUpToSorted(events, clock, parse, hi - 1);
      var front := KeptUpTo(events, clock, parse, hi - 1);
      var r := KeptUpTo(events, clock, parse, hi);
      assert Increasing(front);
      assert r == front + (if IsPast(clock(hi - 1), StartInstant(events[hi - 1], parse)) then [] else [hi - 1]);
      forall a, b | 0 <= a < b < |r| ensures r[a] < r[b] {
        if b < |front| {
          assert r[a] == front[a] && r[b] == front[b];
        } else {
          assert r[a] == front[a] && r[b] == hi - 1;
        }
      }
      forall a | 0 <= a < |r| ensures r[a] < hi {
        if a < |front| {
          assert r[a] == front[a];
        }
      }
    }
  }

  /** Kept lists exactly the positions of the events that are not past, in increasing order. */
  lemma KeptSpec(events: seq<Event>, clock: nat -> int, parse: string -> Instant)
    ensures var r := Kept(events, clock, parse);
      && Increasing(r)
      && (forall a :: 0 <= a < |r| ==> r[a] < |events|)
      && (forall i :: 0 <= i < |events| ==> (i in r <==> !IsPast(clock(i), StartInstant(events[i], parse))))
  {
    KeptUpToSorted(events, clock, parse, |events|);
    var r := Kept(events, clock, parse);
    forall i | 0 <= i < |events| ensures i in r <==> !IsPast(clock(i), StartInstant(events[i], parse)) {
      KeptUpToMembers(events, clock, parse, |events|, i);
    }
  }

  /**
   * The tasks created for the first `hi` events are an order-preserving
   * filter: the j-th created task is the one for the j-th kept position.
   */
  lemma {:induction false} PlannedPrefixIsFilter(events: seq<Event>, clock: nat -> int, parse: string -> Instant,
                                                 projectId: string, sectionId: string, hi: nat)
    requires hi <= |events|
    ensures var planned := Planned(events[..hi], clock, parse, projectId, sectionId);
      var idx := KeptUpTo(events, clock, parse, hi);
      && |planned| == |idx|
      && forall j :: 0 <= j < |idx| ==> idx[j] < |events| && planned[j] == TaskFor(events[idx[j]], projectId, sectionId)
  {
    if hi > 0 {
      var k := hi - 1;
      PlannedPrefixIsFilter(events, clock, parse, projectId, sectionId, k);
      KeptUpToSorted(events, clock, parse, k);
      assert events[..hi] == events[..k] + [events[k]];
      PlannedSnoc(events[..k], events[k], 0, clock, parse, projectId, sectionId);
    }
  }

  /**
   * The created tasks are an order-preserving filter of the events: the
   * j-th created task is the one for the j-th event that is not past.
   */
  lemma PlannedIsFilter(events: seq<Event>, clock: nat -> int, parse: string -> Instant,
                        projectId: string, sectionId: string)
    ensures var planned := Planned(events, clock, parse, projectId, sectionId);
      var idx := Kept(events, clock, parse);
      && |planned| == |idx|
      && forall j :: 0 <= j < |idx| ==> idx[j] < |events| && planned[j] == TaskFor(events[idx[j]], projectId, sectionId)
  {
    PlannedPrefixIsFilter(events, clock, parse, projectId, sectionId, |events|);
    assert events[..|events|] == events;
  }

  /** The number of created tasks is the number of events that are not past. */
  lemma PlannedCount(events: seq<Event>, clock: nat -> int, parse: string -> Instant,
                     projectId: string, sectionId: string)
    ensures |Planned(events, clock, parse, projectId, sectionId)| == |Kept(events, clock, parse)| <= |events|
  {
    PlannedIsFilter(events, clock, parse, projectId, sectionId);
    KeptBound(events, clock, parse, |events|);
  }

  lemma {:induction false} KeptBound(events: seq<Event>, clock: nat -> int, parse: string -> Instant, hi: nat)
    requires hi <= |events|
    ensures |KeptUpTo(events, clock, parse, hi)| <= hi
  {
    if hi > 0 {
      KeptBound(events, clock, parse, hi - 1);
    }
  }

  /** An event with no start date, or one the date parser rejects, is never skipped. */
  lemma InvalidDateKept(events: seq<Event>, clock: nat -> int, parse: string -> Instant, k: nat)
    requires k < |events|
    requires events[k].startDate == None || parse(events[k].startDate.value) == Invalid
    ensures k in Kept(events, clock, parse)
  {
    KeptUpToMembers(events, clock, parse, |events|, k);
  }

  /**
   * A dated event is kept exactly when the clock reading taken for it is not
   * later than its parsed instant: an event dated today is skipped once the
   * clock has passed that day's parsed instant.
   */
  lemma DatedEventKept(events: seq<Event>, clock: nat -> int, parse: string -> Instant, k: nat, ms: int)
    requires k < |events| && events[k].startDate.Some? && parse(events[k].startDate.value) == At(ms)
    ensures k in Kept(events, clock, parse) <==> clock(k) <= ms
  {
    KeptUpToMembers(events, clock, parse, |events|, k);
  }

  /** Running later (every clock reading no earlier) never creates a task for an event skipped before. */
  lemma LaterRunKeepsFewer(events: seq<Event>, early: nat -> int, late: nat -> int, parse: string -> Instant)
    requires forall i :: early(i) <= late(i)
    ensures forall i :: i in Kept(events, late, parse) ==> i in Kept(events, early, parse)
  {
    forall i | i in Kept(events, late, parse) ensures i in Kept(events, early, parse) {
      KeptUpToMembers(events, late, parse, |events|, i);
      KeptUpToMembers(events, early, parse, |events|, i);
    }
  }

  /** The first loop: deletes the listed tasks one by one, in listed order. */
  method DeleteListed(api: TaskTracker, listed: seq<Task>)
    requires api.Valid() && api.tasks == listed
    modifies api
    ensures api.Valid()
    ensures api.tasks == []
    ensures api.calls == old(api.calls) + Deletes(listed)
    ensures api.nextId == old(api.nextId)
  {
    ghost var log0 := api.calls;
    for i := 0 to |listed|
      invariant api.Valid()
      invariant api.tasks == listed[i..]
      invariant api.calls == log0 + Deletes(listed[..i])
      invariant api.nextId == old(api.nextId)
    {
      DeleteFirst(api.tasks);
      api.Delete(listed[i].id);
      assert listed[..i + 1] == listed[..i] + [listed[i]];
      DeletesAppend(listed[..i], [listed[i]]);
    }
    assert listed[..|listed|] == listed;
  }

  /** One more event of a month extends the plan and the log by its step. */
  lemma ExtendPlan(events: seq<Event>, j: nat, reading: nat, clock: nat -> int, parse: string -> Instant,
                   projectId: string, sectionId: string, log0: seq<Call>, added: seq<TaskArgs>)
    requires j < |events|
    requires added == PlannedAt(events[..j], reading, clock, parse, projectId, sectionId)
    ensures var step := Step(events[j], clock(reading + j), parse, projectId, sectionId);
      && added + step == PlannedAt(events[..j + 1], reading, clock, parse, projectId, sectionId)
      && log0 + Adds(added) + Adds(step) == log0 + Adds(added + step)
  {
    var step := Step(events[j], clock(reading + j), parse, projectId, sectionId);
    assert events[..j + 1] == events[..j] + [events[j]];
    PlannedSnoc(events[..j], events[j], reading, clock, parse, projectId, sectionId);
    AddsAppend(added, step);
  }

  /** The body of the inner loop: one event, judged by one clock reading. */
  method CreateForEvent(api: TaskTracker, event: Event, today: int, parse: string -> Instant,
                        projectId: string, sectionId: string)
    returns (made: bool)
    requires api.Valid()
    modifies api
    ensures api.Valid()
    ensures var step := Step(event, today, parse, projectId, sectionId);
      && ArgsOf(api.tasks) == ArgsOf(old(api.tasks)) + step
      && api.calls == old(api.calls) + Adds(step)
      && api.nextId == old(api.nextId) + |step|
      && made == (step != [])
  {
    var startDate := StartInstant(event, parse);
    if IsPast(today, startDate) {
      return false;
    }
    ghost var prev := api.tasks;
    var t := api.Add(TaskFor(event, projectId, sectionId));
    ArgsOfAppend(prev, [t]);
    return true;
  }

  /**
   * The inner loop over one month's events; `reading` is the number of clock
   * readings taken before it (one per event visited in earlier months).
   */
  method CreateForMonth(api: TaskTracker, events: seq<Event>, reading: nat,
                        clock: nat -> int, parse: string -> Instant, projectId: string, sectionId: string)
    returns (created: nat)
    requires api.Valid()
    modifies api
    ensures api.Valid()
    ensures var added := PlannedAt(events, reading, clock, parse, projectId, sectionId);
      && ArgsOf(api.tasks) == ArgsOf(old(api.tasks)) + added
      && api.calls == old(api.calls) + Adds(added)
      && api.nextId == old(api.nextId) + created
      && created == |added|
  {
    ghost var args0, log0, next0 := ArgsOf(api.tasks), api.calls, api.nextId;
    ghost var added: seq<TaskArgs> := [];
    created := 0;
    for j := 0 to |events|
      invariant api.Valid()
      invariant added == PlannedAt(events[..j], reading, clock, parse, projectId, sectionId)
      invariant ArgsOf(api.tasks) == args0 + added
      invariant api.calls == log0 + Adds(added)
      invariant api.nextId == next0 + created
      invariant created == |added|
    {
      var event := events[j];
      var today := clock(reading + j);
      ghost var step := Step(event, today, parse, projectId, sectionId);
      var made := CreateForEvent(api, event, today, parse, projectId, sectionId);
      ExtendPlan(events, j, reading, clock, parse, projectId, sectionId, log0, added);
      added := added + step;
      if made {
        created := created + 1;
      }
    }
    assert events[..|events|] == events;
  }

  /** One more month extends the events walked, the plan and the log by that month's share. */
  lemma ExtendRun(months: seq<Month>, m: nat, clock: nat -> int, parse: string -> Instant,
                  projectId: string, sectionId: string, log0: seq<Call>, done: seq<Event>, planned: seq<TaskArgs>)
    requires m < |months| && done == Flatten(months[..m])
    requires planned == Planned(done, clock, parse, projectId, sectionId)
    ensures var events := months[m].events;
      var added := PlannedAt(events, |done|, clock, parse, projectId, sectionId);
      && done + events == Flatten(months[..m + 1])
      && planned + added == Planned(done + events, clock, parse, projectId, sectionId)
      && log0 + Adds(planned) + Adds(added) == log0 + Adds(planned + added)
  {
    var events := months[m].events;
    var added := PlannedAt(events, |done|, clock, parse, projectId, sectionId);
    assert months[..m + 1][..m] == months[..m];
    PlannedAppend(done, events, 0, clock, parse, projectId, sectionId);
    AddsAppend(planned, added);
  }

  /**
   * The reconciler. Lists the section's tasks and deletes each, in listed
   * order; then walks months and events in order, reading the clock once per
   * event, and creates a task for each event that is not past. Returns the
   * number of tasks created.
   */
  method Reconcile(api: TaskTracker, months: seq<Month>, clock: nat -> int, parse: string -> Instant,
                   projectId: string, sectionId: string) returns (total: nat)
    requires api.Valid()
    modifies api
    ensures api.Valid()
    ensures var planned := Planned(Flatten(months), clock, parse, projectId, sectionId);
      && api.calls == old(api.calls) + [ListTasks(projectId, sectionId)] + Deletes(old(api.tasks)) + Adds(planned)
      && ArgsOf(api.tasks) == planned
      && api.nextId == old(api.nextId) + |planned|
      && total == |planned|
  {
    var currentTasks := api.GetTasks(projectId, sectionId);
    DeleteListed(api, currentTasks);

    ghost var deleteCalls := api.calls;
    ghost var next0 := api.nextId;
    ghost var done: seq<Event> := [];
    ghost var planned: seq<TaskArgs> := [];
    total := 0;
    var reading: nat := 0;
    for m := 0 to |months|
      invariant api.Valid()
      invariant done == Flatten(months[..m]) && reading == |done|
      invariant planned == Planned(done, clock, parse, projectId, sectionId)
      invariant ArgsOf(api.tasks) == planned
      invariant api.calls == deleteCalls + Adds(planned)
      invariant api.nextId == next0 + total
      invariant total == |planned|
    {
      var events := months[m].events;
      var created := CreateForMonth(api, events, reading, clock, parse, projectId, sectionId);
      ghost var added := PlannedAt(events, reading, clock, parse, projectId, sectionId);
      ExtendRun(months, m, clock, parse, projectId, sectionId, deleteCalls, done, planned);
      done := done + events;
      planned := planned + added;
      total := total + created;
      reading := reading + |events|;
    }
    assert months[..|months|] == months;
  }

  /** The calls a run of the reconciler appends to the log `log0`, as `Reconcile` ensures. */
  function RunLog(log0: seq<Call>, projectId: string, sectionId: string,
                  listed: seq<Task>, planned: seq<TaskArgs>): seq<Call>
  {
    log0 + [ListTasks(projectId, sectionId)] + Deletes(listed) + Adds(planned)
  }

  /** Among the calls of one run, every delete comes before every add. */
  lemma RunDeletesBeforeAdds(log0: seq<Call>, projectId: string, sectionId: string,
                             listed: seq<Task>, planned: seq<TaskArgs>, i: nat, j: nat)
    requires var log := RunLog(log0, projectId, sectionId, listed, planned);
      |log0| < i < |log| && |log0| < j < |log|
    requires var log := RunLog(log0, projectId, sectionId, listed, planned);
      log[i].DeleteTask? && log[j].AddTask?
    ensures i < j
  {
    var n := |log0| + 1;
    var log := RunLog(log0, projectId, sectionId, listed, planned);
    var tail := Deletes(listed) + Adds(planned);
    assert log == (log0 + [ListTasks(projectId, sectionId)]) + tail;
    assert log[i] == tail[i - n] && log[j] == tail[j - n];
    DeletesBeforeAdds(listed, planned, i - n, j - n);
  }

  /** With distinct ids, one run deletes each listed task exactly once more than the earlier log did. */
  lemma RunDeletesEachOnce(log0: seq<Call>, projectId: string, sectionId: string,
                           listed: seq<Task>, planned: seq<TaskArgs>, k: nat)
    requires DistinctIds(listed) && k < |listed|
    ensures var c := DeleteTask(listed[k].id);
      Occurrences(RunLog(log0, projectId, sectionId, listed, planned), c) == Occurrences(log0, c) + 1
  {
    var c := DeleteTask(listed[k].id);
    var listing := [ListTasks(projectId, sectionId)];
    var tail := Deletes(listed) + Adds(planned);
    assert RunLog(log0, projectId, sectionId, listed, planned) == (log0 + listing) + tail;
    OccurrencesAppend(log0 + listing, tail, c);
    OccurrencesAppend(log0, listing, c);
    assert listing[1..] == [];
    DeletedExactlyOnce(listed, planned, k);
  }

  /**
   * Running the reconciler twice over an unchanged calendar, with the same
   * clock readings, leaves the section with the same task contents and
   * creates the same number of tasks both times.
   */
  method ReconcileTwice(api: TaskTracker, months: seq<Month>, clock: nat -> int, parse: string -> Instant,
                        projectId: string, sectionId: string) returns (first: nat, second: nat)
    requires api.Valid()
    modifies api
    ensures first == second
    ensures ArgsOf(api.tasks) == Planned(Flatten(months), clock, parse, projectId, sectionId)
  {
    first := Reconcile(api, months, clock, parse, projectId, sectionId);
    second := Reconcile(api, months, clock, parse, projectId, sectionId);
  }
}
