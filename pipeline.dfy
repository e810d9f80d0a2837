/**
 * The sync script's entry point: extract the current term's calendar, read
 * the JSON file it names, then reconcile the tracker's section with the
 * calendar's events. A failure at any stage ends the run before the tracker
 * is touched.
 */
module Pipeline {
  import opened Common
  import opened TermKey
  import opened CalendarData
  import opened Tracker
  import opened Reconciler
  import opened Cache

  /**
   * `main()`. The current date is given as `year` and the 1-based `month`;
   * `decode` is the JSON parse of the calendar file; `clock` gives the
   * successive readings of the clock taken inside the event loop.
   */
  method Sync(host: Host, api: TaskTracker, svc: Services, year: int, month: MonthNumber,
              decode: Blob -> Result<Calendar>, clock: nat -> int, parse: string -> Instant,
              projectId: string, sectionId: string)
    returns (r: Result<nat>)
    requires api.Valid()
    modifies host, api
    ensures api.Valid()
    ensures var run := Extraction(old(host.files), svc, YearSemester(year, month));
      host.files == run.files
    ensures var run := Extraction(old(host.files), svc, YearSemester(year, month));
      run.result.Err? ==> r == Err(run.result.error) && unchanged(api)
    ensures var t := YearSemester(year, month);
      var run := Extraction(old(host.files), svc, t);
      run.result.Ok? ==> (
        && JsonName(t) in run.files
        && (decode(run.files[JsonName(t)]).Err? ==> r == Err(decode(run.files[JsonName(t)]).error) && unchanged(api))
        && (decode(run.files[JsonName(t)]).Ok? ==>
              var planned := Planned(Flatten(decode(run.files[JsonName(t)]).value.months), clock, parse, projectId, sectionId);
              && r == Ok(|planned|)
              && ArgsOf(api.tasks) == planned
              && api.calls == old(api.calls) + [ListTasks(projectId, sectionId)] + Deletes(old(api.tasks)) + Adds(planned)))
  {
    var t := YearSemester(year, month);
    ghost var run := Extraction(host.files, svc, t);
    ExtractionCaches(host.files, svc, t);
    var retrievedAcademicCalendar := ExtractAcademicCalendar(host, svc, t);
    if retrievedAcademicCalendar.Err? {
      return Err(retrievedAcademicCalendar.error);
    }
    var contents := host.Read(retrievedAcademicCalendar.value);
    assert contents.Ok?;
    var calendarJson := decode(contents.value);
    if calendarJson.Err? {
      return Err(calendarJson.error);
    }
    var totalEvents := Reconcile(api, calendarJson.value.months, clock, parse, projectId, sectionId);
    return Ok(totalEvents);
  }
}
