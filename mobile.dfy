/**
 * The mobile field-worker view (mobile/script.js): the day schedule of the
 * signed-in employee with its hour timeline, the day navigation, the
 * dashboard's next job, and the work-report templates.
 */
module Mobile {
  import opened Js
  import opened Timestamps
  import opened Jobs

  /** The employee the mobile view is signed in as. */
  const CurrentUser := "u1"

  /** The day the schedule opens on. */
  const InitialDate := Date(2025, 12, 29)

  /** The hours of the timeline, 08:00 to 17:00. */
  const FirstHour := 8
  const HourCount := 10

  // ---------------------------------------------------------------------------
  // Day schedule

  /** A job of the signed-in employee, scheduled, and starting on `day`. */
  predicate OnDay(j: JobRec, day: Date) {
    && CurrentUser in j.assignedTo
    && j.status != Open
    && j.start.Some?
    && j.start.value.date == day
  }

  /** The jobs the schedule shows for `day`, in store order. */
  function DayJobs(jobs: seq<JobRec>, day: Date): seq<JobRec> {
    Filter(jobs, j => OnDay(j, day))
  }

  predicate StartsInHour(j: JobRec, hour: int) {
    j.start.Some? && j.start.value.hour == hour
  }

  /** The jobs of one timeline row. */
  function HourJobs(selected: seq<JobRec>, hour: int): seq<JobRec> {
    Filter(selected, j => StartsInHour(j, hour))
  }

  /** A timeline row: its heading, "HH:00", and the jobs starting in that hour. */
  datatype HourRow = HourRow(heading: string, jobs: seq<JobRec>)

  datatype ScheduleView = NoJobsForDay | Timeline(rows: seq<HourRow>)

  function HourLabel(hour: nat): string
    requires hour < 100
  {
    Pad2(hour) + ":00"
  }

  /**
   * What `populateSchedule` renders for `day`: the message exactly when no
   * job of the employee starts that day, a timeline of ten hour rows
   * otherwise.
   */
  function ScheduleOf(jobs: seq<JobRec>, day: Date): (v: ScheduleView)
    ensures v == NoJobsForDay <==> forall k :: 0 <= k < |jobs| ==> !OnDay(jobs[k], day)
    ensures v.Timeline? ==> |v.rows| == HourCount
  {
    var selected := DayJobs(jobs, day);
    FilterEmpty(jobs, j => OnDay(j, day));
    if |selected| == 0 then NoJobsForDay
    else Timeline(seq(HourCount, i requires 0 <= i < HourCount =>
                        HourRow(HourLabel(FirstHour + i), HourJobs(selected, FirstHour + i))))
  }

  /** `populateSchedule`: selects the day's jobs and builds the timeline hour by hour. */
  method PopulateSchedule(jobs: seq<JobRec>, day: Date) returns (view: ScheduleView)
    ensures view == ScheduleOf(jobs, day)
  {
    var selected := DayJobs(jobs, day);
    if |selected| == 0 {
      return NoJobsForDay;
    }
    var rows: seq<HourRow> := [];
    for hour := FirstHour to FirstHour + HourCount
      invariant |rows| == hour - FirstHour
      invariant forall i :: 0 <= i < |rows| ==>
                  rows[i] == HourRow(HourLabel(FirstHour + i), HourJobs(selected, FirstHour + i))
    {
      rows := rows + [HourRow(HourLabel(hour), HourJobs(selected, hour))];
    }
    view := Timeline(rows);
  }

  /**
   * A job appears on the timeline of `day` exactly when it is selected for
   * that day and starts between 08:00 and 17:59, and then in the row of its
   * start hour.
   */
  lemma TimelineRows(jobs: seq<JobRec>, day: Date, j: JobRec)
    requires ScheduleOf(jobs, day).Timeline?
    ensures var rows := ScheduleOf(jobs, day).rows;
      && |rows| == HourCount
      && (forall i :: 0 <= i < HourCount ==> (j in rows[i].jobs <==> j in DayJobs(jobs, day) && StartsInHour(j, FirstHour + i)))
      && ((exists i :: 0 <= i < HourCount && j in rows[i].jobs) <==>
            j in DayJobs(jobs, day) && FirstHour <= j.start.value.hour < FirstHour + HourCount)
  {
    var selected := DayJobs(jobs, day);
    var rows := ScheduleOf(jobs, day).rows;
    forall i | 0 <= i < HourCount
      ensures j in rows[i].jobs <==> j in selected && StartsInHour(j, FirstHour + i)
    {
      assert rows[i].jobs == HourJobs(selected, FirstHour + i);
      if j in selected && StartsInHour(j, FirstHour + i) {
        var k :| 0 <= k < |selected| && selected[k] == j;
      }
    }
    if j in selected && FirstHour <= j.start.value.hour < FirstHour + HourCount {
      var i := j.start.value.hour - FirstHour;
      assert j in rows[i].jobs;
    }
  }

  /** The schedule screen's state: the day it shows (`mobileCurrentDate`). */
  class ScheduleScreen {
    var current: Date

    ghost predicate Valid()
      reads this
    {
      ValidDate(current)
    }

    constructor ()
      ensures Valid() && current == InitialDate
    {
      current := InitialDate;
    }

    /** `changeDate(days)`: moves the shown day by `days` calendar days and renders it. */
    method ChangeDate(days: int, jobs: seq<JobRec>) returns (view: ScheduleView)
      requires Valid()
      modifies this
      ensures Valid()
      ensures current == AddDays(old(current), days)
      ensures view == ScheduleOf(jobs, current)
    {
      current := AddDays(current, days);
      view := PopulateSchedule(jobs, current);
    }
  }

  // ---------------------------------------------------------------------------
  // Dashboard: the next job

  /** The jobs the dashboard considers: the employee's, not open. */
  predicate IsCandidate(j: JobRec) {
    CurrentUser in j.assignedTo && j.status != Open
  }

  /** `new Date(j.start)` as an ordinal; a null start reads as 1970. */
  function StartKey(j: JobRec): int {
    InstantOf(j.start)
  }

  /** `new Date(j.end) > now` */
  predicate EndsAfter(j: JobRec, now: Stamp) {
    InstantOf(j.end) > Ordinal(now)
  }

  predicate SortedByStart(s: seq<JobRec>) {
    forall i, k :: 0 <= i < k < |s| ==> StartKey(s[i]) <= StartKey(s[k])
  }

  /** Inserts `j` before the first job that does not start earlier. */
  function Insert(j: JobRec, s: seq<JobRec>): (r: seq<JobRec>)
    requires SortedByStart(s)
    ensures SortedByStart(r)
    ensures |r| == |s| + 1 && (r[0] == j || (s != [] && r[0] == s[0]))
  {
    if s == [] || StartKey(j) <= StartKey(s[0]) then
      [j] + s
    else
      var rest := Insert(j, s[1..]);
      assert StartKey(s[0]) <= StartKey(rest[0]);
      [s[0]] + rest
  }

  /** Inserting adds the one job and loses none. */
  lemma {:induction false} InsertPermutes(j: JobRec, s: seq<JobRec>)
    requires SortedByStart(s)
    ensures multiset(Insert(j, s)) == multiset(s) + multiset{j}
  {
    if s != [] && StartKey(j) > StartKey(s[0]) {
      InsertPermutes(j, s[1..]);
      assert s == [s[0]] + s[1..];
    }
  }

  /** `jobs.sort((a, b) => new Date(a.start) - new Date(b.start))`, a stable sort. */
  function SortByStart(s: seq<JobRec>): (r: seq<JobRec>)
    ensures SortedByStart(r)
  {
    if s == [] then [] else Insert(s[0], SortByStart(s[1..]))
  }

  /**
   * Inserting a job into a sorted list puts it before the jobs of its own
   * start that were there: among the jobs with start `key`, it comes first.
   */
  lemma {:induction false} InsertBeforeEqualKeys(j: JobRec, t: seq<JobRec>, key: int, p: JobRec -> bool)
    requires SortedByStart(t)
    requires forall x :: p(x) <==> StartKey(x) == key
    ensures Filter(Insert(j, t), p) == (if p(j) then [j] else []) + Filter(t, p)
  {
    if t == [] || StartKey(j) <= StartKey(t[0]) {
      assert ([j] + t)[1..] == t;
    } else {
      var rest := Insert(j, t[1..]);
      InsertBeforeEqualKeys(j, t[1..], key, p);
      assert ([t[0]] + rest)[1..] == rest;
    }
  }

  /**
   * The sort is stable: the jobs with any one start come out in the order
   * they went in. Each job is inserted into the sorted rest of the list, in
   * front of the later jobs with its start.
   */
  lemma {:induction false} SortByStartStable(s: seq<JobRec>, key: int, p: JobRec -> bool)
    requires forall x :: p(x) <==> StartKey(x) == key
    ensures Filter(SortByStart(s), p) == Filter(s, p)
  {
    if s != [] {
      SortByStartStable(s[1..], key, p);
      InsertBeforeEqualKeys(s[0], SortByStart(s[1..]), key, p);
    }
  }

  /** Sorting loses no job and adds none. */
  lemma {:induction false} SortPermutes(s: seq<JobRec>)
    ensures multiset(SortByStart(s)) == multiset(s)
  {
    if s != [] {
      SortPermutes(s[1..]);
      InsertPermutes(s[0], SortByStart(s[1..]));
      assert s == [s[0]] + s[1..];
    }
  }

  /** `s.find(j => new Date(j.end) > now)` */
  function FindUpcoming(s: seq<JobRec>, now: Stamp): (r: Option<JobRec>)
    ensures r.None? <==> forall k :: 0 <= k < |s| ==> !EndsAfter(s[k], now)
    ensures r.Some? ==> exists k :: 0 <= k < |s| && s[k] == r.value && EndsAfter(s[k], now)
                                    && forall i :: 0 <= i < k ==> !EndsAfter(s[i], now)
  {
    if s == [] then None
    else if EndsAfter(s[0], now) then Some(s[0])
    else
      var r := FindUpcoming(s[1..], now);
      assert forall k :: 1 <= k < |s| ==> s[k] == s[1..][k - 1];
      if r.Some? then
        var k :| 0 <= k < |s[1..]| && s[1..][k] == r.value && EndsAfter(s[1..][k], now)
                 && forall i :: 0 <= i < k ==> !EndsAfter(s[1..][i], now);
        assert s[k + 1] == r.value;
        r
      else r
  }

  /** Sorting keeps every job: what was in the list is in the sorted list, and nothing else. */
  lemma SortKeepsJobs(s: seq<JobRec>, x: JobRec)
    ensures x in SortByStart(s) <==> x in s
  {
    var r := SortByStart(s);
    SortPermutes(s);
    assert x in r <==> x in multiset(r);
    assert x in s <==> x in multiset(s);
  }

  /** The candidates, in the order the dashboard scans them. */
  function Upcoming(jobs: seq<JobRec>): seq<JobRec> {
    SortByStart(Filter(jobs, IsCandidate))
  }

  /** The scanned list holds exactly the employee's scheduled jobs. */
  lemma UpcomingMembers(jobs: seq<JobRec>, x: JobRec)
    ensures x in Upcoming(jobs) <==> x in jobs && IsCandidate(x)
  {
    var cands := Filter(jobs, IsCandidate);
    SortKeepsJobs(cands, x);
    if x in cands {
      var k :| 0 <= k < |cands| && cands[k] == x;
    }
    if x in jobs && IsCandidate(x) {
      var k :| 0 <= k < |jobs| && jobs[k] == x;
    }
  }

  /** The scan finds nothing exactly when every scheduled job of the employee has ended. */
  lemma NoUpcomingIffAllEnded(jobs: seq<JobRec>, now: Stamp)
    ensures FindUpcoming(Upcoming(jobs), now).None? <==>
              forall k :: 0 <= k < |jobs| && IsCandidate(jobs[k]) ==> !EndsAfter(jobs[k], now)
  {
    var sorted := Upcoming(jobs);
    if FindUpcoming(sorted, now).None? {
      forall k | 0 <= k < |jobs| && IsCandidate(jobs[k])
        ensures !EndsAfter(jobs[k], now)
      {
        UpcomingMembers(jobs, jobs[k]);
        var q :| 0 <= q < |sorted| && sorted[q] == jobs[k];
      }
    } else {
      var r := FindUpcoming(sorted, now).value;
      var p :| 0 <= p < |sorted| && sorted[p] == r && EndsAfter(sorted[p], now);
      UpcomingMembers(jobs, r);
      var k :| 0 <= k < |jobs| && jobs[k] == r;
    }
  }

  /**
   * What the scan finds is one of the employee's scheduled jobs that has not
   * ended, and no such job starts earlier.
   */
  lemma UpcomingIsEarliest(jobs: seq<JobRec>, now: Stamp)
    requires FindUpcoming(Upcoming(jobs), now).Some?
    ensures var r := FindUpcoming(Upcoming(jobs), now).value;
      && r in jobs && IsCandidate(r) && EndsAfter(r, now)
      && forall k :: 0 <= k < |jobs| && IsCandidate(jobs[k]) && EndsAfter(jobs[k], now) ==>
           StartKey(r) <= StartKey(jobs[k])
  {
    var sorted := Upcoming(jobs);
    assert SortedByStart(sorted);
    var r := FindUpcoming(sorted, now).value;
    var p :| 0 <= p < |sorted| && sorted[p] == r && EndsAfter(sorted[p], now)
             && forall i :: 0 <= i < p ==> !EndsAfter(sorted[i], now);
    UpcomingMembers(jobs, r);
    forall k | 0 <= k < |jobs| && IsCandidate(jobs[k]) && EndsAfter(jobs[k], now)
      ensures StartKey(r) <= StartKey(jobs[k])
    {
      UpcomingMembers(jobs, jobs[k]);
      var q :| 0 <= q < |sorted| && sorted[q] == jobs[k];
      SortedPair(sorted, p, q);
    }
  }

  lemma SortedPair(s: seq<JobRec>, p: nat, q: nat)
    requires SortedByStart(s) && p <= q < |s|
    ensures StartKey(s[p]) <= StartKey(s[q])
  {
  }

  /**
   * The job `populateMobileDashboard` shows as next, `None` showing "Keine
   * anstehenden Aufträge.": none exactly when every scheduled job of the
   * employee has ended, and otherwise one of those jobs that has not ended,
   * with no such job starting earlier.
   */
  function NextJob(jobs: seq<JobRec>, now: Stamp): (r: Option<JobRec>)
    ensures r.None? <==> forall k :: 0 <= k < |jobs| && IsCandidate(jobs[k]) ==> !EndsAfter(jobs[k], now)
    ensures r.Some? ==>
      && r.value in jobs && IsCandidate(r.value) && EndsAfter(r.value, now)
      && forall k :: 0 <= k < |jobs| && IsCandidate(jobs[k]) && EndsAfter(jobs[k], now) ==>
           StartKey(r.value) <= StartKey(jobs[k])
  {
    var r := FindUpcoming(Upcoming(jobs), now);
    NoUpcomingIffAllEnded(jobs, now);
    if r.Some? then
      UpcomingIsEarliest(jobs, now);
      r
    else r
  }

  // ---------------------------------------------------------------------------
  // Work-report templates

  datatype Template = Template(title: string, description: string, materials: string)

  const Templates: map<string, Template> := map[
    "wartung_gas" := Template(
      "Wartung Gastherme",
      "- Brenner gereinigt\n- Zündelektroden geprüft\n- Druckausgleichsbehälter geprüft\n- Abgasmessung durchgeführt",
      "1x Dichtungssatz A\n1x Zündelektrode Typ B"),
    "bad_sani" := Template(
      "Badsanierung Rohbau",
      "- Alte Leitungen entfernt\n- Schlitze gestemmt\n- Abflussleitungen DN50 verlegt\n- Spülkasten montiert",
      "5m HT-Rohr DN50\n4x Bogen 45°\n1x GIS-Modul WC"),
    "heizung_stoerung" := Template(
      "Störungsbehebung Heizung",
      "- Fehlerspeicher ausgelesen (Fehler F4)\n- Pumpe gängig gemacht\n- Anlage entlüftet\n- Probelauf erfolgreich",
      "Kleinmaterial")
  ]

  /**
   * The report form's description and materials fields; `None` when the page
   * has no such field.
   */
  datatype ReportForm = ReportForm(description: Option<string>, materials: Option<string>)

  /**
   * The names that `formTemplates[key]` finds on `Object.prototype` rather
   * than in the table: each lookup is truthy, and has neither a
   * `description` nor a `materials` property.
   */
  const InheritedKeys: set<string> := {
    "constructor", "__proto__", "__defineGetter__", "__defineSetter__",
    "__lookupGetter__", "__lookupSetter__", "hasOwnProperty", "isPrototypeOf",
    "propertyIsEnumerable", "toString", "toLocaleString", "valueOf"
  }

  /**
   * `applyTemplate`: `key` is the selected option, `confirmed` the answer the
   * user would give to "Vorhandenen Text überschreiben?", asked only when the
   * description holds more than five UTF-16 code units. An empty or unknown
   * key changes nothing, and neither does a declined question. Otherwise
   * every field the page has gets the template's text; for an inherited key
   * that text is `undefined`, which a text field shows as "undefined". Where
   * the question is not asked, the result depends on the key alone.
   */
  function ApplyTemplate(key: string, form: ReportForm, confirmed: bool): (r: ReportForm)
    ensures key == "" || (key !in Templates && key !in InheritedKeys) ==> r == form
    ensures form.description.Some? && Utf16Length(form.description.value) > 5 && !confirmed ==> r == form
    ensures (key in Templates || key in InheritedKeys) &&
            (form.description.None? || Utf16Length(form.description.value) <= 5 || confirmed) ==>
              && r.description.Some? == form.description.Some?
              && r.materials.Some? == form.materials.Some?
              && (key in Templates && r.description.Some? ==> r.description.value == Templates[key].description)
              && (key in Templates && r.materials.Some? ==> r.materials.value == Templates[key].materials)
              && (key in InheritedKeys && r.description.Some? ==> r.description.value == "undefined")
              && (key in InheritedKeys && r.materials.Some? ==> r.materials.value == "undefined")
  {
    if key == "" || (key !in Templates && key !in InheritedKeys) then form
    else if form.description.Some? && Utf16Length(form.description.value) > 5 && !confirmed then form
    else
      var texts := if key in Templates then (Templates[key].description, Templates[key].materials)
                   else ("undefined", "undefined");
      ReportForm(if form.description.Some? then Some(texts.0) else None,
                 if form.materials.Some? then Some(texts.1) else None)
  }

  /**
   * Three emoji are six UTF-16 code units, so a description holding them
   * asks before it is overwritten.
   */
  lemma SurrogatePairsCountTwice(key: string, materials: Option<string>)
    ensures var form := ReportForm(Some("\U{1F600}\U{1F600}\U{1F600}"), materials);
      ApplyTemplate(key, form, false) == form
  {
    var e := "\U{1F600}\U{1F600}\U{1F600}";
    assert e[1..][1..][1..] == [];
    assert Utf16Length(e) == 6;
  }
}
