/**
 * The desktop planning board (script.js): the job store, the calendar grid of
 * hourly slots, the pool of unscheduled jobs, the employee filter, and the
 * drag-and-drop engine that moves jobs between pool and slots.
 *
 * The first half states the board on values: what a drop does to the list of
 * jobs, and which jobs each slot and the pool show. The classes `Job` and
 * `Board` at the end are the store itself, whose methods change job objects in
 * place and are proved to follow the value-level definitions.
 */
module Planning {
  import opened Js
  import opened Timestamps
  import opened Jobs

  /** The filter value that shows every employee's jobs. */
  const AllEmployees := "all"

  /** The employee a job dropped with filter "all" is given when it had nobody. */
  const DefaultEmployee := "u1"

  /** The rows of the calendar: hourly slots starting 08:00 to 17:00. */
  const CalendarHours: seq<Time> := [Time(8, 0), Time(9, 0), Time(10, 0), Time(11, 0), Time(12, 0),
                                     Time(13, 0), Time(14, 0), Time(15, 0), Time(16, 0), Time(17, 0)]

  /** The columns of the calendar. */
  const CalendarDays: seq<Date> := [Date(2025, 12, 29), Date(2025, 12, 30), Date(2025, 12, 31)]

  /** A calendar cell, identified by its `data-date` and `data-time`. */
  datatype Slot = Slot(date: Date, time: Time)

  /** An element on the path from a drop event's target up to the document root. */
  datatype Element = SlotCell(slot: Slot) | OtherElement

  /** Where a job was dropped: the pool, or somewhere inside the calendar. */
  datatype Target = Pool | Calendar(ancestry: seq<Element>)

  /** The instant a slot stands for, `new Date(date + "T" + time)`. */
  function SlotStart(s: Slot): Stamp {
    Stamp(s.date, s.time.hour, s.time.minute, 0)
  }

  /** The end written by a drop: the same date, the next full hour. */
  function SlotEnd(s: Slot): Stamp {
    Stamp(s.date, s.time.hour + 1, 0, 0)
  }

  /** A slot whose start and end are date-times a `Date` reads without normalising. */
  predicate ValidSlot(s: Slot) {
    ValidStamp(SlotStart(s)) && ValidStamp(SlotEnd(s))
  }

  function CalendarCell(h: nat, d: nat): Slot
    requires h < |CalendarHours| && d < |CalendarDays|
  {
    Slot(CalendarDays[d], CalendarHours[h])
  }

  // ---------------------------------------------------------------------------
  // Texts written by a drop

  /** `${date}T${time}:00`, the start a slot drop writes. */
  function StartText(s: Slot): string
    requires InTextRange(SlotStart(s))
  {
    DateText(s.date) + "T" + TimeText(s.time) + ":00"
  }

  /** `${date}T${String(hour + 1).padStart(2, '0')}:00:00`, the end a slot drop writes. */
  function EndText(s: Slot): string
    requires InTextRange(SlotEnd(s))
  {
    DateText(s.date) + "T" + Pad2(s.time.hour + 1) + ":00:00"
  }

  /**
   * The start and end texts a drop writes read back as the slot's start and
   * end, so storing the date-times themselves loses nothing.
   */
  lemma SlotTextsReadBack(s: Slot)
    requires ValidSlot(s)
    ensures ParseStamp(StartText(s)) == Some(SlotStart(s))
    ensures ParseStamp(EndText(s)) == Some(SlotEnd(s))
  {
    assert Pad2(0) == "00";
    assert StartText(s) == StampText(SlotStart(s));
    assert EndText(s) == StampText(SlotEnd(s));
    ParseStampText(SlotStart(s));
    ParseStampText(SlotEnd(s));
  }

  /** On every slot of the calendar, the end a drop writes is one hour after the start. */
  lemma CalendarSlotsLastOneHour(h: nat, d: nat)
    requires h < |CalendarHours| && d < |CalendarDays|
    ensures ValidSlot(CalendarCell(h, d))
    ensures Ordinal(SlotEnd(CalendarCell(h, d))) == Ordinal(SlotStart(CalendarCell(h, d))) + 3600
  {
  }

  // ---------------------------------------------------------------------------
  // Resolving the drop target

  /** The nearest element on the path that is a calendar slot, if any. */
  function NearestSlot(ancestry: seq<Element>): (r: Option<Slot>)
    ensures r.None? <==> forall k :: 0 <= k < |ancestry| ==> !ancestry[k].SlotCell?
    ensures r.Some? ==> exists k :: 0 <= k < |ancestry| && ancestry[k] == SlotCell(r.value)
                                    && forall i :: 0 <= i < k ==> !ancestry[i].SlotCell?
  {
    if ancestry == [] then None
    else if ancestry[0].SlotCell? then Some(ancestry[0].slot)
    else
      var r := NearestSlot(ancestry[1..]);
      assert forall k :: 1 <= k < |ancestry| ==> ancestry[k] == ancestry[1..][k - 1];
      if r.Some? then
        var k :| 0 <= k < |ancestry[1..]| && ancestry[1..][k] == SlotCell(r.value)
                 && forall i :: 0 <= i < k ==> !ancestry[1..][i].SlotCell?;
        assert ancestry[k + 1] == SlotCell(r.value);
        r
      else r
  }

  /** The `parentElement` walk of a drop on the calendar. */
  method ResolveSlot(ancestry: seq<Element>) returns (slot: Option<Slot>)
    ensures slot == NearestSlot(ancestry)
  {
    var i := 0;
    while i < |ancestry| && !ancestry[i].SlotCell?
      invariant 0 <= i <= |ancestry|
      invariant NearestSlot(ancestry[i..]) == NearestSlot(ancestry)
    {
      assert ancestry[i..][1..] == ancestry[i + 1..];
      i := i + 1;
    }
    if i < |ancestry| {
      slot := Some(ancestry[i].slot);
    } else {
      slot := None;
    }
  }

  // ---------------------------------------------------------------------------
  // What a drop does

  /** The assignment policy of a slot drop under the current employee filter. */
  function AssignOnSlotDrop(team: seq<string>, filter: string): seq<string> {
    if filter != AllEmployees then
      (if filter in team then team else [filter])
    else if |team| == 0 then [DefaultEmployee]
    else team
  }

  /**
   * After a slot drop somebody is assigned to the job, and the employee the
   * board is filtered on is among them; an assignment that already includes
   * that employee, or any assignment when the filter is "all", is kept.
   */
  lemma AssignmentPolicy(team: seq<string>, filter: string)
    ensures AssignOnSlotDrop(team, filter) != []
    ensures filter != AllEmployees ==> filter in AssignOnSlotDrop(team, filter)
    ensures filter != AllEmployees && filter !in team ==> AssignOnSlotDrop(team, filter) == [filter]
    ensures (filter in team || (filter == AllEmployees && team != [])) ==>
              AssignOnSlotDrop(team, filter) == team
    ensures filter == AllEmployees && team == [] ==> AssignOnSlotDrop(team, filter) == [DefaultEmployee]
  {
  }

  /** The change a drop makes to the dropped job. */
  function DropOn(j: JobRec, target: Target, filter: string): JobRec {
    match target
    case Pool => j.(status := Open, assignedTo := [], start := None, end := None)
    case Calendar(ancestry) =>
      match NearestSlot(ancestry)
      case None => j
      case Some(s) =>
        j.(status := Planned, start := Some(SlotStart(s)), end := Some(SlotEnd(s)),
           assignedTo := AssignOnSlotDrop(j.assignedTo, filter))
  }

  /** `jobs.find(j => j.id === id)`, as an index; `|jobs|` when there is none. */
  function FindIndex(jobs: seq<JobRec>, id: string): (k: nat)
    ensures k <= |jobs|
    ensures k < |jobs| ==> jobs[k].id == id
    ensures forall i :: 0 <= i < k ==> jobs[i].id != id
  {
    if jobs == [] then 0
    else if jobs[0].id == id then 0
    else
      assert forall i :: 1 <= i < |jobs| ==> jobs[i] == jobs[1..][i - 1];
      1 + FindIndex(jobs[1..], id)
  }

  /** The store after job `id` is dropped on `target`. */
  function DropSpec(jobs: seq<JobRec>, id: string, target: Target, filter: string): (r: seq<JobRec>)
    ensures |r| == |jobs|
    ensures forall i :: 0 <= i < |jobs| ==> r[i].id == jobs[i].id
    ensures forall i :: 0 <= i < |jobs| && r[i] != jobs[i] ==> i == FindIndex(jobs, id)
  {
    var k := FindIndex(jobs, id);
    if k == |jobs| then jobs else jobs[k := DropOn(jobs[k], target, filter)]
  }

  /** A drop whose id no job has leaves the store as it was. */
  lemma DropUnknownId(jobs: seq<JobRec>, id: string, target: Target, filter: string)
    requires forall i :: 0 <= i < |jobs| ==> jobs[i].id != id
    ensures DropSpec(jobs, id, target, filter) == jobs
  {
    assert FindIndex(jobs, id) == |jobs|;
  }

  /** Jobs with the same ids are searched alike. */
  lemma {:induction false} FindIndexByIds(a: seq<JobRec>, b: seq<JobRec>, id: string)
    requires |a| == |b| && forall i :: 0 <= i < |a| ==> a[i].id == b[i].id
    ensures FindIndex(a, id) == FindIndex(b, id)
  {
    if a != [] && a[0].id != id {
      FindIndexByIds(a[1..], b[1..], id);
    }
  }

  /**
   * A drop on the pool unschedules the job and clears its assignment,
   * keeping what describes it.
   */
  lemma PoolDropClears(jobs: seq<JobRec>, id: string, filter: string)
    requires FindIndex(jobs, id) < |jobs|
    ensures var k, r := FindIndex(jobs, id), DropSpec(jobs, id, Pool, filter);
      && r[k].status == Open && r[k].assignedTo == [] && r[k].start == None && r[k].end == None
      && r[k].title == jobs[k].title && r[k].customer == jobs[k].customer && r[k].kind == jobs[k].kind
  {
  }

  /** Dropping the same job on the pool a second time changes nothing further. */
  lemma PoolDropIdempotent(jobs: seq<JobRec>, id: string, filter: string, filter': string)
    ensures var r := DropSpec(jobs, id, Pool, filter);
      DropSpec(r, id, Pool, filter') == r
  {
    var r := DropSpec(jobs, id, Pool, filter);
    FindIndexByIds(jobs, r, id);
    var k := FindIndex(jobs, id);
    if k < |jobs| {
      assert r[k := DropOn(r[k], Pool, filter')] == r;
    }
  }

  /**
   * A drop on the calendar below a slot schedules the job into that slot for
   * one hour and assigns it by the filter policy; a drop below no slot leaves
   * the store as it was.
   */
  lemma SlotDropSchedules(jobs: seq<JobRec>, id: string, ancestry: seq<Element>, filter: string)
    requires FindIndex(jobs, id) < |jobs|
    ensures var k, r := FindIndex(jobs, id), DropSpec(jobs, id, Calendar(ancestry), filter);
      match NearestSlot(ancestry)
      case None => r == jobs
      case Some(s) =>
        && r[k].status == Planned
        && r[k].start == Some(SlotStart(s)) && r[k].end == Some(SlotEnd(s))
        && r[k].assignedTo == AssignOnSlotDrop(jobs[k].assignedTo, filter)
        && r[k].title == jobs[k].title && r[k].customer == jobs[k].customer && r[k].kind == jobs[k].kind
  {
    var k := FindIndex(jobs, id);
    if NearestSlot(ancestry).None? {
      assert jobs[k := jobs[k]] == jobs;
    }
  }

  /** Every drop keeps every job of a consistent store consistent. */
  lemma DropKeepsConsistent(jobs: seq<JobRec>, id: string, target: Target, filter: string)
    requires AllConsistent(jobs)
    ensures AllConsistent(DropSpec(jobs, id, target, filter))
  {
    var k := FindIndex(jobs, id);
    if k < |jobs| {
      AssignmentPolicy(jobs[k].assignedTo, filter);
      assert Consistent(DropOn(jobs[k], target, filter));
    }
  }

  // ---------------------------------------------------------------------------
  // What the board shows

  /**
   * A job is shown in a slot when it is not open, the filter lets it through,
   * and its start is exactly the slot's instant (a null start reads as 1970).
   */
  predicate InSlot(j: JobRec, filter: string, s: Slot) {
    && j.status != Open
    && (filter == AllEmployees || filter in j.assignedTo)
    && InstantOf(j.start) == Ordinal(SlotStart(s))
  }

  /** The jobs rendered into one calendar cell, in store order. */
  function SlotJobs(jobs: seq<JobRec>, filter: string, s: Slot): seq<JobRec> {
    Filter(jobs, j => InSlot(j, filter, s))
  }

  /**
   * The calendar grid: one row per hour, one column per day. Each cell lists
   * the jobs of the store shown in its slot, in store order, and a job is in
   * a cell exactly when it is in the store and shown in that cell's slot.
   */
  function RenderCalendar(jobs: seq<JobRec>, filter: string): (grid: seq<seq<seq<JobRec>>>)
    ensures |grid| == |CalendarHours|
    ensures forall h :: 0 <= h < |grid| ==> |grid[h]| == |CalendarDays|
    ensures forall h, d :: 0 <= h < |CalendarHours| && 0 <= d < |CalendarDays| ==>
              grid[h][d] == SlotJobs(jobs, filter, CalendarCell(h, d))
    ensures forall h, d, j :: 0 <= h < |CalendarHours| && 0 <= d < |CalendarDays| ==>
              (j in grid[h][d] <==> j in jobs && InSlot(j, filter, CalendarCell(h, d)))
  {
    seq(|CalendarHours|, h requires 0 <= h < |CalendarHours| =>
      seq(|CalendarDays|, d requires 0 <= d < |CalendarDays| => SlotJobs(jobs, filter, CalendarCell(h, d))))
  }

  /**
   * The job just dropped on a valid slot is shown in that slot, and in no
   * other valid slot, as long as the filter stays the same.
   */
  lemma DroppedJobShownInItsSlotOnly(jobs: seq<JobRec>, id: string, ancestry: seq<Element>, filter: string,
                                     s: Slot, other: Slot)
    requires FindIndex(jobs, id) < |jobs|
    requires NearestSlot(ancestry) == Some(s) && ValidSlot(s) && ValidSlot(other)
    ensures var r := DropSpec(jobs, id, Calendar(ancestry), filter);
      InSlot(r[FindIndex(jobs, id)], filter, other) <==> other == s
  {
    var k := FindIndex(jobs, id);
    var r := DropSpec(jobs, id, Calendar(ancestry), filter);
    AssignmentPolicy(jobs[k].assignedTo, filter);
    OrdinalOrder(SlotStart(s), SlotStart(other));
    assert r[k].start == Some(SlotStart(s));
  }

  /**
   * After a drop on a slot, the grid shows the dropped job in that slot's
   * cell and in no other cell, as long as the filter stays the same.
   */
  lemma DroppedJobShownInItsCellOnly(jobs: seq<JobRec>, id: string, ancestry: seq<Element>, filter: string,
                                     s: Slot, h: nat, d: nat)
    requires FindIndex(jobs, id) < |jobs|
    requires NearestSlot(ancestry) == Some(s) && ValidSlot(s)
    requires h < |CalendarHours| && d < |CalendarDays|
    ensures var r := DropSpec(jobs, id, Calendar(ancestry), filter);
      r[FindIndex(jobs, id)] in RenderCalendar(r, filter)[h][d] <==> CalendarCell(h, d) == s
  {
    CalendarSlotsLastOneHour(h, d);
    DroppedJobShownInItsSlotOnly(jobs, id, ancestry, filter, s, CalendarCell(h, d));
  }

  /** A job whose start is none of the calendar's slot instants appears in no cell of the grid. */
  lemma OutsideWindowHidden(jobs: seq<JobRec>, filter: string, j: JobRec, h: nat, d: nat)
    requires h < |CalendarHours| && d < |CalendarDays|
    requires forall h', d' :: 0 <= h' < |CalendarHours| && 0 <= d' < |CalendarDays| ==>
               InstantOf(j.start) != Ordinal(SlotStart(CalendarCell(h', d')))
    ensures j !in RenderCalendar(jobs, filter)[h][d]
  {
    assert !InSlot(j, filter, CalendarCell(h, d));
  }

  predicate IsOpen(j: JobRec) {
    j.status == Open
  }

  /** The jobs listed in the pool: the open ones, in store order, whatever the filter. */
  function OpenJobs(jobs: seq<JobRec>): seq<JobRec> {
    Filter(jobs, IsOpen)
  }

  datatype PoolView = NoOpenJobs | PoolCards(cards: seq<JobRec>)

  /**
   * The pool: the message exactly when no job is open, whatever the filter;
   * the open jobs in store order otherwise.
   */
  function RenderPool(jobs: seq<JobRec>): (v: PoolView)
    ensures v == NoOpenJobs <==> forall k :: 0 <= k < |jobs| ==> jobs[k].status != Open
    ensures v.PoolCards? ==> v.cards == OpenJobs(jobs)
  {
    var open := OpenJobs(jobs);
    FilterEmpty(jobs, IsOpen);
    if |open| == 0 then NoOpenJobs else PoolCards(open)
  }

  /** The record `createNewOrder` builds, with the id "j" followed by the current time in ms. */
  function NewOrder(now: nat, title: string, customer: string, kind: string): JobRec {
    JobRec("j" + NatToString(now), title, customer, kind, Open, None, None, [])
  }

  /** A new order is consistent, and after it is added the pool lists it after the open jobs before it. */
  lemma NewOrderJoinsPool(jobs: seq<JobRec>, now: nat, title: string, customer: string, kind: string)
    ensures Consistent(NewOrder(now, title, customer, kind))
    ensures var j := NewOrder(now, title, customer, kind);
      OpenJobs(jobs + [j]) == OpenJobs(jobs) + [j]
  {
    var j := NewOrder(now, title, customer, kind);
    FilterAppend(jobs, [j], IsOpen);
    assert Filter([j], IsOpen) == [j];
  }

  // ---------------------------------------------------------------------------
  // The store

  /** A job object of `window.mockData.jobs`; a drop changes its fields in place. */
  class Job {
    const id: string
    var title: string
    var customer: string
    var kind: string
    var status: string
    var start: Option<Stamp>
    var end: Option<Stamp>
    var assignedTo: seq<string>

    function View(): JobRec
      reads this
    {
      JobRec(id, title, customer, kind, status, start, end, assignedTo)
    }

    constructor (r: JobRec)
      ensures View() == r
    {
      id, title, customer, kind := r.id, r.title, r.customer, r.kind;
      status, start, end, assignedTo := r.status, r.start, r.end, r.assignedTo;
    }
  }

  /** `window.mockData` with its jobs and the `openRequests` counter, and the page's employee filter. */
  class Board {
    var jobs: seq<Job>
    var openRequests: int
    var filter: string

    /** Every job object is in the store once. */
    ghost predicate Valid()
      reads this
    {
      forall i, j :: 0 <= i < j < |jobs| ==> jobs[i] != jobs[j]
    }

    /** The store's jobs as values. */
    function Views(): (r: seq<JobRec>)
      reads this, jobs
      ensures |r| == |jobs| && forall i :: 0 <= i < |jobs| ==> r[i] == jobs[i].View()
    {
      seq(|jobs|, i reads this, jobs requires 0 <= i < |jobs| => jobs[i].View())
    }

    /** The planning page opened on the given store, filter "all". */
    constructor (seed: seq<JobRec>, openRequests: int)
      ensures Valid() && Views() == seed
      ensures forall i :: 0 <= i < |jobs| ==> fresh(jobs[i])
      ensures this.openRequests == openRequests && filter == AllEmployees
    {
      var js: seq<Job> := [];
      for n := 0 to |seed|
        invariant |js| == n
        invariant forall i :: 0 <= i < n ==> fresh(js[i]) && js[i].View() == seed[i]
        invariant forall i, j :: 0 <= i < j < n ==> js[i] != js[j]
      {
        var job := new Job(seed[n]);
        js := js + [job];
      }
      jobs := js;
      this.openRequests := openRequests;
      filter := AllEmployees;
    }

    /** `drop(ev, targetType)` for the job whose id the drag carried. */
    method Drop(jobId: string, target: Target)
      requires Valid()
      modifies jobs
      ensures Valid()
      ensures Views() == DropSpec(old(Views()), jobId, target, filter)
    {
      var k := FindIndex(Views(), jobId);
      if k == |jobs| {
        return;
      }
      var job := jobs[k];
      match target {
        case Pool =>
          job.status := Open;
          job.assignedTo := [];
          job.start := None;
          job.end := None;
        case Calendar(ancestry) =>
          var slot := ResolveSlot(ancestry);
          if slot.Some? {
            var s := slot.value;
            job.status := Planned;
            job.start := Some(SlotStart(s));
            job.end := Some(SlotEnd(s));
            if filter != AllEmployees {
              if filter !in job.assignedTo {
                job.assignedTo := [filter];
              }
            } else {
              if |job.assignedTo| == 0 {
                job.assignedTo := [DefaultEmployee];
              }
            }
          }
      }
    }

    /** `createNewOrder`: appends a new open job and counts one more open request. */
    method CreateNewOrder(title: string, customer: string, kind: string, now: nat)
      requires Valid()
      modifies this
      ensures Valid()
      ensures |jobs| == |old(jobs)| + 1 && jobs[..|old(jobs)|] == old(jobs) && fresh(jobs[|jobs| - 1])
      ensures Views() == old(Views()) + [NewOrder(now, title, customer, kind)]
      ensures openRequests == old(openRequests) + 1 && filter == old(filter)
    {
      var job := new Job(NewOrder(now, title, customer, kind));
      jobs := jobs + [job];
      openRequests := openRequests + 1;
    }

    /** The filter's change handler: a new filter, the same store. */
    method SetFilter(value: string)
      modifies this`filter
      ensures filter == value && Views() == old(Views())
    {
      filter := value;
    }
  }
}
