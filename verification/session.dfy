/** Sequences of user actions on a running window, and what they preserve. */
module Session {
  import opened Wrappers
  import opened Schedules
  import opened Store
  import opened WeekContext

  /** A user action: closing the "Add Schedule" dialog (with the entered text, or None when
      cancelled), or clicking the day cell drawn in position `cell`. */
  datatype Event = Added(reply: Option<string>) | Clicked(cell: nat)

  /** Applies one action. A click names a drawn cell; a position past the last drawn cell
      names no cell on screen, and such an event changes nothing. */
  function Step(st: Store, e: Event): (r: Store)
    requires Valid(st)
    ensures Valid(r)
    ensures |r.schedules| >= |st.schedules|
  {
    match e
    case Added(reply) => OnAddDialog(st, reply)
    case Clicked(i) =>
      if i < |st.buttons| then
        DrawnButtonsAddressRecords(st, st.buttons[i]);
        Click(st, st.buttons[i])
      else st
  }

  /** Applies the actions in order. */
  function Run(st: Store, evs: seq<Event>): (r: Store)
    requires Valid(st)
    ensures Valid(r)
    ensures |r.schedules| >= |st.schedules|
    decreases |evs|
  {
    if evs == [] then st else Run(Step(st, evs[0]), evs[1..])
  }

  /** Every record keeps exactly seven flags, each 0 or 1, under any actions, provided the
      loaded data was well formed. */
  lemma {:induction false} RunKeepsWellFormed(st: Store, evs: seq<Event>)
    requires Valid(st) && AllWellFormed(st.schedules)
    ensures AllWellFormed(Run(st, evs).schedules)
    decreases |evs|
  {
    if evs != [] {
      var next := Step(st, evs[0]);
      assert AllWellFormed(next.schedules);
      RunKeepsWellFormed(next, evs[1..]);
    }
  }

  /** Rows are never removed, reordered or renamed: each existing record stays at its row
      index with its name. */
  lemma {:induction false} RunKeepsRows(st: Store, evs: seq<Event>)
    requires Valid(st)
    ensures forall k :: 0 <= k < |st.schedules| ==> Run(st, evs).schedules[k].name == st.schedules[k].name
    decreases |evs|
  {
    if evs != [] {
      var next := Step(st, evs[0]);
      assert forall k :: 0 <= k < |st.schedules| ==> next.schedules[k].name == st.schedules[k].name by {
        match evs[0]
        case Added(reply) =>
          if reply.Some? {
            assert next.schedules[..|st.schedules|] == st.schedules;
            forall k | 0 <= k < |st.schedules|
              ensures next.schedules[k] == st.schedules[k]
            {
              assert next.schedules[k] == next.schedules[..|st.schedules|][k];
            }
          }
        case Clicked(i) =>
      }
      RunKeepsRows(next, evs[1..]);
    }
  }

  /** After any completed change the file holds exactly the in-memory list; before the first
      one nothing has been written. */
  lemma RunSavedMatchesMemory(loaded: seq<Schedule>, evs: seq<Event>)
    requires AllRenderable(loaded)
    ensures var r := Run(Startup(loaded), evs);
      (r.writes > 0 ==> r.saved == Some(r.schedules)) && (r.writes == 0 ==> r.saved == None)
  {
  }

  /** Clicking a past, not-done cell marks its stored flag done, so the flag no longer meets
      the draw-time test and the row's next drawing shows it as not past-unmarked; clicking it
      again restores the flag. A cell already on screen keeps the class it was drawn with. */
  lemma ClickClearsPastUnmarked(st: Store, i: nat, today: int)
    requires Valid(st) && AllWellFormed(st.schedules)
    requires i < |st.buttons|
    ensures var b := st.buttons[i];
      b.rowIndex.Some? && b.dayIndex.Some? &&
      var row, day := b.rowIndex.value, b.dayIndex.value;
      0 <= row < |st.schedules| && 0 <= day < 7 &&
      var once := Step(st, Clicked(i));
      var twice := Step(once, Clicked(i));
      && (PastUnmarked(day, today, st.schedules[row].days[day]) ==>
            !PastUnmarked(day, today, once.schedules[row].days[day]))
      && twice.schedules[row].days[day] == st.schedules[row].days[day]
  {
  }

  /** An empty store plus a confirmed "Run" holds exactly that one fresh record, and the file
      holds the same one-element list. */
  lemma FirstScheduleScenario()
    ensures var st := Step(Startup([]), Added(Some("Run")));
      && st.schedules == [Schedule("Run", [0, 0, 0, 0, 0, 0, 0])]
      && st.saved == Some(st.schedules)
      && st.buttons[2] == Button(Some(0), Some(2))
  {
  }

  /** Loading `[{"Run", all zeros}]` and clicking its Wednesday cell marks only Wednesday. */
  lemma ToggleWednesdayScenario()
    ensures var st := Click(Startup([NewSchedule("Run")]), Button(Some(0), Some(2)));
      && st.schedules == [Schedule("Run", [0, 0, 1, 0, 0, 0, 0])]
      && st.saved == Some(st.schedules)
  {
    ClickWednesdayOfRun(Startup([NewSchedule("Run")]));
  }

  /** Any store holding just the fresh "Run" record: its Wednesday click marks only Wednesday. */
  lemma ClickWednesdayOfRun(st: Store)
    requires st.schedules == [NewSchedule("Run")]
    ensures Click(st, Button(Some(0), Some(2))).schedules == [Schedule("Run", [0, 0, 1, 0, 0, 0, 0])]
    ensures Click(st, Button(Some(0), Some(2))).saved == Some([Schedule("Run", [0, 0, 1, 0, 0, 0, 0])])
  {
    var toggled := ToggleDay(st.schedules[0], 2);
    assert toggled.days == [0, 0, 1, 0, 0, 0, 0];
    assert Click(st, Button(Some(0), Some(2))).schedules == [toggled];
  }



}
