/** The in-memory schedule store of the main window: the list of records, the running row
    counter that addresses the day cells, the addresses attached to every day cell drawn so
    far, and the last whole-list save. */
module Store {
  import opened Wrappers
  import opened Schedules

  /** A day cell as the click handler sees it: the row and day properties it carries. The
      handler tolerates a missing property, so each is optional. */
  datatype Button = Button(rowIndex: Option<int>, dayIndex: Option<int>)

  /** The window's state.
      - `schedules`: the records, in insertion order; a record's position is its row index.
      - `count`: the running row counter, incremented once per drawn row.
      - `buttons`: every day cell drawn so far, in creation order.
      - `saved`: the list as last written to the file this session (None before any save).
      - `writes`: how many whole-list saves this session has made. */
  datatype Store = Store(
    schedules: seq<Schedule>,
    count: int,
    buttons: seq<Button>,
    saved: Option<seq<Schedule>>,
    writes: nat)

  /** The seven cells of the row drawn while the counter reads `row`. */
  function RowButtons(row: int): (bs: seq<Button>)
    ensures |bs| == DaysPerWeek
    ensures forall d :: 0 <= d < |bs| ==> bs[d].rowIndex == Some(row) && bs[d].dayIndex == Some(d)
  {
    seq(DaysPerWeek, d => Button(Some(row), Some(d)))
  }

  /** The address the cell created in position `i` carries when rows are drawn in order. */
  function AddressAt(i: nat): Button {
    Button(Some(i / DaysPerWeek), Some(i % DaysPerWeek))
  }

  /** The store's invariant: the counter equals the number of records, every record can be
      drawn, the cells of record k are the seven cells drawn k-th and carry row k, and the
      file holds exactly the in-memory list once anything has been saved. */
  predicate Valid(st: Store) {
    && st.count == |st.schedules|
    && AllRenderable(st.schedules)
    && |st.buttons| == DaysPerWeek * st.count
    && (forall i :: 0 <= i < |st.buttons| ==> st.buttons[i] == AddressAt(i))
    && (st.saved.Some? ==> st.saved.value == st.schedules)
    && (st.saved.None? <==> st.writes == 0)
  }

  /** Drawing one row: seven cells tagged with the current counter, then the counter moves on. */
  function DrawRow(st: Store): (r: Store)
    ensures r.schedules == st.schedules && r.saved == st.saved && r.writes == st.writes
    ensures r.count == st.count + 1
    ensures |r.buttons| == |st.buttons| + DaysPerWeek
    ensures r.buttons[..|st.buttons|] == st.buttons
    ensures forall d :: 0 <= d < DaysPerWeek ==>
      r.buttons[|st.buttons| + d] == Button(Some(st.count), Some(d))
  {
    st.(buttons := st.buttons + RowButtons(st.count), count := st.count + 1)
  }

  /** Drawing a row preserves the cell addressing: if the first `count` rows were drawn in
      order, so are the first `count + 1`. */
  lemma DrawRowKeepsAddresses(st: Store)
    requires st.count >= 0
    requires |st.buttons| == DaysPerWeek * st.count
    requires forall i :: 0 <= i < |st.buttons| ==> st.buttons[i] == AddressAt(i)
    ensures |DrawRow(st).buttons| == DaysPerWeek * (st.count + 1)
    ensures forall i :: 0 <= i < |DrawRow(st).buttons| ==> DrawRow(st).buttons[i] == AddressAt(i)
  {
    var r := DrawRow(st);
    var n := |st.buttons|;
    assert r.buttons == st.buttons + RowButtons(st.count);
    forall i | 0 <= i < |r.buttons|
      ensures r.buttons[i] == AddressAt(i)
    {
      if i < n {
        assert r.buttons[i] == st.buttons[i];
      } else {
        DivModOfRow(st.count, i - n);
      }
    }
  }

  /** Position 7k + d of the cell list is row k, day d. */
  lemma DivModOfRow(k: int, d: int)
    requires k >= 0 && 0 <= d < DaysPerWeek
    ensures (DaysPerWeek * k + d) / DaysPerWeek == k
    ensures (DaysPerWeek * k + d) % DaysPerWeek == d
  {
  }

  /** Start-up: the loaded list becomes the store and one row is drawn per record, so the
      counter ends equal to the number of records. */
  function Startup(loaded: seq<Schedule>): (st: Store)
    requires AllRenderable(loaded)
    ensures Valid(st)
    ensures st.schedules == loaded
    ensures st.count == |loaded|
    ensures st.saved == None && st.writes == 0
  {
    DrawRows(Store(loaded, 0, [], None, 0), |loaded|)
  }

  /** Draws `n` more rows, one per loop iteration of the start-up code. */
  function DrawRows(st: Store, n: nat): (r: Store)
    requires st.count >= 0
    requires |st.buttons| == DaysPerWeek * st.count
    requires forall i :: 0 <= i < |st.buttons| ==> st.buttons[i] == AddressAt(i)
    ensures r.schedules == st.schedules && r.saved == st.saved && r.writes == st.writes
    ensures r.count == st.count + n
    ensures |r.buttons| == DaysPerWeek * r.count
    ensures forall i :: 0 <= i < |r.buttons| ==> r.buttons[i] == AddressAt(i)
    decreases n
  {
    if n == 0 then st
    else
      DrawRowKeepsAddresses(st);
      DrawRows(DrawRow(st), n - 1)
  }

  /** The whole-list save that ends every completed change. */
  function Save(st: Store): (r: Store)
    ensures r.saved == Some(st.schedules)
    ensures r.writes == st.writes + 1
    ensures r.schedules == st.schedules && r.count == st.count && r.buttons == st.buttons
  {
    st.(saved := Some(st.schedules), writes := st.writes + 1)
  }

  /** A confirmed "Add Schedule" dialog: append a fresh record, draw its row, save. */
  function AddSchedule(st: Store, name: string): (r: Store)
    ensures |r.schedules| == |st.schedules| + 1
    ensures r.schedules[..|st.schedules|] == st.schedules
    ensures r.schedules[|st.schedules|] == Schedule(name, [0, 0, 0, 0, 0, 0, 0])
    ensures r.saved == Some(r.schedules) && r.writes == st.writes + 1
    ensures Valid(st) ==> Valid(r)
    ensures Valid(st) ==> forall i :: |st.buttons| <= i < |r.buttons| ==>
      r.buttons[i].rowIndex == Some(|st.schedules|)
    ensures AllWellFormed(st.schedules) ==> AllWellFormed(r.schedules)
  {
    var appended := st.(schedules := st.schedules + [NewSchedule(name)]);
    var r := Save(DrawRow(appended));
    assert Valid(st) ==> Valid(r) by {
      if Valid(st) {
        DrawRowKeepsAddresses(appended);
      }
    }
    r
  }

  /** The dialog's outcome: `Some(text)` when confirmed, `None` when cancelled, in which case
      nothing changes and nothing is saved. */
  function OnAddDialog(st: Store, reply: Option<string>): (r: Store)
    ensures reply.None? ==> r == st
    ensures reply.Some? ==> r == AddSchedule(st, reply.value)
    ensures reply.Some? ==> |r.schedules| == |st.schedules| + 1 && r.schedules[|st.schedules|].name == reply.value
    ensures Valid(st) ==> Valid(r)
  {
    match reply
    case None => st
    case Some(name) => AddSchedule(st, name)
  }

  /** The indices a click may address without the list lookup failing. */
  predicate InRange(st: Store, row: int, day: int) {
    0 <= row < |st.schedules| && 0 <= day < |st.schedules[row].days|
  }

  /** The click handler of a day cell: a cell missing either property is ignored; otherwise
      the addressed flag is flipped and the whole list is saved. */
  function Click(st: Store, b: Button): (r: Store)
    requires b.rowIndex.Some? && b.dayIndex.Some? ==> InRange(st, b.rowIndex.value, b.dayIndex.value)
    ensures b.rowIndex.None? || b.dayIndex.None? ==> r == st
    ensures b.rowIndex.Some? && b.dayIndex.Some? ==>
      var row, day := b.rowIndex.value, b.dayIndex.value;
      && |r.schedules| == |st.schedules|
      && r.schedules[row] == ToggleDay(st.schedules[row], day)
      && (forall k :: 0 <= k < |st.schedules| && k != row ==> r.schedules[k] == st.schedules[k])
      && r.saved == Some(r.schedules) && r.writes == st.writes + 1
    ensures r.count == st.count && r.buttons == st.buttons
    ensures Valid(st) ==> Valid(r)
    ensures AllWellFormed(st.schedules) ==> AllWellFormed(r.schedules)
  {
    match (b.rowIndex, b.dayIndex)
    case (Some(row), Some(day)) =>
      var toggled := st.schedules[row := ToggleDay(st.schedules[row], day)];
      Save(st.(schedules := toggled))
    case _ => st
  }

  /** Every cell on screen carries both properties, and they address a record and one of
      its flags: a click on a drawn cell never fails. */
  lemma DrawnButtonsAddressRecords(st: Store, b: Button)
    requires Valid(st)
    requires b in st.buttons
    ensures b.rowIndex.Some? && b.dayIndex.Some?
    ensures 0 <= b.dayIndex.value < DaysPerWeek
    ensures InRange(st, b.rowIndex.value, b.dayIndex.value)
  {
  }

  /** Clicking the same drawn cell twice gives back the list it started from, and the file
      then holds that list again. */
  lemma ClickTwiceRestores(st: Store, b: Button)
    requires b.rowIndex.Some? && b.dayIndex.Some?
    requires InRange(st, b.rowIndex.value, b.dayIndex.value)
    requires IsBinary(st.schedules[b.rowIndex.value].days[b.dayIndex.value])
    ensures Click(Click(st, b), b).schedules == st.schedules
    ensures Click(Click(st, b), b).saved == Some(st.schedules)
    ensures Click(Click(st, b), b).writes == st.writes + 2
  {
    var row, day := b.rowIndex.value, b.dayIndex.value;
    var once := Click(st, b);
    var twice := Click(once, b);
    ToggleDayTwice(st.schedules[row], day);
    assert twice.schedules == st.schedules;
  }
}
