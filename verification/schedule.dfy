/** One tracked habit: a name and one completion flag per day of the week. */
module Schedules {

  /** Number of day cells per row, Monday (0) through Sunday (6). */
  const DaysPerWeek := 7

  /** A stored flag is 0 (not done) or 1 (done) when the data is well formed. The file is
      not validated when it is read, so a flag is any integer. */
  predicate IsBinary(v: int) {
    v == 0 || v == 1
  }

  /** The new value a click writes: `0 if current == 1 else 1`. */
  function Flip(v: int): (r: int)
    ensures IsBinary(r)
    ensures IsBinary(v) ==> r == 1 - v
    ensures r == 0 <==> v == 1
  {
    if v == 1 then 0 else 1
  }

  /** On binary flags a flip undone is no change at all. */
  lemma FlipInvolutive(v: int)
    requires IsBinary(v)
    ensures Flip(Flip(v)) == v
  {
  }

  datatype Schedule = Schedule(name: string, days: seq<int>)

  /** The record invariant: exactly seven flags, each 0 or 1. */
  predicate WellFormed(s: Schedule) {
    |s.days| == DaysPerWeek && forall d :: 0 <= d < |s.days| ==> IsBinary(s.days[d])
  }

  /** What drawing a row needs: a flag for each of the seven day cells. */
  predicate Renderable(s: Schedule) {
    |s.days| >= DaysPerWeek
  }

  predicate AllWellFormed(ss: seq<Schedule>) {
    forall k :: 0 <= k < |ss| ==> WellFormed(ss[k])
  }

  predicate AllRenderable(ss: seq<Schedule>) {
    forall k :: 0 <= k < |ss| ==> Renderable(ss[k])
  }

  /** The record a confirmed "Add Schedule" dialog creates: the entered text as its name,
      unchanged and possibly empty, and every day not done. */
  function NewSchedule(name: string): (s: Schedule)
    ensures WellFormed(s)
    ensures s.name == name
    ensures forall d :: 0 <= d < |s.days| ==> s.days[d] == 0
  {
    Schedule(name, [0, 0, 0, 0, 0, 0, 0])
  }

  /** Flips the flag of one day of a record. */
  function ToggleDay(s: Schedule, day: int): (t: Schedule)
    requires 0 <= day < |s.days|
    ensures t.name == s.name
    ensures |t.days| == |s.days|
    ensures IsBinary(t.days[day]) && (t.days[day] == 0 <==> s.days[day] == 1)
    ensures IsBinary(s.days[day]) ==> t.days[day] == 1 - s.days[day]
    ensures forall d :: 0 <= d < |s.days| && d != day ==> t.days[d] == s.days[d]
    ensures WellFormed(s) ==> WellFormed(t)
  {
    s.(days := s.days[day := Flip(s.days[day])])
  }

  /** Toggling the same day twice gives back the record it started from. */
  lemma ToggleDayTwice(s: Schedule, day: int)
    requires 0 <= day < |s.days| && IsBinary(s.days[day])
    ensures ToggleDay(ToggleDay(s, day), day) == s
  {
  }
}
