/** The practice tracker: named practices, each with the dates it was done on,
    toggled for a selected day, counted per day, and a streak over the last
    30 days. A date is a whole number of days back from today (0 is today). */
module Practices {
  import opened Lists
  import opened Text
  import opened Wrappers

  type Day = int

  datatype Practice = Practice(
    id: string, name: string, description: string, isCompleted: bool, completedDates: seq<Day>)

  /** The practice with `d` toggled in its completion list; `isCompleted`
      follows the new membership. */
  function ToggleDay(p: Practice, d: Day): (r: Practice)
    ensures r.id == p.id && r.name == p.name && r.description == p.description
    ensures r.isCompleted == (d in r.completedDates) == (d !in p.completedDates)
    ensures d !in p.completedDates ==> r.completedDates == p.completedDates + [d]
    ensures d in p.completedDates ==> IsSublist(r.completedDates, p.completedDates)
    ensures d in p.completedDates ==> forall y ::
      multiset(r.completedDates)[y] == if y == d then 0 else multiset(p.completedDates)[y]
  {
    p.(completedDates := ToggleMember(p.completedDates, d), isCompleted := d !in p.completedDates)
  }

  /** `toggleCompleted`: toggle `d` in the practices with the id, leave the rest. */
  function ToggleCompleted(ps: seq<Practice>, pid: string, d: Day): (r: seq<Practice>)
    ensures |r| == |ps|
    ensures forall i :: 0 <= i < |ps| && ps[i].id != pid ==> r[i] == ps[i]
    ensures forall i :: 0 <= i < |ps| && ps[i].id == pid ==>
      r[i].id == pid && r[i].name == ps[i].name && r[i].description == ps[i].description &&
      r[i].isCompleted == (d in r[i].completedDates) &&
      (d in r[i].completedDates <==> d !in ps[i].completedDates)
    ensures forall i :: 0 <= i < |ps| && ps[i].id == pid ==> r[i] == ToggleDay(ps[i], d)
  {
    seq(|ps|, i requires 0 <= i < |ps| => if ps[i].id == pid then ToggleDay(ps[i], d) else ps[i])
  }

  /** Toggling an absent date twice leaves the completion list as it was. */
  lemma ToggleDayTwiceAbsent(p: Practice, d: Day)
    requires d !in p.completedDates
    ensures ToggleDay(ToggleDay(p, d), d).completedDates == p.completedDates
  {
    ToggleMemberTwiceAbsent(p.completedDates, d);
  }

  /** Toggling a present date drops every copy of it. */
  lemma ToggleDayDropsAll(p: Practice, d: Day)
    requires d in p.completedDates
    ensures d !in ToggleDay(p, d).completedDates
    ensures IsSublist(ToggleDay(p, d).completedDates, p.completedDates)
    ensures forall x :: x != d ==> (x in ToggleDay(p, d).completedDates <==> x in p.completedDates)
    ensures forall x :: x != d ==>
      multiset(ToggleDay(p, d).completedDates)[x] == multiset(p.completedDates)[x]
  {
    var r := ToggleDay(p, d).completedDates;
    forall x | x != d ensures x in r <==> x in p.completedDates {
      if x in r {
        var i :| 0 <= i < |r| && r[i] == x;
      }
      if x in p.completedDates {
        var i :| 0 <= i < |p.completedDates| && p.completedDates[i] == x;
      }
    }
  }

  /** `handleAddPractice`: a blank name changes nothing; otherwise the new,
      not yet completed practice goes at the end. */
  function AddPractice(ps: seq<Practice>, id: string, name: string, description: string): (r: seq<Practice>)
    ensures Trim(name) == [] ==> r == ps
    ensures Trim(name) != [] ==> |r| == |ps| + 1 && r[..|ps|] == ps
    ensures Trim(name) != [] ==> r[|ps|] == Practice(id, name, description, false, [])
  {
    if Trim(name) == [] then ps else ps + [Practice(id, name, description, false, [])]
  }

  /** `handleUpdatePractice`: a blank name changes nothing; otherwise only the
      name and description of the practices with the id change. */
  function UpdatePractice(ps: seq<Practice>, pid: string, name: string, description: string): (r: seq<Practice>)
    ensures |r| == |ps|
    ensures Trim(name) == [] ==> r == ps
    ensures forall i :: 0 <= i < |ps| ==>
      r[i].id == ps[i].id && r[i].completedDates == ps[i].completedDates &&
      r[i].isCompleted == ps[i].isCompleted
    ensures Trim(name) != [] ==> forall i :: 0 <= i < |ps| ==>
      if ps[i].id == pid then r[i].name == name && r[i].description == description
      else r[i] == ps[i]
  {
    if Trim(name) == [] then
      ps
    else
      seq(|ps|, i requires 0 <= i < |ps| =>
        if ps[i].id == pid then ps[i].(name := name, description := description) else ps[i])
  }

  /** `handleDeletePractice`: the practices without the id, in order. */
  function DeletePractice(ps: seq<Practice>, pid: string): (r: seq<Practice>)
    ensures IsSublist(r, ps)
    ensures forall i :: 0 <= i < |r| ==> r[i].id != pid && r[i] in ps
    ensures forall i :: 0 <= i < |ps| && ps[i].id != pid ==> ps[i] in r
    ensures forall q :: multiset(r)[q] == if q.id == pid then 0 else multiset(ps)[q]
  {
    var keep := (p: Practice) => p.id != pid;
    FilterFacts(ps, keep);
    Filter(ps, keep)
  }

  /** Some practice was done on `d`. */
  predicate AnyCompleted(ps: seq<Practice>, d: Day)
  {
    exists i :: 0 <= i < |ps| && d in ps[i].completedDates
  }

  /** The filter callback "was done on `d`". */
  function DoneOn(d: Day): Practice -> bool
  {
    (p: Practice) => d in p.completedDates
  }

  /** `getCompletedPracticesForDate`: how many practices were done on `d`. */
  function CompletedCount(ps: seq<Practice>, d: Day): (r: int)
    ensures 0 <= r <= |ps|
    ensures r > 0 <==> AnyCompleted(ps, d)
    ensures r == |ps| <==> forall i :: 0 <= i < |ps| ==> d in ps[i].completedDates
  {
    FilterFacts(ps, DoneOn(d));
    var done := Filter(ps, DoneOn(d));
    if AnyCompleted(ps, d) then
      var i :| 0 <= i < |ps| && d in ps[i].completedDates;
      assert ps[i] in done;
      |done|
    else
      |done|
  }

  /** No practices, no completions. */
  lemma CompletedCountEmpty(d: Day)
    ensures CompletedCount([], d) == 0
  {
  }

  /** One more practice adds one to the count exactly when it was done that
      day; with `CompletedCountEmpty` this fixes the count of every list. */
  lemma CompletedCountAppend(ps: seq<Practice>, p: Practice, d: Day)
    ensures CompletedCount(ps + [p], d) == CompletedCount(ps, d) + (if d in p.completedDates then 1 else 0)
  {
    FilterAppend(ps, [p], DoneOn(d));
    assert [p][1..] == [];
  }

  /** The number of consecutive days, from offset `i` back to offset 29, on
      which some practice was done. */
  function RunFrom(ps: seq<Practice>, i: int): (r: int)
    requires i >= 0
    ensures 0 <= r <= 30 - i || (i >= 30 && r == 0)
    decreases 30 - i
  {
    if i >= 30 || !AnyCompleted(ps, i) then 0 else 1 + RunFrom(ps, i + 1)
  }

  /** The streak the page shows: today counts if done but does not break the
      streak if not; from yesterday back, the first day without any practice ends it. */
  function Streak(ps: seq<Practice>): (r: int)
    ensures 0 <= r <= 30
    ensures !AnyCompleted(ps, 0) ==> r <= 29
    ensures r == 30 <==> forall d :: 0 <= d < 30 ==> AnyCompleted(ps, d)
  {
    StreakAllDays(ps, 1);
    (if AnyCompleted(ps, 0) then 1 else 0) + RunFrom(ps, 1)
  }

  /** The run from `i` is full exactly when every day from `i` to 29 was practised. */
  lemma {:induction false} StreakAllDays(ps: seq<Practice>, i: nat)
    requires i <= 30
    ensures RunFrom(ps, i) == 30 - i <==> forall d :: i <= d < 30 ==> AnyCompleted(ps, d)
    decreases 30 - i
  {
    if i < 30 {
      StreakAllDays(ps, i + 1);
    }
  }

  /** If days `1..i-1` were all practised, the run from 1 is those days plus the run from `i`. */
  lemma {:induction false} RunFromSplit(ps: seq<Practice>, i: int)
    requires 1 <= i <= 30
    requires forall d :: 1 <= d < i ==> AnyCompleted(ps, d)
    ensures RunFrom(ps, 1) == (i - 1) + RunFrom(ps, i)
    decreases i
  {
    if i > 1 {
      RunFromSplit(ps, i - 1);
    }
  }

  /** The for-loop of the streak effect, with its `break`. */
  method ComputeStreak(ps: seq<Practice>) returns (currentStreak: int)
    ensures currentStreak == Streak(ps)
  {
    currentStreak := 0;
    for i := 0 to 30
      invariant i == 0 ==> currentStreak == 0
      invariant i > 0 ==> forall d :: 1 <= d < i ==> AnyCompleted(ps, d)
      invariant i > 0 ==> currentStreak == (if AnyCompleted(ps, 0) then 1 else 0) + (i - 1)
    {
      var completed := AnyCompleted(ps, i);
      if completed {
        currentStreak := currentStreak + 1;
      } else if i > 0 {
        RunFromSplit(ps, i);
        return;
      }
    }
    RunFromSplit(ps, 30);
  }

  /** A day of the week strip: its offset and that day's completion count. */
  datatype CalendarDay = CalendarDay(date: Day, completedCount: int)

  /** `generateCalendarDays`: push today and the six days before it, then reverse. */
  method GenerateCalendarDays(ps: seq<Practice>) returns (days: seq<CalendarDay>)
    ensures |days| == 7
    ensures forall k :: 0 <= k < 7 ==> days[k] == CalendarDay(6 - k, CompletedCount(ps, 6 - k))
    ensures days[6].date == 0
  {
    var pushed: seq<CalendarDay> := [];
    for i := 0 to 7
      invariant |pushed| == i
      invariant forall j :: 0 <= j < i ==> pushed[j] == CalendarDay(j, CompletedCount(ps, j))
    {
      pushed := pushed + [CalendarDay(i, CompletedCount(ps, i))];
    }
    days := Reverse(pushed);
    forall k | 0 <= k < 7 ensures days[k] == CalendarDay(6 - k, CompletedCount(ps, 6 - k)) {
      var j := |pushed| - 1 - k;
      assert days[k] == pushed[j];
      assert pushed[j] == CalendarDay(j, CompletedCount(ps, j));
    }
  }

  /** The practices page's seven state variables as one value. */
  datatype PageState = PageState(
    practices: seq<Practice>, selectedDate: Day, isAddingPractice: bool,
    newName: string, newDescription: string, editingPracticeId: Option<string>,
    practiceStreak: int)

  /** The practices page's state. */
  class PracticesPage {
    var practices: seq<Practice>
    var selectedDate: Day
    var isAddingPractice: bool
    var newName: string
    var newDescription: string
    var editingPracticeId: Option<string>
    var practiceStreak: int

    function State(): PageState
      reads this
    {
      PageState(practices, selectedDate, isAddingPractice, newName, newDescription,
                editingPracticeId, practiceStreak)
    }

    /** `saved` is the list local storage held, or the defaults with fresh ids. */
    constructor (saved: seq<Practice>)
      ensures State() == PageState(saved, 0, false, "", "", None, 0)
    {
      practices := saved;
      selectedDate := 0;
      isAddingPractice := false;
      newName := "";
      newDescription := "";
      editingPracticeId := None;
      practiceStreak := 0;
    }

    /** A click on a day of the strip. */
    method SelectDate(d: Day)
      modifies this
      ensures State() == old(State()).(selectedDate := d)
    {
      selectedDate := d;
    }

    /** `toggleCompleted`. */
    method Toggle(pid: string)
      modifies this
      ensures State() == old(State()).(practices := ToggleCompleted(old(practices), pid, selectedDate))
    {
      practices := ToggleCompleted(practices, pid, selectedDate);
    }

    /** `handleAddPractice`; `id` is the random id the page draws. */
    method Add(id: string)
      modifies this
      ensures Trim(old(newName)) == [] ==> State() == old(State())
      ensures Trim(old(newName)) != [] ==>
        State() == old(State()).(
          practices := AddPractice(old(practices), id, old(newName), old(newDescription)),
          newName := "", newDescription := "", isAddingPractice := false)
    {
      if Trim(newName) == [] {
        return;
      }
      practices := AddPractice(practices, id, newName, newDescription);
      newName, newDescription := "", "";
      isAddingPractice := false;
    }

    /** The "Add Practice" button: open an empty add form and stop any edit. */
    method OpenAddForm()
      modifies this
      ensures State() == old(State()).(
        isAddingPractice := true, editingPracticeId := None, newName := "", newDescription := "")
    {
      isAddingPractice := true;
      editingPracticeId := None;
      newName, newDescription := "", "";
    }

    /** The add form's cancel button: the form closes, its fields stay. */
    method CloseAddForm()
      modifies this
      ensures State() == old(State()).(isAddingPractice := false)
    {
      isAddingPractice := false;
    }

    /** The "Add Your First Practice" button, shown only while there are no
        practices: it opens the add form and, unlike `OpenAddForm`, keeps the
        form fields and the edit id as they are. */
    method OpenFirstPracticeForm()
      requires practices == []
      modifies this
      ensures State() == old(State()).(isAddingPractice := true)
    {
      isAddingPractice := true;
    }

    /** The edit form's cancel button. */
    method CancelEdit()
      modifies this
      ensures State() == old(State()).(editingPracticeId := None, newName := "", newDescription := "")
    {
      editingPracticeId := None;
      newName, newDescription := "", "";
    }

    /** `handleEditPractice`: load the form and remember which practice is edited. */
    method Edit(p: Practice)
      modifies this
      ensures State() == old(State()).(
        newName := p.name, newDescription := p.description, editingPracticeId := Some(p.id))
    {
      newName, newDescription := p.name, p.description;
      editingPracticeId := Some(p.id);
    }

    /** `handleUpdatePractice`. */
    method Update(pid: string)
      modifies this
      ensures Trim(old(newName)) == [] ==> State() == old(State())
      ensures Trim(old(newName)) != [] ==>
        State() == old(State()).(
          practices := UpdatePractice(old(practices), pid, old(newName), old(newDescription)),
          newName := "", newDescription := "", editingPracticeId := None)
    {
      if Trim(newName) == [] {
        return;
      }
      practices := UpdatePractice(practices, pid, newName, newDescription);
      newName, newDescription := "", "";
      editingPracticeId := None;
    }

    /** `handleDeletePractice`: the form is cleared only when it edits the deleted practice. */
    method Delete(pid: string)
      modifies this
      ensures old(editingPracticeId) == Some(pid) ==>
        State() == old(State()).(
          practices := DeletePractice(old(practices), pid),
          editingPracticeId := None, newName := "", newDescription := "")
      ensures old(editingPracticeId) != Some(pid) ==>
        State() == old(State()).(practices := DeletePractice(old(practices), pid))
    {
      practices := DeletePractice(practices, pid);
      if editingPracticeId == Some(pid) {
        editingPracticeId := None;
        newName, newDescription := "", "";
      }
    }

    /** The streak effect, which React runs after each change of `practices`.
        Between a change and this call the shown streak is the old one. */
    method RefreshStreak()
      modifies this
      ensures State() == old(State()).(practiceStreak := Streak(old(practices)))
    {
      practiceStreak := ComputeStreak(practices);
    }
  }
}
