/** The scripted demo: the monitor loop over two fixed courses with an
    availability rule that opens the first on attempt 2 and the second on
    attempt 3, so the run always ends after attempt 3. */
module Demo {
  import opened Wrappers
  import opened Tracking

  /** The two demo courses, neither found yet. */
  const DemoCourses: seq<CourseStatus> := [
    CourseStatus("13466", "Data Structures and Algorithms", false),
    CourseStatus("13472", "Computer Systems", false)
  ]

  /** The address the demo pretends to notify. */
  const DemoEmail: string := "student@vt.edu"

  /** The scripted rule for whether a seat shows up for `crn` on `attempt`. */
  function FoundSeat(crn: string, attempt: nat): bool {
    if crn == "13466" && attempt >= 2 then true
    else if crn == "13472" && attempt >= 3 then true
    else false
  }

  /** Once a seat shows up it keeps showing up on every later attempt, and a
      CRN other than the two demo CRNs never gets one. */
  lemma FoundSeatRule(crn: string, attempt: nat, later: nat)
    requires attempt <= later
    ensures FoundSeat(crn, attempt) ==> FoundSeat(crn, later)
    ensures crn != "13466" && crn != "13472" ==> !FoundSeat(crn, attempt)
    ensures FoundSeat(crn, attempt) ==> attempt >= 2
  {
  }

  /** The scripted rule as the answers of a run: never an error. */
  function Script(): Answer {
    (a: nat, i: nat, crn: string) => Ok(FoundSeat(crn, a))
  }

  /** The body of the demo's inner loop for the course at position `i`: a
      found course is skipped; otherwise the scripted rule decides, and a
      seat marks the course found and is announced. */
  method DemoCheck(cs: seq<CourseStatus>, i: nat, attempt: nat)
    returns (course: CourseStatus, checked: bool, seat: bool)
    requires i < |cs|
    ensures course == Step(cs, Script(), attempt, i)
    ensures checked == !cs[i].found
    ensures seat <==> Flips(cs, Script(), attempt, i)
  {
    course, checked, seat := cs[i], false, false;
    if course.found {
      return;
    }
    checked := true;
    var foundSeat := false;
    if course.crn == "13466" && attempt >= 2 {
      foundSeat := true;
    } else if course.crn == "13472" && attempt >= 3 {
      foundSeat := true;
    }
    if foundSeat {
      course := course.(found := true);
      seat := true;
    }
  }

  /** One attempt of the demo over all courses: it returns the new state,
      the positions it visited and the positions whose seat it announced. */
  method DemoCycle(courses0: seq<CourseStatus>, remaining0: int, attempt: nat)
    returns (courses: seq<CourseStatus>, remaining: int, visited: seq<nat>, seats: seq<nat>)
    requires remaining0 == Remaining(courses0)
    ensures courses == Cycle(courses0, Script(), attempt)
    ensures remaining == Remaining(courses)
    ensures visited == Pending(courses0)
    ensures seats == Flipped(courses0, Script(), attempt)
  {
    ghost var ans := Script();
    courses, remaining, visited, seats := courses0, remaining0, [], [];
    for i := 0 to |courses0|
      invariant |courses| == |courses0|
      invariant forall j :: 0 <= j < i ==> courses[j] == Step(courses0, ans, attempt, j)
      invariant forall j :: i <= j < |courses0| ==> courses[j] == courses0[j]
      invariant remaining == remaining0 - |seats|
      invariant visited == Pending(courses0[..i])
      invariant seats == Flipped(courses0[..i], ans, attempt)
    {
      PrefixStep(courses0, ans, attempt, i);
      var course, checked, seat := DemoCheck(courses0, i, attempt);
      courses := courses[i := course];
      if checked {
        visited := visited + [i];
      }
      if seat {
        remaining := remaining - 1;
        seats := seats + [i];
      }
    }
    assert courses0[..|courses0|] == courses0;
    assert courses == Cycle(courses0, ans, attempt);
    CycleRemaining(courses0, ans, attempt);
  }

  /** What the tracking definitions give on a list of two courses. */
  lemma TwoCourses(a: CourseStatus, b: CourseStatus, ans: Answer, attempt: nat)
    ensures Pending([a, b]) == (if a.found then [] else [0]) + (if b.found then [] else [1])
    ensures Flipped([a, b], ans, attempt) ==
      (if Flips([a, b], ans, attempt, 0) then [0] else []) + (if Flips([a, b], ans, attempt, 1) then [1] else [])
    ensures Cycle([a, b], ans, attempt) == [Step([a, b], ans, attempt, 0), Step([a, b], ans, attempt, 1)]
  {
    var s := [a, b];
    assert s[..1] == [a];
    assert [a][..0] == [];
    assert Pending([a]) == (if a.found then [] else [0]);
    assert Pending(s) == Pending(s[..1]) + (if b.found then [] else [1]);
    assert Flips(s, ans, attempt, 0) == Flips([a], ans, attempt, 0);
    assert Flipped([a], ans, attempt) == (if Flips([a], ans, attempt, 0) then [0] else []);
    assert Flipped(s, ans, attempt) == Flipped(s[..1], ans, attempt) + (if Flips(s, ans, attempt, 1) then [1] else []);
  }

  /** The demo state after each of its three attempts: nothing on attempt
      1, the first course on attempt 2 and the second on attempt 3. */
  lemma DemoTrajectory()
    ensures AfterCycles(DemoCourses, Script(), 1) == DemoCourses
    ensures AfterCycles(DemoCourses, Script(), 2) == [DemoCourses[0].(found := true), DemoCourses[1]]
    ensures AfterCycles(DemoCourses, Script(), 3) == [DemoCourses[0].(found := true), DemoCourses[1].(found := true)]
    ensures Remaining(AfterCycles(DemoCourses, Script(), 1)) == 2
    ensures Remaining(AfterCycles(DemoCourses, Script(), 2)) == 1
    ensures Remaining(AfterCycles(DemoCourses, Script(), 3)) == 0
    ensures RunFlipped(DemoCourses, Script(), 3) == [0, 1]
    ensures FoundHistory(DemoCourses, Script(), 2) == [0, 1]
  {
    var ans := Script();
    var c0, c1 := DemoCourses[0], DemoCourses[1];
    var d0, d1 := c0.(found := true), c1.(found := true);
    TwoCourses(c0, c1, ans, 1);
    TwoCourses(c0, c1, ans, 2);
    TwoCourses(d0, c1, ans, 3);
    TwoCourses(d0, d1, ans, 4);
    assert AfterCycles(DemoCourses, ans, 1) == [c0, c1];
    assert AfterCycles(DemoCourses, ans, 2) == [d0, c1];
    assert AfterCycles(DemoCourses, ans, 3) == [d0, d1];
  }

  /** `RunDemo` without its display and its sleeps: the loop runs while a
      course remains, announces each seat as it appears, and between attempts
      shows how many courses are found. It ends after the third attempt with
      both courses found, having announced the first and then the second
      course, and having shown found counts of 0 and then 1. */
  method RunDemo() returns (attempts: nat, courses: seq<CourseStatus>, announced: seq<nat>, waits: seq<int>)
    ensures attempts == 3
    ensures courses == AfterCycles(DemoCourses, Script(), attempts)
    ensures |courses| == 2 && courses[0].found && courses[1].found
    ensures announced == RunFlipped(DemoCourses, Script(), attempts) == [0, 1]
    ensures waits == FoundHistory(DemoCourses, Script(), attempts - 1) == [0, 1]
  {
    DemoTrajectory();
    ghost var ans := Script();
    courses := DemoCourses;
    var remaining := |courses|;
    announced, waits := [], [];
    var attempt := 1;
    RemainingAllPending(DemoCourses);
    while remaining > 0
      invariant 1 <= attempt <= 3
      invariant courses == AfterCycles(DemoCourses, ans, attempt - 1)
      invariant remaining == Remaining(courses) > 0
      invariant announced == RunFlipped(DemoCourses, ans, attempt - 1)
      invariant waits == FoundHistory(DemoCourses, ans, attempt - 1)
      decreases 3 - attempt
    {
      var visited, seats;
      courses, remaining, visited, seats := DemoCycle(courses, remaining, attempt);
      announced := announced + seats;
      if remaining == 0 {
        break;
      }
      waits := waits + [|courses| - remaining];
      attempt := attempt + 1;
    }
    attempts := attempt;
  }
}
