/** The monitor's per-course state and what one polling cycle does to it,
    independent of where the availability answers come from. The three
    monitor loops (the current runner, the older `main` and the scripted
    demo) are each proved against these definitions. */
module Tracking {
  import opened Wrappers
  import Notify

  /** One tracked course section. */
  datatype CourseStatus = CourseStatus(crn: string, name: string, found: bool)

  /** The availability answers of a run: the answer to the check, during
      attempt `attempt`, of the course at position `i` whose CRN is `crn`. */
  type Answer = (nat, nat, string) -> Result<bool>

  /** The name lookups of the start-up phase: the answer for the configured
      CRN at position `i`. */
  type Lookup = (nat, string) -> Result<string>

  // ---------------------------------------------------------------------
  // Pending courses and the remaining count
  // ---------------------------------------------------------------------

  /** Positions of the courses not yet found, in order. */
  function Pending(cs: seq<CourseStatus>): seq<nat> {
    if cs == [] then []
    else Pending(cs[..|cs| - 1]) + (if cs[|cs| - 1].found then [] else [|cs| - 1])
  }

  /** `Pending` lists exactly the positions of the courses not yet found,
      each once, in increasing order. */
  lemma {:induction false} PendingSpec(cs: seq<CourseStatus>)
    ensures var r := Pending(cs);
      && |r| <= |cs|
      && (forall k :: 0 <= k < |r| ==> r[k] < |cs| && !cs[r[k]].found)
      && (forall j :: 0 <= j < |cs| && !cs[j].found ==> j in r)
      && (forall k, l :: 0 <= k < l < |r| ==> r[k] < r[l])
  {
    if cs != [] {
      PendingSpec(cs[..|cs| - 1]);
    }
  }

  /** The number of courses not yet found. */
  function Remaining(cs: seq<CourseStatus>): nat {
    |Pending(cs)|
  }

  /** Nothing remains exactly when every course is found. */
  lemma RemainingZeroIff(cs: seq<CourseStatus>)
    ensures Remaining(cs) == 0 <==> forall i :: 0 <= i < |cs| ==> cs[i].found
  {
    PendingSpec(cs);
    if Remaining(cs) == 0 {
    } else {
      assert !cs[Pending(cs)[0]].found;
    }
  }

  /** When no course is found yet, every course remains. */
  lemma {:induction false} RemainingAllPending(cs: seq<CourseStatus>)
    requires forall i :: 0 <= i < |cs| ==> !cs[i].found
    ensures Remaining(cs) == |cs|
  {
    if cs != [] {
      RemainingAllPending(cs[..|cs| - 1]);
    }
  }

  // ---------------------------------------------------------------------
  // One polling cycle
  // ---------------------------------------------------------------------

  /** Course `i` is checked during `attempt` and reported open. */
  predicate Flips(cs: seq<CourseStatus>, ans: Answer, attempt: nat, i: nat)
    requires i < |cs|
  {
    !cs[i].found && ans(attempt, i, cs[i].crn) == Ok(true)
  }

  /** Positions of the courses that a cycle finds, in order. */
  function Flipped(cs: seq<CourseStatus>, ans: Answer, attempt: nat): seq<nat> {
    if cs == [] then []
    else
      var n := |cs| - 1;
      Flipped(cs[..n], ans, attempt) + (if Flips(cs, ans, attempt, n) then [n] else [])
  }

  /** `Flipped` lists exactly the positions that a cycle finds, each once,
      in increasing order. */
  lemma {:induction false} FlippedSpec(cs: seq<CourseStatus>, ans: Answer, attempt: nat)
    ensures var r := Flipped(cs, ans, attempt);
      && |r| <= |cs|
      && (forall k :: 0 <= k < |r| ==> r[k] < |cs| && Flips(cs, ans, attempt, r[k]))
      && (forall j :: 0 <= j < |cs| && Flips(cs, ans, attempt, j) ==> j in r)
      && (forall k, l :: 0 <= k < l < |r| ==> r[k] < r[l])
  {
    if cs != [] {
      var n := |cs| - 1;
      var p := cs[..n];
      FlippedSpec(p, ans, attempt);
      forall j | 0 <= j < n
        ensures Flips(p, ans, attempt, j) == Flips(cs, ans, attempt, j)
      {
        assert p[j] == cs[j];
      }
    }
  }

  /** The state after one cycle: a course not yet found whose check answers
      "open" becomes found; every other course is left as it was. */
  function Cycle(cs: seq<CourseStatus>, ans: Answer, attempt: nat): seq<CourseStatus> {
    seq(|cs|, i requires 0 <= i < |cs| => Step(cs, ans, attempt, i))
  }

  /** What the cycle makes of the course at position `i`. */
  function Step(cs: seq<CourseStatus>, ans: Answer, attempt: nat, i: nat): CourseStatus
    requires i < |cs|
  {
    if Flips(cs, ans, attempt, i) then cs[i].(found := true) else cs[i]
  }

  /** What a cycle does to each course: CRN and name never change, found
      courses are left alone, an error or a "not open" answer changes
      nothing, and an "open" answer only ever sets the flag. */
  lemma CycleEffect(cs: seq<CourseStatus>, ans: Answer, attempt: nat)
    ensures var r := Cycle(cs, ans, attempt);
      && |r| == |cs|
      && (forall i :: 0 <= i < |cs| ==> r[i].crn == cs[i].crn && r[i].name == cs[i].name)
      && (forall i :: 0 <= i < |cs| && cs[i].found ==> r[i] == cs[i])
      && (forall i :: 0 <= i < |cs| && ans(attempt, i, cs[i].crn) != Ok(true) ==> r[i] == cs[i])
      && (forall i :: 0 <= i < |cs| ==> r[i].found == (cs[i].found || ans(attempt, i, cs[i].crn) == Ok(true)))
  {
  }

  /** A cycle in which no check answers "open" leaves the state unchanged. */
  lemma CycleQuiet(cs: seq<CourseStatus>, ans: Answer, attempt: nat)
    requires forall i :: 0 <= i < |cs| ==> ans(attempt, i, cs[i].crn) != Ok(true)
    ensures Cycle(cs, ans, attempt) == cs
  {
    assert forall i :: 0 <= i < |cs| ==> Cycle(cs, ans, attempt)[i] == cs[i];
  }

  /** Extending the prefix of a cycle's courses by one position. */
  lemma PrefixStep(cs: seq<CourseStatus>, ans: Answer, attempt: nat, i: nat)
    requires i < |cs|
    ensures Pending(cs[..i + 1]) == Pending(cs[..i]) + (if cs[i].found then [] else [i])
    ensures Flipped(cs[..i + 1], ans, attempt) ==
      Flipped(cs[..i], ans, attempt) + (if Flips(cs, ans, attempt, i) then [i] else [])
  {
    assert cs[..i + 1][..i] == cs[..i];
  }

  /** Cycles commute with taking a prefix of the course list. */
  lemma CyclePrefix(cs: seq<CourseStatus>, ans: Answer, attempt: nat, n: nat)
    requires n <= |cs|
    ensures Cycle(cs, ans, attempt)[..n] == Cycle(cs[..n], ans, attempt)
  {
    assert forall j :: 0 <= j < n ==> Flips(cs[..n], ans, attempt, j) == Flips(cs, ans, attempt, j);
  }

  /** The remaining count drops by exactly the number of courses a cycle
      finds. */
  lemma {:induction false} CycleRemaining(cs: seq<CourseStatus>, ans: Answer, attempt: nat)
    ensures Remaining(Cycle(cs, ans, attempt)) == Remaining(cs) - |Flipped(cs, ans, attempt)|
  {
    if cs != [] {
      var n := |cs| - 1;
      var r := Cycle(cs, ans, attempt);
      CyclePrefix(cs, ans, attempt, n);
      CycleRemaining(cs[..n], ans, attempt);
      assert r[..|r| - 1] == Cycle(cs[..n], ans, attempt);
    }
  }

  // ---------------------------------------------------------------------
  // Notifications
  // ---------------------------------------------------------------------

  const Subject: string := "VT Course Section Open!"

  /** The email attempted when a seat opens in `course`. */
  function Alert(email: string, course: CourseStatus): Notify.Notice {
    Notify.Notice(email, Subject, "OPEN SEAT: " + course.name + " (CRN: " + course.crn + ")")
  }

  /** The notifications a cycle over `cs` attempts, one per course it finds,
      in course order. */
  function CycleAlerts(email: string, cs: seq<CourseStatus>, ans: Answer, attempt: nat): seq<Notify.Notice> {
    if cs == [] then []
    else
      var n := |cs| - 1;
      CycleAlerts(email, cs[..n], ans, attempt) + (if Flips(cs, ans, attempt, n) then [Alert(email, cs[n])] else [])
  }

  /** The `k`-th notification of a cycle is the alert for the `k`-th course
      it finds. */
  lemma {:induction false} CycleAlertsAlign(email: string, cs: seq<CourseStatus>, ans: Answer, attempt: nat)
    ensures var f, r := Flipped(cs, ans, attempt), CycleAlerts(email, cs, ans, attempt);
      && (forall k :: 0 <= k < |f| ==> f[k] < |cs|)
      && |r| == |f|
      && forall k :: 0 <= k < |f| ==> r[k] == Alert(email, cs[f[k]])
  {
    FlippedSpec(cs, ans, attempt);
    if cs != [] {
      var n := |cs| - 1;
      CycleAlertsAlign(email, cs[..n], ans, attempt);
      FlippedSpec(cs[..n], ans, attempt);
    }
  }

  // ---------------------------------------------------------------------
  // A run of cycles
  // ---------------------------------------------------------------------

  /** The state after attempts 1 to `n`. */
  function AfterCycles(cs: seq<CourseStatus>, ans: Answer, n: nat): (r: seq<CourseStatus>)
    ensures |r| == |cs|
  {
    if n == 0 then cs else Cycle(AfterCycles(cs, ans, n - 1), ans, n)
  }

  /** Over a run, the CRN and the name at each position never change. */
  lemma {:induction false} RunKeepsCourses(cs: seq<CourseStatus>, ans: Answer, n: nat)
    ensures forall i :: 0 <= i < |cs| ==>
      AfterCycles(cs, ans, n)[i].crn == cs[i].crn && AfterCycles(cs, ans, n)[i].name == cs[i].name
  {
    if n > 0 {
      RunKeepsCourses(cs, ans, n - 1);
      CycleEffect(AfterCycles(cs, ans, n - 1), ans, n);
    }
  }

  /** Over a run, a found course stays found and the remaining count never
      increases. */
  lemma {:induction false} RunMonotone(cs: seq<CourseStatus>, ans: Answer, m: nat, n: nat)
    requires m <= n
    ensures forall i :: 0 <= i < |cs| && AfterCycles(cs, ans, m)[i].found ==> AfterCycles(cs, ans, n)[i].found
    ensures Remaining(AfterCycles(cs, ans, n)) <= Remaining(AfterCycles(cs, ans, m)) <= |cs|
  {
    if m == n {
      PendingSpec(AfterCycles(cs, ans, m));
    } else {
      RunMonotone(cs, ans, m, n - 1);
      var s := AfterCycles(cs, ans, n - 1);
      CycleEffect(s, ans, n);
      CycleRemaining(s, ans, n);
    }
  }

  /** Something remained after each of attempts 1 to `n`. */
  predicate PendingThrough(cs: seq<CourseStatus>, ans: Answer, n: nat) {
    n == 0 || (PendingThrough(cs, ans, n - 1) && Remaining(AfterCycles(cs, ans, n)) > 0)
  }

  /** Attempt `n` of a run is one more cycle, and something was pending
      through it exactly when something was pending through the previous
      attempts and remained after this one. */
  lemma NextCycle(cs: seq<CourseStatus>, ans: Answer, n: nat)
    requires n >= 1
    ensures AfterCycles(cs, ans, n) == Cycle(AfterCycles(cs, ans, n - 1), ans, n)
    ensures PendingThrough(cs, ans, n) <==> PendingThrough(cs, ans, n - 1) && Remaining(AfterCycles(cs, ans, n)) > 0
  {
  }

  /** `PendingThrough` says what its name says. */
  lemma {:induction false} PendingThroughAll(cs: seq<CourseStatus>, ans: Answer, n: nat)
    ensures PendingThrough(cs, ans, n) <==> forall k :: 1 <= k <= n ==> Remaining(AfterCycles(cs, ans, k)) > 0
  {
    if n > 0 {
      PendingThroughAll(cs, ans, n - 1);
      assert PendingThrough(cs, ans, n) == (PendingThrough(cs, ans, n - 1) && Remaining(AfterCycles(cs, ans, n)) > 0);
      if PendingThrough(cs, ans, n) {
        forall k | 1 <= k <= n
          ensures Remaining(AfterCycles(cs, ans, k)) > 0
        {
          if k < n {
            assert 1 <= k <= n - 1;
          }
        }
      }
      if forall k :: 1 <= k <= n ==> Remaining(AfterCycles(cs, ans, k)) > 0 {
        assert forall k :: 1 <= k <= n - 1 ==> Remaining(AfterCycles(cs, ans, k)) > 0;
        assert PendingThrough(cs, ans, n - 1);
        assert Remaining(AfterCycles(cs, ans, n)) > 0;
      }
    }
  }

  /** Once nothing remains, further cycles change nothing. */
  lemma {:induction false} AllFoundStays(cs: seq<CourseStatus>, ans: Answer, m: nat, n: nat)
    requires m <= n && Remaining(AfterCycles(cs, ans, m)) == 0
    ensures AfterCycles(cs, ans, n) == AfterCycles(cs, ans, m)
  {
    if m < n {
      AllFoundStays(cs, ans, m, n - 1);
      var s := AfterCycles(cs, ans, m);
      RemainingZeroIff(s);
      assert forall i :: 0 <= i < |s| ==> Cycle(s, ans, n)[i] == s[i];
    }
  }

  /** The positions found over attempts 1 to `n`, cycle after cycle. */
  function RunFlipped(cs: seq<CourseStatus>, ans: Answer, n: nat): seq<nat> {
    if n == 0 then [] else RunFlipped(cs, ans, n - 1) + Flipped(AfterCycles(cs, ans, n - 1), ans, n)
  }

  /** Over a run, every position found stays found, none is found twice,
      and the remaining count drops by exactly the number found. */
  lemma {:induction false} RunFlippedSpec(cs: seq<CourseStatus>, ans: Answer, n: nat)
    ensures var r, s := RunFlipped(cs, ans, n), AfterCycles(cs, ans, n);
      && (forall k :: 0 <= k < |r| ==> r[k] < |cs| && s[r[k]].found)
      && (forall k, l :: 0 <= k < l < |r| ==> r[k] != r[l])
      && Remaining(cs) == Remaining(s) + |r|
  {
    if n > 0 {
      RunFlippedSpec(cs, ans, n - 1);
      var p, s := RunFlipped(cs, ans, n - 1), AfterCycles(cs, ans, n - 1);
      var f := Flipped(s, ans, n);
      FlippedSpec(s, ans, n);
      CycleEffect(s, ans, n);
      CycleRemaining(s, ans, n);
      var r := RunFlipped(cs, ans, n);
      assert r == p + f;
      forall k, l | 0 <= k < l < |r|
        ensures r[k] != r[l]
      {
        if l >= |p| && k < |p| {
          assert s[r[k]].found && !s[r[l]].found;
        }
      }
    }
  }

  /** The notifications attempted (the `sendEmail` calls) over attempts 1
      to `n`, cycle after cycle; whether each reaches the provider is
      `Notify.SendAll` of them. */
  function RunAlerts(email: string, cs: seq<CourseStatus>, ans: Answer, n: nat): seq<Notify.Notice> {
    if n == 0 then [] else RunAlerts(email, cs, ans, n - 1) + CycleAlerts(email, AfterCycles(cs, ans, n - 1), ans, n)
  }

  /** Over a run, the `k`-th notification is the alert for the `k`-th course
      found; with `RunFlippedSpec`, every course is alerted at most once. */
  lemma {:induction false} RunAlertsAlign(email: string, cs: seq<CourseStatus>, ans: Answer, n: nat)
    ensures var f, r := RunFlipped(cs, ans, n), RunAlerts(email, cs, ans, n);
      && (forall k :: 0 <= k < |f| ==> f[k] < |cs|)
      && |r| == |f|
      && forall k :: 0 <= k < |f| ==> r[k] == Alert(email, cs[f[k]])
  {
    if n > 0 {
      RunAlertsAlign(email, cs, ans, n - 1);
      var s := AfterCycles(cs, ans, n - 1);
      RunKeepsCourses(cs, ans, n - 1);
      KeptAlerts(email, cs, s, ans, n);
      var p, q := RunFlipped(cs, ans, n - 1), Flipped(s, ans, n);
      var r0, c := RunAlerts(email, cs, ans, n - 1), CycleAlerts(email, s, ans, n);
      var f, r := p + q, r0 + c;
      assert f == RunFlipped(cs, ans, n) && r == RunAlerts(email, cs, ans, n);
      forall k | 0 <= k < |f|
        ensures f[k] < |cs| && r[k] == Alert(email, cs[f[k]])
      {
        if k < |p| {
          assert f[k] == p[k] && r[k] == r0[k];
        } else {
          assert f[k] == q[k - |p|] && r[k] == c[k - |p|];
        }
      }
    }
  }

  /** The alerts of a cycle over a state that keeps the CRNs and names of
      `cs` are the alerts for the corresponding courses of `cs`. */
  lemma KeptAlerts(email: string, cs: seq<CourseStatus>, s: seq<CourseStatus>, ans: Answer, n: nat)
    requires |s| == |cs|
    requires forall i :: 0 <= i < |cs| ==> s[i].crn == cs[i].crn && s[i].name == cs[i].name
    ensures var q, c := Flipped(s, ans, n), CycleAlerts(email, s, ans, n);
      && |c| == |q|
      && forall j :: 0 <= j < |q| ==> q[j] < |cs| && c[j] == Alert(email, cs[q[j]])
  {
    CycleAlertsAlign(email, s, ans, n);
    var q, c := Flipped(s, ans, n), CycleAlerts(email, s, ans, n);
    forall j | 0 <= j < |q|
      ensures c[j] == Alert(email, cs[q[j]])
    {
      assert c[j] == Alert(email, s[q[j]]);
    }
  }

  /** The positions checked on each of attempts 1 to `n`. */
  function RunChecks(cs: seq<CourseStatus>, ans: Answer, n: nat): seq<seq<nat>> {
    if n == 0 then [] else RunChecks(cs, ans, n - 1) + [Pending(AfterCycles(cs, ans, n - 1))]
  }

  /** Attempt `k + 1` checks exactly the courses still unfound after
      attempt `k`. */
  lemma {:induction false} RunChecksAll(cs: seq<CourseStatus>, ans: Answer, n: nat)
    ensures |RunChecks(cs, ans, n)| == n
    ensures forall k :: 0 <= k < n ==> RunChecks(cs, ans, n)[k] == Pending(AfterCycles(cs, ans, k))
  {
    if n > 0 {
      RunChecksAll(cs, ans, n - 1);
    }
  }

  /** A course found by attempt `a` is never checked on a later attempt. */
  lemma FoundNotRechecked(cs: seq<CourseStatus>, ans: Answer, n: nat, a: nat, i: nat)
    requires a <= n && i < |cs| && AfterCycles(cs, ans, a)[i].found
    ensures |RunChecks(cs, ans, n)| == n
    ensures forall k :: a <= k < n ==> i !in RunChecks(cs, ans, n)[k]
  {
    RunChecksAll(cs, ans, n);
    forall k | a <= k < n
      ensures i !in RunChecks(cs, ans, n)[k]
    {
      RunMonotone(cs, ans, a, k);
      PendingSpec(AfterCycles(cs, ans, k));
    }
  }

  /** What a run has reached after attempts 1 to `n`: the state, the
      positions checked on each attempt and the notifications attempted. */
  predicate Ran(email: string, cs: seq<CourseStatus>, ans: Answer, n: nat,
                courses: seq<CourseStatus>, checks: seq<seq<nat>>, alerts: seq<Notify.Notice>) {
    && courses == AfterCycles(cs, ans, n)
    && checks == RunChecks(cs, ans, n)
    && alerts == RunAlerts(email, cs, ans, n)
  }

  /** The records of attempt `n` extend those of attempts 1 to `n - 1`. */
  lemma NextRecords(email: string, cs: seq<CourseStatus>, ans: Answer, n: nat)
    requires n >= 1
    ensures RunChecks(cs, ans, n) == RunChecks(cs, ans, n - 1) + [Pending(AfterCycles(cs, ans, n - 1))]
    ensures RunAlerts(email, cs, ans, n) == RunAlerts(email, cs, ans, n - 1) + CycleAlerts(email, AfterCycles(cs, ans, n - 1), ans, n)
  {
  }

  /** The found counts shown while waiting after attempts 1 to `n`. */
  function FoundHistory(cs: seq<CourseStatus>, ans: Answer, n: nat): seq<int> {
    if n == 0 then [] else FoundHistory(cs, ans, n - 1) + [|cs| - Remaining(AfterCycles(cs, ans, n))]
  }

  /** Entry `k` of the history is the found count after attempt `k + 1`. */
  lemma {:induction false} FoundHistoryAll(cs: seq<CourseStatus>, ans: Answer, n: nat)
    ensures |FoundHistory(cs, ans, n)| == n
    ensures forall k :: 0 <= k < n ==> FoundHistory(cs, ans, n)[k] == |cs| - Remaining(AfterCycles(cs, ans, k + 1))
  {
    if n > 0 {
      FoundHistoryAll(cs, ans, n - 1);
    }
  }

  /** The found count shown never decreases from one wait to the next and
      stays between zero and the number of courses. */
  lemma FoundHistoryMonotone(cs: seq<CourseStatus>, ans: Answer, n: nat)
    ensures var h := FoundHistory(cs, ans, n);
      && |h| == n
      && (forall k, l :: 0 <= k <= l < n ==> 0 <= h[k] <= h[l] <= |cs|)
  {
    FoundHistoryAll(cs, ans, n);
    forall k, l | 0 <= k <= l < n
      ensures 0 <= FoundHistory(cs, ans, n)[k] <= FoundHistory(cs, ans, n)[l] <= |cs|
    {
      FoundHistoryPair(cs, ans, n, k, l);
    }
  }

  lemma FoundHistoryPair(cs: seq<CourseStatus>, ans: Answer, n: nat, k: nat, l: nat)
    requires k <= l < n
    ensures |FoundHistory(cs, ans, n)| == n
    ensures 0 <= FoundHistory(cs, ans, n)[k] <= FoundHistory(cs, ans, n)[l] <= |cs|
  {
    FoundHistoryAll(cs, ans, n);
    var h := FoundHistory(cs, ans, n);
    assert h[k] == |cs| - Remaining(AfterCycles(cs, ans, k + 1));
    assert h[l] == |cs| - Remaining(AfterCycles(cs, ans, l + 1));
    RunMonotone(cs, ans, k + 1, l + 1);
  }

  // ---------------------------------------------------------------------
  // Resolution of the configured CRNs
  // ---------------------------------------------------------------------

  /** Positions of the configured CRNs whose name lookup succeeds, in
      increasing order. */
  function Survivors(crns: seq<string>, look: Lookup): (r: seq<nat>)
    ensures forall k :: 0 <= k < |r| ==> r[k] < |crns| && look(r[k], crns[r[k]]).Ok?
    ensures forall j :: 0 <= j < |crns| && look(j, crns[j]).Ok? ==> j in r
    ensures forall k, l :: 0 <= k < l < |r| ==> r[k] < r[l]
  {
    if crns == [] then []
    else
      var n := |crns| - 1;
      Survivors(crns[..n], look) + (if look(n, crns[n]).Ok? then [n] else [])
  }

  /** The tracked courses built from the configured CRNs: each CRN whose
      lookup succeeds, with the name found and not yet found, in order. */
  function Resolved(crns: seq<string>, look: Lookup): seq<CourseStatus> {
    if crns == [] then []
    else
      var n := |crns| - 1;
      Resolved(crns[..n], look) +
        match look(n, crns[n])
        case Ok(name) => [CourseStatus(crns[n], name, false)]
        case Err(_) => []
  }

  /** Resolution keeps exactly the CRNs whose lookup succeeded, in the
      configured order, each with its looked-up name and not found. */
  lemma {:induction false} ResolvedIsFilter(crns: seq<string>, look: Lookup)
    ensures var s := Survivors(crns, look);
      && |Resolved(crns, look)| == |s|
      && forall k :: 0 <= k < |s| ==>
        Resolved(crns, look)[k] == CourseStatus(crns[s[k]], look(s[k], crns[s[k]]).value, false)
  {
    if crns != [] {
      var n := |crns| - 1;
      ResolvedIsFilter(crns[..n], look);
    }
  }

  /** Every resolved course starts out pending. */
  lemma ResolvedAllPending(crns: seq<string>, look: Lookup)
    ensures Remaining(Resolved(crns, look)) == |Resolved(crns, look)|
  {
    ResolvedIsFilter(crns, look);
    RemainingAllPending(Resolved(crns, look));
  }
}
