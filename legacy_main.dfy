/** The older single-file runner: the same monitor as the current one, but
    with a fixed timetable endpoint, no base-URL setting, and fatal exits
    where the current runner returns errors. */
module LegacyMain {
  import opened Wrappers
  import GoStrings
  import Timetable
  import Notify
  import opened Tracking
  import Sniper

  /** The one endpoint every request of this runner goes to. */
  const TimetableUrl: string := "https://selfservice.banner.vt.edu/ssb/HZSKVTSC.P_ProcRequest"

  /** The runtime configuration, as decoded from the configuration file. It
      has no base-URL field. */
  datatype Config = Config(
    crns: seq<string>,
    email: string,
    checkInterval: int,
    term: string,
    campus: string)

  const NoValidCRNs: string := "No valid CRNs to monitor"

  // ---------------------------------------------------------------------
  // Configuration
  // ---------------------------------------------------------------------

  /** The configuration with the check interval, campus and term defaulted
      when left at their zero values. */
  function WithDefaults(c: Config): Config {
    c.(checkInterval := if c.checkInterval == 0 then 30 else c.checkInterval,
       campus := if c.campus == "" then "0" else c.campus,
       term := if c.term == "" then "202601" else c.term)
  }

  /** `loadConfig` once the file has been read and decoded: the three
      defaults are applied, then an empty CRN list is rejected. */
  method LoadConfig(decoded: Config) returns (r: Result<Config>)
    ensures r.Err? <==> decoded.crns == []
    ensures r.Err? ==> r.error == Sniper.NoCRNs
    ensures r.Ok? ==> r.value == WithDefaults(decoded)
  {
    var cfg := decoded;
    if cfg.checkInterval == 0 {
      cfg := cfg.(checkInterval := 30);
    }
    if cfg.campus == "" {
      cfg := cfg.(campus := "0");
    }
    if cfg.term == "" {
      cfg := cfg.(term := "202601");
    }
    if |cfg.crns| == 0 {
      return Err(Sniper.NoCRNs);
    }
    return Ok(cfg);
  }

  /** The same configuration as the current runner sees it, with no base
      URL set. */
  function AsCurrent(c: Config): Sniper.Config {
    Sniper.Config(c.crns, c.email, c.checkInterval, c.term, c.campus, "")
  }

  /** The defaults agree with the current runner's: loading applies the
      same interval, campus and term, and the current runner's base URL
      falls back to this runner's fixed endpoint. */
  lemma DefaultsAgree(c: Config)
    ensures var d, e := WithDefaults(c), Sniper.WithDefaults(AsCurrent(c));
      && e.crns == d.crns && e.email == d.email && e.checkInterval == d.checkInterval
      && e.term == d.term && e.campus == d.campus
      && e.baseURL == TimetableUrl
      && d.checkInterval != 0 && d.campus != "" && d.term != ""
  {
  }

  // ---------------------------------------------------------------------
  // Requests and their results
  // ---------------------------------------------------------------------

  /** `buildPayload`: the search form for `crn` with the configured campus
      and term. */
  function BuildPayload(c: Config, crn: string, openOnly: bool): Timetable.Form {
    Timetable.SearchForm(c.campus, c.term, crn, openOnly)
  }

  /** This runner's payload is the current runner's payload for the same
      settings, so it has the same fields and values. */
  lemma PayloadAgrees(c: Config, crn: string, openOnly: bool)
    ensures var p := BuildPayload(c, crn, openOnly);
      && p == Sniper.BuildPayload(AsCurrent(c), crn, openOnly)
      && p.Keys == Timetable.SearchKeys + (if openOnly then {Timetable.OpenOnly} else {})
      && p[Timetable.Campus] == [c.campus] && p[Timetable.TermYear] == [c.term] && p[Timetable.Crn] == [crn]
  {
    Sniper.PayloadKeys(AsCurrent(c), crn, openOnly);
    Sniper.PayloadValues(AsCurrent(c), crn, openOnly);
  }

  /** `checkSectionOpen`: posts the open-only search to the fixed endpoint;
      a fetch error comes back unchanged, otherwise the section is open
      exactly when the CRN occurs in the text of the results table. */
  function CheckSectionOpen(c: Config, crn: string, fetch: Timetable.Fetcher): (r: Result<bool>)
    ensures var fetched := fetch(TimetableUrl, BuildPayload(c, crn, true));
      && (fetched.Err? ==> r == Err(fetched.error))
      && (fetched.Ok? ==> r.Ok? && (r.value <==> GoStrings.Occurs(fetched.value.tableText, crn)))
  {
    match fetch(TimetableUrl, BuildPayload(c, crn, true))
    case Err(e) => Err(e)
    case Ok(doc) => Ok(GoStrings.Contains(doc.tableText, crn))
  }

  /** `getCourseName`: posts the unfiltered search to the fixed endpoint and
      takes the trimmed third cell of the last row whose first cell contains
      the CRN; an empty name is the not-found error. */
  method GetCourseName(c: Config, crn: string, fetch: Timetable.Fetcher) returns (r: Result<string>)
    ensures r == Timetable.NameLookup(fetch(TimetableUrl, BuildPayload(c, crn, false)), crn)
  {
    var payload := BuildPayload(c, crn, false);
    var fetched := fetch(TimetableUrl, payload);
    if fetched.Err? {
      return Err(fetched.error);
    }
    var rows := fetched.value.rows;
    var courseName := "";
    for i := 0 to |rows|
      invariant courseName == Timetable.LastTitle(rows[..i], crn)
    {
      assert rows[..i + 1][..i] == rows[..i];
      if GoStrings.Contains(Timetable.Cell(rows[i], 0), crn) {
        courseName := GoStrings.TrimSpace(Timetable.Cell(rows[i], 2));
      }
    }
    assert rows[..|rows|] == rows;
    if courseName == "" {
      return Err(Timetable.NotFound(crn));
    }
    return Ok(courseName);
  }

  // ---------------------------------------------------------------------
  // The monitor loop
  // ---------------------------------------------------------------------

  /** The availability answers that `checkSectionOpen` gives over a network. */
  function Answers(c: Config, net: Sniper.Network): Answer {
    (a: nat, i: nat, crn: string) => CheckSectionOpen(c, crn, net(a, i))
  }

  /** The name lookups that `getCourseName` gives when the lookup of the CRN
      at position `i` is served by `resolveNet(i)`. */
  function Lookups(c: Config, resolveNet: nat -> Timetable.Fetcher): Lookup {
    (i: nat, crn: string) => Timetable.NameLookup(resolveNet(i)(TimetableUrl, BuildPayload(c, crn, false)), crn)
  }

  /** Over the same network, once loaded, this runner gets the same
      availability answers and the same name lookups as the current runner
      with no base URL configured. */
  lemma AnswersAgree(raw: Config, net: Sniper.Network, resolveNet: nat -> Timetable.Fetcher)
    ensures var c, e := WithDefaults(raw), Sniper.WithDefaults(AsCurrent(raw));
      && (forall a: nat, i: nat, crn :: Answers(c, net)(a, i, crn) == Sniper.Answers(e, net)(a, i, crn))
      && (forall i: nat, crn :: Lookups(c, resolveNet)(i, crn) == Sniper.Lookups(e, resolveNet)(i, crn))
  {
    var c, e := WithDefaults(raw), Sniper.WithDefaults(AsCurrent(raw));
    assert e.baseURL == TimetableUrl && Sniper.GetBaseURL(e) == TimetableUrl;
    assert c.campus == e.campus && c.term == e.term;
    forall a: nat, i: nat, crn
      ensures Answers(c, net)(a, i, crn) == Sniper.Answers(e, net)(a, i, crn)
    {
      assert BuildPayload(c, crn, true) == Sniper.BuildPayload(e, crn, true);
      assert CheckSectionOpen(c, crn, net(a, i)) == Sniper.CheckSectionOpen(e, crn, net(a, i));
    }
    forall i: nat, crn
      ensures Lookups(c, resolveNet)(i, crn) == Sniper.Lookups(e, resolveNet)(i, crn)
    {
      assert BuildPayload(c, crn, false) == Sniper.BuildPayload(e, crn, false);
    }
  }

  /** The body of the inner polling loop for the course at position `i`: a
      found course is skipped; otherwise it is checked, and an "open" answer
      marks it found and attempts the alert through `sendEmail`, whose
      outcome is returned and otherwise ignored. */
  method CheckCourse(c: Config, cs: seq<CourseStatus>, i: nat, attempt: nat, net: Sniper.Network,
                     apiKey: string, provider: Notify.Provider)
    returns (course: CourseStatus, checked: bool, notice: Option<Notify.Notice>, sent: Option<Notify.SendOutcome>)
    requires i < |cs|
    ensures course == Step(cs, Answers(c, net), attempt, i)
    ensures checked == !cs[i].found
    ensures notice.Some? <==> Flips(cs, Answers(c, net), attempt, i)
    ensures notice.Some? ==> notice.value == Alert(c.email, cs[i])
    ensures sent.Some? <==> notice.Some?
    ensures notice.Some? ==> sent.value == Notify.SendNotice(apiKey, notice.value, provider)
  {
    course, checked, notice, sent := cs[i], false, None, None;
    if course.found {
      return;
    }
    checked := true;
    var open := CheckSectionOpen(c, course.crn, net(attempt, i));
    if open.Err? {
      return;
    }
    if open.value {
      course := course.(found := true);
      var alert := Alert(c.email, course);
      notice := Some(alert);
      sent := Some(Notify.Send(apiKey, alert.to, alert.subject, alert.body, provider));
    }
  }

  /** One pass of the polling loop over the tracked courses. */
  method PollCycle(c: Config, courses0: seq<CourseStatus>, remaining0: int, attempt: nat,
                   net: Sniper.Network, apiKey: string, provider: Notify.Provider)
    returns (courses: seq<CourseStatus>, remaining: int, checked: seq<nat>, notices: seq<Notify.Notice>,
             sent: seq<Notify.SendOutcome>)
    requires remaining0 == Remaining(courses0)
    ensures courses == Cycle(courses0, Answers(c, net), attempt)
    ensures remaining == Remaining(courses)
    ensures remaining == remaining0 - |Flipped(courses0, Answers(c, net), attempt)|
    ensures checked == Pending(courses0)
    ensures notices == CycleAlerts(c.email, courses0, Answers(c, net), attempt)
    ensures sent == Notify.SendAll(apiKey, notices, provider)
  {
    ghost var ans := Answers(c, net);
    courses, remaining, checked, notices, sent := courses0, remaining0, [], [], [];
    for i := 0 to |courses0|
      invariant |courses| == |courses0|
      invariant forall j :: 0 <= j < i ==> courses[j] == Step(courses0, ans, attempt, j)
      invariant forall j :: i <= j < |courses0| ==> courses[j] == courses0[j]
      invariant remaining == remaining0 - |Flipped(courses0[..i], ans, attempt)|
      invariant checked == Pending(courses0[..i])
      invariant notices == CycleAlerts(c.email, courses0[..i], ans, attempt)
      invariant sent == Notify.SendAll(apiKey, notices, provider)
    {
      PrefixStep(courses0, ans, attempt, i);
      assert courses0[..i + 1][..i] == courses0[..i];
      var course, wasChecked, notice, outcome := CheckCourse(c, courses0, i, attempt, net, apiKey, provider);
      courses := courses[i := course];
      if wasChecked {
        checked := checked + [i];
      }
      if notice.Some? {
        remaining := remaining - 1;
        Notify.SendAllSnoc(apiKey, notices, notice.value, provider);
        notices, sent := notices + [notice.value], sent + [outcome.value];
      }
    }
    assert courses0[..|courses0|] == courses0;
    assert courses == Cycle(courses0, ans, attempt);
    CycleRemaining(courses0, ans, attempt);
  }

  /** The start-up phase: every configured CRN whose name lookup succeeds is
      tracked, in configured order, as not yet found. */
  method ResolveCourses(c: Config, resolveNet: nat -> Timetable.Fetcher) returns (courses: seq<CourseStatus>)
    ensures courses == Resolved(c.crns, Lookups(c, resolveNet))
  {
    courses := [];
    for i := 0 to |c.crns|
      invariant courses == Resolved(c.crns[..i], Lookups(c, resolveNet))
    {
      assert c.crns[..i + 1][..i] == c.crns[..i];
      var crn := c.crns[i];
      var name := GetCourseName(c, crn, resolveNet(i));
      if name.Err? {
        continue;
      }
      courses := courses + [CourseStatus(crn, name.value, false)];
    }
    assert c.crns[..|c.crns|] == c.crns;
  }

  /** One attempt of the polling loop together with its records: from the
      state, checks and notifications after attempt `attempt - 1` to those
      after attempt `attempt`. */
  method Attempt(cfg: Config, courses0: seq<CourseStatus>, attempt: nat, net: Sniper.Network, apiKey: string,
                 provider: Notify.Provider, before: seq<CourseStatus>, remaining0: int,
                 checks0: seq<seq<nat>>, alerts0: seq<Notify.Notice>, sent0: seq<Notify.SendOutcome>)
    returns (courses: seq<CourseStatus>, remaining: int, checks: seq<seq<nat>>, alerts: seq<Notify.Notice>,
             sent: seq<Notify.SendOutcome>)
    requires attempt >= 1
    requires Ran(cfg.email, courses0, Answers(cfg, net), attempt - 1, before, checks0, alerts0)
    requires remaining0 == Remaining(before)
    requires sent0 == Notify.SendAll(apiKey, alerts0, provider)
    requires PendingThrough(courses0, Answers(cfg, net), attempt - 1)
    ensures Ran(cfg.email, courses0, Answers(cfg, net), attempt, courses, checks, alerts)
    ensures remaining == Remaining(courses)
    ensures sent == Notify.SendAll(apiKey, alerts, provider)
    ensures PendingThrough(courses0, Answers(cfg, net), attempt) <==> remaining > 0
  {
    ghost var ans := Answers(cfg, net);
    NextCycle(courses0, ans, attempt);
    NextRecords(cfg.email, courses0, ans, attempt);
    var checked, notices, outcomes;
    courses, remaining, checked, notices, outcomes := PollCycle(cfg, before, remaining0, attempt, net, apiKey, provider);
    Notify.SendAllAppend(apiKey, alerts0, notices, provider);
    checks, alerts, sent := checks0 + [checked], alerts0 + notices, sent0 + outcomes;
  }

  /** The polling phase, bounded to at most `maxCycles` cycles: the loop runs
      while something remains and returns right after the first cycle that
      leaves nothing remaining. It also returns the positions checked on
      each attempt, every notification attempted and the outcome of each
      `sendEmail` call. */
  method Poll(cfg: Config, courses0: seq<CourseStatus>, net: Sniper.Network, apiKey: string,
              provider: Notify.Provider, maxCycles: nat)
    returns (r: Sniper.RunOutcome, courses: seq<CourseStatus>, checks: seq<seq<nat>>, alerts: seq<Notify.Notice>,
             sent: seq<Notify.SendOutcome>)
    requires Remaining(courses0) == |courses0| > 0
    ensures !r.Failed?
    ensures r.AllFound? ==>
      && 1 <= r.attempt <= maxCycles
      && Ran(cfg.email, courses0, Answers(cfg, net), r.attempt, courses, checks, alerts)
      && Remaining(courses) == 0
      && PendingThrough(courses0, Answers(cfg, net), r.attempt - 1)
    ensures r.StillPolling? ==>
      && Ran(cfg.email, courses0, Answers(cfg, net), maxCycles, courses, checks, alerts)
      && PendingThrough(courses0, Answers(cfg, net), maxCycles)
    ensures sent == Notify.SendAll(apiKey, alerts, provider)
  {
    ghost var ans := Answers(cfg, net);
    courses := courses0;
    var remaining := |courses|;
    checks, alerts, sent := [], [], [];
    var attempt := 1;
    while attempt <= maxCycles && remaining > 0
      invariant 1 <= attempt <= maxCycles + 1
      invariant Ran(cfg.email, courses0, ans, attempt - 1, courses, checks, alerts)
      invariant remaining == Remaining(courses) > 0
      invariant PendingThrough(courses0, ans, attempt - 1)
      invariant sent == Notify.SendAll(apiKey, alerts, provider)
    {
      courses, remaining, checks, alerts, sent :=
        Attempt(cfg, courses0, attempt, net, apiKey, provider, courses, remaining, checks, alerts, sent);
      if remaining == 0 {
        return Sniper.AllFound(attempt), courses, checks, alerts, sent;
      }
      attempt := attempt + 1;
    }
    assert attempt - 1 == maxCycles;
    return Sniper.StillPolling, courses, checks, alerts, sent;
  }

  /** The courses `Monitor` tracks for a decoded configuration. */
  function Tracked(raw: Config, resolveNet: nat -> Timetable.Fetcher): seq<CourseStatus> {
    var c := WithDefaults(raw);
    Resolved(c.crns, Lookups(c, resolveNet))
  }

  /** `main` after flag parsing, bounded to at most `maxCycles` polling
      cycles. A failed load and an empty set of resolved CRNs are fatal
      before any polling; the run ends successfully right after the first
      cycle that leaves nothing remaining. */
  method Monitor(raw: Config, apiKey: string, resolveNet: nat -> Timetable.Fetcher, net: Sniper.Network,
                 provider: Notify.Provider, maxCycles: nat)
    returns (r: Sniper.RunOutcome, courses: seq<CourseStatus>, checks: seq<seq<nat>>, alerts: seq<Notify.Notice>,
             sent: seq<Notify.SendOutcome>)
    ensures raw.crns == [] ==> r == Sniper.Failed("Failed to load config: " + Sniper.NoCRNs)
    ensures raw.crns != [] && Tracked(raw, resolveNet) == [] ==> r == Sniper.Failed(NoValidCRNs)
    ensures r.Failed? ==> courses == [] && checks == [] && alerts == [] && sent == []
    ensures raw.crns != [] && Tracked(raw, resolveNet) != [] ==> !r.Failed?
    ensures r.AllFound? ==>
      var cs, ans := Tracked(raw, resolveNet), Answers(WithDefaults(raw), net);
      && 1 <= r.attempt <= maxCycles
      && Ran(raw.email, cs, ans, r.attempt, courses, checks, alerts)
      && Remaining(courses) == 0
      && PendingThrough(cs, ans, r.attempt - 1)
    ensures r.StillPolling? ==>
      var cs, ans := Tracked(raw, resolveNet), Answers(WithDefaults(raw), net);
      && Ran(raw.email, cs, ans, maxCycles, courses, checks, alerts)
      && PendingThrough(cs, ans, maxCycles)
    ensures sent == Notify.SendAll(apiKey, alerts, provider)
    ensures apiKey == "" ==> forall k :: 0 <= k < |sent| ==> sent[k] == Notify.SendOutcome(None, Err(Notify.MissingKey))
  {
    var loaded := LoadConfig(raw);
    if loaded.Err? {
      return Sniper.Failed("Failed to load config: " + loaded.error), [], [], [], [];
    }
    var cfg := loaded.value;
    courses := ResolveCourses(cfg, resolveNet);
    if |courses| == 0 {
      return Sniper.Failed(NoValidCRNs), [], [], [], [];
    }
    ResolvedAllPending(cfg.crns, Lookups(cfg, resolveNet));
    r, courses, checks, alerts, sent := Poll(cfg, courses, net, apiKey, provider, maxCycles);
    if apiKey == "" {
      Notify.SendAllWithoutKey(alerts, provider);
    }
  }
}
