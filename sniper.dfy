/** The current runner: configuration defaults, the two kinds of search
    request, the interpretation of their results, and the monitor loop that
    polls every tracked course until all of them have an open seat. */
module Sniper {
  import opened Wrappers
  import GoStrings
  import Timetable
  import Notify
  import opened Tracking

  const DefaultTimetableURL: string := "https://selfservice.banner.vt.edu/ssb/HZSKVTSC.P_ProcRequest"

  /** The runtime configuration, as decoded from the configuration file. */
  datatype Config = Config(
    crns: seq<string>,
    email: string,
    checkInterval: int,
    term: string,
    campus: string,
    baseURL: string)

  const NoCRNs: string := "no CRNs specified in config"
  const NoValidCRNs: string := "no valid CRNs to monitor"

  // ---------------------------------------------------------------------
  // Configuration
  // ---------------------------------------------------------------------

  /** The configuration with each field left at its zero value replaced by
      its default. */
  function WithDefaults(c: Config): Config {
    c.(checkInterval := if c.checkInterval == 0 then 30 else c.checkInterval,
       campus := if c.campus == "" then "0" else c.campus,
       term := if c.term == "" then "202601" else c.term,
       baseURL := if c.baseURL == "" then DefaultTimetableURL else c.baseURL)
  }

  /** `loadConfig` once the file has been read and decoded: the defaults
      are applied field by field, then an empty CRN list is rejected. */
  method LoadConfig(decoded: Config) returns (r: Result<Config>)
    ensures r.Err? <==> decoded.crns == []
    ensures r.Err? ==> r.error == NoCRNs
    ensures r.Ok? ==> r.value == WithDefaults(decoded)
  {
    var cfg := decoded;
    if cfg.checkInterval == 0 {
      cfg := cfg.(checkInterval := 30);
    }
    if cfg.campus == "" {
      cfg := cfg.(campus := "0");
    }
    if cfg.term == "" {
      cfg := cfg.(term := "202601");
    }
    if cfg.baseURL == "" {
      cfg := cfg.(baseURL := DefaultTimetableURL);
    }
    if |cfg.crns| == 0 {
      return Err(NoCRNs);
    }
    return Ok(cfg);
  }

  /** Every defaulted field ends up set; a field that was already set, the
      CRN list and the email address are passed through unchanged. */
  lemma DefaultsFill(c: Config)
    ensures var d := WithDefaults(c);
      && d.crns == c.crns && d.email == c.email
      && d.checkInterval == (if c.checkInterval == 0 then 30 else c.checkInterval)
      && d.campus == (if c.campus == "" then "0" else c.campus)
      && d.term == (if c.term == "" then "202601" else c.term)
      && d.baseURL == (if c.baseURL == "" then DefaultTimetableURL else c.baseURL)
      && d.checkInterval != 0 && d.campus != "" && d.term != "" && d.baseURL != ""
  {
  }

  /** Applying the defaults twice is the same as applying them once. */
  lemma DefaultsIdempotent(c: Config)
    ensures WithDefaults(WithDefaults(c)) == WithDefaults(c)
  {
  }

  /** `getBaseURL`: the configured URL, or the default one when it is empty. */
  function GetBaseURL(c: Config): (url: string)
    ensures url != ""
    ensures c.baseURL != "" ==> url == c.baseURL
    ensures c.baseURL == "" ==> url == DefaultTimetableURL
  {
    if c.baseURL != "" then c.baseURL else DefaultTimetableURL
  }

  /** After loading, `getBaseURL` is the configured URL, so the name lookup
      (which posts to the `BaseURL` field directly) and the availability
      check post to the same endpoint. */
  lemma LoadedBaseURL(c: Config)
    ensures GetBaseURL(WithDefaults(c)) == WithDefaults(c).baseURL
  {
  }

  // ---------------------------------------------------------------------
  // Requests and their results
  // ---------------------------------------------------------------------

  /** `buildPayload`: the search form for `crn` with the configured campus
      and term. */
  function BuildPayload(c: Config, crn: string, openOnly: bool): Timetable.Form {
    Timetable.SearchForm(c.campus, c.term, crn, openOnly)
  }

  /** The payload holds exactly the eleven search fields, plus the open-only
      filter exactly when it is asked for. */
  lemma PayloadKeys(c: Config, crn: string, openOnly: bool)
    ensures BuildPayload(c, crn, openOnly).Keys ==
      Timetable.SearchKeys + (if openOnly then {Timetable.OpenOnly} else {})
  {
  }

  /** Every field of the payload has one value: the campus, term and CRN
      come from the arguments, the other search fields are the fixed
      wildcards, and the open-only filter is `on`. */
  lemma PayloadValues(c: Config, crn: string, openOnly: bool)
    ensures var p := BuildPayload(c, crn, openOnly);
      && (forall k :: k in p ==> |p[k]| == 1)
      && p[Timetable.Campus] == [c.campus] && p[Timetable.TermYear] == [c.term] && p[Timetable.Crn] == [crn]
      && (forall k :: k in Timetable.Wildcards ==> p[k] == Timetable.Wildcards[k])
      && (openOnly ==> p[Timetable.OpenOnly] == ["on"])
  {
  }

  /** `checkSectionOpen`: posts the open-only search to `getBaseURL`; a fetch
      error comes back unchanged, otherwise the section is open exactly when
      the CRN occurs anywhere in the text of the results table. */
  function CheckSectionOpen(c: Config, crn: string, fetch: Timetable.Fetcher): (r: Result<bool>)
    ensures var fetched := fetch(GetBaseURL(c), BuildPayload(c, crn, true));
      && (fetched.Err? ==> r == Err(fetched.error))
      && (fetched.Ok? ==> r.Ok? && (r.value <==> GoStrings.Occurs(fetched.value.tableText, crn)))
  {
    match fetch(GetBaseURL(c), BuildPayload(c, crn, true))
    case Err(e) => Err(e)
    case Ok(doc) => Ok(GoStrings.Contains(doc.tableText, crn))
  }

  /** The substring test makes an empty CRN open in any results. */
  lemma EmptyCRNAlwaysOpen(c: Config, fetch: Timetable.Fetcher)
    requires fetch(GetBaseURL(c), BuildPayload(c, "", true)).Ok?
    ensures CheckSectionOpen(c, "", fetch) == Ok(true)
  {
    GoStrings.ContainsEmpty(fetch(GetBaseURL(c), BuildPayload(c, "", true)).value.tableText);
  }

  /** `getCourseName`: posts the unfiltered search to the `BaseURL` field and
      scans every row; each row whose first cell contains the CRN overwrites
      the name with its trimmed third cell, and an empty name at the end is
      the not-found error. */
  method GetCourseName(c: Config, crn: string, fetch: Timetable.Fetcher) returns (r: Result<string>)
    ensures r == Timetable.NameLookup(fetch(c.baseURL, BuildPayload(c, crn, false)), crn)
  {
    var payload := BuildPayload(c, crn, false);
    var fetched := fetch(c.baseURL, payload);
    if fetched.Err? {
      return Err(fetched.error);
    }
    var rows := fetched.value.rows;
    var courseName := "";
    for i := 0 to |rows|
      invariant courseName == Timetable.LastTitle(rows[..i], crn)
    {
      assert rows[..i + 1][..i] == rows[..i];
      if GoStrings.Contains(Timetable.Cell(rows[i], 0), crn) {
        courseName := GoStrings.TrimSpace(Timetable.Cell(rows[i], 2));
      }
    }
    assert rows[..|rows|] == rows;
    if courseName == "" {
      return Err(Timetable.NotFound(crn));
    }
    return Ok(courseName);
  }

  // ---------------------------------------------------------------------
  // The monitor loop
  // ---------------------------------------------------------------------

  /** The responses of the remote service while polling: the fetch that
      serves the check of the course at position `i` during attempt `a`. */
  type Network = (nat, nat) -> Timetable.Fetcher

  /** The availability answers that `checkSectionOpen` gives over a network. */
  function Answers(c: Config, net: Network): Answer {
    (a: nat, i: nat, crn: string) => CheckSectionOpen(c, crn, net(a, i))
  }

  /** The name lookups that `getCourseName` gives when the lookup of the CRN
      at position `i` is served by `resolveNet(i)`. */
  function Lookups(c: Config, resolveNet: nat -> Timetable.Fetcher): Lookup {
    (i: nat, crn: string) => Timetable.NameLookup(resolveNet(i)(c.baseURL, BuildPayload(c, crn, false)), crn)
  }

  /** The start-up phase of `Run`: every configured CRN whose name lookup
      succeeds is tracked, in configured order, as not yet found. */
  method ResolveCourses(c: Config, resolveNet: nat -> Timetable.Fetcher) returns (courses: seq<CourseStatus>)
    ensures courses == Resolved(c.crns, Lookups(c, resolveNet))
  {
    courses := [];
    for i := 0 to |c.crns|
      invariant courses == Resolved(c.crns[..i], Lookups(c, resolveNet))
    {
      assert c.crns[..i + 1][..i] == c.crns[..i];
      var crn := c.crns[i];
      var name := GetCourseName(c, crn, resolveNet(i));
      if name.Err? {
        continue;
      }
      courses := courses + [CourseStatus(crn, name.value, false)];
    }
    assert c.crns[..|c.crns|] == c.crns;
  }

  /** The body of `Run`'s inner loop for the course at position `i`: a
      found course is skipped; otherwise it is checked, and an "open" answer
      marks it found and attempts the alert through `sendEmail`, whose
      outcome is returned and otherwise ignored. */
  method CheckCourse(c: Config, cs: seq<CourseStatus>, i: nat, attempt: nat, net: Network,
                     apiKey: string, provider: Notify.Provider)
    returns (course: CourseStatus, checked: bool, notice: Option<Notify.Notice>, sent: Option<Notify.SendOutcome>)
    requires i < |cs|
    ensures course == Step(cs, Answers(c, net), attempt, i)
    ensures checked == !cs[i].found
    ensures notice.Some? <==> Flips(cs, Answers(c, net), attempt, i)
    ensures notice.Some? ==> notice.value == Alert(c.email, cs[i])
    ensures sent.Some? <==> notice.Some?
    ensures notice.Some? ==> sent.value == Notify.SendNotice(apiKey, notice.value, provider)
  {
    course, checked, notice, sent := cs[i], false, None, None;
    if course.found {
      return;
    }
    checked := true;
    var open := CheckSectionOpen(c, course.crn, net(attempt, i));
    if open.Err? {
      return;
    }
    if open.value {
      course := course.(found := true);
      var alert := Alert(c.email, course);
      notice := Some(alert);
      sent := Some(Notify.Send(apiKey, alert.to, alert.subject, alert.body, provider));
    }
  }

  /** One pass of `Run`'s polling loop over the tracked courses. It returns
      the new state, the positions it checked and the notifications it
      attempted. The ghost `ans` names the answers that `checkSectionOpen`
      gives during this attempt. */
  method PollCycle(c: Config, courses0: seq<CourseStatus>, remaining0: int, attempt: nat,
                   net: Network, apiKey: string, provider: Notify.Provider)
    returns (courses: seq<CourseStatus>, remaining: int, checked: seq<nat>, notices: seq<Notify.Notice>,
             sent: seq<Notify.SendOutcome>)
    requires remaining0 == Remaining(courses0)
    ensures courses == Cycle(courses0, Answers(c, net), attempt)
    ensures remaining == Remaining(courses)
    ensures remaining == remaining0 - |Flipped(courses0, Answers(c, net), attempt)|
    ensures checked == Pending(courses0)
    ensures notices == CycleAlerts(c.email, courses0, Answers(c, net), attempt)
    ensures sent == Notify.SendAll(apiKey, notices, provider)
  {
    ghost var ans := Answers(c, net);
    courses, remaining, checked, notices, sent := courses0, remaining0, [], [], [];
    for i := 0 to |courses0|
      invariant |courses| == |courses0|
      invariant forall j :: 0 <= j < i ==> courses[j] == Step(courses0, ans, attempt, j)
      invariant forall j :: i <= j < |courses0| ==> courses[j] == courses0[j]
      invariant remaining == remaining0 - |Flipped(courses0[..i], ans, attempt)|
      invariant checked == Pending(courses0[..i])
      invariant notices == CycleAlerts(c.email, courses0[..i], ans, attempt)
      invariant sent == Notify.SendAll(apiKey, notices, provider)
    {
      PrefixStep(courses0, ans, attempt, i);
      assert courses0[..i + 1][..i] == courses0[..i];
      var course, wasChecked, notice, outcome := CheckCourse(c, courses0, i, attempt, net, apiKey, provider);
      courses := courses[i := course];
      if wasChecked {
        checked := checked + [i];
      }
      if notice.Some? {
        remaining := remaining - 1;
        Notify.SendAllSnoc(apiKey, notices, notice.value, provider);
        notices, sent := notices + [notice.value], sent + [outcome.value];
      }
    }
    assert courses0[..|courses0|] == courses0;
    assert courses == Cycle(courses0, ans, attempt);
    CycleRemaining(courses0, ans, attempt);
  }

  /** How a bounded run ends: all courses found after the given attempt; a
      fatal error; or still polling when the bound on cycles is reached. */
  datatype RunOutcome = AllFound(attempt: nat) | Failed(error: string) | StillPolling

  /** The courses `Run` tracks for a decoded configuration. */
  function Tracked(raw: Config, resolveNet: nat -> Timetable.Fetcher): seq<CourseStatus> {
    var c := WithDefaults(raw);
    Resolved(c.crns, Lookups(c, resolveNet))
  }

  /** One attempt of the polling loop together with its records: from the
      state, checks and notifications after attempt `attempt - 1` to those
      after attempt `attempt`. */
  method Attempt(cfg: Config, courses0: seq<CourseStatus>, attempt: nat, net: Network, apiKey: string,
                 provider: Notify.Provider, before: seq<CourseStatus>, remaining0: int,
                 checks0: seq<seq<nat>>, alerts0: seq<Notify.Notice>, sent0: seq<Notify.SendOutcome>)
    returns (courses: seq<CourseStatus>, remaining: int, checks: seq<seq<nat>>, alerts: seq<Notify.Notice>,
             sent: seq<Notify.SendOutcome>)
    requires attempt >= 1
    requires Ran(cfg.email, courses0, Answers(cfg, net), attempt - 1, before, checks0, alerts0)
    requires remaining0 == Remaining(before)
    requires sent0 == Notify.SendAll(apiKey, alerts0, provider)
    requires PendingThrough(courses0, Answers(cfg, net), attempt - 1)
    ensures Ran(cfg.email, courses0, Answers(cfg, net), attempt, courses, checks, alerts)
    ensures remaining == Remaining(courses)
    ensures sent == Notify.SendAll(apiKey, alerts, provider)
    ensures PendingThrough(courses0, Answers(cfg, net), attempt) <==> remaining > 0
  {
    ghost var ans := Answers(cfg, net);
    NextCycle(courses0, ans, attempt);
    NextRecords(cfg.email, courses0, ans, attempt);
    var checked, notices, outcomes;
    courses, remaining, checked, notices, outcomes := PollCycle(cfg, before, remaining0, attempt, net, apiKey, provider);
    Notify.SendAllAppend(apiKey, alerts0, notices, provider);
    checks, alerts, sent := checks0 + [checked], alerts0 + notices, sent0 + outcomes;
  }

  /** The polling phase of `Run`, bounded to at most `maxCycles` cycles over
      the tracked courses, all of them pending at the start: it ends right
      after the first cycle that leaves nothing remaining. It also returns
      the positions checked on each attempt, every notification attempted
      and the outcome of each `sendEmail` call. */
  method Poll(cfg: Config, courses0: seq<CourseStatus>, net: Network, apiKey: string,
              provider: Notify.Provider, maxCycles: nat)
    returns (r: RunOutcome, courses: seq<CourseStatus>, checks: seq<seq<nat>>, alerts: seq<Notify.Notice>,
             sent: seq<Notify.SendOutcome>)
    requires Remaining(courses0) == |courses0|
    ensures !r.Failed?
    ensures r.AllFound? ==>
      && 1 <= r.attempt <= maxCycles
      && Ran(cfg.email, courses0, Answers(cfg, net), r.attempt, courses, checks, alerts)
      && Remaining(courses) == 0
      && PendingThrough(courses0, Answers(cfg, net), r.attempt - 1)
    ensures r.StillPolling? ==>
      && Ran(cfg.email, courses0, Answers(cfg, net), maxCycles, courses, checks, alerts)
      && PendingThrough(courses0, Answers(cfg, net), maxCycles)
    ensures sent == Notify.SendAll(apiKey, alerts, provider)
  {
    ghost var ans := Answers(cfg, net);
    courses := courses0;
    var remaining := |courses|;
    checks, alerts, sent := [], [], [];
    var attempt := 1;
    while attempt <= maxCycles
      invariant 1 <= attempt <= maxCycles + 1
      invariant Ran(cfg.email, courses0, ans, attempt - 1, courses, checks, alerts)
      invariant remaining == Remaining(courses)
      invariant PendingThrough(courses0, ans, attempt - 1)
      invariant sent == Notify.SendAll(apiKey, alerts, provider)
    {
      courses, remaining, checks, alerts, sent :=
        Attempt(cfg, courses0, attempt, net, apiKey, provider, courses, remaining, checks, alerts, sent);
      if remaining == 0 {
        return AllFound(attempt), courses, checks, alerts, sent;
      }
      attempt := attempt + 1;
    }
    return StillPolling, courses, checks, alerts, sent;
  }

  /** `Run`, bounded to at most `maxCycles` polling cycles. Start-up fails on
      an empty CRN list or when no CRN resolves, before any polling; after
      that nothing fails, and the run ends successfully right after the
      first cycle that leaves nothing remaining. */
  method Run(raw: Config, apiKey: string, resolveNet: nat -> Timetable.Fetcher, net: Network,
             provider: Notify.Provider, maxCycles: nat)
    returns (r: RunOutcome, courses: seq<CourseStatus>, checks: seq<seq<nat>>, alerts: seq<Notify.Notice>,
             sent: seq<Notify.SendOutcome>)
    ensures raw.crns == [] ==> r == Failed("failed to load config: " + NoCRNs)
    ensures raw.crns != [] && Tracked(raw, resolveNet) == [] ==> r == Failed(NoValidCRNs)
    ensures r.Failed? ==> courses == [] && checks == [] && alerts == [] && sent == []
    ensures raw.crns != [] && Tracked(raw, resolveNet) != [] ==> !r.Failed?
    ensures r.AllFound? ==>
      var cs, ans := Tracked(raw, resolveNet), Answers(WithDefaults(raw), net);
      && 1 <= r.attempt <= maxCycles
      && Ran(raw.email, cs, ans, r.attempt, courses, checks, alerts)
      && Remaining(courses) == 0
      && PendingThrough(cs, ans, r.attempt - 1)
    ensures r.StillPolling? ==>
      var cs, ans := Tracked(raw, resolveNet), Answers(WithDefaults(raw), net);
      && Ran(raw.email, cs, ans, maxCycles, courses, checks, alerts)
      && PendingThrough(cs, ans, maxCycles)
    ensures sent == Notify.SendAll(apiKey, alerts, provider)
    ensures apiKey == "" ==> forall k :: 0 <= k < |sent| ==> sent[k] == Notify.SendOutcome(None, Err(Notify.MissingKey))
  {
    var loaded := LoadConfig(raw);
    if loaded.Err? {
      return Failed("failed to load config: " + loaded.error), [], [], [], [];
    }
    var cfg := loaded.value;
    courses := ResolveCourses(cfg, resolveNet);
    if |courses| == 0 {
      return Failed(NoValidCRNs), [], [], [], [];
    }
    ResolvedAllPending(cfg.crns, Lookups(cfg, resolveNet));
    r, courses, checks, alerts, sent := Poll(cfg, courses, net, apiKey, provider, maxCycles);
    if apiKey == "" {
      Notify.SendAllWithoutKey(alerts, provider);
    }
  }
}
