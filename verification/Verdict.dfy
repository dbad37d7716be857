/** How a run of the end-to-end scenarios becomes one of four exit codes. */
module Verdict {
  import opened Sequences
  import opened Text
  import opened Wrappers

  datatype Outcome = Passed | Behavioral | Infrastructure | Invalid | Missing

  type ArtifactVerdict = v: Outcome | v != Missing witness Passed

  datatype TestStatus = TestPassed | TestFailed | TimedOut | Skipped | Interrupted | NotReported

  datatype Project = Project(name: string, status: TestStatus, durationMs: int)

  datatype Artifact = Artifact(view: string, verdict: ArtifactVerdict, cause: Option<string>, durationMs: int)

  datatype Limits = Limits(viewMs: int, runMs: int)

  datatype Summary = Summary(verdict: Outcome, cause: Option<string>, durationMs: int)

  datatype RunSummary = RunSummary(
    exitCode: nat, cause: Option<string>, reasons: seq<string>, views: seq<Summary>, missing: seq<string>,
    operationFlow: Option<Summary>)

  const GREEN := 0
  const BEHAVIORAL := 1
  const INFRASTRUCTURE := 2
  const INVALID := 3

  predicate JsSpace(c: char) {
    c == ' ' || '\t' <= c <= '\r' || c == '\U{a0}' || c == '\U{feff}' || c == '\U{1680}'
    || '\U{2000}' <= c <= '\U{200a}' || c == '\U{2028}' || c == '\U{2029}' || c == '\U{202f}'
    || c == '\U{205f}' || c == '\U{3000}'
  }

  function StatusName(s: TestStatus): string {
    match s
    case TestPassed => "passed"
    case TestFailed => "failed"
    case TimedOut => "timedOut"
    case Skipped => "skipped"
    case Interrupted => "interrupted"
    case NotReported => "missing"
  }

  function OutcomeName(o: Outcome): string {
    match o
    case Passed => "passed"
    case Behavioral => "behavioral"
    case Infrastructure => "infrastructure"
    case Invalid => "invalid"
    case Missing => "missing"
  }

  // ---------------------------------------------------------------- causes

  /** Redaction replaces parts of a line and never empties it. */
  ghost predicate KeepsText(redact: string -> string) {
    forall s :: !Blank(s, JsSpace) ==> !Blank(redact(s), JsSpace)
  }

  function SanitizeCause(cause: Option<string>, redact: string -> string): Option<string> {
    if cause.None? || StripBoth(cause.value, JsSpace) == "" then None
    else Some(redact(StripBoth(cause.value, JsSpace)))
  }

  predicate NoCause(cause: Option<string>) {
    cause.None? || Blank(cause.value, JsSpace)
  }

  lemma {:induction false} StripKeepsText(s: string, drop: char -> bool)
    requires !Blank(s, drop)
    ensures !Blank(StripBoth(s, drop), drop)
  {
    LeftBlank(s, drop);
    RightKeepsText(StripLeft(s, drop), drop);
  }

  lemma {:induction false} RightKeepsText(s: string, drop: char -> bool)
    requires s != "" && !drop(s[0])
    ensures !Blank(StripRight(s, drop), drop)
    decreases |s|
  {
    if drop(s[|s| - 1]) {
      RightKeepsText(s[..|s| - 1], drop);
    }
  }

  lemma CauseIsKept(cause: Option<string>, redact: string -> string)
    requires KeepsText(redact)
    ensures SanitizeCause(cause, redact).None? <==> NoCause(cause)
    ensures SanitizeCause(cause, redact).Some? ==> !Blank(SanitizeCause(cause, redact).value, JsSpace)
  {
    if cause.Some? {
      StripsToNothing(cause.value, JsSpace);
      if !Blank(cause.value, JsSpace) {
        StripKeepsText(cause.value, JsSpace);
      }
    }
  }

  // ---------------------------------------------------------------- one view

  function Duration(artifact: Option<Artifact>, project: Option<Project>): int {
    if project.Some? then project.value.durationMs
    else if artifact.Some? then artifact.value.durationMs
    else 0
  }

  /** The rules a view and the operation flow share: the verdict, and the cause before it is sanitized. */
  function Decide(artifact: Option<Artifact>, project: Option<Project>, limits: Limits): (Outcome, Option<string>) {
    if project.None? then (Missing, Some("omitted-view"))
    else match project.value.status
      case NotReported => (Missing, Some("omitted-view:missing"))
      case Skipped => (Missing, Some("omitted-view:skipped"))
      case Interrupted => (Missing, Some("omitted-view:interrupted"))
      case TimedOut => (Behavioral, Some("view-timeout"))
      case TestFailed =>
        if artifact.None? then (Infrastructure, Some("view-failed-without-artifact"))
        else if artifact.value.verdict == Passed then (Behavioral, Some("view-assertion-failed"))
        else (artifact.value.verdict,
          if artifact.value.cause.Some? then artifact.value.cause
          else Some("view-" + OutcomeName(artifact.value.verdict)))
      case TestPassed =>
        if artifact.None? then (Infrastructure, Some("view-artifact-missing"))
        else if artifact.value.verdict == Passed && Duration(artifact, project) > limits.viewMs then
          (Behavioral, Some("view-time-exceeded"))
        else (artifact.value.verdict, artifact.value.cause)
  }

  function Evaluate(artifact: Option<Artifact>, project: Option<Project>, limits: Limits,
                    redact: string -> string): Summary
  {
    var (verdict, cause) := Decide(artifact, project, limits);
    Summary(verdict, SanitizeCause(cause, redact), Duration(artifact, project))
  }

  /** The test ran and passed, and so did its artifact, inside the time limit. */
  predicate WentWell(artifact: Option<Artifact>, project: Option<Project>, limits: Limits) {
    && project.Some? && project.value.status == TestPassed
    && artifact.Some? && artifact.value.verdict == Passed
    && project.value.durationMs <= limits.viewMs
  }

  /** The artifact explains the failure, and leaves the explanation out. */
  predicate Unexplained(artifact: Option<Artifact>, project: Option<Project>) {
    && project.Some? && artifact.Some? && artifact.value.verdict != Passed
    && (project.value.status == TestPassed ==> NoCause(artifact.value.cause))
    && (project.value.status == TestFailed ==> artifact.value.cause.Some? && NoCause(artifact.value.cause))
    && (project.value.status == TestPassed || project.value.status == TestFailed)
  }

  lemma StartsWithText(s: string)
    requires s != "" && (s[0] == 'o' || s[0] == 'v')
    ensures !Blank(s, JsSpace)
  {
    assert !JsSpace(s[0]);
  }

  lemma UnexplainedExactly(artifact: Option<Artifact>, project: Option<Project>, limits: Limits)
    ensures var (verdict, cause) := Decide(artifact, project, limits);
      verdict != Passed && NoCause(cause) <==> Unexplained(artifact, project)
  {
    var (verdict, cause) := Decide(artifact, project, limits);
    if cause.Some? && cause.value != "" && (cause.value[0] == 'o' || cause.value[0] == 'v') {
      StartsWithText(cause.value);
    }
  }

  lemma PassedExactly(artifact: Option<Artifact>, project: Option<Project>, limits: Limits)
    ensures Decide(artifact, project, limits).0 == Passed <==> WentWell(artifact, project, limits)
  {
  }

  /** The texts that say nothing, by their code points: white space and line ends of ECMAScript. */
  lemma SpaceExactly(c: char)
    ensures JsSpace(c) <==>
      || 9 <= c as int <= 13 || 0x2000 <= c as int <= 0x200a
      || c as int in {32, 160, 0x1680, 0x2028, 0x2029, 0x202f, 0x205f, 0x3000, 0xfeff}
  {
  }

  // What each failing outcome comes from, in the statuses and the artifacts.

  /** The test did not run to its end. */
  predicate NeverRan(project: Option<Project>) {
    project.None? || project.value.status in {NotReported, Skipped, Interrupted}
  }

  predicate Ran(project: Option<Project>) {
    project.Some? && project.value.status in {TestPassed, TestFailed}
  }

  predicate Reports(artifact: Option<Artifact>, verdict: Outcome) {
    artifact.Some? && artifact.value.verdict == verdict
  }

  predicate InvalidRun(artifact: Option<Artifact>, project: Option<Project>) {
    NeverRan(project) || (Ran(project) && Reports(artifact, Invalid))
  }

  predicate BrokenRun(artifact: Option<Artifact>, project: Option<Project>) {
    Ran(project) && (artifact.None? || Reports(artifact, Infrastructure))
  }

  /** Out of time, failed without the artifact saying so, misbehaving by the artifact's own account, or too slow. */
  predicate Misbehaved(artifact: Option<Artifact>, project: Option<Project>, limits: Limits) {
    project.Some? &&
    var (status, duration) := (project.value.status, project.value.durationMs);
    || status == TimedOut
    || (status == TestFailed && Reports(artifact, Passed))
    || (Ran(project) && Reports(artifact, Behavioral))
    || (status == TestPassed && Reports(artifact, Passed) && duration > limits.viewMs)
  }

  lemma OutcomeExactly(artifact: Option<Artifact>, project: Option<Project>, limits: Limits)
    ensures var severity := Severity(Decide(artifact, project, limits).0);
      && (severity == INVALID <==> InvalidRun(artifact, project))
      && (severity == INFRASTRUCTURE <==> BrokenRun(artifact, project))
      && (severity == BEHAVIORAL <==> Misbehaved(artifact, project, limits))
      && (Decide(artifact, project, limits).0 == Missing <==> NeverRan(project))
  {
    if artifact.Some? {
      match artifact.value.verdict
      case Passed =>
      case Behavioral =>
      case Infrastructure =>
      case Invalid =>
    }
  }

  /** The artifact has a cause of its own, and the last word. */
  predicate Explained(artifact: Option<Artifact>, project: Option<Project>, limits: Limits) {
    artifact.Some? && artifact.value.cause.Some?
    && (artifact.value.verdict == Passed ==> WentWell(artifact, project, limits))
  }

  /** Without a test that ran to its end, the cause alone tells why. */
  lemma OmissionTells(artifact: Option<Artifact>, project: Option<Project>, limits: Limits)
    requires !Ran(project)
    ensures var cause := Decide(artifact, project, limits).1;
      && (cause == Some("omitted-view") <==> project.None?)
      && (cause == Some("omitted-view:missing") <==> Ended(project, NotReported))
      && (cause == Some("omitted-view:skipped") <==> Ended(project, Skipped))
      && (cause == Some("omitted-view:interrupted") <==> Ended(project, Interrupted))
      && (cause == Some("view-timeout") <==> Ended(project, TimedOut))
  {
    assert "omitted-view"[0] == 'o' && "view-timeout"[0] == 'v';
    assert "omitted-view:missing"[13] == 'm' && "omitted-view:skipped"[13] == 's';
  }

  /** Of a test that ran, the artifact's own cause is passed on; without one the cause tells what the two said. */
  lemma CauseTells(artifact: Option<Artifact>, project: Option<Project>, limits: Limits)
    requires Ran(project)
    ensures var cause := Decide(artifact, project, limits).1;
      if Explained(artifact, project, limits) then cause == artifact.value.cause
      else
        var failed, passed := Ended(project, TestFailed), Ended(project, TestPassed);
        && (cause == Some("view-failed-without-artifact") <==> failed && artifact.None?)
        && (cause == Some("view-artifact-missing") <==> passed && artifact.None?)
        && (cause == Some("view-assertion-failed") <==> failed && Reports(artifact, Passed))
        && (cause == Some("view-behavioral") <==> failed && Reports(artifact, Behavioral))
        && (cause == Some("view-infrastructure") <==> failed && Reports(artifact, Infrastructure))
        && (cause == Some("view-invalid") <==> failed && Reports(artifact, Invalid))
        && (cause == Some("view-time-exceeded") <==>
              passed && Reports(artifact, Passed) && project.value.durationMs > limits.viewMs)
        && (cause.None? <==> WentWell(artifact, project, limits)
                             || (passed && artifact.Some? && artifact.value.verdict != Passed))
  {
    assert "view-artifact-missing"[6] == 'r' && "view-assertion-failed"[6] == 's';
    assert "view-" + "behavioral" == "view-behavioral" && "view-" + "infrastructure" == "view-infrastructure";
    assert "view-" + "invalid" == "view-invalid";
  }

  predicate Ended(project: Option<Project>, status: TestStatus) {
    project.Some? && project.value.status == status
  }

  /** A view takes as long as its test, and only without one as long as its artifact says. */
  lemma DurationExactly(artifact: Option<Artifact>, project: Option<Project>, limits: Limits, redact: string -> string)
    ensures var duration := Evaluate(artifact, project, limits, redact).durationMs;
      && (project.Some? ==> duration == project.value.durationMs)
      && (project.None? && artifact.Some? ==> duration == artifact.value.durationMs)
      && (project.None? && artifact.None? ==> duration == 0)
  {
  }

  // ---------------------------------------------------------------- the run

  datatype RunInput = RunInput(
    artifacts: seq<Artifact>, projects: seq<Project>, totalDurationMs: int, infrastructureCause: Option<string>,
    limits: Limits, expectedViews: seq<string>, flowArtifact: Option<Artifact>, flowProject: Option<Project>)

  function FindProject(projects: seq<Project>, name: string): Option<Project> {
    if projects == [] then None
    else if projects[0].name == name then Some(projects[0])
    else FindProject(projects[1..], name)
  }

  function FindArtifact(artifacts: seq<Artifact>, view: string): Option<Artifact> {
    if artifacts == [] then None
    else if artifacts[0].view == view then Some(artifacts[0])
    else FindArtifact(artifacts[1..], view)
  }

  /** A cause that is absent or empty does not count as a failure of the setup. */
  function SetupFailure(projects: seq<Project>, infrastructureCause: Option<string>): Option<string> {
    if Truthy(infrastructureCause) then infrastructureCause
    else
      var setup := FindProject(projects, "setup");
      if setup.None? then Some("setup-missing")
      else if setup.value.status != TestPassed then Some("setup-" + StatusName(setup.value.status))
      else None
  }

  function Failure(input: RunInput, redact: string -> string): Option<string> {
    SetupFailure(input.projects, SanitizeCause(input.infrastructureCause, redact))
  }

  /** A cause from before the tests comes first; without one the setup's own status is told. A setup that was not
      reported reads like one that is not there. */
  lemma SetupTells(input: RunInput, redact: string -> string)
    requires KeepsText(redact)
    ensures var failure, setup := Failure(input, redact), FindProject(input.projects, "setup");
      if !NoCause(input.infrastructureCause) then failure == SanitizeCause(input.infrastructureCause, redact)
      else
        && (failure == Some("setup-missing") <==> setup.None? || setup.value.status == NotReported)
        && (failure == Some("setup-failed") <==> Ended(setup, TestFailed))
        && (failure == Some("setup-timedOut") <==> Ended(setup, TimedOut))
        && (failure == Some("setup-skipped") <==> Ended(setup, Skipped))
        && (failure == Some("setup-interrupted") <==> Ended(setup, Interrupted))
        && (failure.None? <==> Ended(setup, TestPassed))
  {
    CauseIsKept(input.infrastructureCause, redact);
    assert "setup-" + "missing" == "setup-missing" && "setup-" + "failed" == "setup-failed";
    assert "setup-" + "timedOut" == "setup-timedOut" && "setup-" + "skipped" == "setup-skipped";
    assert "setup-" + "interrupted" == "setup-interrupted" && "setup-missing"[6] == 'm' && "setup-skipped"[6] == 's';
    var sanitized := SanitizeCause(input.infrastructureCause, redact);
    assert sanitized.Some? ==> sanitized.value != "";
  }

  predicate SetupWentWell(input: RunInput) {
    && NoCause(input.infrastructureCause)
    && FindProject(input.projects, "setup").Some?
    && FindProject(input.projects, "setup").value.status == TestPassed
  }

  /** The first entry of that name, and none exactly when there is none. */
  lemma {:induction false} FindsTheFirst(projects: seq<Project>, artifacts: seq<Artifact>, name: string)
    ensures match FindProject(projects, name)
      case None => forall p :: p in projects ==> p.name != name
      case Some(p) => exists k :: 0 <= k < |projects| && projects[k] == p && p.name == name
                                  && forall j :: 0 <= j < k ==> projects[j].name != name
    ensures match FindArtifact(artifacts, name)
      case None => forall a :: a in artifacts ==> a.view != name
      case Some(a) => exists k :: 0 <= k < |artifacts| && artifacts[k] == a && a.view == name
                                  && forall j :: 0 <= j < k ==> artifacts[j].view != name
    decreases |projects| + |artifacts|
  {
    if projects != [] && projects[0].name != name {
      FindsTheFirst(projects[1..], [], name);
    }
    if artifacts != [] && artifacts[0].view != name {
      FindsTheFirst([], artifacts[1..], name);
    }
  }

  function ArtifactOf(input: RunInput, i: nat): Option<Artifact>
    requires i < |input.expectedViews|
  {
    FindArtifact(input.artifacts, input.expectedViews[i])
  }

  function ProjectOf(input: RunInput, i: nat): Option<Project>
    requires i < |input.expectedViews|
  {
    FindProject(input.projects, input.expectedViews[i])
  }

  function ViewOf(input: RunInput, redact: string -> string, i: nat): Summary
    requires i < |input.expectedViews|
  {
    Evaluate(ArtifactOf(input, i), ProjectOf(input, i), input.limits, redact)
  }

  predicate HasFlow(input: RunInput) {
    input.flowProject.Some? || input.flowArtifact.Some?
  }

  function FlowOf(input: RunInput, redact: string -> string): Option<Summary> {
    if HasFlow(input) then Some(Evaluate(input.flowArtifact, input.flowProject, input.limits, redact)) else None
  }

  // ---------------------------------------------------------------- the exit code

  /** How bad an outcome is: the order of the exit codes. */
  function Severity(o: Outcome): nat {
    match o
    case Passed => GREEN
    case Behavioral => BEHAVIORAL
    case Infrastructure => INFRASTRUCTURE
    case Invalid => INVALID
    case Missing => INVALID
  }

  function Worst(views: seq<Summary>): nat {
    if views == [] then GREEN
    else
      var rest, last := Worst(views[..|views| - 1]), Severity(views[|views| - 1].verdict);
      if last > rest then last else rest
  }

  /** `Worst` is the greatest severity there is. */
  lemma {:induction false} WorstIsGreatest(views: seq<Summary>)
    ensures forall k :: 0 <= k < |views| ==> Severity(views[k].verdict) <= Worst(views)
    ensures Worst(views) > 0 ==> exists k :: 0 <= k < |views| && Severity(views[k].verdict) == Worst(views)
    ensures Worst(views) <= INVALID
  {
    if views != [] {
      WorstIsGreatest(views[..|views| - 1]);
    }
  }

  function FlowSeverity(flow: Option<Summary>): nat {
    if flow.None? then GREEN else Severity(flow.value.verdict)
  }

  /** The setup first; then the worst view; the flow only when every view passed; the time only after it. */
  function ExitCode(failed: bool, views: seq<Summary>, flow: Option<Summary>, late: bool): nat {
    if failed then INFRASTRUCTURE
    else if Worst(views) > GREEN then Worst(views)
    else if FlowSeverity(flow) > GREEN then FlowSeverity(flow)
    else if late then BEHAVIORAL
    else GREEN
  }

  // ---------------------------------------------------------------- the reasons

  function Join(s: seq<string>): string {
    if s == [] then "" else if |s| == 1 then s[0] else Join(s[..|s| - 1]) + "; " + s[|s| - 1]
  }

  /** From the front: a semicolon and a space between any two. */
  lemma {:induction false} JoinFromTheFront(s: seq<string>)
    requires |s| > 0
    ensures Join(s) == if |s| == 1 then s[0] else s[0] + "; " + Join(s[1..])
  {
    var n := |s| - 1;
    if n > 0 {
      JoinFromTheFront(s[..n]);
      if n > 1 {
        assert s[1..][..n - 1] == s[..n][1..];
      }
    }
  }

  lemma {:induction false} BlankJoin(s: seq<string>)
    ensures Blank(Join(s), JsSpace) <==> s == [] || (|s| == 1 && Blank(s[0], JsSpace))
  {
    if |s| > 1 {
      var front := Join(s[..|s| - 1]);
      assert Join(s)[|front|] == ';' && !JsSpace(';');
    }
  }

  /** The truth value of a nullable text: an empty one is false. */
  predicate Truthy(s: Option<string>) {
    s.Some? && s.value != ""
  }

  predicate Reported(s: Summary) {
    s.verdict != Passed && Truthy(s.cause)
  }

  method MissingViews(input: RunInput, views: seq<Summary>) returns (missing: seq<string>)
    requires |views| == |input.expectedViews|
    ensures missing == [] <==> forall k :: 0 <= k < |views| ==> views[k].verdict != Missing
    ensures forall x :: x in missing <==>
      exists k :: 0 <= k < |views| && views[k].verdict == Missing && input.expectedViews[k] == x
  {
    missing := [];
    for i := 0 to |views|
      invariant missing == [] <==> forall k :: 0 <= k < i ==> views[k].verdict != Missing
      invariant forall x :: x in missing <==>
        exists k :: 0 <= k < i && views[k].verdict == Missing && input.expectedViews[k] == x
    {
      if views[i].verdict == Missing {
        missing := missing + [input.expectedViews[i]];
      }
    }
  }

  function ViewReasons(names: seq<string>, views: seq<Summary>): seq<string>
    requires |names| == |views|
  {
    if |views| == 0 then []
    else
      var n := |views| - 1;
      ViewReasons(names[..n], views[..n]) +
      if Reported(views[n]) then [names[n] + ": " + views[n].cause.value] else []
  }

  /** The failure of the setup alone; or what the views that did not pass say, and then the flow. */
  function ReasonsOf(failure: Option<string>, names: seq<string>, views: seq<Summary>, flow: Option<Summary>): seq<string>
    requires |names| == |views|
  {
    if Truthy(failure) then [failure.value]
    else
      ViewReasons(names, views) +
      if flow.Some? && Reported(flow.value) then ["operation-flow: " + flow.value.cause.value] else []
  }

  lemma {:induction false} ViewReasonsSpeak(names: seq<string>, views: seq<Summary>)
    requires |names| == |views|
    ensures forall r :: r in ViewReasons(names, views) ==> ':' in r
    ensures ViewReasons(names, views) == [] <==> forall k :: 0 <= k < |views| ==> !Reported(views[k])
  {
    if |views| > 0 {
      var n := |views| - 1;
      ViewReasonsSpeak(names[..n], views[..n]);
      assert (names[n] + ": ")[|names[n]|] == ':';
    }
  }

  lemma ReasonsSpeak(failure: Option<string>, names: seq<string>, views: seq<Summary>, flow: Option<Summary>)
    requires |names| == |views|
    ensures !Truthy(failure) ==> forall r :: r in ReasonsOf(failure, names, views, flow) ==> ':' in r
    ensures !Truthy(failure) ==> (ReasonsOf(failure, names, views, flow) == [] <==> Quiet(views, flow))
  {
    ViewReasonsSpeak(names, views);
    assert "operation-flow: "[14] == ':';
  }

  lemma {:induction false} ViewReasonsExactly(names: seq<string>, views: seq<Summary>, r: string)
    requires |names| == |views|
    ensures r in ViewReasons(names, views) <==>
      exists k :: 0 <= k < |views| && Reported(views[k]) && r == names[k] + ": " + views[k].cause.value
  {
    if |views| > 0 {
      ViewReasonsExactly(names[..|views| - 1], views[..|views| - 1], r);
    }
  }

  /** A failure of the setup is the only reason. Without one, whoever did not pass and has a cause gives it under its
      name, and nobody else says anything. */
  lemma ReasonsExactly(
    failure: Option<string>, names: seq<string>, views: seq<Summary>, flow: Option<Summary>, r: string)
    requires |names| == |views|
    ensures r in ReasonsOf(failure, names, views, flow) <==>
      if Truthy(failure) then r == failure.value
      else
        || (exists k :: 0 <= k < |views| && Reported(views[k]) && r == names[k] + ": " + views[k].cause.value)
        || (flow.Some? && Reported(flow.value) && r == "operation-flow: " + flow.value.cause.value)
  {
    ViewReasonsExactly(names, views, r);
  }

  method Reasons(input: RunInput, failure: Option<string>, views: seq<Summary>, flow: Option<Summary>)
    returns (reasons: seq<string>)
    requires |views| == |input.expectedViews|
    ensures reasons == ReasonsOf(failure, input.expectedViews, views, flow)
  {
    reasons := [];
    var names := input.expectedViews;
    if Truthy(failure) {
      reasons := reasons + [failure.value];
    }
    for i := 0 to |views|
      invariant reasons == if Truthy(failure) then [failure.value] else ViewReasons(names[..i], views[..i])
    {
      assert names[..i + 1][..i] == names[..i] && views[..i + 1][..i] == views[..i];
      if !Truthy(failure) && Reported(views[i]) {
        reasons := reasons + [names[i] + ": " + views[i].cause.value];
      }
    }
    assert names[..|views|] == names && views[..|views|] == views;
    if !Truthy(failure) && flow.Some? && Reported(flow.value) {
      reasons := reasons + ["operation-flow: " + flow.value.cause.value];
    }
  }

  predicate Quiet(views: seq<Summary>, flow: Option<Summary>) {
    (forall k :: 0 <= k < |views| ==> !Reported(views[k])) && (flow.Some? ==> !Reported(flow.value))
  }

  predicate AllPassed(views: seq<Summary>, flow: Option<Summary>) {
    (forall k :: 0 <= k < |views| ==> views[k].verdict == Passed) && (flow.Some? ==> flow.value.verdict == Passed)
  }

  method Decided(input: RunInput, failed: bool, views: seq<Summary>, flow: Option<Summary>, missing: seq<string>)
    returns (exitCode: nat, late: bool)
    requires missing == [] <==> forall k :: 0 <= k < |views| ==> views[k].verdict != Missing
    ensures exitCode == ExitCode(failed, views, flow, input.totalDurationMs > input.limits.runMs)
    ensures late <==> !failed && AllPassed(views, flow) && exitCode != GREEN
    ensures exitCode == GREEN ==> !failed && AllPassed(views, flow)
  {
    WorstIsGreatest(views);
    late := false;
    if failed {
      exitCode := INFRASTRUCTURE;
    } else if |missing| > 0 {
      exitCode := INVALID;
    } else if exists k :: 0 <= k < |views| && views[k].verdict == Invalid {
      exitCode := INVALID;
    } else if exists k :: 0 <= k < |views| && views[k].verdict == Infrastructure {
      exitCode := INFRASTRUCTURE;
    } else if exists k :: 0 <= k < |views| && views[k].verdict == Behavioral {
      exitCode := BEHAVIORAL;
    } else if flow.Some? && (flow.value.verdict == Invalid || flow.value.verdict == Missing) {
      exitCode := INVALID;
    } else if flow.Some? && flow.value.verdict == Infrastructure {
      exitCode := INFRASTRUCTURE;
    } else if flow.Some? && flow.value.verdict == Behavioral {
      exitCode := BEHAVIORAL;
    } else if input.totalDurationMs > input.limits.runMs {
      exitCode := BEHAVIORAL;
      late := true;
    } else {
      exitCode := GREEN;
    }
  }

  /** What the cause of a run that is not green comes to. */
  lemma JoinedCause(reasons: seq<string>, redact: string -> string)
    requires KeepsText(redact)
    requires forall r :: r in reasons ==> !Blank(r, JsSpace)
    ensures SanitizeCause(Some(Join(Distinct(reasons))), redact).None? <==> reasons == []
  {
    CauseIsKept(Some(Join(Distinct(reasons))), redact);
    BlankJoin(Distinct(reasons));
    assert Distinct(reasons) != [] ==> Distinct(reasons)[0] in reasons;
    assert reasons != [] ==> reasons[0] in Distinct(reasons);
  }

  /** No failure of the setup, something that did not pass, and nothing that says why. */
  predicate Unspoken(failed: bool, views: seq<Summary>, flow: Option<Summary>) {
    !failed && !AllPassed(views, flow) && Quiet(views, flow)
  }

  function Views(input: RunInput, redact: string -> string): seq<Summary> {
    seq(|input.expectedViews|, i requires 0 <= i < |input.expectedViews| => ViewOf(input, redact, i))
  }

  function Code(input: RunInput, redact: string -> string): nat {
    ExitCode(Failure(input, redact).Some?, Views(input, redact), FlowOf(input, redact),
      input.totalDurationMs > input.limits.runMs)
  }

  predicate Late(input: RunInput, views: seq<Summary>, flow: Option<Summary>, failed: bool) {
    !failed && AllPassed(views, flow) && input.totalDurationMs > input.limits.runMs
  }

  function RunReasons(input: RunInput, failure: Option<string>, views: seq<Summary>, flow: Option<Summary>): seq<string>
    requires |input.expectedViews| == |views|
  {
    ReasonsOf(failure, input.expectedViews, views, flow)
    + if Late(input, views, flow, failure.Some?) then ["run-time-exceeded"] else []
  }

  lemma RunReasonsSpeak(input: RunInput, failure: Option<string>, views: seq<Summary>, flow: Option<Summary>)
    requires |input.expectedViews| == |views|
    requires failure.Some? ==> failure.value != "" && !Blank(failure.value, JsSpace)
    ensures forall r :: r in RunReasons(input, failure, views, flow) ==> !Blank(r, JsSpace)
    ensures failure.None? ==> (RunReasons(input, failure, views, flow) == [] <==>
      Quiet(views, flow) && !Late(input, views, flow, false))
  {
    ReasonsSpeak(failure, input.expectedViews, views, flow);
    assert "run-time-exceeded"[0] == 'r' && !JsSpace('r') && !JsSpace(':');
  }

  method Conclude(input: RunInput, redact: string -> string, failure: Option<string>, views: seq<Summary>,
                  flow: Option<Summary>, missing: seq<string>)
    returns (exitCode: nat, reasons: seq<string>, cause: Option<string>)
    requires KeepsText(redact) && |input.expectedViews| == |views|
    requires failure.Some? ==> failure.value != "" && !Blank(failure.value, JsSpace)
    requires missing == [] <==> forall k :: 0 <= k < |views| ==> views[k].verdict != Missing
    ensures exitCode == ExitCode(failure.Some?, views, flow, input.totalDurationMs > input.limits.runMs)
    ensures reasons == Distinct(RunReasons(input, failure, views, flow))
    ensures cause == if exitCode == GREEN then None else SanitizeCause(Some(Join(reasons)), redact)
    ensures cause.None? <==> exitCode == GREEN || Unspoken(failure.Some?, views, flow)
  {
    var pushed := Reasons(input, failure, views, flow);
    var late;
    exitCode, late := Decided(input, Truthy(failure), views, flow, missing);
    LateWhen(input, views, flow, failure.Some?, exitCode);
    if late {
      pushed := pushed + ["run-time-exceeded"];
    }
    assert pushed == RunReasons(input, failure, views, flow);
    RunReasonsSpeak(input, failure, views, flow);
    JoinedCause(pushed, redact);
    reasons := Distinct(pushed);
    cause := if exitCode == GREEN then None else SanitizeCause(Some(Join(reasons)), redact);
  }

  method BuildRunSummary(input: RunInput, redact: string -> string) returns (s: RunSummary)
    requires KeepsText(redact)
    ensures s.views == Views(input, redact) && s.operationFlow == FlowOf(input, redact)
    ensures s.exitCode == Code(input, redact)
    ensures s.reasons == Distinct(RunReasons(input, Failure(input, redact), s.views, s.operationFlow))
    ensures s.cause == if s.exitCode == GREEN then None else SanitizeCause(Some(Join(s.reasons)), redact)
    ensures s.cause.None? <==>
      s.exitCode == GREEN || Unspoken(Failure(input, redact).Some?, s.views, s.operationFlow)
    ensures forall x :: x in s.missing <==>
      exists k :: 0 <= k < |s.views| && s.views[k].verdict == Missing && input.expectedViews[k] == x
  {
    var infrastructure := SetupFailure(input.projects, SanitizeCause(input.infrastructureCause, redact));
    FailureIsText(input, redact);
    var views := [];
    for i := 0 to |input.expectedViews|
      invariant |views| == i && forall k :: 0 <= k < i ==> views[k] == ViewOf(input, redact, k)
    {
      views := views + [ViewOf(input, redact, i)];
    }
    assert views == Views(input, redact);
    var flow := FlowOf(input, redact);
    var missing := MissingViews(input, views);
    var exitCode, reasons, cause := Conclude(input, redact, infrastructure, views, flow, missing);
    s := RunSummary(exitCode, cause, reasons, views, missing, flow);
  }

  lemma LateWhen(input: RunInput, views: seq<Summary>, flow: Option<Summary>, failed: bool, exitCode: nat)
    requires exitCode == ExitCode(failed, views, flow, input.totalDurationMs > input.limits.runMs)
    ensures Late(input, views, flow, failed) <==> !failed && AllPassed(views, flow) && exitCode != GREEN
  {
    WorstIsGreatest(views);
    assert AllPassed(views, flow) ==> forall k :: 0 <= k < |views| ==> Severity(views[k].verdict) == GREEN;
  }

  lemma FailureIsText(input: RunInput, redact: string -> string)
    requires KeepsText(redact)
    ensures var f := Failure(input, redact);
      && (f.Some? ==> f.value != "" && !Blank(f.value, JsSpace))
      && (f.None? <==> SetupWentWell(input))
  {
    CauseIsKept(input.infrastructureCause, redact);
    var f := Failure(input, redact);
    assert f.Some? && f.value != "" && f.value[0] == 's' ==> !JsSpace(f.value[0]);
  }

  // ---------------------------------------------------------------- what the code means

  predicate ViewWentWell(input: RunInput, i: nat)
    requires i < |input.expectedViews|
  {
    WentWell(ArtifactOf(input, i), ProjectOf(input, i), input.limits)
  }

  predicate EverythingWentWell(input: RunInput) {
    && SetupWentWell(input)
    && (forall i :: 0 <= i < |input.expectedViews| ==> ViewWentWell(input, i))
    && (HasFlow(input) ==> WentWell(input.flowArtifact, input.flowProject, input.limits))
    && input.totalDurationMs <= input.limits.runMs
  }

  lemma AllPassedExactly(input: RunInput, redact: string -> string)
    ensures AllPassed(Views(input, redact), FlowOf(input, redact)) <==>
      (forall i :: 0 <= i < |input.expectedViews| ==> ViewWentWell(input, i))
      && (HasFlow(input) ==> WentWell(input.flowArtifact, input.flowProject, input.limits))
  {
    var views := Views(input, redact);
    forall i | 0 <= i < |views| ensures views[i].verdict == Passed <==> ViewWentWell(input, i) {
      PassedExactly(ArtifactOf(input, i), ProjectOf(input, i), input.limits);
    }
    PassedExactly(input.flowArtifact, input.flowProject, input.limits);
    if forall i :: 0 <= i < |input.expectedViews| ==> ViewWentWell(input, i) {
      forall i | 0 <= i < |views| ensures views[i].verdict == Passed {
        assert ViewWentWell(input, i);
      }
    }
  }

  /** Exit code 0 exactly when the setup, every expected view, the flow if there is one, and the clock all
      went well. */
  lemma GreenExactly(input: RunInput, redact: string -> string)
    requires KeepsText(redact)
    ensures Code(input, redact) == GREEN <==> EverythingWentWell(input)
  {
    FailureIsText(input, redact);
    AllPassedExactly(input, redact);
    var views := Views(input, redact);
    WorstIsGreatest(views);
    assert Worst(views) == GREEN <==> forall k :: 0 <= k < |views| ==> views[k].verdict == Passed;
  }

  /** Without a failure of the setup, one bad view outweighs the flow and the clock, and a worse view outweighs
      a better one. */
  lemma WorstViewDecides(input: RunInput, redact: string -> string, i: nat)
    requires KeepsText(redact) && SetupWentWell(input)
    requires i < |input.expectedViews| && !ViewWentWell(input, i)
    requires forall k :: 0 <= k < |input.expectedViews| ==>
      Severity(ViewOf(input, redact, k).verdict) <= Severity(ViewOf(input, redact, i).verdict)
    ensures Code(input, redact) == Severity(ViewOf(input, redact, i).verdict) > GREEN
  {
    FailureIsText(input, redact);
    var views := Views(input, redact);
    PassedExactly(ArtifactOf(input, i), ProjectOf(input, i), input.limits);
    WorstIsGreatest(views);
    assert views[i] == ViewOf(input, redact, i);
    var k :| 0 <= k < |views| && Severity(views[k].verdict) == Worst(views);
    assert views[k] == ViewOf(input, redact, k);
  }

  predicate SomeViewInvalid(input: RunInput) {
    exists i :: 0 <= i < |input.expectedViews| && InvalidRun(ArtifactOf(input, i), ProjectOf(input, i))
  }

  predicate SomeViewBroken(input: RunInput) {
    exists i :: 0 <= i < |input.expectedViews| && BrokenRun(ArtifactOf(input, i), ProjectOf(input, i))
  }

  predicate SomeViewMisbehaved(input: RunInput) {
    exists i :: 0 <= i < |input.expectedViews| && Misbehaved(ArtifactOf(input, i), ProjectOf(input, i), input.limits)
  }

  predicate EveryViewWentWell(input: RunInput) {
    forall i :: 0 <= i < |input.expectedViews| ==> ViewWentWell(input, i)
  }

  /** The worst view is invalid, broken or misbehaving exactly when some view is, and none is worse. */
  lemma WorstExactly(input: RunInput, redact: string -> string)
    ensures var worst := Worst(Views(input, redact));
      && (worst == INVALID <==> SomeViewInvalid(input))
      && (worst == INFRASTRUCTURE <==> !SomeViewInvalid(input) && SomeViewBroken(input))
      && (worst == BEHAVIORAL <==> !SomeViewInvalid(input) && !SomeViewBroken(input) && SomeViewMisbehaved(input))
      && (worst == GREEN <==> EveryViewWentWell(input))
  {
    var views := Views(input, redact);
    WorstIsGreatest(views);
    forall i | 0 <= i < |views|
      ensures var severity := Severity(views[i].verdict);
        && (severity == INVALID <==> InvalidRun(ArtifactOf(input, i), ProjectOf(input, i)))
        && (severity == INFRASTRUCTURE <==> BrokenRun(ArtifactOf(input, i), ProjectOf(input, i)))
        && (severity == BEHAVIORAL <==> Misbehaved(ArtifactOf(input, i), ProjectOf(input, i), input.limits))
        && (severity == GREEN <==> ViewWentWell(input, i))
    {
      OutcomeExactly(ArtifactOf(input, i), ProjectOf(input, i), input.limits);
      PassedExactly(ArtifactOf(input, i), ProjectOf(input, i), input.limits);
    }
  }

  /** Each failing exit code, from the statuses of the tests, the verdicts of the artifacts and the durations alone.
      The flow counts only when every view went well, and the clock only when the flow did too. */
  lemma CodeExactly(input: RunInput, redact: string -> string)
    requires KeepsText(redact)
    ensures !SetupWentWell(input) ==> Code(input, redact) == 2
    ensures var (well, artifact, project) := (EveryViewWentWell(input), input.flowArtifact, input.flowProject);
      var flow := artifact.Some? || project.Some?;
      SetupWentWell(input) ==>
        && (Code(input, redact) == 3 <==>
             || SomeViewInvalid(input)
             || (well && flow && InvalidRun(artifact, project)))
        && (Code(input, redact) == 2 <==>
             || (!SomeViewInvalid(input) && SomeViewBroken(input))
             || (well && flow && BrokenRun(artifact, project)))
        && (Code(input, redact) == 1 <==>
             || (!SomeViewInvalid(input) && !SomeViewBroken(input) && SomeViewMisbehaved(input))
             || (well && flow && Misbehaved(artifact, project, input.limits))
             || (well && (flow ==> WentWell(artifact, project, input.limits))
                 && input.totalDurationMs > input.limits.runMs))
  {
    FailureIsText(input, redact);
    WorstExactly(input, redact);
    OutcomeExactly(input.flowArtifact, input.flowProject, input.limits);
    PassedExactly(input.flowArtifact, input.flowProject, input.limits);
  }

  /** Everything that did not pass left its explanation out. */
  predicate NobodyExplains(input: RunInput) {
    && (forall i :: 0 <= i < |input.expectedViews| ==>
          ViewWentWell(input, i) || Unexplained(ArtifactOf(input, i), ProjectOf(input, i)))
    && (HasFlow(input) ==> WentWell(input.flowArtifact, input.flowProject, input.limits)
                           || Unexplained(input.flowArtifact, input.flowProject))
  }

  predicate SomethingDidNotPass(input: RunInput) {
    || (exists i :: 0 <= i < |input.expectedViews| && !ViewWentWell(input, i))
    || (HasFlow(input) && !WentWell(input.flowArtifact, input.flowProject, input.limits))
  }

  lemma ReportedExactly(artifact: Option<Artifact>, project: Option<Project>, limits: Limits, redact: string -> string)
    requires KeepsText(redact)
    ensures Reported(Evaluate(artifact, project, limits, redact)) <==>
      !WentWell(artifact, project, limits) && !Unexplained(artifact, project)
  {
    var (verdict, cause) := Decide(artifact, project, limits);
    PassedExactly(artifact, project, limits);
    UnexplainedExactly(artifact, project, limits);
    CauseIsKept(cause, redact);
  }

  /** A run that is not green is left without a cause exactly when its setup was fine and every artifact that
      did not pass kept silent about it. */
  lemma UnspokenExactly(input: RunInput, redact: string -> string)
    requires KeepsText(redact)
    ensures Unspoken(Failure(input, redact).Some?, Views(input, redact), FlowOf(input, redact)) <==>
      SetupWentWell(input) && SomethingDidNotPass(input) && NobodyExplains(input)
  {
    FailureIsText(input, redact);
    AllPassedExactly(input, redact);
    var views := Views(input, redact);
    forall i | 0 <= i < |views|
      ensures Reported(views[i]) <==>
        !ViewWentWell(input, i) && !Unexplained(ArtifactOf(input, i), ProjectOf(input, i))
    {
      ReportedExactly(ArtifactOf(input, i), ProjectOf(input, i), input.limits, redact);
    }
    ReportedExactly(input.flowArtifact, input.flowProject, input.limits, redact);
  }

  /** A view whose test passes, while its artifact says behavioral and does not say why: the run fails and its
      summary has no cause. */
  lemma SilentArtifactLeavesNoCause(name: string, limits: Limits, redact: string -> string) returns (input: RunInput)
    requires KeepsText(redact) && name != "setup"
    ensures SetupWentWell(input) && input.expectedViews == [name]
    ensures Code(input, redact) == BEHAVIORAL
    ensures Unspoken(Failure(input, redact).Some?, Views(input, redact), FlowOf(input, redact))
  {
    var setup, view := Project("setup", TestPassed, 0), Project(name, TestPassed, 0);
    input := RunInput([Artifact(name, Behavioral, None, 0)], [setup, view], 0, None, limits, [name], None, None);
    assert input.projects[1..] == [view];
    assert input.expectedViews[0] == name && input.artifacts[0].view == name;
    assert FindProject([view], name) == Some(view);
    assert FindProject(input.projects, name) == FindProject(input.projects[1..], name);
    assert ProjectOf(input, 0) == Some(view) && ArtifactOf(input, 0) == Some(input.artifacts[0]);
    WorstViewDecides(input, redact, 0);
    UnspokenExactly(input, redact);
    assert !ViewWentWell(input, 0);
  }
}
