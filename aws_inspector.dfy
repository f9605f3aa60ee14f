/** The assessment lifecycle (lib/aws_inspector.rb): an `Inspector` resolves
    the rule packages to run, creates a resource group, a target and a
    template, starts a run, waits for it under a time budget, and reports the
    findings, each step storing the handle the next one consumes. Time is an
    abstract counter: a status check takes no time, a sleep between checks
    takes `PollInterval` units. */
module AwsInspector {
  import opened Wrappers
  import opened RubyCollections
  import opened InspectorService

  const NamePrefix: string := "joshp-"
  const AssessmentDuration: nat := 60
  /** Time allowed on top of the assessment duration before waiting gives up. */
  const SafetyMargin: nat := 180
  const PollInterval: nat := 5
  const HexDigits: string := "0123456789abcdef"

  // ---------------------------------------------------------------------
  // Resource names

  /** What `SecureRandom.hex(5)` yields: ten lower-case hex digits. */
  predicate IsHexSuffix(s: string)
  {
    |s| == 10 && forall i :: 0 <= i < |s| ==> s[i] in HexDigits
  }

  function RunName(suffix: string): string
  {
    NamePrefix + suffix
  }

  function TargetName(name: string): string
  {
    name + "-assessment-target"
  }

  function TemplateName(name: string): string
  {
    name + "-assessment-template"
  }

  /** The run name is `joshp-` and ten hex digits; the target and template
      names extend it and differ from each other; distinct suffixes give
      distinct names. */
  lemma ResourceNames(suffix: string, other: string)
    requires IsHexSuffix(suffix) && IsHexSuffix(other)
    ensures |RunName(suffix)| == 16 && RunName(suffix)[..6] == "joshp-"
    ensures forall i :: 6 <= i < 16 ==> RunName(suffix)[i] in HexDigits
    ensures RunName(suffix) <= TargetName(RunName(suffix)) && RunName(suffix) <= TemplateName(RunName(suffix))
    ensures TargetName(RunName(suffix)) != TemplateName(RunName(suffix))
    ensures suffix != other ==> RunName(suffix) != RunName(other)
  {
    if RunName(suffix) == RunName(other) {
      assert suffix == RunName(suffix)[6..] == RunName(other)[6..] == other;
    }
  }

  // ---------------------------------------------------------------------
  // retrieve_rule_arns

  /** `rule_packages.map { |rule| rule.arn if @rules_to_run.include?(rule.name) }` */
  function MarkSelected(packages: seq<RulePackage>, rulesToRun: seq<string>): seq<Option<string>>
  {
    seq(|packages|, i requires 0 <= i < |packages| =>
      if packages[i].name in rulesToRun then Some(packages[i].arn) else None)
  }

  /** `... .compact`: the ARNs of the selected packages. */
  function SelectRuleArns(packages: seq<RulePackage>, rulesToRun: seq<string>): seq<string>
  {
    Compact(MarkSelected(packages, rulesToRun))
  }

  /** An ARN is selected iff some listed package with that ARN has a name
      among the rules to run. */
  lemma SelectRuleArnsMembers(packages: seq<RulePackage>, rulesToRun: seq<string>, arn: string)
    ensures arn in SelectRuleArns(packages, rulesToRun) <==>
            exists i :: 0 <= i < |packages| && packages[i].name in rulesToRun && packages[i].arn == arn
  {
    var marks := MarkSelected(packages, rulesToRun);
    CompactMembers(marks, arn);
    if Some(arn) in marks {
      var i :| 0 <= i < |marks| && marks[i] == Some(arn);
      assert packages[i].name in rulesToRun && packages[i].arn == arn;
    }
    if exists i :: 0 <= i < |packages| && packages[i].name in rulesToRun && packages[i].arn == arn {
      var i :| 0 <= i < |packages| && packages[i].name in rulesToRun && packages[i].arn == arn;
      assert marks[i] == Some(arn);
    }
  }

  /** Selection keeps the service's order: selecting from a concatenation is
      the concatenation of the selections. */
  lemma SelectRuleArnsAppend(p1: seq<RulePackage>, p2: seq<RulePackage>, rulesToRun: seq<string>)
    ensures SelectRuleArns(p1 + p2, rulesToRun) == SelectRuleArns(p1, rulesToRun) + SelectRuleArns(p2, rulesToRun)
  {
    assert MarkSelected(p1 + p2, rulesToRun) == MarkSelected(p1, rulesToRun) + MarkSelected(p2, rulesToRun);
    CompactAppend(MarkSelected(p1, rulesToRun), MarkSelected(p2, rulesToRun));
  }

  /** One package contributes its ARN exactly when its name is selected. */
  lemma SelectRuleArnsSingle(p: RulePackage, rulesToRun: seq<string>)
    ensures SelectRuleArns([p], rulesToRun) == if p.name in rulesToRun then [p.arn] else []
  {
    var marks := MarkSelected([p], rulesToRun);
    assert marks[1..] == [];
    assert Compact(marks) == (if marks[0].Some? then [marks[0].value] else []) + Compact(marks[1..]);
  }

  // ---------------------------------------------------------------------
  // wait_for_assessment_run / assessment_completed?

  /** How waiting ended: whether `COMPLETED` was seen, how many status
      checks were made, and the time when waiting stopped. */
  datatype WaitResult = WaitResult(completed: bool, polls: nat, elapsed: nat)

  /** Checks the run's state at `elapsed`, `elapsed + 5`, ... while the time
      is under `budget`, stopping at the first `COMPLETED`; `k` is the index of
      the next status query. When the budget runs out, the timer interrupts
      the sleep in progress, so waiting stops at the budget itself. */
  function Poll(feed: StatusFeed, k: nat, elapsed: nat, budget: nat): WaitResult
    decreases budget - elapsed
  {
    if elapsed >= budget then WaitResult(false, 0, budget)
    else if feed.At(k) == Completed then WaitResult(true, 1, elapsed)
    else
      var rest := Poll(feed, k + 1, elapsed + PollInterval, budget);
      WaitResult(rest.completed, rest.polls + 1, rest.elapsed)
  }

  /** Waiting ends in completion iff one of the checks made within the budget
      sees `COMPLETED`. */
  lemma {:induction false} PollCompletedIff(feed: StatusFeed, k: nat, elapsed: nat, budget: nat)
    ensures Poll(feed, k, elapsed, budget).completed <==>
            exists i: nat :: elapsed + PollInterval * i < budget && feed.At(k + i) == Completed
    decreases budget - elapsed
  {
    if elapsed >= budget {
    } else if feed.At(k) == Completed {
      assert elapsed + PollInterval * 0 < budget && feed.At(k + 0) == Completed;
    } else {
      PollCompletedIff(feed, k + 1, elapsed + PollInterval, budget);
      if exists i: nat :: elapsed + PollInterval * i < budget && feed.At(k + i) == Completed {
        var i: nat :| elapsed + PollInterval * i < budget && feed.At(k + i) == Completed;
        assert i != 0;
        assert elapsed + PollInterval + PollInterval * (i - 1) < budget && feed.At(k + 1 + (i - 1)) == Completed;
      }
      if exists i: nat :: elapsed + PollInterval + PollInterval * i < budget && feed.At(k + 1 + i) == Completed {
        var i: nat :| elapsed + PollInterval + PollInterval * i < budget && feed.At(k + 1 + i) == Completed;
        assert elapsed + PollInterval * (i + 1) < budget && feed.At(k + (i + 1)) == Completed;
      }
    }
  }

  /** Completion is reported at the first check that sees `COMPLETED`, within
      the budget, and every earlier check saw another state. */
  lemma {:induction false} PollStopsAtFirstCompletion(feed: StatusFeed, k: nat, elapsed: nat, budget: nat)
    requires Poll(feed, k, elapsed, budget).completed
    ensures var w := Poll(feed, k, elapsed, budget);
            && w.polls >= 1
            && feed.At(k + w.polls - 1) == Completed
            && (forall j :: k <= j < k + w.polls - 1 ==> feed.At(j) != Completed)
            && w.elapsed == elapsed + PollInterval * (w.polls - 1) < budget
    decreases budget - elapsed
  {
    if feed.At(k) != Completed {
      PollStopsAtFirstCompletion(feed, k + 1, elapsed + PollInterval, budget);
      var w := Poll(feed, k + 1, elapsed + PollInterval, budget);
      assert forall j :: k + 1 <= j < k + 1 + w.polls - 1 ==> feed.At(j) != Completed;
    }
  }

  /** Giving up happens exactly when the budget is spent, after one check per
      poll interval started before it, none of which saw `COMPLETED`. */
  lemma {:induction false} PollTimesOut(feed: StatusFeed, k: nat, elapsed: nat, budget: nat)
    requires !Poll(feed, k, elapsed, budget).completed
    ensures var w := Poll(feed, k, elapsed, budget);
            && w.elapsed == budget
            && (elapsed >= budget ==> w.polls == 0)
            && (elapsed < budget ==>
                  w.polls >= 1 && elapsed + PollInterval * (w.polls - 1) < budget <= elapsed + PollInterval * w.polls)
            && (forall j :: k <= j < k + w.polls ==> feed.At(j) != Completed)
    decreases budget - elapsed
  {
    if elapsed < budget {
      PollTimesOut(feed, k + 1, elapsed + PollInterval, budget);
      var w := Poll(feed, k + 1, elapsed + PollInterval, budget);
      assert forall j :: k + 1 <= j < k + 1 + w.polls ==> feed.At(j) != Completed;
    }
  }

  /** Waiting never lasts past the budget. */
  lemma PollBounded(feed: StatusFeed, k: nat, budget: nat)
    ensures Poll(feed, k, 0, budget).elapsed <= budget
  {
    if Poll(feed, k, 0, budget).completed {
      PollStopsAtFirstCompletion(feed, k, 0, budget);
    } else {
      PollTimesOut(feed, k, 0, budget);
    }
  }

  /** A run that reports `COMPLETED` at the fourth check is seen at time 15,
      well inside the budget of 240. */
  lemma PollCompletesEarly()
    ensures Poll(StatusFeed(["IN_PROGRESS", "IN_PROGRESS", "IN_PROGRESS"], Completed), 0, 0,
                 AssessmentDuration + SafetyMargin) == WaitResult(true, 4, 15)
  {
    var feed := StatusFeed(["IN_PROGRESS", "IN_PROGRESS", "IN_PROGRESS"], Completed);
    assert Poll(feed, 3, 15, 240) == WaitResult(true, 1, 15);
    assert Poll(feed, 2, 10, 240) == WaitResult(true, 2, 15);
    assert Poll(feed, 1, 5, 240) == WaitResult(true, 3, 15);
  }

  /** A run that never completes is given up on at time 240 after 48 checks. */
  lemma PollNeverCompletes(state: string)
    requires state != Completed
    ensures Poll(StatusFeed([], state), 0, 0, AssessmentDuration + SafetyMargin) == WaitResult(false, 48, 240)
  {
    var feed, budget := StatusFeed([], state), AssessmentDuration + SafetyMargin;
    PollCompletedIff(feed, 0, 0, budget);
    PollTimesOut(feed, 0, 0, budget);
  }

  /** The timer cuts a sleep short: with a budget of 7 and a run that never
      completes, the checks at 0 and 5 fail and waiting stops at 7, not 10. */
  lemma PollTimeoutInterruptsSleep(state: string)
    requires state != Completed
    ensures Poll(StatusFeed([], state), 0, 0, 7) == WaitResult(false, 2, 7)
  {
    assert Poll(StatusFeed([], state), 1, 5, 7) == WaitResult(false, 1, 7);
  }

  // ---------------------------------------------------------------------
  // cleanup_resources: the guard at line 27

  /** What evaluating a cleanup guard does: the status query it makes, if
      any, and then either whether it enters the (commented-out) stop branch
      or the error the query raised out of `cleanup_resources`. */
  datatype GuardEval = GuardEval(query: Option<Call>, stop: Result<bool, ServiceError>)

  /** Whether the guard enters the stop branch once the query, if it was made,
      answered `answer`; a rejected query raises and decides nothing. */
  function StopUnless(answer: Result<string, ServiceError>, skip: string -> bool): Result<bool, ServiceError>
  {
    match answer
    case Err(e) => Err(e)
    case Ok(state) => Ok(!skip(state))
  }

  /** `unless @assessment_run_arn.nil? && assessment_completed?` as written,
      when the service would answer the status query from `feed` at its
      `polls`-th query: `&&` asks for the status only when there is no run,
      and with a run the stop branch is entered without asking. */
  function CleanupGuardAsWritten(runArn: Option<Handle>, feed: StatusFeed, polls: nat): GuardEval
  {
    if runArn.Some? then GuardEval(None, Ok(true))
    else GuardEval(Some(DescribeAssessmentRun(runArn)),
                   StopUnless(DescribeResult(feed, polls, runArn), state => state == Completed))
  }

  /** As written, cleanup after a run that never started queries the status
      of a nil ARN, which the service rejects, so cleanup raises and its error
      replaces the NoSuchEntity being re-raised; and an existing run, even a
      completed one, enters the stop branch. */
  lemma CleanupGuardAsWrittenMisfires(feed: StatusFeed, polls: nat, h: Handle)
    ensures CleanupGuardAsWritten(None, feed, polls) ==
            GuardEval(Some(DescribeAssessmentRun(None)), Err(InvalidParameter))
    ensures feed.At(polls) == Completed ==> CleanupGuardAsWritten(Some(h), feed, polls).stop == Ok(true)
  {
  }

  /** The evidently intended `unless @assessment_run_arn.nil? || assessment_completed?`:
      it never raises, asks for the status exactly when there is a run, and
      enters the stop branch iff that run is not `COMPLETED`. */
  function CleanupGuard(runArn: Option<Handle>, feed: StatusFeed, polls: nat): (g: GuardEval)
    ensures g.query.Some? <==> runArn.Some?
    ensures g.query.Some? ==> g.query.value == DescribeAssessmentRun(runArn)
    ensures g.stop == Ok(runArn.Some? && feed.At(polls) != Completed)
  {
    if runArn.None? then GuardEval(None, Ok(false))
    else GuardEval(Some(DescribeAssessmentRun(runArn)),
                   StopUnless(DescribeResult(feed, polls, runArn), state => state == Completed))
  }

  /** With the intended guard, the status query always names a run, so the
      service never rejects it for a missing ARN. */
  lemma CleanupGuardQueriesRun(feed: StatusFeed, polls: nat, runArn: Option<Handle>)
    requires CleanupGuard(runArn, feed, polls).query.Some?
    ensures DescribeResult(feed, polls, CleanupGuard(runArn, feed, polls).query.value.run).Ok?
  {
  }

  // ---------------------------------------------------------------------
  // The runner

  /** What the runner prints, abstractly. */
  datatype Message =
    | WaitingForAssessment                 // 'Waiting for assessment to complete'
    | Tick                                 // putc '.'
    | NotInTime                            // 'We could not get results from the assessment run in time'
    | NoMatchingResources(tags: seq<Tag>)  // 'Failed to find any resources matching ...'
    | CleaningUp                           // 'Cleaning up resources before exiting'
    | Reported(findings: seq<Finding>)     // the fields report_findings prints

  function Repeat<T>(x: T, n: nat): seq<T>
  {
    seq(n, _ => x)
  }

  /** What waiting prints for a given outcome. */
  function WaitMessages(w: WaitResult): seq<Message>
  {
    [WaitingForAssessment] + Repeat(Tick, if w.completed && w.polls > 0 then w.polls - 1 else w.polls)
      + (if w.completed then [] else [NotInTime])
  }

  /** The first five calls `run` makes when the log already holds `c0`
      calls: each create call passes the handle the call before it created. */
  function ProvisioningCalls(c0: nat, tags: seq<Tag>, name: string, duration: int, ruleArns: seq<string>,
                             started: bool): seq<Call>
  {
    [ ListRulesPackages,
      CreateResourceGroup(tags),
      CreateAssessmentTarget(TargetName(name), Some(Handle(ResourceGroup, c0 + 1))),
      CreateAssessmentTemplate(Some(Handle(AssessmentTarget, c0 + 2)), TemplateName(name), duration, Some(ruleArns)),
      StartAssessmentRun(Some(Handle(AssessmentTemplate, c0 + 3)), started) ]
  }

  /** The provisioning calls pass only handles created by the calls before
      them, each of the kind it expects. */
  lemma ProvisioningChained(calls: seq<Call>, tags: seq<Tag>, name: string, duration: int, ruleArns: seq<string>,
                            started: bool)
    requires WellChained(calls)
    ensures WellChained(calls + ProvisioningCalls(|calls|, tags, name, duration, ruleArns, started))
  {
    var p := ProvisioningCalls(|calls|, tags, name, duration, ruleArns, started);
    var c := calls;
    WellChainedAppend(c, p[0]); c := c + [p[0]];
    WellChainedAppend(c, p[1]); c := c + [p[1]];
    WellChainedAppend(c, p[2]); c := c + [p[2]];
    WellChainedAppend(c, p[3]); c := c + [p[3]];
    WellChainedAppend(c, p[4]); c := c + [p[4]];
    assert c == calls + p;
  }

  /** A handle field holds nothing, or a handle of the right kind that the
      service created. */
  ghost predicate Holds(calls: seq<Call>, h: Option<Handle>, kind: Kind)
  {
    h.Some? ==> h.value.kind == kind && Created(calls, h.value)
  }

  /** A held handle stays valid as the log grows. */
  lemma HoldsExtend(calls: seq<Call>, more: seq<Call>, h: Option<Handle>, kind: Kind)
    requires Holds(calls, h, kind)
    ensures Holds(calls + more, h, kind)
  {
    if h.Some? {
      CreatedExtend(calls, more, h.value);
    }
  }

  class Inspector {
    const aws: Service
    const name: string
    const assessmentDuration: nat
    const rulesToRun: seq<string>
    const resourceTargetTags: seq<Tag>

    var ruleArns: Option<seq<string>>
    var resourceGroupArn: Option<Handle>
    var assessmentTargetArn: Option<Handle>
    var assessmentTemplateArn: Option<Handle>
    var assessmentRunArn: Option<Handle>
    /** Everything printed so far. */
    var output: seq<Message>

    /** Every handle held was created by the service, and every call made to
        the service passed only handles it had created. */
    ghost predicate Valid()
      reads this, aws
    {
      && WellChained(aws.calls)
      && Holds(aws.calls, resourceGroupArn, ResourceGroup)
      && Holds(aws.calls, assessmentTargetArn, AssessmentTarget)
      && Holds(aws.calls, assessmentTemplateArn, AssessmentTemplate)
      && Holds(aws.calls, assessmentRunArn, AssessmentRun)
    }

    /** `initialize`, with the random suffix and the service client passed in. */
    constructor (aws: Service, suffix: string)
      requires IsHexSuffix(suffix)
      requires WellChained(aws.calls)
      ensures Valid() && this.aws == aws
      ensures name == RunName(suffix)
      ensures assessmentDuration == AssessmentDuration
      ensures rulesToRun == ["Security Best Practices", "Runtime Behavior Analysis"]
      ensures resourceTargetTags == [Tag("auditable", "true")]
      ensures ruleArns.None? && resourceGroupArn.None? && assessmentTargetArn.None?
      ensures assessmentTemplateArn.None? && assessmentRunArn.None?
      ensures output == []
    {
      this.aws := aws;
      name := RunName(suffix);
      assessmentDuration := AssessmentDuration;
      rulesToRun := ["Security Best Practices", "Runtime Behavior Analysis"];
      resourceTargetTags := [Tag("auditable", "true")];
      ruleArns, resourceGroupArn, assessmentTargetArn := None, None, None;
      assessmentTemplateArn, assessmentRunArn := None, None;
      output := [];
    }

    method RetrieveRuleArns()
      requires Valid()
      modifies this`ruleArns, aws`calls
      ensures Valid()
      ensures ruleArns == Some(SelectRuleArns(aws.rulePackages, rulesToRun))
      ensures aws.calls == old(aws.calls) + [ListRulesPackages]
    {
      var packages := aws.ListRulesPackages();
      ruleArns := Some(SelectRuleArns(packages, rulesToRun));
      WellChainedAppend(old(aws.calls), ListRulesPackages);
      HoldsExtend(old(aws.calls), [ListRulesPackages], resourceGroupArn, ResourceGroup);
      HoldsExtend(old(aws.calls), [ListRulesPackages], assessmentTargetArn, AssessmentTarget);
      HoldsExtend(old(aws.calls), [ListRulesPackages], assessmentTemplateArn, AssessmentTemplate);
      HoldsExtend(old(aws.calls), [ListRulesPackages], assessmentRunArn, AssessmentRun);
    }

    method CreateResourceGroup()
      requires Valid()
      modifies this`resourceGroupArn, aws`calls
      ensures Valid()
      ensures resourceGroupArn == Some(Handle(ResourceGroup, |old(aws.calls)|))
      ensures aws.calls == old(aws.calls) + [Call.CreateResourceGroup(resourceTargetTags)]
    {
      var h := aws.CreateResourceGroup(resourceTargetTags);
      resourceGroupArn := Some(h);
      var c := Call.CreateResourceGroup(resourceTargetTags);
      WellChainedAppend(old(aws.calls), c);
      HoldsExtend(old(aws.calls), [c], assessmentTargetArn, AssessmentTarget);
      HoldsExtend(old(aws.calls), [c], assessmentTemplateArn, AssessmentTemplate);
      HoldsExtend(old(aws.calls), [c], assessmentRunArn, AssessmentRun);
    }

    method CreateTarget()
      requires Valid()
      modifies this`assessmentTargetArn, aws`calls
      ensures Valid()
      ensures assessmentTargetArn == Some(Handle(AssessmentTarget, |old(aws.calls)|))
      ensures aws.calls == old(aws.calls) + [Call.CreateAssessmentTarget(TargetName(name), resourceGroupArn)]
    {
      var h := aws.CreateAssessmentTarget(TargetName(name), resourceGroupArn);
      assessmentTargetArn := Some(h);
      var c := Call.CreateAssessmentTarget(TargetName(name), resourceGroupArn);
      WellChainedAppend(old(aws.calls), c);
      HoldsExtend(old(aws.calls), [c], resourceGroupArn, ResourceGroup);
      HoldsExtend(old(aws.calls), [c], assessmentTemplateArn, AssessmentTemplate);
      HoldsExtend(old(aws.calls), [c], assessmentRunArn, AssessmentRun);
    }

    /** The template binds the target, the duration and exactly the resolved
        rule ARNs (nil, if they were never resolved). */
    method CreateTemplate()
      requires Valid()
      modifies this`assessmentTemplateArn, aws`calls
      ensures Valid()
      ensures assessmentTemplateArn == Some(Handle(AssessmentTemplate, |old(aws.calls)|))
      ensures aws.calls == old(aws.calls) +
                [Call.CreateAssessmentTemplate(assessmentTargetArn, TemplateName(name), assessmentDuration, ruleArns)]
    {
      var h := aws.CreateAssessmentTemplate(assessmentTargetArn, TemplateName(name), assessmentDuration, ruleArns);
      assessmentTemplateArn := Some(h);
      var c := Call.CreateAssessmentTemplate(assessmentTargetArn, TemplateName(name), assessmentDuration, ruleArns);
      WellChainedAppend(old(aws.calls), c);
      HoldsExtend(old(aws.calls), [c], resourceGroupArn, ResourceGroup);
      HoldsExtend(old(aws.calls), [c], assessmentTargetArn, AssessmentTarget);
      HoldsExtend(old(aws.calls), [c], assessmentRunArn, AssessmentRun);
    }

    /** Starts the run; on NoSuchEntity prints the tags and re-raises,
        leaving the run handle as it was. */
    method StartAssessmentRun() returns (r: Outcome<ServiceError>)
      requires Valid()
      modifies this`assessmentRunArn, this`output, aws`calls
      ensures Valid()
      ensures aws.calls == old(aws.calls) + [Call.StartAssessmentRun(assessmentTemplateArn, !aws.startRaisesNoSuchEntity)]
      ensures aws.startRaisesNoSuchEntity ==>
                r == Fail(NoSuchEntity) && assessmentRunArn == old(assessmentRunArn) &&
                output == old(output) + [NoMatchingResources(resourceTargetTags)]
      ensures !aws.startRaisesNoSuchEntity ==>
                r == Pass && assessmentRunArn == Some(Handle(AssessmentRun, |old(aws.calls)|)) &&
                output == old(output)
    {
      var started := aws.StartAssessmentRun(assessmentTemplateArn);
      var c := Call.StartAssessmentRun(assessmentTemplateArn, !aws.startRaisesNoSuchEntity);
      WellChainedAppend(old(aws.calls), c);
      HoldsExtend(old(aws.calls), [c], resourceGroupArn, ResourceGroup);
      HoldsExtend(old(aws.calls), [c], assessmentTargetArn, AssessmentTarget);
      HoldsExtend(old(aws.calls), [c], assessmentTemplateArn, AssessmentTemplate);
      HoldsExtend(old(aws.calls), [c], assessmentRunArn, AssessmentRun);
      match started
      case Ok(h) =>
        assessmentRunArn := Some(h);
        r := Pass;
      case Err(e) =>
        output := output + [NoMatchingResources(resourceTargetTags)];
        r := Fail(e);
    }

    /** Polls the run's state every `PollInterval` until it is `COMPLETED`,
        giving up without raising once `assessmentDuration + SafetyMargin` has
        passed. */
    method WaitForAssessmentRun() returns (w: WaitResult)
      requires Valid() && assessmentRunArn.Some?
      modifies this`output, aws`calls, aws`polls
      ensures Valid()
      ensures w == Poll(aws.feed, old(aws.polls), 0, assessmentDuration + SafetyMargin)
      ensures aws.polls == old(aws.polls) + w.polls
      ensures aws.calls == old(aws.calls) + Repeat(DescribeAssessmentRun(assessmentRunArn), w.polls)
      ensures output == old(output) + WaitMessages(w)
    {
      output := output + [WaitingForAssessment];
      var budget := assessmentDuration + SafetyMargin;
      var query := DescribeAssessmentRun(assessmentRunArn);
      var elapsed, polls := 0, 0;
      while elapsed < budget
        invariant Valid()
        invariant elapsed == PollInterval * polls
        invariant aws.polls == old(aws.polls) + polls
        invariant aws.calls == old(aws.calls) + Repeat(query, polls)
        invariant output == old(output) + [WaitingForAssessment] + Repeat(Tick, polls)
        invariant var rest := Poll(aws.feed, aws.polls, elapsed, budget);
                  Poll(aws.feed, old(aws.polls), 0, budget) == WaitResult(rest.completed, polls + rest.polls, rest.elapsed)
        decreases budget - elapsed
      {
        ghost var callsBefore := aws.calls;
        var state := aws.DescribeAssessmentRun(assessmentRunArn);
        WellChainedAppend(callsBefore, query);
        HoldsExtend(callsBefore, [query], resourceGroupArn, ResourceGroup);
        HoldsExtend(callsBefore, [query], assessmentTargetArn, AssessmentTarget);
        HoldsExtend(callsBefore, [query], assessmentTemplateArn, AssessmentTemplate);
        HoldsExtend(callsBefore, [query], assessmentRunArn, AssessmentRun);
        assert Repeat(query, polls) + [query] == Repeat(query, polls + 1);
        polls := polls + 1;
        if state == Ok(Completed) {
          return WaitResult(true, polls, elapsed);
        }
        output := output + [Tick];
        assert Repeat(Tick, polls - 1) + [Tick] == Repeat(Tick, polls);
        elapsed := elapsed + PollInterval;
      }
      // the timer interrupts the sleep in progress at the budget itself
      output := output + [NotInTime];
      w := WaitResult(false, polls, budget);
    }

    /** Asks the service for the run's findings and prints them. */
    method ReportFindings()
      requires Valid() && assessmentRunArn.Some?
      modifies this`output, aws`calls
      ensures Valid()
      ensures aws.calls == old(aws.calls) + [ListFindings(assessmentRunArn)]
      ensures output == old(output) + [Reported(aws.findings)]
    {
      var findings := aws.ListFindings(assessmentRunArn);
      var c := ListFindings(assessmentRunArn);
      WellChainedAppend(old(aws.calls), c);
      HoldsExtend(old(aws.calls), [c], resourceGroupArn, ResourceGroup);
      HoldsExtend(old(aws.calls), [c], assessmentTargetArn, AssessmentTarget);
      HoldsExtend(old(aws.calls), [c], assessmentTemplateArn, AssessmentTemplate);
      HoldsExtend(old(aws.calls), [c], assessmentRunArn, AssessmentRun);
      output := output + [Reported(findings)];
    }

    /** The first five steps of `run`: resolve the rules, create the group,
        the target and the template, start the run. */
    method Provision() returns (r: Outcome<ServiceError>)
      requires Valid()
      modifies this`ruleArns, this`resourceGroupArn, this`assessmentTargetArn, this`assessmentTemplateArn,
               this`assessmentRunArn, this`output, aws`calls
      ensures Valid()
      ensures ruleArns == Some(SelectRuleArns(aws.rulePackages, rulesToRun))
      ensures resourceGroupArn == Some(Handle(ResourceGroup, |old(aws.calls)| + 1))
      ensures assessmentTargetArn == Some(Handle(AssessmentTarget, |old(aws.calls)| + 2))
      ensures assessmentTemplateArn == Some(Handle(AssessmentTemplate, |old(aws.calls)| + 3))
      ensures aws.calls == old(aws.calls) +
                ProvisioningCalls(|old(aws.calls)|, resourceTargetTags, name, assessmentDuration,
                                  SelectRuleArns(aws.rulePackages, rulesToRun), !aws.startRaisesNoSuchEntity)
      ensures aws.startRaisesNoSuchEntity ==>
                r == Fail(NoSuchEntity) && assessmentRunArn == old(assessmentRunArn) &&
                output == old(output) + [NoMatchingResources(resourceTargetTags)]
      ensures !aws.startRaisesNoSuchEntity ==>
                r == Pass && assessmentRunArn == Some(Handle(AssessmentRun, |old(aws.calls)| + 4)) &&
                output == old(output)
    {
      ghost var calls0 := aws.calls;
      ghost var p := ProvisioningCalls(|calls0|, resourceTargetTags, name, assessmentDuration,
                                       SelectRuleArns(aws.rulePackages, rulesToRun), !aws.startRaisesNoSuchEntity);
      RetrieveRuleArns();
      assert aws.calls == calls0 + p[..1];
      CreateResourceGroup();
      assert aws.calls == calls0 + p[..2];
      CreateTarget();
      assert aws.calls == calls0 + p[..3];
      CreateTemplate();
      assert aws.calls == calls0 + p[..4];
      r := StartAssessmentRun();
      assert aws.calls == calls0 + p;
    }

    /** `run`: the seven steps in order. A failed start stops it before the
        wait and the report. */
    method Run() returns (r: Outcome<ServiceError>)
      requires Valid()
      modifies this, aws
      ensures Valid()
      ensures ruleArns == Some(SelectRuleArns(aws.rulePackages, rulesToRun))
      ensures resourceGroupArn == Some(Handle(ResourceGroup, |old(aws.calls)| + 1))
      ensures assessmentTargetArn == Some(Handle(AssessmentTarget, |old(aws.calls)| + 2))
      ensures assessmentTemplateArn == Some(Handle(AssessmentTemplate, |old(aws.calls)| + 3))
      ensures aws.startRaisesNoSuchEntity ==>
                && r == Fail(NoSuchEntity)
                && assessmentRunArn == old(assessmentRunArn)
                && aws.polls == old(aws.polls)
                && aws.calls == old(aws.calls) +
                     ProvisioningCalls(|old(aws.calls)|, resourceTargetTags, name, assessmentDuration,
                                       SelectRuleArns(aws.rulePackages, rulesToRun), !aws.startRaisesNoSuchEntity)
                && output == old(output) + [NoMatchingResources(resourceTargetTags)]
      ensures !aws.startRaisesNoSuchEntity ==>
                var w := Poll(aws.feed, old(aws.polls), 0, assessmentDuration + SafetyMargin);
                && r == Pass
                && assessmentRunArn == Some(Handle(AssessmentRun, |old(aws.calls)| + 4))
                && aws.polls == old(aws.polls) + w.polls
                && aws.calls == old(aws.calls) +
                     ProvisioningCalls(|old(aws.calls)|, resourceTargetTags, name, assessmentDuration,
                                       SelectRuleArns(aws.rulePackages, rulesToRun), !aws.startRaisesNoSuchEntity) +
                     Repeat(DescribeAssessmentRun(assessmentRunArn), w.polls) +
                     [ListFindings(assessmentRunArn)]
                && output == old(output) + WaitMessages(w) + [Reported(aws.findings)]
    {
      r := Provision();
      if r.Fail? {
        return;
      }
      var w := WaitForAssessmentRun();
      ReportFindings();
    }

    /** `cleanup_resources` with the intended guard: prints, queries the
        run's state only when there is a run, and stops or deletes nothing,
        every stop and delete being commented out; no handle changes. */
    method CleanupResources()
      requires Valid()
      modifies this`output, aws`calls, aws`polls
      ensures Valid()
      ensures output == old(output) + [CleaningUp]
      ensures aws.polls == old(aws.polls) + (if assessmentRunArn.Some? then 1 else 0)
      ensures aws.calls == old(aws.calls) +
                (if assessmentRunArn.Some? then [DescribeAssessmentRun(assessmentRunArn)] else [])
      ensures ruleArns == old(ruleArns) && resourceGroupArn == old(resourceGroupArn)
      ensures assessmentTargetArn == old(assessmentTargetArn) && assessmentTemplateArn == old(assessmentTemplateArn)
      ensures assessmentRunArn == old(assessmentRunArn)
    {
      output := output + [CleaningUp];
      if assessmentRunArn.Some? {
        var state := aws.DescribeAssessmentRun(assessmentRunArn);
        var c := DescribeAssessmentRun(assessmentRunArn);
        WellChainedAppend(old(aws.calls), c);
        HoldsExtend(old(aws.calls), [c], resourceGroupArn, ResourceGroup);
        HoldsExtend(old(aws.calls), [c], assessmentTargetArn, AssessmentTarget);
        HoldsExtend(old(aws.calls), [c], assessmentTemplateArn, AssessmentTemplate);
        HoldsExtend(old(aws.calls), [c], assessmentRunArn, AssessmentRun);
        if StopUnless(state, s => s == Completed) == Ok(true) {
          // stop_assessment_run and the wait before deletion are commented out
        }
      }
      // the three delete calls are commented out
    }
  }
}
