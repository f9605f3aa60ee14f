/** The AWS Inspector service as the runner sees it: an oracle that answers
    each call from fixed data (the region's rule packages, whether starting a
    run fails, the states successive status queries report, the findings
    recorded) and keeps a log of every call made to it, in order. Created
    resources are identified by opaque handles that name the call that
    created them. */
module InspectorService {
  import opened Wrappers

  /** The run state the runner waits for. */
  const Completed: string := "COMPLETED"

  /** A resource-group tag, `{ key: ..., value: ... }`. */
  datatype Tag = Tag(key: string, value: string)

  /** A rule package as `describe_rules_packages` reports it. */
  datatype RulePackage = RulePackage(arn: string, name: string)

  /** A finding, kept opaque. */
  datatype Finding = Finding(id: string, severity: string, title: string)

  datatype Kind = ResourceGroup | AssessmentTarget | AssessmentTemplate | AssessmentRun

  /** An ARN the service handed out: the kind of resource and the position,
      in the call log, of the call that created it. */
  datatype Handle = Handle(kind: Kind, serial: nat)

  datatype ServiceError =
    | NoSuchEntity        // Aws::Inspector::Errors::NoSuchEntityException
    | InvalidParameter    // the client's parameter validation (a nil ARN)

  /** One call to the service, with the arguments it was given (an absent
      handle or list is Ruby's nil); a start also records whether it
      succeeded, since a raised start hands out no run. */
  datatype Call =
    | ListRulesPackages
    | CreateResourceGroup(tags: seq<Tag>)
    | CreateAssessmentTarget(targetName: string, resourceGroup: Option<Handle>)
    | CreateAssessmentTemplate(target: Option<Handle>, templateName: string,
                               durationInSeconds: int, rulesPackageArns: Option<seq<string>>)
    | StartAssessmentRun(template: Option<Handle>, started: bool)
    | DescribeAssessmentRun(run: Option<Handle>)
    | ListFindings(findingsRun: Option<Handle>)
  {
    /** The kind of resource this call creates. */
    function Creates(): Option<Kind>
    {
      match this
      case CreateResourceGroup(_) => Some(ResourceGroup)
      case CreateAssessmentTarget(_, _) => Some(AssessmentTarget)
      case CreateAssessmentTemplate(_, _, _, _) => Some(AssessmentTemplate)
      case StartAssessmentRun(_, started) => if started then Some(AssessmentRun) else None
      case _ => None
    }

    /** The handle this call passes to the service. */
    function Consumes(): Option<Handle>
    {
      match this
      case CreateAssessmentTarget(_, g) => g
      case CreateAssessmentTemplate(t, _, _, _) => t
      case StartAssessmentRun(t, _) => t
      case DescribeAssessmentRun(r) => r
      case ListFindings(r) => r
      case _ => None
    }

    /** The kind of handle this call expects. */
    function ConsumesKind(): Option<Kind>
    {
      match this
      case CreateAssessmentTarget(_, _) => Some(ResourceGroup)
      case CreateAssessmentTemplate(_, _, _, _) => Some(AssessmentTarget)
      case StartAssessmentRun(_, _) => Some(AssessmentTemplate)
      case DescribeAssessmentRun(_) => Some(AssessmentRun)
      case ListFindings(_) => Some(AssessmentRun)
      case _ => None
    }
  }

  /** `h` names a call in `calls` that creates a resource of `h`'s kind. */
  ghost predicate Created(calls: seq<Call>, h: Handle)
  {
    h.serial < |calls| && calls[h.serial].Creates() == Some(h.kind)
  }

  /** The handle `c` passes, if any, is of the kind it expects and was
      created by one of the calls in `before`. */
  ghost predicate ConsumesCreated(before: seq<Call>, c: Call)
  {
    c.Consumes().Some? ==> c.ConsumesKind() == Some(c.Consumes().value.kind) && Created(before, c.Consumes().value)
  }

  /** Every call in the log passes only handles created by earlier calls. */
  ghost predicate WellChained(calls: seq<Call>)
  {
    forall i :: 0 <= i < |calls| ==> ConsumesCreated(calls[..i], calls[i])
  }

  /** A handle stays created as the log grows. */
  lemma CreatedExtend(calls: seq<Call>, more: seq<Call>, h: Handle)
    requires Created(calls, h)
    ensures Created(calls + more, h)
  {
    assert (calls + more)[h.serial] == calls[h.serial];
  }

  /** Appending a call that passes only created handles keeps the log chained. */
  lemma WellChainedAppend(calls: seq<Call>, c: Call)
    requires WellChained(calls)
    requires ConsumesCreated(calls, c)
    ensures WellChained(calls + [c])
  {
    var calls' := calls + [c];
    forall i | 0 <= i < |calls'| ensures ConsumesCreated(calls'[..i], calls'[i]) {
      if i < |calls| {
        assert calls'[..i] == calls[..i];
      } else {
        assert calls'[..i] == calls;
      }
    }
  }

  /** What a run reports at its k-th status query: the listed states in
      turn, then `steady` for good. */
  datatype StatusFeed = StatusFeed(states: seq<string>, steady: string)
  {
    function At(k: nat): string
    {
      if k < |states| then states[k] else steady
    }
  }

  /** The answer to a status query, the `polls`-th that named a run. */
  function DescribeResult(feed: StatusFeed, polls: nat, run: Option<Handle>): Result<string, ServiceError>
  {
    if run.None? then Err(InvalidParameter) else Ok(feed.At(polls))
  }

  class Service {
    const rulePackages: seq<RulePackage>
    const startRaisesNoSuchEntity: bool
    const feed: StatusFeed
    const findings: seq<Finding>
    /** Every call made so far, oldest first. */
    var calls: seq<Call>
    /** How many status queries for a run have been answered. */
    var polls: nat

    constructor (rulePackages: seq<RulePackage>, startRaisesNoSuchEntity: bool,
                 feed: StatusFeed, findings: seq<Finding>)
      ensures this.rulePackages == rulePackages && this.startRaisesNoSuchEntity == startRaisesNoSuchEntity
      ensures this.feed == feed && this.findings == findings
      ensures calls == [] && polls == 0
    {
      this.rulePackages := rulePackages;
      this.startRaisesNoSuchEntity := startRaisesNoSuchEntity;
      this.feed := feed;
      this.findings := findings;
      calls := [];
      polls := 0;
    }

    /** `list_rules_packages` followed by `describe_rules_packages`: the
        region's rule packages in the service's order. */
    method ListRulesPackages() returns (packages: seq<RulePackage>)
      modifies this`calls
      ensures packages == rulePackages
      ensures calls == old(calls) + [Call.ListRulesPackages]
    {
      packages := rulePackages;
      calls := calls + [Call.ListRulesPackages];
    }

    method CreateResourceGroup(tags: seq<Tag>) returns (h: Handle)
      modifies this`calls
      ensures h == Handle(ResourceGroup, |old(calls)|)
      ensures calls == old(calls) + [Call.CreateResourceGroup(tags)]
    {
      h := Handle(ResourceGroup, |calls|);
      calls := calls + [Call.CreateResourceGroup(tags)];
    }

    method CreateAssessmentTarget(targetName: string, resourceGroup: Option<Handle>) returns (h: Handle)
      modifies this`calls
      ensures h == Handle(AssessmentTarget, |old(calls)|)
      ensures calls == old(calls) + [Call.CreateAssessmentTarget(targetName, resourceGroup)]
    {
      h := Handle(AssessmentTarget, |calls|);
      calls := calls + [Call.CreateAssessmentTarget(targetName, resourceGroup)];
    }

    method CreateAssessmentTemplate(target: Option<Handle>, templateName: string,
                                    durationInSeconds: int, rulesPackageArns: Option<seq<string>>)
      returns (h: Handle)
      modifies this`calls
      ensures h == Handle(AssessmentTemplate, |old(calls)|)
      ensures calls == old(calls) + [Call.CreateAssessmentTemplate(target, templateName, durationInSeconds, rulesPackageArns)]
    {
      h := Handle(AssessmentTemplate, |calls|);
      calls := calls + [Call.CreateAssessmentTemplate(target, templateName, durationInSeconds, rulesPackageArns)];
    }

    /** Starts a run, or raises NoSuchEntity when no resource matches the
        target's tags. */
    method StartAssessmentRun(template: Option<Handle>) returns (r: Result<Handle, ServiceError>)
      modifies this`calls
      ensures r == if startRaisesNoSuchEntity then Err(NoSuchEntity) else Ok(Handle(AssessmentRun, |old(calls)|))
      ensures calls == old(calls) + [Call.StartAssessmentRun(template, !startRaisesNoSuchEntity)]
    {
      r := if startRaisesNoSuchEntity then Err(NoSuchEntity) else Ok(Handle(AssessmentRun, |calls|));
      calls := calls + [Call.StartAssessmentRun(template, !startRaisesNoSuchEntity)];
    }

    /** `describe_assessment_runs(...).assessment_runs.first.state`. */
    method DescribeAssessmentRun(run: Option<Handle>) returns (r: Result<string, ServiceError>)
      modifies this`calls, this`polls
      ensures r == DescribeResult(feed, old(polls), run)
      ensures polls == if run.Some? then old(polls) + 1 else old(polls)
      ensures calls == old(calls) + [Call.DescribeAssessmentRun(run)]
    {
      r := DescribeResult(feed, polls, run);
      if run.Some? {
        polls := polls + 1;
      }
      calls := calls + [Call.DescribeAssessmentRun(run)];
    }

    /** `list_findings` followed by `describe_findings`: whatever findings
        the service has recorded. */
    method ListFindings(run: Option<Handle>) returns (result: seq<Finding>)
      modifies this`calls
      ensures result == findings
      ensures calls == old(calls) + [Call.ListFindings(run)]
    {
      result := findings;
      calls := calls + [Call.ListFindings(run)];
    }
  }
}
