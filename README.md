# inspector-status in Dafny

A model of the two parts of the AWS Inspector runner that carry behaviour:

- **Option decoding** (`InspectorConfig`, lib/aws_inspector_config.rb): the bodies
  of the `-f`, `-r` and `-t` callbacks with Ruby `String#split` semantics
  (`RubyString`), the callbacks storing into the options hash in command-line
  order (`Parse`), the merge of a YAML config with the CLI options where the CLI
  wins (`Merge`), the required-keys check that raises on the first missing key
  (`CheckForRequiredOptions`), and the `parsed_options` pipeline.
- **Assessment lifecycle** (`AwsInspector`, lib/aws_inspector.rb): the `Inspector`
  class whose `run` fills in `@rule_arns`, `@resource_group_arn`,
  `@assessment_target_arn`, `@assessment_template_arn` and `@assessment_run_arn`
  in a fixed order, each create call consuming the handle the previous step
  stored; the rule-package filter; the status poll loop bounded by
  `@assessment_duration + 180` with a 5-unit step; the re-raised
  `NoSuchEntityException` on start; and the no-op cleanup.

The AWS service is an oracle class (`InspectorService.Service`) answering from
fixed data: the region's rule packages, whether starting a run raises
NoSuchEntity, the states successive status queries report (`StatusFeed`), and
the findings recorded. It logs every call, and the handles it hands out name
the call that created them, so the model can state which handle each call
consumed (`WellChained`). Time is an abstract counter: a status check costs
nothing, each sleep costs 5 units, and waiting gives up when the elapsed time
reaches the budget, cutting short the sleep in progress. The random name suffix is a constructor parameter. What the
program prints is kept as a list of abstract `Message`s.

`Hash#merge` of one-entry hashes (`reduce({}, :merge)`) and a run of
`options[key] = value` are the same left fold of map updates
(`RubyCollections.Assign`); `Array#compact` is `RubyCollections.Compact`.

The model follows what the code does: the runner's configuration is hard-coded in
`initialize` (prefix `joshp-`, duration 60, two rule names, tag
`auditable:true`); cleanup stops and deletes nothing, every such call being
commented out; there is no check that the resolved rule list is non-empty; and
findings are printed field by field rather than as a structured document.

## Model

| member | source | states |
|---|---|---|
| RubyString.StripTrailingEmpty | lib/aws_inspector_config.rb:24 | the result is a prefix of the fields, ends in a non-empty field or is empty, and only empty fields were dropped |
| RubyString.FieldsJoin | lib/aws_inspector_config.rb:24 | the raw fields hold no separator and joining them with it gives back the input string |
| RubyString.FieldsCons | lib/aws_inspector_config.rb:26 | a separator-free head followed by the separator is the first field, the rest is split on |
| RubyString.StripCons | lib/aws_inspector_config.rb:24 | a leading field survives dropping trailing empties unless it and everything after it is empty |
| RubyString.SplitEmpty | lib/aws_inspector_config.rb:24 | `"".split(sep)` is the empty list |
| RubyString.SplitNoSeparator | lib/aws_inspector_config.rb:26 | a non-empty string without the separator splits into itself alone |
| RubyString.SplitCons | lib/aws_inspector_config.rb:24 | `split` of `k + sep + rest` is `[k]` followed by the split of `rest`, except that an empty `k` with nothing non-empty after it vanishes |
| RubyString.SplitFields | lib/aws_inspector_config.rb:24 | split fields are the leading raw fields in order, contain no separator, and the last is never empty |
| RubyCollections.AssignKeys | lib/aws_inspector_config.rb:29 | the keys after the fold are the initial keys plus every entry's key |
| RubyCollections.AssignLastWins | lib/aws_inspector_config.rb:25-29 | a key takes the value of the last entry naming it |
| RubyCollections.AssignUntouched | lib/aws_inspector_config.rb:11-65 | a key no entry names keeps its initial value, or stays absent |
| RubyCollections.CompactMembers | lib/aws_inspector.rb:42 | an element survives `compact` iff it occurs non-nil in the input |
| RubyCollections.CompactAppend | lib/aws_inspector.rb:42 | `compact` distributes over concatenation, so relative order is kept |
| InspectorConfig.DecodePairKeyValue | lib/aws_inspector_config.rb:26-27 | an item `k:v` becomes key `k` with value `v` |
| InspectorConfig.DecodePairExtraSegments | lib/aws_inspector_config.rb:26 | with several colons and a non-empty second segment, only the first two segments are key and value |
| InspectorConfig.DecodePairNoColon | lib/aws_inspector_config.rb:50-51 | an item without a colon becomes a key equal to the whole item with a nil value |
| InspectorConfig.DecodePairTrailingColon | lib/aws_inspector_config.rb:26 | `k:` also gets a nil value, since split drops the trailing empty field |
| InspectorConfig.DecodePairNothing | lib/aws_inspector_config.rb:26 | an empty item and a lone colon both give a nil key with a nil value |
| InspectorConfig.DecodeItemsLastWins | lib/aws_inspector_config.rb:24-29 | folding any list of decoded items: the key set is the set of the items' keys, and a repeated key keeps the last such item's value |
| InspectorConfig.DecodePairsLastWins | lib/aws_inspector_config.rb:24-29 | the key set is the set of the items' decoded keys, and a repeated key keeps the last such item's value |
| InspectorConfig.DecodePairsTwoItems | lib/aws_inspector_config.rb:24-29 | two items decode left to right, the second overriding the first |
| InspectorConfig.DecodeTwoKeyValues | lib/aws_inspector_config.rb:23-29 | `k1:v1,k2:v2` (the `-f` help example is an instance) maps `k1` to `v1` and `k2` to `v2`, later wins on equal keys |
| InspectorConfig.DecodeKeyValueThenBare | lib/aws_inspector_config.rb:47-53 | `k:v,item` (the `-t` help example `auditable:true,mybuild=333`) maps `k` to `v` and `item` to nil |
| InspectorConfig.ExpandRulesShape | lib/aws_inspector_config.rb:38-44 | one result per item in order; an item expands iff it is SEC, RUN, COM or CIS, to its full name, and is nil otherwise |
| InspectorConfig.ExpandRulesTwoItems | lib/aws_inspector_config.rb:44 | two abbreviations expand in their given order |
| InspectorConfig.ExpandRulesExample | lib/aws_inspector_config.rb:32-44 | the help example `SEC,RUN` expands to the two full rule-package names |
| InspectorConfig.ExpandRulesUnknown | lib/aws_inspector_config.rb:44 | an unknown abbreviation yields nil in its place, not an error |
| InspectorConfig.Parse | lib/aws_inspector_config.rb:11-65 | the options hash is the initial one with each flag's callback applied in command-line order |
| InspectorConfig.ApplyFlagsLastWins | lib/aws_inspector_config.rb:15-62 | a key set by flags holds the last such flag's decoded value; other keys keep their initial value |
| InspectorConfig.Merge | lib/aws_inspector_config.rb:74-80 | falsy config gives exactly the CLI options; otherwise the union of keys, the CLI value winning on overlap and config values kept elsewhere |
| InspectorConfig.CheckForRequiredOptions | lib/aws_inspector_config.rb:82-87 | passes iff all five required keys are present (a nil value counts); otherwise fails naming the first missing key in listed order |
| InspectorConfig.ParsedOptions | lib/aws_inspector_config.rb:3-9 | returns the merged options iff the required-keys check passes on them, else the first missing key |
| InspectorConfig.ConfigFileNameFromFlags | lib/aws_inspector_config.rb:5 | the config file is `config.yml` without `-c`, and the last `-c` argument otherwise |
| InspectorConfig.MergedOptionsCliWins | lib/aws_inspector_config.rb:74-80 | whatever the config file holds, a key set on the command line keeps the last flag's value |
| InspectorConfig.MergedOptionsFromConfig | lib/aws_inspector_config.rb:74-80 | a key no flag sets is present after merging iff the loaded config has it, with the config's value |
| InspectorService.Service.ListRulesPackages | lib/aws_inspector.rb:40-41 | answers with the region's rule packages in the service's order and logs the call |
| InspectorService.Service.CreateResourceGroup | lib/aws_inspector.rb:110 | hands out a new resource-group handle naming this call and logs the tags |
| InspectorService.Service.CreateAssessmentTarget | lib/aws_inspector.rb:114 | hands out a new target handle and logs the name and group handle it was given |
| InspectorService.Service.CreateAssessmentTemplate | lib/aws_inspector.rb:58-61 | hands out a new template handle and logs target, name, duration and rule ARNs |
| InspectorService.Service.StartAssessmentRun | lib/aws_inspector.rb:103-104 | raises NoSuchEntity when no resource matches, otherwise hands out a run handle; logs the template handle and whether a run was created, so a raised start creates no handle |
| InspectorService.Service.DescribeAssessmentRun | lib/aws_inspector.rb:97-100 | reports the next state of the run's status feed, or rejects a nil ARN |
| InspectorService.Service.ListFindings | lib/aws_inspector.rb:64-70 | answers with the findings recorded so far and logs the run handle |
| AwsInspector.ResourceNames | lib/aws_inspector.rb:4 | the run name is `joshp-` and ten hex digits; target and template names extend it with their suffixes and differ; different suffixes give different names |
| AwsInspector.SelectRuleArnsMembers | lib/aws_inspector.rb:42 | an ARN is selected iff a listed package with that ARN has a name among the rules to run |
| AwsInspector.SelectRuleArnsAppend | lib/aws_inspector.rb:42 | selecting from a concatenation concatenates the selections, so the service's order is kept |
| AwsInspector.SelectRuleArnsSingle | lib/aws_inspector.rb:42 | a single package contributes its ARN exactly when its name is selected |
| AwsInspector.PollCompletedIff | lib/aws_inspector.rb:45-55 | waiting ends in completion iff some check made before the budget is spent sees exactly `COMPLETED` |
| AwsInspector.PollStopsAtFirstCompletion | lib/aws_inspector.rb:48-51 | polling stops at the first `COMPLETED`, inside the budget, every earlier check having seen another state, 5 units apart |
| AwsInspector.PollTimesOut | lib/aws_inspector.rb:47-55 | giving up happens exactly at the budget, after one failed check per interval begun before it |
| AwsInspector.PollBounded | lib/aws_inspector.rb:47 | waiting never lasts beyond the budget |
| AwsInspector.PollCompletesEarly | lib/aws_inspector.rb:45-55 | a run completing at the fourth check is seen at time 15, without using the 240-unit budget |
| AwsInspector.PollNeverCompletes | lib/aws_inspector.rb:53-55 | a run that never completes is given up on at time 240 after 48 checks, without raising |
| AwsInspector.PollTimeoutInterruptsSleep | lib/aws_inspector.rb:47-51 | the timer cuts the sleep in progress short: with budget 7 waiting stops at 7 after the checks at 0 and 5 |
| AwsInspector.CleanupGuardAsWrittenMisfires | lib/aws_inspector.rb:25-30 | with no run the guard as written queries a nil ARN, the service rejects it and cleanup raises, masking the NoSuchEntity re-raise; with a run, even a completed one, it enters the stop branch without asking |
| AwsInspector.CleanupGuard | lib/aws_inspector.rb:27 | the intended guard never raises, queries exactly when a run exists, and enters the stop branch iff that run is not `COMPLETED` |
| AwsInspector.CleanupGuardQueriesRun | lib/aws_inspector.rb:27 | with the intended guard the status query is never rejected for a missing ARN |
| AwsInspector.ProvisioningChained | lib/aws_inspector.rb:15-20 | the provisioning calls pass only handles created by the call before them, each of the expected kind |
| AwsInspector.Inspector.constructor | lib/aws_inspector.rb:3-9 | name `joshp-` plus the hex suffix, duration 60, the two rule names, tag `auditable:true`, every handle unset |
| AwsInspector.Inspector.RetrieveRuleArns | lib/aws_inspector.rb:39-43 | stores exactly the selected ARNs of the listed packages |
| AwsInspector.Inspector.CreateResourceGroup | lib/aws_inspector.rb:109-111 | creates the group from the target tags and stores its handle |
| AwsInspector.Inspector.CreateTarget | lib/aws_inspector.rb:113-115 | creates `<name>-assessment-target` from the stored group handle and stores the target handle |
| AwsInspector.Inspector.CreateTemplate | lib/aws_inspector.rb:57-62 | creates `<name>-assessment-template` from the stored target handle with duration 60 and exactly the resolved rule ARNs |
| AwsInspector.Inspector.StartAssessmentRun | lib/aws_inspector.rb:102-107 | starts from the stored template handle; on NoSuchEntity prints the tags, re-raises and leaves the run handle unset |
| AwsInspector.Inspector.WaitForAssessmentRun | lib/aws_inspector.rb:45-55 | makes the status checks `Poll` prescribes, printing a dot per unfinished check and the timeout message when giving up, and returns normally |
| AwsInspector.Inspector.ReportFindings | lib/aws_inspector.rb:64-73 | asks the service for the run's findings and reports them |
| AwsInspector.Inspector.Provision | lib/aws_inspector.rb:16-20 | the first five steps make exactly the chained provisioning calls and store their handles |
| AwsInspector.Inspector.Run | lib/aws_inspector.rb:15-23 | the seven steps run in order, each consuming the previous handle; a failed start skips waiting and reporting |
| AwsInspector.Inspector.CleanupResources | lib/aws_inspector.rb:25-35 | prints, queries only an existing run (one status query), stops and deletes nothing, and leaves every handle as it was |

## Left out

- OptionParser itself (switch recognition, `--[no-]cleanup-resources` conversion, help and banner): the recognised flags arrive as a list of `Flag` values in command-line order.
- `read_config` / `YAML.load_file` and its `$stderr` warning: the config files whose YAML document is a mapping are a parameter; any other file reads as false. A YAML document that is truthy but not a mapping (which would make `merge` raise) is not modelled, and option values are limited to the shapes in `Value`.
- The AWS SDK client and the memoised `aws` accessors (lib/aws_inspector.rb:11-13, lib/aws_inspector_lib.rb:3-5): replaced by the `Service` oracle. `list_rules_packages` with `describe_rules_packages`, and `list_findings` with `describe_findings`, are each one oracle call. Service errors other than NoSuchEntity on start, and the rejection of a status query for a nil ARN, are not modelled.
- `allow_fail` (lib/aws_inspector_lib.rb:7-11): nothing in the core calls it.
- The field-by-field printing of `report_findings` (lib/aws_inspector.rb:74-90, whose line 77 is not valid Ruby): reporting is one `Reported(findings)` message.
- `SecureRandom.hex(5)`: the suffix is a constructor parameter. `sleep` and `Timeout::timeout`: time is an abstract counter, and an interruption in the middle of a status query is not modelled.
- inspector.rb: top-level wiring. It passes `options` to an `initialize` that takes no arguments and calls cleanup from an `ensure` when the flag is set.
- AwsInspector.Inspector.CleanupResources: models the intended guard of line 27, not the guard as written (see Findings); the as-written guard is `CleanupGuardAsWritten`.
- AwsInspector.Inspector.WaitForAssessmentRun: requires a run handle, as `run` only waits after a successful start.

## Findings

| source | as written | input that shows it | evidently intended | confidence | as-written member | corrected member |
|---|---|---|---|---|---|---|
| lib/aws_inspector.rb:27 | `unless @assessment_run_arn.nil? && assessment_completed?` | start raised NoSuchEntity (no run ARN) and cleanup runs: the status of a nil ARN is queried, which the client rejects, so cleanup raises, masking the NoSuchEntity re-raise; an existing run, even a completed one, enters the stop branch | skip the stop when there is no run or it is complete (`nil?` or `completed?`) | medium, not executed | AwsInspector.CleanupGuardAsWritten | AwsInspector.CleanupGuard |
