/** The command-line and config-file options of the runner
    (lib/aws_inspector_config.rb): the bodies of the option callbacks, the
    in-order application of those callbacks to the options hash, the merge
    with the YAML config, the required-keys check, and the pipeline that runs
    them in turn. OptionParser itself is not modelled: the flags it recognised
    arrive already tokenised, in command-line order. */
module InspectorConfig {
  import opened Wrappers
  import opened RubyString
  import opened RubyCollections

  /** The values an options hash holds: what the callbacks store, plus the
      scalars a YAML config may supply. Ruby's nil is `Nil`. */
  datatype Value =
    | Nil
    | Bool(b: bool)
    | Int(i: int)
    | Str(s: string)
    | Names(names: seq<Option<string>>)
    | Pairs(pairs: map<Option<string>, Option<string>>)

  /** An options hash: string keys to values. */
  type Options = map<string, Value>

  /** Ruby truthiness: everything but nil and false. */
  predicate Truthy(v: Value)
  {
    !(v.Nil? || v == Bool(false))
  }

  /** One recognised command-line switch with its argument. */
  datatype Flag =
    | ConfigFile(c: string)         // -c / --config
    | NamePrefix(n: string)         // -n / --aws-name-prefix
    | FailureMetrics(f: string)     // -f / --failure-metrics
    | RulesToRun(r: string)         // -r / --rules-to-run
    | TargetTags(t: string)         // -t / --target-tags
    | AssetDuration(d: string)      // -d / --asset-duration
    | CleanupResources(x: bool)     // --cleanup-resources / --no-cleanup-resources

  // ---------------------------------------------------------------------
  // -f and -t: comma-separated key:value items

  /** `keyname, keyvalue = item.split(':')`: the first two segments, nil where
      the split produced fewer. */
  function DecodePair(item: string): (Option<string>, Option<string>)
  {
    var parts := Split(item, ':');
    (if |parts| > 0 then Some(parts[0]) else None,
     if |parts| > 1 then Some(parts[1]) else None)
  }

  function PairEntries(items: seq<string>): seq<(Option<string>, Option<string>)>
  {
    seq(|items|, i requires 0 <= i < |items| => DecodePair(items[i]))
  }

  /** `s.split(',').collect { |x| k, v = x.split(':'); Hash[k, v] }.reduce({}, :merge)`,
      the decoder of both `-f` (failure metrics) and `-t` (target tags). */
  function DecodePairs(s: string): map<Option<string>, Option<string>>
  {
    Assign(map[], PairEntries(Split(s, ',')))
  }

  /** `k:v` decodes to key `k` and value `v`. */
  lemma DecodePairKeyValue(k: string, v: string)
    requires ':' !in k && ':' !in v && v != ""
    ensures DecodePair(k + ":" + v) == (Some(k), Some(v))
  {
    SplitCons(k, ':', v);
    SplitNoSeparator(v, ':');
  }

  /** With more than one colon only the first two segments count. */
  lemma DecodePairExtraSegments(k: string, v: string, rest: string)
    requires ':' !in k && ':' !in v && v != ""
    ensures DecodePair(k + ":" + v + ":" + rest) == (Some(k), Some(v))
  {
    assert k + ":" + v + ":" + rest == k + [':'] + (v + [':'] + rest);
    SplitCons(k, ':', v + [':'] + rest);
    SplitCons(v, ':', rest);
  }

  /** An item without a colon is a key with a nil value
      (the help text's `mybuild=333`). */
  lemma DecodePairNoColon(item: string)
    requires item != "" && ':' !in item
    ensures DecodePair(item) == (Some(item), None)
  {
    SplitNoSeparator(item, ':');
  }

  /** A trailing colon is dropped by split, so `k:` also has a nil value. */
  lemma DecodePairTrailingColon(k: string)
    requires k != "" && ':' !in k
    ensures DecodePair(k + ":") == (Some(k), None)
  {
    SplitCons(k, ':', "");
    SplitEmpty(':');
    assert k + ":" == k + [':'] + "";
  }

  /** An empty item, or a lone colon, gives a nil key and a nil value. */
  lemma DecodePairNothing()
    ensures DecodePair("") == (None, None)
    ensures DecodePair(":") == (None, None)
  {
    SplitEmpty(':');
    SplitCons("", ':', "");
    assert ":" == "" + [':'] + "";
  }

  /** Folding decoded items: the keys are the items' keys, and each key
      takes the value of the last item that names it. */
  lemma DecodeItemsLastWins(items: seq<string>)
    ensures Assign(map[], PairEntries(items)).Keys == set i | 0 <= i < |items| :: DecodePair(items[i]).0
    ensures forall i :: 0 <= i < |items| &&
              (forall j :: i < j < |items| ==> DecodePair(items[j]).0 != DecodePair(items[i]).0)
              ==> Assign(map[], PairEntries(items))[DecodePair(items[i]).0] == DecodePair(items[i]).1
  {
    var entries := PairEntries(items);
    assert |entries| == |items|;
    AssignKeys(map[], entries);
    assert (set i | 0 <= i < |entries| :: entries[i].0) == (set i | 0 <= i < |items| :: DecodePair(items[i]).0) by {
      forall i | 0 <= i < |items| ensures entries[i].0 == DecodePair(items[i]).0 {
      }
    }
    forall i | 0 <= i < |items| && (forall j :: i < j < |items| ==> DecodePair(items[j]).0 != DecodePair(items[i]).0)
      ensures Assign(map[], entries)[DecodePair(items[i]).0] == DecodePair(items[i]).1
    {
      assert entries[i] == DecodePair(items[i]);
      forall j | i < j < |entries| ensures entries[j].0 != entries[i].0 {
        assert entries[j] == DecodePair(items[j]);
      }
      AssignLastWins(map[], entries, i);
    }
  }

  /** The decoded keys are the items' keys, and each key takes the value of
      the last item that names it. */
  lemma DecodePairsLastWins(s: string)
    ensures DecodePairs(s).Keys == set i | 0 <= i < |Split(s, ',')| :: DecodePair(Split(s, ',')[i]).0
    ensures forall i :: 0 <= i < |Split(s, ',')| &&
              (forall j :: i < j < |Split(s, ',')| ==> DecodePair(Split(s, ',')[j]).0 != DecodePair(Split(s, ',')[i]).0)
              ==> DecodePairs(s)[DecodePair(Split(s, ',')[i]).0] == DecodePair(Split(s, ',')[i]).1
  {
    DecodeItemsLastWins(Split(s, ','));
  }

  /** Two items decode left to right into the map, the second overriding the first. */
  lemma DecodePairsTwoItems(a: string, b: string)
    requires ',' !in a && ',' !in b && a != "" && b != ""
    ensures DecodePairs(a + "," + b) ==
            map[DecodePair(a).0 := DecodePair(a).1][DecodePair(b).0 := DecodePair(b).1]
  {
    var s := a + "," + b;
    assert s == a + [','] + b;
    SplitCons(a, ',', b);
    SplitNoSeparator(b, ',');
    assert Split(s, ',') == [a, b];
    var e := PairEntries([a, b]);
    assert e == [DecodePair(a), DecodePair(b)];
    assert e[..1] == [e[0]] && e[..0] == [];
    assert Assign(map[], e[..1]) == map[DecodePair(a).0 := DecodePair(a).1];
  }

  /** `k1:v1,k2:v2` decodes to `k1 -> v1` then `k2 -> v2`, the later one
      winning when the keys coincide (the `-f` help text's
      `numeric_severity:3,indicator_of_compromise:true` is an instance). */
  lemma DecodeTwoKeyValues(k1: string, v1: string, k2: string, v2: string)
    requires ':' !in k1 && ':' !in v1 && ':' !in k2 && ':' !in v2
    requires ',' !in k1 && ',' !in v1 && ',' !in k2 && ',' !in v2
    requires v1 != "" && v2 != ""
    ensures DecodePairs(k1 + ":" + v1 + "," + k2 + ":" + v2) ==
            map[Some(k1) := Some(v1)][Some(k2) := Some(v2)]
  {
    DecodePairKeyValue(k1, v1);
    DecodePairKeyValue(k2, v2);
    DecodePairsTwoItems(k1 + ":" + v1, k2 + ":" + v2);
    assert k1 + ":" + v1 + "," + k2 + ":" + v2 == (k1 + ":" + v1) + "," + (k2 + ":" + v2);
  }

  /** `k:v,item` with a colon-free `item`: the item is a key with a nil value,
      as `mybuild=333` in the `-t` help text `auditable:true,mybuild=333`. */
  lemma DecodeKeyValueThenBare(k: string, v: string, item: string)
    requires ':' !in k && ':' !in v && ':' !in item
    requires ',' !in k && ',' !in v && ',' !in item
    requires v != "" && item != ""
    ensures DecodePairs(k + ":" + v + "," + item) == map[Some(k) := Some(v)][Some(item) := None]
  {
    DecodePairKeyValue(k, v);
    DecodePairNoColon(item);
    DecodePairsTwoItems(k + ":" + v, item);
    assert k + ":" + v + "," + item == (k + ":" + v) + "," + item;
  }

  // ---------------------------------------------------------------------
  // -r: rule abbreviations

  /** `expanded_rules[abbrev.to_sym]`: the full rule-package name, nil for an
      unknown abbreviation. */
  function ExpandRule(abbrev: string): Option<string>
  {
    if abbrev == "SEC" then Some("Security Best Practices")
    else if abbrev == "RUN" then Some("Runtime Behavior Analysis")
    else if abbrev == "COM" then Some("Common Vulnerabilities and Exposures")
    else if abbrev == "CIS" then Some("CIS Operating System Security Configuration Benchmarks")
    else None
  }

  /** `r.split(',').map { |rtr| expanded_rules[rtr.to_sym] }` */
  function ExpandRules(r: string): seq<Option<string>>
  {
    var items := Split(r, ',');
    seq(|items|, i requires 0 <= i < |items| => ExpandRule(items[i]))
  }

  /** One result per comma-separated item, in the same order; an item gives a
      name exactly when it is one of the four abbreviations, and nil otherwise. */
  lemma ExpandRulesShape(r: string)
    ensures |ExpandRules(r)| == |Split(r, ',')|
    ensures forall i :: 0 <= i < |ExpandRules(r)| ==>
              (ExpandRules(r)[i].Some? <==> Split(r, ',')[i] in ["SEC", "RUN", "COM", "CIS"])
    ensures forall i :: 0 <= i < |ExpandRules(r)| && Split(r, ',')[i] == "SEC" ==>
              ExpandRules(r)[i] == Some("Security Best Practices")
    ensures forall i :: 0 <= i < |ExpandRules(r)| && Split(r, ',')[i] == "RUN" ==>
              ExpandRules(r)[i] == Some("Runtime Behavior Analysis")
    ensures forall i :: 0 <= i < |ExpandRules(r)| && Split(r, ',')[i] == "COM" ==>
              ExpandRules(r)[i] == Some("Common Vulnerabilities and Exposures")
    ensures forall i :: 0 <= i < |ExpandRules(r)| && Split(r, ',')[i] == "CIS" ==>
              ExpandRules(r)[i] == Some("CIS Operating System Security Configuration Benchmarks")
  {
  }

  /** Two comma-separated abbreviations expand in order. */
  lemma ExpandRulesTwoItems(a: string, b: string)
    requires ',' !in a && ',' !in b && a != "" && b != ""
    ensures ExpandRules(a + "," + b) == [ExpandRule(a), ExpandRule(b)]
  {
    assert a + "," + b == a + [','] + b;
    SplitCons(a, ',', b);
    SplitNoSeparator(b, ',');
    assert Split(a + "," + b, ',') == [a, b];
  }

  /** The `-r` help text example. */
  lemma ExpandRulesExample()
    ensures ExpandRules("SEC,RUN") == [Some("Security Best Practices"), Some("Runtime Behavior Analysis")]
  {
    ExpandRulesTwoItems("SEC", "RUN");
    assert "SEC,RUN" == "SEC" + "," + "RUN";
  }

  /** An unknown abbreviation yields nil in its place rather than an error. */
  lemma ExpandRulesUnknown()
    ensures ExpandRules("SEC,XYZ") == [Some("Security Best Practices"), None]
  {
    ExpandRulesTwoItems("SEC", "XYZ");
    assert "SEC,XYZ" == "SEC" + "," + "XYZ";
  }

  // ---------------------------------------------------------------------
  // parse: the callbacks, fired in command-line order

  /** The key a callback assigns and the value it stores there. */
  function Callback(flag: Flag): (string, Value)
  {
    match flag
    case ConfigFile(c) => ("config_file", Str(c))
    case NamePrefix(n) => ("aws_name_prefix", Str(n))
    case FailureMetrics(f) => ("failure_metrics", Pairs(DecodePairs(f)))
    case RulesToRun(r) => ("rules_to_run", Names(ExpandRules(r)))
    case TargetTags(t) => ("target_tags", Pairs(DecodePairs(t)))
    case AssetDuration(d) => ("asset_duration", Str(d))
    case CleanupResources(x) => ("cleanup_resources", Bool(x))
  }

  function FlagEntries(flags: seq<Flag>): seq<(string, Value)>
  {
    seq(|flags|, i requires 0 <= i < |flags| => Callback(flags[i]))
  }

  /** The options hash after the callbacks of `flags` ran on `init`. */
  function ApplyFlags(init: Options, flags: seq<Flag>): Options
  {
    Assign(init, FlagEntries(flags))
  }

  /** `parse`: each recognised flag's callback stores its decoded argument. */
  method Parse(flags: seq<Flag>, init: Options) returns (options: Options)
    ensures options == ApplyFlags(init, flags)
  {
    options := init;
    for i := 0 to |flags|
      invariant options == ApplyFlags(init, flags[..i])
    {
      assert FlagEntries(flags[..i + 1])[..i] == FlagEntries(flags[..i]);
      var (key, value) := Callback(flags[i]);
      options := options[key := value];
    }
    assert flags[..|flags|] == flags;
  }

  /** A key set by a flag holds the value of the last flag that sets it; a key
      no flag sets keeps its initial value, or stays absent. */
  lemma ApplyFlagsLastWins(init: Options, flags: seq<Flag>, i: nat, key: string)
    ensures i < |flags| && (forall j :: i < j < |flags| ==> Callback(flags[j]).0 != Callback(flags[i]).0) ==>
              Callback(flags[i]).0 in ApplyFlags(init, flags) &&
              ApplyFlags(init, flags)[Callback(flags[i]).0] == Callback(flags[i]).1
    ensures (forall j :: 0 <= j < |flags| ==> Callback(flags[j]).0 != key) ==>
              (key in ApplyFlags(init, flags) <==> key in init) &&
              (key in init ==> ApplyFlags(init, flags)[key] == init[key])
  {
    if i < |flags| && (forall j :: i < j < |flags| ==> Callback(flags[j]).0 != Callback(flags[i]).0) {
      AssignLastWins(init, FlagEntries(flags), i);
    }
    if forall j :: 0 <= j < |flags| ==> Callback(flags[j]).0 != key {
      AssignUntouched(init, FlagEntries(flags), key);
    }
  }

  // ---------------------------------------------------------------------
  // read_config, merged_options, check_for_required_options

  /** `options['config_file'] || 'config.yml'`. A truthy value that is not a
      string cannot be loaded; `read_config` then rescues to false (None). */
  function ConfigFileName(options: Options): Option<string>
  {
    if "config_file" !in options || !Truthy(options["config_file"]) then Some("config.yml")
    else if options["config_file"].Str? then Some(options["config_file"].s)
    else None
  }

  /** `read_config(options['config_file'] || 'config.yml')`. `files` holds the
      config files whose YAML document is a mapping; any other file (missing,
      unreadable, empty) reads as false. */
  function ReadConfig(files: map<string, Options>, options: Options): Option<Options>
  {
    match ConfigFileName(options)
    case Some(name) => if name in files then Some(files[name]) else None
    case None => None
  }

  /** `merged_options`: a truthy YAML config merged with the CLI options. */
  function Merge(yml: Option<Options>, cli: Options): (m: Options)
    ensures yml.None? ==> m == cli
    ensures yml.Some? ==> m.Keys == yml.value.Keys + cli.Keys
    ensures forall k :: k in cli ==> k in m && m[k] == cli[k]
    ensures yml.Some? ==> forall k :: k in yml.value && k !in cli ==> m[k] == yml.value[k]
  {
    match yml
    case None => cli
    case Some(y) => y + cli
  }

  /** The keys that must be present, in the order they are checked. */
  const RequiredOptions: seq<string> :=
    ["aws_name_prefix", "rules_to_run", "target_tags", "asset_duration", "cleanup_resources"]

  /** The error raised by the required-keys check. */
  datatype ConfigError = MissingOption(key: string)
  {
    function Message(): string
    {
      "Missing config options: " + key
    }
  }

  /** `key` is the first required key, in listed order, that `options` lacks. */
  ghost predicate IsFirstMissing(options: Options, key: string)
  {
    exists i :: 0 <= i < |RequiredOptions| && RequiredOptions[i] == key && key !in options &&
      forall j :: 0 <= j < i ==> RequiredOptions[j] in options
  }

  /** `check_for_required_options`: passes iff every required key is present
      (whatever its value, nil included); otherwise raises naming the first
      missing key. */
  method CheckForRequiredOptions(options: Options) returns (r: Outcome<ConfigError>)
    ensures r.Pass? <==> forall k :: k in RequiredOptions ==> k in options
    ensures r.Fail? ==> IsFirstMissing(options, r.error.key)
  {
    for i := 0 to |RequiredOptions|
      invariant forall j :: 0 <= j < i ==> RequiredOptions[j] in options
    {
      if RequiredOptions[i] !in options {
        return Fail(MissingOption(RequiredOptions[i]));
      }
    }
    return Pass;
  }

  /** The merged options the pipeline checks and returns. */
  function MergedOptions(flags: seq<Flag>, files: map<string, Options>): Options
  {
    var cli := ApplyFlags(map[], flags);
    Merge(ReadConfig(files, cli), cli)
  }

  /** `parsed_options`: parse, read the config file, merge, check. */
  method ParsedOptions(flags: seq<Flag>, files: map<string, Options>) returns (r: Result<Options, ConfigError>)
    ensures r.Ok? <==> forall k :: k in RequiredOptions ==> k in MergedOptions(flags, files)
    ensures r.Ok? ==> r.value == MergedOptions(flags, files)
    ensures r.Err? ==> IsFirstMissing(MergedOptions(flags, files), r.error.key)
  {
    var options := Parse(flags, map[]);
    var ymlConfig := ReadConfig(files, options);
    var merged := Merge(ymlConfig, options);
    var check := CheckForRequiredOptions(merged);
    if check.Fail? {
      return Err(check.error);
    }
    return Ok(merged);
  }

  /** Without a `-c` flag the config file is `config.yml`; with one, the last
      `-c` names it. */
  lemma ConfigFileNameFromFlags(flags: seq<Flag>)
    ensures (forall j :: 0 <= j < |flags| ==> !flags[j].ConfigFile?) ==>
              ConfigFileName(ApplyFlags(map[], flags)) == Some("config.yml")
    ensures forall i :: (0 <= i < |flags| && flags[i].ConfigFile? &&
              (forall j :: i < j < |flags| ==> !flags[j].ConfigFile?)) ==>
              ConfigFileName(ApplyFlags(map[], flags)) == Some(flags[i].c)
  {
    ApplyFlagsLastWins(map[], flags, 0, "config_file");
    forall i | 0 <= i < |flags| && flags[i].ConfigFile? && (forall j :: i < j < |flags| ==> !flags[j].ConfigFile?)
      ensures ConfigFileName(ApplyFlags(map[], flags)) == Some(flags[i].c)
    {
      ApplyFlagsLastWins(map[], flags, i, "config_file");
    }
  }

  /** The command line wins: whatever the config file says, a key set by a
      flag holds the last such flag's decoded argument after merging. */
  lemma MergedOptionsCliWins(flags: seq<Flag>, files: map<string, Options>, i: nat)
    requires i < |flags|
    requires forall j :: i < j < |flags| ==> Callback(flags[j]).0 != Callback(flags[i]).0
    ensures Callback(flags[i]).0 in MergedOptions(flags, files)
    ensures MergedOptions(flags, files)[Callback(flags[i]).0] == Callback(flags[i]).1
  {
    ApplyFlagsLastWins(map[], flags, i, "");
  }

  /** A key no flag sets comes from the config file, if the file has it. */
  lemma MergedOptionsFromConfig(flags: seq<Flag>, files: map<string, Options>, key: string)
    requires forall j :: 0 <= j < |flags| ==> Callback(flags[j]).0 != key
    ensures key in MergedOptions(flags, files) <==>
              ReadConfig(files, ApplyFlags(map[], flags)).Some? && key in ReadConfig(files, ApplyFlags(map[], flags)).value
    ensures key in MergedOptions(flags, files) ==>
              MergedOptions(flags, files)[key] == ReadConfig(files, ApplyFlags(map[], flags)).value[key]
  {
    ApplyFlagsLastWins(map[], flags, 0, key);
  }
}
