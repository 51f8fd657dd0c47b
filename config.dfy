/**
 * The helpers the configuration template calls (brume/config.py): the outputs of deployed
 * stacks through a cache, environment variables, the name of the configuration file, the
 * guard that loads the configuration once, and the commit message made safe for YAML.
 */
module Config {
  import opened Wrappers
  import opened Strings
  import opened Dicts
  import opened Output
  import JsonModel

  const DefaultConfigFile := "brume.yml"

  /**
   * `brume_config_file`: the file named by the command line when that name is not empty, else
   * `brume.yml`; either way a non-empty name.
   */
  function ConfigFile(configurationFile: Option<string>): (r: string)
    ensures r != []
    ensures r == DefaultConfigFile || (configurationFile.Some? && r == configurationFile.value)
    ensures configurationFile.Some? && configurationFile.value != [] ==> r == configurationFile.value
  {
    if configurationFile.Some? && configurationFile.value != [] then configurationFile.value
    else DefaultConfigFile
  }

  /**
   * How a lookup of `cloudformation` ends: with the value reached; with exit status 1 because
   * `key` is not in the value reached so far; with the `TypeError` Python raises when the value
   * reached is an output string that contains `key` (so `key in value` holds but `value[key]`
   * cannot be taken); or with the failure of the walk that fetched the outputs.
   */
  datatype Lookup =
    | Found(value: Value)
    | MissingKey(key: string)
    | NotIndexable(key: string)
    | FetchFailed(walk: Walked)

  /** `key in value` in Python: a key of a map, or a substring of an output string. */
  predicate Holds(value: Value, key: string) {
    match value
    case Map(entries) => key in Names(entries)
    case Text(t) => Contains(t, key)
  }

  /** Following `keys` from `current`, checking each key before taking it. */
  function Descend(current: Value, keys: seq<string>): (r: Lookup)
    ensures !r.FetchFailed?
    ensures r.MissingKey? || r.NotIndexable? ==> r.key in keys
    decreases |keys|
  {
    if keys == [] then Found(current)
    else
      match current
      case Map(entries) =>
        (match ValueOf(entries, keys[0])
         case Some(v) => Descend(v, keys[1..])
         case None => MissingKey(keys[0]))
      case Text(t) =>
        if Contains(t, keys[0]) then NotIndexable(keys[0]) else MissingKey(keys[0])
  }

  /** Following `a + b` is following `a`, then `b` from where `a` led. */
  lemma {:induction false} DescendConcat(current: Value, a: seq<string>, b: seq<string>)
    ensures Descend(current, a + b) ==
      match Descend(current, a)
      case Found(v) => Descend(v, b)
      case failure => failure
    decreases |a|
  {
    if a != [] {
      assert (a + b)[0] == a[0] && (a + b)[1..] == a[1..] + b;
      match current
      case Map(entries) =>
        match ValueOf(entries, a[0]) {
          case Some(v) =>
            assert Descend(current, a + b) == Descend(v, a[1..] + b);
            DescendConcat(v, a[1..], b);
          case None =>
            assert Descend(current, a) == MissingKey(a[0]) == Descend(current, a + b);
        }
      case Text(t) =>
        assert Descend(current, a) == Descend(current, a + b);
    } else {
      assert a + b == b;
    }
  }

  /** A lookup that succeeds found each key of the path in the map reached before it. */
  lemma DescendFound(current: Value, keys: seq<string>, i: nat)
    requires Descend(current, keys).Found? && i < |keys|
    ensures Descend(current, keys[..i]).Found?
    ensures Descend(current, keys[..i]).value.Map? && keys[i] in Names(Descend(current, keys[..i]).value.entries)
  {
    assert keys == keys[..i] + keys[i..];
    DescendConcat(current, keys[..i], keys[i..]);
    assert keys[i..][0] == keys[i];
  }

  /**
   * A lookup that stops at a key stops at the first key of the path that the value reached
   * before it does not hold (exit status 1), or that it holds as a substring of an output string
   * (a `TypeError`).
   */
  lemma DescendStops(current: Value, keys: seq<string>, i: nat)
    requires i < |keys| && Descend(current, keys[..i]).Found?
    requires !(Descend(current, keys[..i]).value.Map? && keys[i] in Names(Descend(current, keys[..i]).value.entries))
    ensures Descend(current, keys) ==
      if Holds(Descend(current, keys[..i]).value, keys[i]) then NotIndexable(keys[i]) else MissingKey(keys[i])
  {
    assert keys == keys[..i] + keys[i..];
    DescendConcat(current, keys[..i], keys[i..]);
    assert keys[i..][0] == keys[i];
  }

  /**
   * The cache and its answer after a request for `stackName`: the outputs of a stack already in
   * the cache are reused as they are; otherwise they are fetched and stored before the lookup.
   */
  function Request(definitions: map<string, seq<(string, Value)>>, client: Client, stackName: string,
                   keys: seq<string>, ghost rank: map<string, nat>): (r: (map<string, seq<(string, Value)>>, Lookup))
    requires Ranked(client, rank)
    ensures r.1.FetchFailed? ==> stackName !in definitions && r.0 == definitions
    ensures !r.1.FetchFailed? ==> stackName in r.0 && r.1 == Descend(Map(r.0[stackName]), keys)
    ensures stackName in definitions ==> r.0 == definitions
    ensures definitions.Keys <= r.0.Keys && forall s | s in definitions :: r.0[s] == definitions[s]
    ensures stackName !in definitions && WalkSpec(client, [], stackName, rank).Walked? ==>
      r.0 == definitions[stackName := WalkSpec(client, [], stackName, rank).outputs] &&
      r.1 == Descend(Map(WalkSpec(client, [], stackName, rank).outputs), keys)
    ensures stackName !in definitions && !WalkSpec(client, [], stackName, rank).Walked? ==>
      r == (definitions, FetchFailed(WalkSpec(client, [], stackName, rank)))
  {
    if stackName in definitions then (definitions, Descend(Map(definitions[stackName]), keys))
    else
      match WalkSpec(client, [], stackName, rank)
      case Walked(outputs) =>
        var cached := definitions[stackName := outputs];
        (cached, Descend(Map(outputs), keys))
      case failure => (definitions, FetchFailed(failure))
  }

  /** Every cached entry holds what a walk of that stack gives now. */
  ghost predicate Current(definitions: map<string, seq<(string, Value)>>, client: Client, rank: map<string, nat>)
    requires Ranked(client, rank)
  {
    forall s | s in definitions :: WalkSpec(client, [], s, rank) == Walked(definitions[s])
  }

  /**
   * While the stacks do not change, the cache changes no answer: a request gives what it gives
   * on an empty cache, and the cache stays current.
   */
  lemma RequestTransparent(definitions: map<string, seq<(string, Value)>>, client: Client, stackName: string,
                           keys: seq<string>, rank: map<string, nat>)
    requires Ranked(client, rank) && Current(definitions, client, rank)
    ensures Request(definitions, client, stackName, keys, rank).1 == Request(map[], client, stackName, keys, rank).1
    ensures Current(Request(definitions, client, stackName, keys, rank).0, client, rank)
  {
  }

  /**
   * The outputs fetched so far, by stack name (`stack_outputs_definition`). The name alone is
   * the key, so a later request for the same name in another region gets the cached outputs.
   */
  class OutputCache {
    var definitions: map<string, seq<(string, Value)>>

    constructor()
      ensures definitions == map[]
    {
      definitions := map[];
    }

    /**
     * `cloudformation(region, stack_name, key, *sub_keys)`, with `client` answering for the
     * region: fetches the outputs when the name is not cached yet, then follows `key` and each
     * sub-key.
     */
    method Cloudformation(client: Client, ghost rank: map<string, nat>, stackName: string, key: string,
                          subKeys: seq<string>) returns (r: Lookup)
      requires Ranked(client, rank)
      modifies this
      ensures (definitions, r) == Request(old(definitions), client, stackName, [key] + subKeys, rank)
    {
      if stackName !in definitions {
        var walked := StackOutputs(client, stackName, rank);
        if !walked.Walked? {
          return FetchFailed(walked);
        }
        definitions := definitions[stackName := walked.outputs];
      }
      var keys := [key] + subKeys;
      var current := Map(definitions[stackName]);
      for i := 0 to |keys|
        invariant Descend(Map(definitions[stackName]), keys) == Descend(current, keys[i..])
      {
        assert keys[i..][1..] == keys[i + 1..];
        match current
        case Text(t) =>
          return if Contains(t, keys[i]) then NotIndexable(keys[i]) else MissingKey(keys[i]);
        case Map(entries) =>
          var next := ValueOf(entries, keys[i]);
          if next.None? {
            return MissingKey(keys[i]);
          }
          current := next.value;
      }
      return Found(current);
    }
  }

  /**
   * The sub-keys `Config.cfn` passes on: none when `second_key` is `None` (whatever
   * `third_key` is), one when only `third_key` is `None`, two otherwise.
   */
  function CfnSubKeys(secondKey: Option<string>, thirdKey: Option<string>): (r: seq<string>)
    ensures secondKey.None? <==> r == []
    ensures secondKey.Some? ==> r[0] == secondKey.value
    ensures |r| == 2 <==> secondKey.Some? && thirdKey.Some?
    ensures |r| == 2 ==> r[1] == thirdKey.value
  {
    if secondKey.None? then []
    else if thirdKey.None? then [secondKey.value]
    else [secondKey.value, thirdKey.value]
  }

  /** `Config.cfn` */
  method Cfn(cache: OutputCache, client: Client, ghost rank: map<string, nat>, stackName: string, key: string,
             secondKey: Option<string>, thirdKey: Option<string>) returns (r: Lookup)
    requires Ranked(client, rank)
    modifies cache
    ensures (cache.definitions, r) ==
      Request(old(cache.definitions), client, stackName, [key] + CfnSubKeys(secondKey, thirdKey), rank)
  {
    r := cache.Cloudformation(client, rank, stackName, key, CfnSubKeys(secondKey, thirdKey));
  }

  /** The value of an environment variable, or exit status 1 when there is none to give. */
  datatype EnvValue = EnvValue(value: string) | NoVariable

  /**
   * `Config.env`: with a non-empty default, the variable's value or that default; without one,
   * the variable's value, and exit status 1 when it is not set.
   */
  function Env(environ: map<string, string>, key: string, default: Option<string>): (r: EnvValue)
    ensures r.NoVariable? <==> key !in environ && (default.None? || default.value == [])
    ensures key in environ ==> r == EnvValue(environ[key])
    ensures r.EnvValue? && key !in environ ==> default.Some? && r.value == default.value != []
  {
    if default.Some? && default.value != [] then
      EnvValue(if key in environ then environ[key] else default.value)
    else if key in environ then EnvValue(environ[key])
    else NoVariable
  }

  /**
   * `_git_commit_msg` on the output of `git log`: surrounding whitespace stripped and every
   * single quote removed, the other characters kept.
   */
  function CommitMessage(out: string): (r: string)
    ensures r == Without(Strip(out, Whitespace), '\'')
    ensures multiset(r) == multiset(Strip(out, Whitespace))['\'' := 0]
  {
    var stripped := Strip(out, Whitespace);
    RemoveCharMultiset(stripped, '\'');
    RemoveCharWithout(stripped, '\'');
    RemoveAll(stripped, "'")
  }

  /** A subject with no single quote is only stripped. */
  lemma CommitMessageUnquoted(out: string)
    requires '\'' !in Strip(out, Whitespace)
    ensures CommitMessage(out) == Strip(out, Whitespace)
  {
    WithoutAbsent(Strip(out, Whitespace), '\'');
  }

  /** The message of a subject in two pieces is the pieces' messages, in order. */
  lemma CommitMessageSplit(out: string, a: string, b: string)
    requires Strip(out, Whitespace) == a + b
    ensures CommitMessage(out) == Without(a, '\'') + Without(b, '\'')
  {
    WithoutAppend(a, b, '\'');
  }

  /** What rendering a configuration template gives: the YAML document, or an error (exit status 1). */
  datatype Rendered = Rendered(doc: JsonModel.Json) | RenderError(message: string)

  /** How `Config.load` ends: with the configuration, or with exit status 1 for the file named. */
  datatype Loaded = Loaded(config: JsonModel.Json) | LoadFailed(file: string)

  /** The class attribute `Config.config`, which holds the configuration once loaded. */
  class ConfigStore {
    var config: JsonModel.Json

    constructor()
      ensures config == JsonModel.EmptyObject
    {
      config := JsonModel.EmptyObject;
    }

    /**
     * `Config.load`: renders the file named (or the configuration file) only while the stored
     * configuration is empty; `templates` gives what rendering each file gives, and a file it
     * does not list is not found.
     */
    method Load(configFile: Option<string>, configurationFile: Option<string>, templates: map<string, Rendered>)
      returns (r: Loaded)
      modifies this
      ensures JsonModel.Truthy(old(config)) ==> config == old(config) && r == Loaded(config)
      ensures !JsonModel.Truthy(old(config)) ==>
        var file := if configFile.Some? && configFile.value != [] then configFile.value else ConfigFile(configurationFile);
        if file in templates && templates[file].Rendered?
        then config == templates[file].doc && r == Loaded(config)
        else config == old(config) && r == LoadFailed(file)
    {
      var file := if configFile.Some? && configFile.value != [] then configFile.value else ConfigFile(configurationFile);
      if !JsonModel.Truthy(config) {
        if file !in templates {
          return LoadFailed(file);
        }
        match templates[file]
        case RenderError(_) =>
          return LoadFailed(file);
        case Rendered(doc) =>
          config := doc;
      }
      return Loaded(config);
    }
  }
}
