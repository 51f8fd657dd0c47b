/**
 * The static template checker: collects the `Ref` and `Fn::GetAtt` targets of a CloudFormation
 * template, reports those that name nothing declared, checks the parameters a root template
 * passes to its nested stacks, and the `Outputs.X` attributes the root reads from them.
 * Files are given as a map from path to parsed document; a path absent from it cannot be opened.
 */
module Checker {
  import opened Wrappers
  import opened Strings
  import opened Paths
  import opened JsonModel
  import opened Dicts

  const RefKey := "Ref"
  const GetAttKey := "Fn::GetAtt"
  const NestedStackType := "AWS::CloudFormation::Stack"
  const OutputsPrefix := "Outputs."

  /** A string naming an AWS pseudo-parameter (`AWS::Region`, ...): resolved by the platform. */
  predicate IsPseudoParameter(v: Json) {
    v.Str? && StartsWith(v.text, "AWS::")
  }

  // ---------------------------------------------------------------------------------------------
  // Collecting references

  /**
   * The values of the entries named `key`, in document order, inside `node` and the objects
   * nested in it, also through lists. A pseudo-parameter value is skipped before its key is
   * looked at, and the search does not go inside a value it reports.
   */
  function FindNodes(node: Json, key: string): (r: seq<Json>)
    ensures forall v :: v in r ==> !IsPseudoParameter(v)
    decreases node
  {
    match node
    case Obj(entries) => FindInEntries(entries, key)
    case _ => []
  }

  function FindInEntries(entries: seq<(string, Json)>, key: string): (r: seq<Json>)
    ensures forall v :: v in r ==> !IsPseudoParameter(v)
    decreases entries
  {
    if entries == [] then []
    else FindInEntry(entries[0], key) + FindInEntries(entries[1..], key)
  }

  function FindInEntry(entry: (string, Json), key: string): (r: seq<Json>)
    ensures forall v :: v in r ==> !IsPseudoParameter(v)
    decreases entry
  {
    var (k, v) := entry;
    if IsPseudoParameter(v) then []
    else if k == key then [v]
    else if v.Arr? then FindInList(v.items, key)
    else if v.Obj? then FindNodes(v, key)
    else []
  }

  function FindInList(items: seq<Json>, key: string): (r: seq<Json>)
    ensures forall v :: v in r ==> !IsPseudoParameter(v)
    decreases items
  {
    if items == [] then []
    else FindNodes(items[0], key) + FindInList(items[1..], key)
  }

  /** The search over the entries of an object is the search over each entry, in order. */
  lemma {:induction false} FindInEntriesAppend(a: seq<(string, Json)>, b: seq<(string, Json)>, key: string)
    ensures FindInEntries(a + b, key) == FindInEntries(a, key) + FindInEntries(b, key)
  {
    if a != [] {
      assert (a + b)[0] == a[0];
      assert (a + b)[1..] == a[1..] + b;
      FindInEntriesAppend(a[1..], b, key);
    } else {
      assert a + b == b;
    }
  }

  /** Whatever the search finds in one entry, it finds in the object holding it. */
  lemma {:induction false} FindInEntriesCovers(entries: seq<(string, Json)>, key: string, i: nat, v: Json)
    requires i < |entries| && v in FindInEntry(entries[i], key)
    ensures v in FindInEntries(entries, key)
  {
    if i > 0 {
      FindInEntriesCovers(entries[1..], key, i - 1, v);
    }
  }

  /** An entry named `key` whose value is not a pseudo-parameter is reported, at any position. */
  lemma FindsMatchingEntry(entries: seq<(string, Json)>, key: string, i: nat)
    requires i < |entries| && entries[i].0 == key && !IsPseudoParameter(entries[i].1)
    ensures entries[i].1 in FindNodes(Obj(entries), key)
  {
    FindInEntriesCovers(entries, key, i, entries[i].1);
  }

  /** The search goes down into an object held by an entry with another name. */
  lemma FindsInNestedObject(entries: seq<(string, Json)>, key: string, i: nat, v: Json)
    requires i < |entries| && entries[i].0 != key && entries[i].1.Obj?
    requires v in FindNodes(entries[i].1, key)
    ensures v in FindNodes(Obj(entries), key)
  {
    FindInEntriesCovers(entries, key, i, v);
  }

  /** The search goes down into each object of a list held by an entry with another name. */
  lemma FindsInListedObject(entries: seq<(string, Json)>, key: string, i: nat, n: nat, v: Json)
    requires i < |entries| && entries[i].0 != key && entries[i].1.Arr?
    requires n < |entries[i].1.items| && v in FindNodes(entries[i].1.items[n], key)
    ensures v in FindNodes(Obj(entries), key)
  {
    FindInListCovers(entries[i].1.items, key, n, v);
    FindInEntriesCovers(entries, key, i, v);
  }

  lemma {:induction false} FindInListCovers(items: seq<Json>, key: string, n: nat, v: Json)
    requires n < |items| && v in FindNodes(items[n], key)
    ensures v in FindInList(items, key)
  {
    if n > 0 {
      FindInListCovers(items[1..], key, n - 1, v);
    }
  }

  /** `Stack.find`: the matches in the resources, then those in the outputs. */
  function Find(resources: Json, outputs: Json, key: string): (r: seq<Json>)
    ensures forall v :: v in r ==> !IsPseudoParameter(v)
  {
    FindNodes(resources, key) + FindNodes(outputs, key)
  }

  // ---------------------------------------------------------------------------------------------
  // Undeclared references

  /** The elements of `xs` that `keep` accepts, in order and with their repetitions. */
  function Filter(xs: seq<Json>, keep: Json -> bool): seq<Json> {
    if xs == [] then []
    else (if keep(xs[0]) then [xs[0]] else []) + Filter(xs[1..], keep)
  }

  lemma {:induction false} FilterKeeps(xs: seq<Json>, keep: Json -> bool)
    ensures forall v :: v in Filter(xs, keep) <==> v in xs && keep(v)
    ensures forall v :: multiset(Filter(xs, keep))[v] == if keep(v) then multiset(xs)[v] else 0
  {
    if xs != [] {
      assert xs == [xs[0]] + xs[1..];
      FilterKeeps(xs[1..], keep);
    }
  }

  /** A value that can be looked up in a dictionary: a list or an object cannot. */
  predicate Hashable(v: Json) {
    !v.Obj? && !v.Arr?
  }

  /**
   * `has_ref`: the reference names a resource or a parameter. Keys are strings, so a value of
   * another kind is never found.
   */
  predicate HasRef(ref: Json, resources: Json, parameters: Json) {
    ref.Str? && (HasKey(resources, ref.text) || HasKey(parameters, ref.text))
  }

  /** `missing_refs`: every `Ref` target found that names neither a resource nor a parameter. */
  function MissingRefs(resources: Json, outputs: Json, parameters: Json): seq<Json> {
    Filter(Find(resources, outputs, RefKey), v => !HasRef(v, resources, parameters))
  }

  /** Exactly the undeclared targets, each as often as it is found. */
  lemma MissingRefsAreUndeclared(resources: Json, outputs: Json, parameters: Json)
    ensures forall v :: v in MissingRefs(resources, outputs, parameters) <==>
                        v in Find(resources, outputs, RefKey) && !HasRef(v, resources, parameters)
    ensures forall v :: multiset(MissingRefs(resources, outputs, parameters))[v] ==
                        (if HasRef(v, resources, parameters) then 0 else multiset(Find(resources, outputs, RefKey))[v])
  {
    FilterKeeps(Find(resources, outputs, RefKey), v => !HasRef(v, resources, parameters));
  }

  /**
   * A `Fn::GetAtt` value `has_getatt` can read: a list whose first element can be looked up, or a
   * string, whose first character is then what is looked up.
   */
  predicate GetAttIndexable(a: Json) {
    (a.Arr? && |a.items| >= 1 && Hashable(a.items[0])) || (a.Str? && |a.text| >= 1)
  }

  /**
   * A `Fn::GetAtt` value of the root template, whose second element the closing loop asks
   * `startswith` of: a string, or a character of a string.
   */
  predicate GetAttShape(a: Json) {
    (a.Arr? && |a.items| >= 2 && Hashable(a.items[0]) && a.items[1].Str?) || (a.Str? && |a.text| >= 2)
  }

  /** `att[k]`: an element of a list, a one-character string of a string (`None` otherwise). */
  function GetAttPart(a: Json, k: nat): Json {
    if a.Arr? && k < |a.items| then a.items[k]
    else if a.Str? && k < |a.text| then Str([a.text[k]])
    else Null
  }

  /** `has_getatt`: the first element of the attribute names a resource or a parameter. */
  predicate HasGetAtt(a: Json, resources: Json, parameters: Json) {
    HasRef(GetAttPart(a, 0), resources, parameters)
  }

  /** `missing_getatt`: every `Fn::GetAtt` found whose first element names nothing declared. */
  function MissingGetAtt(resources: Json, outputs: Json, parameters: Json): seq<Json> {
    Filter(Find(resources, outputs, GetAttKey), a => !HasGetAtt(a, resources, parameters))
  }

  /** Exactly the attributes whose first element is undeclared, each as often as it is found. */
  lemma MissingGetAttAreUndeclared(resources: Json, outputs: Json, parameters: Json)
    ensures forall a :: a in MissingGetAtt(resources, outputs, parameters) <==>
      a in Find(resources, outputs, GetAttKey) && !HasRef(GetAttPart(a, 0), resources, parameters)
    ensures forall a :: multiset(MissingGetAtt(resources, outputs, parameters))[a] ==
                        (if HasGetAtt(a, resources, parameters) then 0 else multiset(Find(resources, outputs, GetAttKey))[a])
  {
    FilterKeeps(Find(resources, outputs, GetAttKey), a => !HasGetAtt(a, resources, parameters));
  }

  // ---------------------------------------------------------------------------------------------
  // Parameters of nested stacks

  /** A parameter declaration `'Default' in` can be asked of. */
  predicate ParameterShape(p: Json) {
    p.Obj? || p.Arr? || p.Str?
  }

  /** `'Default' in param`: a key of an object, an element of a list, a substring of a string. */
  predicate HasDefault(p: Json)
    requires ParameterShape(p)
  {
    match p
    case Obj(_) => HasKey(p, "Default")
    case Arr(items) => Str("Default") in items
    case Str(text) => Contains(text, "Default")
  }

  /**
   * `missing_parameters`: declared parameters with no default that the parent does not pass. A
   * parameter the parent passes is not asked for a default (`and` stops first).
   */
  function MissingParameters(parameters: seq<(string, Json)>, inputs: Json): seq<string>
    requires forall e :: e in parameters && !HasKey(inputs, e.0) ==> ParameterShape(e.1)
  {
    if parameters == [] then []
    else
      var (n, p) := parameters[0];
      assert parameters[0] in parameters;
      assert forall e :: e in parameters[1..] ==> e in parameters;
      (if !HasKey(inputs, n) && !HasDefault(p) then [n] else []) + MissingParameters(parameters[1..], inputs)
  }

  lemma {:induction false} MissingParametersAreUnpassed(parameters: seq<(string, Json)>, inputs: Json)
    requires forall e :: e in parameters && !HasKey(inputs, e.0) ==> ParameterShape(e.1)
    ensures forall n :: n in MissingParameters(parameters, inputs) <==>
      exists p :: (n, p) in parameters && !HasKey(inputs, n) && !HasDefault(p)
  {
    if parameters != [] {
      assert forall e :: e in parameters <==> e == parameters[0] || e in parameters[1..];
      MissingParametersAreUnpassed(parameters[1..], inputs);
    }
  }

  /** `extra_parameters`: names the parent passes that the stack does not declare. */
  function ExtraParameters(inputs: seq<(string, Json)>, parameters: Json): seq<string> {
    if inputs == [] then []
    else (if !HasKey(parameters, inputs[0].0) then [inputs[0].0] else []) + ExtraParameters(inputs[1..], parameters)
  }

  lemma {:induction false} ExtraParametersAreUndeclared(inputs: seq<(string, Json)>, parameters: Json)
    ensures forall n :: n in ExtraParameters(inputs, parameters) <==>
      (exists p :: (n, p) in inputs) && !HasKey(parameters, n)
  {
    if inputs != [] {
      assert forall e :: e in inputs <==> e == inputs[0] || e in inputs[1..];
      ExtraParametersAreUndeclared(inputs[1..], parameters);
    }
  }

  // ---------------------------------------------------------------------------------------------
  // Well-formed templates

  /** `template.get(section, {})` */
  function Section(doc: Json, section: string): Json {
    GetOr(doc, section, EmptyObject)
  }

  /** What the checker needs of a template it loads: an object whose sections are objects. */
  predicate WellFormedTemplate(doc: Json) {
    && doc.Obj?
    && Section(doc, "Outputs").Obj?
    && Section(doc, "Resources").Obj?
    && Section(doc, "Parameters").Obj?
  }

  /** The parameters of a nested stack that its parent does not pass can be asked for a default. */
  predicate AskedForDefaults(doc: Json, inputs: Json)
    requires Section(doc, "Parameters").Obj?
  {
    forall e :: e in Section(doc, "Parameters").entries && !HasKey(inputs, e.0) ==> ParameterShape(e.1)
  }

  /** Every `Ref` target can be looked up and every `Fn::GetAtt` value read by `has_getatt`. */
  predicate WellFormedReferences(doc: Json) {
    && (forall v :: v in Find(Section(doc, "Resources"), Section(doc, "Outputs"), RefKey) ==> Hashable(v))
    && (forall a :: a in Find(Section(doc, "Resources"), Section(doc, "Outputs"), GetAttKey) ==> GetAttIndexable(a))
  }

  /** Every `Fn::GetAtt` value of the root has the second element the closing loop reads. */
  predicate RootReferences(doc: Json) {
    forall a :: a in Find(Section(doc, "Resources"), Section(doc, "Outputs"), GetAttKey) ==> GetAttShape(a)
  }

  /** `resource['Type'] == 'AWS::CloudFormation::Stack'` */
  predicate IsNestedStack(resource: Json) {
    Get(resource, "Type") == Some(Str(NestedStackType))
  }

  /** A root resource: it has a type, and a nested stack has an object of properties. */
  predicate WellFormedResource(resource: Json) {
    && HasKey(resource, "Type")
    && (IsNestedStack(resource) ==> HasKey(resource, "Properties") && Properties(resource).Obj?
                                    && InputParameters(resource).Obj?)
  }

  function Properties(resource: Json): Json
    requires HasKey(resource, "Properties")
  {
    Get(resource, "Properties").value
  }

  /** `resource['Properties'].get('Parameters', {})`: what the root passes to the nested stack. */
  function InputParameters(resource: Json): Json
    requires HasKey(resource, "Properties")
  {
    GetOr(Properties(resource), "Parameters", EmptyObject)
  }

  // ---------------------------------------------------------------------------------------------
  // The stack object

  class Stack {
    var name: string
    var outputs: Json
    var resources: Json
    var parameters: Json
    /** The parameters the root template passes to this stack. */
    var inputParameters: Json
    var templateUrl: Json

    constructor(name: string)
      ensures this.name == name && templateUrl == Str("")
      ensures outputs == EmptyObject && resources == EmptyObject && parameters == EmptyObject
      ensures inputParameters == EmptyObject
    {
      this.name := name;
      outputs := EmptyObject;
      resources := EmptyObject;
      templateUrl := Str("");
      inputParameters := EmptyObject;
      parameters := EmptyObject;
    }

    /** `new_substack`: a stack declared as a resource of the root, with what the root passes. */
    static method NewSubstack(name: string, resource: Json) returns (s: Stack)
      requires HasKey(resource, "Properties") && Properties(resource).Obj?
      ensures fresh(s) && s.name == name
      ensures s.inputParameters == InputParameters(resource)
      ensures s.templateUrl == GetOr(Properties(resource), "TemplateURL", EmptyObject)
      ensures s.outputs == EmptyObject && s.resources == EmptyObject && s.parameters == EmptyObject
    {
      s := new Stack(name);
      s.inputParameters := InputParameters(resource);
      s.templateUrl := GetOr(Properties(resource), "TemplateURL", EmptyObject);
    }

    /**
     * `load_from_file`: reads the template at `path` (the stack's name when `path` is empty)
     * and takes its sections, each `{}` when absent. Returns false when there is no such file.
     */
    method LoadFromFile(files: map<string, Json>, path: string) returns (found: bool)
      modifies this
      ensures found <==> TemplatePath(path, old(name)) in files
      ensures found ==> Loaded(files[TemplatePath(path, old(name))])
      ensures !found ==> outputs == old(outputs) && resources == old(resources) && parameters == old(parameters)
      ensures name == old(name) && inputParameters == old(inputParameters) && templateUrl == old(templateUrl)
    {
      var stackName := TemplatePath(path, name);
      if stackName !in files {
        return false;
      }
      var template := files[stackName];
      outputs := Section(template, "Outputs");
      parameters := Section(template, "Parameters");
      resources := Section(template, "Resources");
      return true;
    }

    /** The sections of this stack are those of `doc`. */
    predicate Loaded(doc: Json)
      reads this
    {
      && outputs == Section(doc, "Outputs")
      && resources == Section(doc, "Resources")
      && parameters == Section(doc, "Parameters")
    }
  }

  /** `name if name else self.name` */
  function TemplatePath(path: string, name: string): string {
    if path != [] then path else name
  }

  // ---------------------------------------------------------------------------------------------
  // check_templates, as a specification

  datatype Finding =
    | MissingParameter(root: string, stack: string, param: string)
    | ExtraParameter(root: string, stack: string, param: string)
    | UndefinedRef(stack: string, ref: Json)
    | UndefinedGetAtt(stack: string, att: Json)
    | UndefinedOutput(root: string, output: string, substack: string)
    | TemplateNotFound(path: string)

  /** The messages written, in order, and the exit status. */
  datatype Report = Report(findings: seq<Finding>, exitCode: int)

  /**
   * The root's resources of type `AWS::CloudFormation::Stack`, each with the parameters the
   * root passes to it, in document order.
   */
  function NestedStacks(resources: seq<(string, Json)>): (r: seq<(string, Json)>)
    requires forall e :: e in resources ==> WellFormedResource(e.1)
    ensures forall j :: 0 <= j < |r| ==> r[j].1.Obj?
    decreases |resources|
  {
    if resources == [] then []
    else
      var last := resources[|resources| - 1];
      assert last in resources && WellFormedResource(last.1);
      NestedStacks(resources[..|resources| - 1])
      + if IsNestedStack(last.1) then [(last.0, InputParameters(last.1))] else []
  }

  /** Exactly the resources of type `AWS::CloudFormation::Stack` become nested stacks. */
  lemma {:induction false} NestedStacksNames(resources: seq<(string, Json)>)
    requires forall e :: e in resources ==> WellFormedResource(e.1)
    ensures forall n :: n in Names(NestedStacks(resources)) <==>
      exists res :: (n, res) in resources && IsNestedStack(res)
    decreases |resources|
  {
    if resources != [] {
      var init := resources[..|resources| - 1];
      var last := resources[|resources| - 1];
      assert resources == init + [last];
      NestedStacksNames(init);
      var head := NestedStacks(init);
      assert Names(NestedStacks(resources)) == Names(head) + if IsNestedStack(last.1) then [last.0] else [];
    }
  }

  /** The root's resources, when its template is well formed for the checker. */
  predicate WellFormedRoot(doc: Json) {
    WellFormedTemplate(doc) && forall e :: e in Section(doc, "Resources").entries ==> WellFormedResource(e.1)
  }

  /**
   * The `stacks` dictionary: the nested stacks with the parameters passed to them, and the root
   * itself, added last and passed nothing. A nested stack named like the root is replaced by it.
   */
  function Plan(root: string, doc: Json): (r: seq<(string, Json)>)
    requires WellFormedRoot(doc)
    ensures forall j :: 0 <= j < |r| ==> r[j].1.Obj?
  {
    Upsert(NestedStacks(Section(doc, "Resources").entries), root, EmptyObject)
  }

  /** The stacks checked are the root and its direct nested stacks, and no others. */
  lemma PlanNames(root: string, doc: Json)
    requires WellFormedRoot(doc)
    ensures forall n :: n in Names(Plan(root, doc)) <==>
      n == root || exists res :: (n, res) in Section(doc, "Resources").entries && IsNestedStack(res)
  {
    NestedStacksNames(Section(doc, "Resources").entries);
    UpsertKeeps(NestedStacks(Section(doc, "Resources").entries), root, EmptyObject);
  }

  /** Where the template of the stack `name` is read: `os.path.join(dir, name) + ext`. */
  function LoadPath(dir: string, ext: string, name: string): string {
    TemplatePath(JoinPath(dir, name) + ext, name)
  }

  /** What the loop reports for one loaded stack: parameters (not for the root), then references. */
  function StackFindings(root: string, name: string, doc: Json, inputs: Json): (r: seq<Finding>)
    requires WellFormedTemplate(doc) && inputs.Obj? && (name != root ==> AskedForDefaults(doc, inputs))
  {
    var outputs := Section(doc, "Outputs");
    var resources := Section(doc, "Resources");
    var parameters := Section(doc, "Parameters");
    var refs := MissingRefs(resources, outputs, parameters);
    var atts := MissingGetAtt(resources, outputs, parameters);
    (if name != root then
       var missing := MissingParameters(parameters.entries, inputs);
       var extra := ExtraParameters(inputs.entries, parameters);
       seq(|missing|, i requires 0 <= i < |missing| => MissingParameter(root, name, missing[i]))
       + seq(|extra|, i requires 0 <= i < |extra| => ExtraParameter(root, name, extra[i]))
     else [])
    + seq(|refs|, i requires 0 <= i < |refs| => UndefinedRef(name, refs[i]))
    + seq(|atts|, i requires 0 <= i < |atts| => UndefinedGetAtt(name, atts[i]))
  }

  /**
   * What the loop needs of the template of one stack, when it can be opened: an object with
   * object sections, whose parameters can be asked for a default unless it is the root.
   */
  predicate StackLoadable(root: string, dir: string, ext: string, stack: (string, Json), files: map<string, Json>) {
    var path := LoadPath(dir, ext, stack.0);
    path in files ==> WellFormedTemplate(files[path]) && (stack.0 != root ==> AskedForDefaults(files[path], stack.1))
  }

  /** The same of every stack of the plan. */
  predicate Loadable(root: string, dir: string, ext: string, plan: seq<(string, Json)>, files: map<string, Json>) {
    forall j :: 0 <= j < |plan| ==> StackLoadable(root, dir, ext, plan[j], files)
  }

  /**
   * The loop over the stacks: the findings of each in turn, until a template cannot be opened,
   * which ends the run (the second component says so).
   */
  function LoopFindings(root: string, dir: string, ext: string, plan: seq<(string, Json)>,
                        files: map<string, Json>): (r: (seq<Finding>, bool))
    requires Loadable(root, dir, ext, plan, files) && forall j :: 0 <= j < |plan| ==> plan[j].1.Obj?
    decreases |plan|
  {
    if plan == [] then ([], false)
    else
      var path := LoadPath(dir, ext, plan[0].0);
      if path !in files then ([TemplateNotFound(path)], true)
      else
        var rest := LoopFindings(root, dir, ext, plan[1..], files);
        (StackFindings(root, plan[0].0, files[path], plan[0].1) + rest.0, rest.1)
  }

  /** The outputs section of the stack `name` once loaded. */
  function OutputsOf(dir: string, ext: string, name: string, files: map<string, Json>): Json {
    var path := LoadPath(dir, ext, name);
    if path in files then Section(files[path], "Outputs") else EmptyObject
  }

  /**
   * The root reads `Outputs.X` of a stack it declares: `X` (every `Outputs.` removed) must be
   * an output of that stack.
   */
  function OutputCheck(root: string, att: Json, names: seq<string>, dir: string, ext: string,
                       files: map<string, Json>): (r: seq<Finding>)
  {
    var stack := GetAttPart(att, 0);
    var attribute := GetAttPart(att, 1);
    if attribute.Str? && StartsWith(attribute.text, OutputsPrefix) && stack.Str? && stack.text in names then
      var output := RemoveAll(attribute.text, OutputsPrefix);
      if !HasKey(OutputsOf(dir, ext, stack.text, files), output) then [UndefinedOutput(root, output, stack.text)]
      else []
    else []
  }

  function OutputFindings(root: string, atts: seq<Json>, names: seq<string>, dir: string, ext: string,
                          files: map<string, Json>): (r: seq<Finding>)
    decreases |atts|
  {
    if atts == [] then []
    else
      var init := atts[..|atts| - 1];
      OutputFindings(root, init, names, dir, ext, files) + OutputCheck(root, atts[|atts| - 1], names, dir, ext, files)
  }

  /** The path the root template is first read from: `os.path.join(*os.path.split(path))`. */
  function MainPath(realPath: string): string {
    var (dir, filename) := SplitPath(realPath);
    TemplatePath(JoinPath(dir, filename), SplitExt(filename).0)
  }

  /**
   * What `check_templates` needs of the templates it reads, lest it crash: each is a document
   * `json.load` can give, an object with object sections, whose references can be looked up; the
   * root's resources have a type and its `Fn::GetAtt` values a second element; the parameters
   * of a nested stack not passed to it can be asked for a default.
   */
  predicate Checkable(realPath: string, files: map<string, Json>) {
    var (dir, filename) := SplitPath(realPath);
    var (root, ext) := SplitExt(filename);
    MainPath(realPath) in files ==>
      var doc := files[MainPath(realPath)];
      && Parsed(doc) && WellFormedRoot(doc) && RootReferences(doc)
      && Loadable(root, dir, ext, Plan(root, doc), files)
      && Referable(dir, ext, Plan(root, doc), files)
  }

  /** The template of every stack of the plan that can be opened is parsed and its references readable. */
  predicate Referable(dir: string, ext: string, plan: seq<(string, Json)>, files: map<string, Json>) {
    forall j :: 0 <= j < |plan| && LoadPath(dir, ext, plan[j].0) in files ==>
      Parsed(files[LoadPath(dir, ext, plan[j].0)]) && WellFormedReferences(files[LoadPath(dir, ext, plan[j].0)])
  }

  /** `check_templates(path)`, given the real path of the root template and the files. */
  function Check(realPath: string, files: map<string, Json>): (r: Report)
    requires Checkable(realPath, files)
  {
    var (dir, filename) := SplitPath(realPath);
    var (root, ext) := SplitExt(filename);
    var mainPath := MainPath(realPath);
    if mainPath !in files then Report([TemplateNotFound(mainPath)], 1)
    else CheckRoot(root, dir, ext, files[mainPath], files)
  }

  /** What `check_templates` reports once the root template `doc` has been read. */
  function CheckRoot(root: string, dir: string, ext: string, doc: Json, files: map<string, Json>): Report
    requires WellFormedRoot(doc) && Loadable(root, dir, ext, Plan(root, doc), files)
  {
    var plan := Plan(root, doc);
    var loop := LoopFindings(root, dir, ext, plan, files);
    if loop.1 then Report(loop.0, 1)
    else
      var atts := Find(Section(doc, "Resources"), Section(doc, "Outputs"), GetAttKey);
      var all := loop.0 + OutputFindings(root, atts, Names(plan), dir, ext, files);
      Report(all, if all == [] then 0 else 1)
  }

  // ---------------------------------------------------------------------------------------------
  // What check_templates reports

  /** A loop that stops early stops on the stack whose template cannot be opened, reported last. */
  lemma {:induction false} LoopAbortsOnMissingTemplate(root: string, dir: string, ext: string,
                                                      plan: seq<(string, Json)>, files: map<string, Json>)
    requires Loadable(root, dir, ext, plan, files) && forall j :: 0 <= j < |plan| ==> plan[j].1.Obj?
    ensures var r := LoopFindings(root, dir, ext, plan, files);
      r.1 ==> r.0 != [] && r.0[|r.0| - 1].TemplateNotFound? && r.0[|r.0| - 1].path !in files
    decreases |plan|
  {
    if plan != [] && LoadPath(dir, ext, plan[0].0) in files {
      LoopAbortsOnMissingTemplate(root, dir, ext, plan[1..], files);
    }
  }

  /**
   * Parameter findings name a stack of the plan other than the root: the root's own parameters
   * are never checked.
   */
  lemma {:induction false} ParameterFindingsSkipRoot(root: string, dir: string, ext: string,
                                                    plan: seq<(string, Json)>, files: map<string, Json>)
    requires Loadable(root, dir, ext, plan, files) && forall j :: 0 <= j < |plan| ==> plan[j].1.Obj?
    ensures forall f :: f in LoopFindings(root, dir, ext, plan, files).0 && (f.MissingParameter? || f.ExtraParameter?) ==>
      f.stack != root && f.stack in Names(plan) && f.root == root
    decreases |plan|
  {
    if plan != [] && LoadPath(dir, ext, plan[0].0) in files {
      var path := LoadPath(dir, ext, plan[0].0);
      var rest := LoopFindings(root, dir, ext, plan[1..], files);
      ParameterFindingsSkipRoot(root, dir, ext, plan[1..], files);
      var own := StackFindings(root, plan[0].0, files[path], plan[0].1);
      StackParameterFindings(root, plan[0].0, files[path], plan[0].1);
      assert LoopFindings(root, dir, ext, plan, files).0 == own + rest.0;
      assert plan[0].0 in Names(plan) && forall n :: n in Names(plan[1..]) ==> n in Names(plan);
    }
  }

  /** The parameter findings of one stack name that stack, and only a stack other than the root has them. */
  lemma StackParameterFindings(root: string, name: string, doc: Json, inputs: Json)
    requires WellFormedTemplate(doc) && inputs.Obj? && (name != root ==> AskedForDefaults(doc, inputs))
    ensures forall f :: f in StackFindings(root, name, doc, inputs) && (f.MissingParameter? || f.ExtraParameter?) ==>
      f.stack == name && name != root && f.root == root
  {
  }

  /** Every output finding names a stack of the plan whose template lacks the output. */
  lemma {:induction false} OutputFindingsAreUndeclared(root: string, atts: seq<Json>, names: seq<string>, dir: string,
                                                      ext: string, files: map<string, Json>)
    ensures forall f :: f in OutputFindings(root, atts, names, dir, ext, files) ==>
      f.UndefinedOutput? && f.root == root && f.substack in names && !HasKey(OutputsOf(dir, ext, f.substack, files), f.output)
    decreases |atts|
  {
    if atts != [] {
      OutputFindingsAreUndeclared(root, atts[..|atts| - 1], names, dir, ext, files);
    }
  }

  /** The exit status is 1 exactly when something was reported, and 0 otherwise. */
  lemma CheckExitStatus(realPath: string, files: map<string, Json>)
    requires Checkable(realPath, files)
    ensures var r := Check(realPath, files);
      (r.exitCode == 0 || r.exitCode == 1) && (r.exitCode == 0 <==> r.findings == [])
  {
    var (dir, filename) := SplitPath(realPath);
    var (root, ext) := SplitExt(filename);
    if MainPath(realPath) in files {
      var doc := files[MainPath(realPath)];
      var plan := Plan(root, doc);
      LoopAbortsOnMissingTemplate(root, dir, ext, plan, files);
    }
  }

  // ---------------------------------------------------------------------------------------------
  // check_templates, step by step

  predicate DistinctStacks(stacks: seq<(string, Stack)>) {
    forall j, k :: 0 <= j < k < |stacks| ==> stacks[j].1 != stacks[k].1
  }

  /** The dictionary comprehension building one `Stack` per nested stack of the root. */
  method NewSubstacks(resources: seq<(string, Json)>) returns (stacks: seq<(string, Stack)>)
    requires forall e :: e in resources ==> WellFormedResource(e.1)
    ensures |stacks| == |NestedStacks(resources)| && DistinctStacks(stacks)
    ensures forall j :: 0 <= j < |stacks| ==>
      (fresh(stacks[j].1) && stacks[j].0 == NestedStacks(resources)[j].0 && stacks[j].1.name == stacks[j].0
       && stacks[j].1.inputParameters == NestedStacks(resources)[j].1)
  {
    stacks := [];
    var i := 0;
    while i < |resources|
      invariant 0 <= i <= |resources|
      invariant |stacks| == |NestedStacks(resources[..i])| && DistinctStacks(stacks)
      invariant forall j :: 0 <= j < |stacks| ==>
        (fresh(stacks[j].1) && stacks[j].0 == NestedStacks(resources[..i])[j].0 && stacks[j].1.name == stacks[j].0
         && stacks[j].1.inputParameters == NestedStacks(resources[..i])[j].1)
    {
      var (name, resource) := resources[i];
      assert resources[i] in resources;
      ghost var after := NestedStacks(resources[..i])
        + if IsNestedStack(resource) then [(name, InputParameters(resource))] else [];
      assert resources[..i + 1][..i] == resources[..i];
      assert NestedStacks(resources[..i + 1]) == after;
      if IsNestedStack(resource) {
        var s := Stack.NewSubstack(name, resource);
        stacks := stacks + [(name, s)];
      }
      i := i + 1;
      assert NestedStacks(resources[..i]) == after;
    }
    assert resources[..i] == resources;
  }

  /** The messages of the loop's body for one loaded stack. */
  method StackReport(root: string, name: string, stack: Stack, ghost doc: Json) returns (findings: seq<Finding>)
    requires WellFormedTemplate(doc) && stack.Loaded(doc) && stack.inputParameters.Obj?
    requires name != root ==> AskedForDefaults(doc, stack.inputParameters)
    ensures findings == StackFindings(root, name, doc, stack.inputParameters)
  {
    var outputs, resources, parameters := stack.outputs, stack.resources, stack.parameters;
    findings := [];
    if name != root {
      var missing := MissingParameters(parameters.entries, stack.inputParameters);
      var extra := ExtraParameters(stack.inputParameters.entries, parameters);
      findings := seq(|missing|, k requires 0 <= k < |missing| => MissingParameter(root, name, missing[k]))
        + seq(|extra|, k requires 0 <= k < |extra| => ExtraParameter(root, name, extra[k]));
    }
    var refs := MissingRefs(resources, outputs, parameters);
    findings := findings + seq(|refs|, k requires 0 <= k < |refs| => UndefinedRef(name, refs[k]));
    var atts := MissingGetAtt(resources, outputs, parameters);
    findings := findings + seq(|atts|, k requires 0 <= k < |atts| => UndefinedGetAtt(name, atts[k]));
  }

  /** One step of the loop over the stacks. */
  lemma LoopStep(root: string, dir: string, ext: string, plan: seq<(string, Json)>, files: map<string, Json>, i: nat)
    requires i < |plan|
    requires Loadable(root, dir, ext, plan[i..], files) && forall j :: 0 <= j < |plan| ==> plan[j].1.Obj?
    ensures StackLoadable(root, dir, ext, plan[i], files) && Loadable(root, dir, ext, plan[i + 1..], files)
    ensures var path := LoadPath(dir, ext, plan[i].0);
      var rest := LoopFindings(root, dir, ext, plan[i + 1..], files);
      LoopFindings(root, dir, ext, plan[i..], files) ==
        if path !in files then ([TemplateNotFound(path)], true)
        else (StackFindings(root, plan[i].0, files[path], plan[i].1) + rest.0, rest.1)
  {
    assert plan[i..][0] == plan[i] && plan[i..][1..] == plan[i + 1..];
  }

  /**
   * The loop of `check_templates`: loads each stack, then reports its parameters (not for the
   * root) and its undeclared references; a template that cannot be opened ends it.
   */
  method CheckStacks(root: string, dir: string, ext: string, stacks: seq<(string, Stack)>,
                     ghost plan: seq<(string, Json)>, files: map<string, Json>)
    returns (findings: seq<Finding>, aborted: bool)
    requires Loadable(root, dir, ext, plan, files) && DistinctStacks(stacks) && |stacks| == |plan|
    requires forall j :: 0 <= j < |plan| ==>
      plan[j].1.Obj? && stacks[j].0 == plan[j].0 && stacks[j].1.name == plan[j].0 && stacks[j].1.inputParameters == plan[j].1
    modifies set j | 0 <= j < |stacks| :: stacks[j].1
    ensures (findings, aborted) == LoopFindings(root, dir, ext, plan, files)
    ensures !aborted ==> forall j :: 0 <= j < |stacks| ==>
      LoadPath(dir, ext, plan[j].0) in files && stacks[j].1.Loaded(files[LoadPath(dir, ext, plan[j].0)])
  {
    findings := [];
    var i := 0;
    assert plan[0..] == plan;
    assert [] + LoopFindings(root, dir, ext, plan, files).0 == LoopFindings(root, dir, ext, plan, files).0;
    while i < |stacks|
      invariant 0 <= i <= |stacks|
      invariant Loadable(root, dir, ext, plan[i..], files)
      invariant LoopFindings(root, dir, ext, plan, files).0 == findings + LoopFindings(root, dir, ext, plan[i..], files).0
      invariant LoopFindings(root, dir, ext, plan, files).1 == LoopFindings(root, dir, ext, plan[i..], files).1
      invariant forall j :: i <= j < |stacks| ==> stacks[j].1.name == plan[j].0 && stacks[j].1.inputParameters == plan[j].1
      invariant forall j :: 0 <= j < i ==>
        LoadPath(dir, ext, plan[j].0) in files && stacks[j].1.Loaded(files[LoadPath(dir, ext, plan[j].0)])
    {
      var (name, substack) := stacks[i];
      var loadPath := LoadPath(dir, ext, name);
      ghost var rest := LoopFindings(root, dir, ext, plan[i + 1..], files);
      LoopStep(root, dir, ext, plan, files, i);
      assert forall j :: 0 <= j < |stacks| && j != i ==> stacks[j].1 != substack;
      var found, reported := CheckStack(root, dir, ext, name, substack, plan[i], files);
      if !found {
        return findings + [TemplateNotFound(loadPath)], true;
      }
      ConcatAssoc(findings, reported, rest.0);
      findings := findings + reported;
      i := i + 1;
      assert LoopFindings(root, dir, ext, plan[i..], files) == rest;
    }
    assert plan[i..] == [];
    assert findings + [] == findings;
    aborted := false;
  }

  /** The loop's body for one stack: loads its template and, when there is one, reports on it. */
  method CheckStack(root: string, dir: string, ext: string, name: string, stack: Stack, ghost entry: (string, Json),
                    files: map<string, Json>) returns (found: bool, reported: seq<Finding>)
    requires StackLoadable(root, dir, ext, entry, files) && entry.0 == name && entry.1.Obj?
    requires stack.name == name && stack.inputParameters == entry.1
    modifies stack
    ensures found <==> LoadPath(dir, ext, name) in files
    ensures found ==>
      stack.Loaded(files[LoadPath(dir, ext, name)]) && reported == StackFindings(root, name, files[LoadPath(dir, ext, name)], entry.1)
    ensures stack.name == name && stack.inputParameters == entry.1
  {
    found := stack.LoadFromFile(files, JoinPath(dir, name) + ext);
    reported := [];
    if found {
      reported := StackReport(root, name, stack, files[LoadPath(dir, ext, name)]);
    }
  }

  /** The closing loop of `check_templates` over the root's `Fn::GetAtt` values. */
  method CheckOutputs(root: string, atts: seq<Json>, stacks: seq<(string, Stack)>, dir: string, ext: string,
                      files: map<string, Json>) returns (findings: seq<Finding>)
    requires forall j :: 0 <= j < |stacks| ==> stacks[j].1.outputs == OutputsOf(dir, ext, stacks[j].0, files)
    ensures findings == OutputFindings(root, atts, Names(stacks), dir, ext, files)
  {
    findings := [];
    var i := 0;
    while i < |atts|
      invariant 0 <= i <= |atts|
      invariant findings == OutputFindings(root, atts[..i], Names(stacks), dir, ext, files)
    {
      assert atts[..i + 1][..i] == atts[..i];
      var att := atts[i];
      var stack := GetAttPart(att, 0);
      var attribute := GetAttPart(att, 1);
      if attribute.Str? && StartsWith(attribute.text, OutputsPrefix) && stack.Str? && stack.text in Names(stacks) {
        var k := KeyIndex(Names(stacks), stack.text).value;
        var outputName := RemoveAll(attribute.text, OutputsPrefix);
        if !HasKey(stacks[k].1.outputs, outputName) {
          findings := findings + [UndefinedOutput(root, outputName, stack.text)];
        }
      }
      i := i + 1;
    }
    assert atts[..i] == atts;
  }

  /** The `stacks` dictionary of `check_templates`, with one object per entry. */
  method StacksFor(root: string, mainStack: Stack, ghost doc: Json) returns (stacks: seq<(string, Stack)>)
    requires WellFormedRoot(doc) && mainStack.resources == Section(doc, "Resources")
    requires mainStack.name == root && mainStack.inputParameters == EmptyObject
    ensures |stacks| == |Plan(root, doc)| && DistinctStacks(stacks)
    ensures forall j :: 0 <= j < |stacks| ==>
      (stacks[j].0 == Plan(root, doc)[j].0 && stacks[j].1.name == Plan(root, doc)[j].0
       && stacks[j].1.inputParameters == Plan(root, doc)[j].1)
    ensures forall j :: 0 <= j < |stacks| ==> fresh(stacks[j].1) || stacks[j].1 == mainStack
    ensures root in Names(stacks) && stacks[KeyIndex(Names(stacks), root).value].1 == mainStack
  {
    var substacks := NewSubstacks(mainStack.resources.entries);
    ghost var nested := NestedStacks(Section(doc, "Resources").entries);
    assert Names(substacks) == Names(nested);
    stacks := Upsert(substacks, root, mainStack);
    UpsertAligned(substacks, nested, root, mainStack, EmptyObject);
    assert forall j :: 0 <= j < |substacks| ==> substacks[j].1 != mainStack;
    ghost var at := UpsertIndex(substacks, root);
    ghost var plan := Upsert(nested, root, EmptyObject);
    assert plan == Plan(root, doc);
    forall j | 0 <= j < |stacks|
      ensures stacks[j].0 == plan[j].0 && stacks[j].1.name == plan[j].0 && stacks[j].1.inputParameters == plan[j].1
      ensures fresh(stacks[j].1) || stacks[j].1 == mainStack
    {
      if j != at {
        assert stacks[j] == substacks[j] && plan[j] == nested[j];
      }
    }
    UpsertDistinct(substacks, root, mainStack);
  }

  /** `d[key] = s` with an object that is not yet in the dictionary keeps its objects distinct. */
  lemma UpsertDistinct(a: seq<(string, Stack)>, key: string, s: Stack)
    requires DistinctStacks(a) && forall j :: 0 <= j < |a| ==> a[j].1 != s
    ensures DistinctStacks(Upsert(a, key, s))
  {
    var r := Upsert(a, key, s);
    UpsertAligned(a, a, key, s, s);
    var at := UpsertIndex(a, key);
    forall j, k | 0 <= j < k < |r| ensures r[j].1 != r[k].1 {
      if j != at && k != at {
        assert r[j] == a[j] && r[k] == a[k];
      }
    }
  }

  /** `check_templates`: the messages it writes, in order, and the status it exits with. */
  method CheckTemplates(realPath: string, files: map<string, Json>) returns (findings: seq<Finding>, exitCode: int)
    requires Checkable(realPath, files)
    ensures Report(findings, exitCode) == Check(realPath, files)
  {
    var (dir, filename) := SplitPath(realPath);
    var (root, ext) := SplitExt(filename);
    var mainStack := new Stack(root);
    var found := mainStack.LoadFromFile(files, JoinPath(dir, filename));
    if !found {
      return [TemplateNotFound(MainPath(realPath))], 1;
    }
    ghost var doc := files[MainPath(realPath)];
    RootPathAgrees(dir, filename);
    findings, exitCode := CheckLoaded(root, dir, ext, mainStack, doc, files);
  }

  /** `check_templates` after the root template `doc` has been read into `mainStack`. */
  method CheckLoaded(root: string, dir: string, ext: string, mainStack: Stack, ghost doc: Json, files: map<string, Json>)
    returns (findings: seq<Finding>, exitCode: int)
    requires WellFormedRoot(doc) && Loadable(root, dir, ext, Plan(root, doc), files)
    requires LoadPath(dir, ext, root) in files && files[LoadPath(dir, ext, root)] == doc
    requires mainStack.Loaded(doc) && mainStack.name == root && mainStack.inputParameters == EmptyObject
    modifies mainStack
    ensures Report(findings, exitCode) == CheckRoot(root, dir, ext, doc, files)
  {
    ghost var plan := Plan(root, doc);
    var stacks := StacksFor(root, mainStack, doc);
    var aborted;
    findings, aborted := CheckStacks(root, dir, ext, stacks, plan, files);
    if aborted {
      return findings, 1;
    }
    ghost var m := KeyIndex(Names(stacks), root).value;
    assert stacks[m].0 == root && plan[m].0 == root;
    assert mainStack.Loaded(doc);
    forall j | 0 <= j < |stacks| ensures stacks[j].1.outputs == OutputsOf(dir, ext, stacks[j].0, files) {
      assert stacks[j].0 == plan[j].0;
    }
    assert Names(stacks) == Names(plan);
    var outputFindings := CheckOutputs(root, Find(mainStack.resources, mainStack.outputs, GetAttKey), stacks, dir, ext, files);
    findings := findings + outputFindings;
    exitCode := if findings == [] then 0 else 1;
  }

  /** The loop reads the root again from the very path it was first read from. */
  lemma RootPathAgrees(dir: string, filename: string)
    ensures LoadPath(dir, SplitExt(filename).1, SplitExt(filename).0) == TemplatePath(JoinPath(dir, filename), SplitExt(filename).0)
  {
    var (name, ext) := SplitExt(filename);
    assert name + ext == filename;
    assert ext == [] || ext[0] == '.';
    JoinPathAppend(dir, name, ext);
  }

}
