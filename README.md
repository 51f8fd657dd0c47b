# brume, modelled in Dafny

`brume` deploys AWS CloudFormation stacks from a YAML configuration. This project models the parts of it
that decide things, with every call to AWS, every file read and every print replaced by an input or an
output value:

- **the template checker** (`brume/checker.py`). It collects the `Ref` and `Fn::GetAtt` targets of a
  template and reports those that name nothing declared. For the nested stacks of a root template, it
  reports missing and extra parameters, and it checks the `Outputs.X` attributes the root reads from them.
  Module `Checker`, over parsed documents (`JsonModel.Json`).
- **the `tail` loop of a deployment**, in both versions:
  - `brume/stack.py`, module `DeployStack`;
  - `brumecli/stack.py`, module `CliStack`.

  The loop polls the stack events, prints each event once, oldest first, remembers whether one failed, and
  stops when the stack itself is complete. Module `Events` defines what a session prints. Both modules also
  model how a service error ends `create`, `update`, `create_or_update` and `delete`.
- **the output walk** (`brume/output.py`, module `Output`). It fills a map with a stack's outputs and, under
  the logical id of each nested stack, that stack's own map, to any depth.
- **the configuration helpers** (`brume/config.py`, module `Config`):
  - the output cache of `cloudformation` and its key path;
  - `Config.cfn`, `Config.env`, the configuration file name and the load-once guard;
  - the commit message cleaned for YAML.
- **S3 keys and URLs of templates**:
  - `brume/template.py`, module `Template`: the normalised key, the `.copy` object, the inline or by-URL
    validation;
  - `brumecli/template.py`, module `CliTemplate`: a class whose `upload` sets the key and the URL.
- **the colour of a resource status** (`brume/color.py`, module `Color`).
- **the command-line helpers** (`brume/cli.py`, module `Cli`):
  - the parameters listing with short stack names;
  - the templates collected;
  - the assets step;
  - the order of `validate_and_upload`.

Supporting modules:

- `Strings` and `Paths` give the Python `str` and `posixpath` operations the code relies on, with their
  Python meaning: `find`, `in`, `strip`, `replace`, `split`, `join`, `normpath`, `splitext`, `os.path.split`
  and `os.path.join`.
- `Dicts` models a Python dictionary as a list of entries in insertion order.
- `Wrappers` holds `Option`.

Objects whose fields the code updates are classes whose methods have `modifies` clauses: the checker's
`Stack`, the output cache, the stored configuration and the `brumecli` template. The two `Stack` classes of
the deployment keep only their fixed fields (name, region, template); their tailing and polling methods
keep the events already shown and the current status in local variables, as the code does, and change no
field.
Each loop is a method with invariants, proved against a specification function, and the properties the code
promises are lemmas about those functions.

## Model

| member | source | states |
|---|---|---|
| Checker.FindNodes | brume/checker.py:126-140 | no value that is an `AWS::` pseudo-parameter string is ever yielded: it is skipped before its key is compared |
| Checker.FindInEntriesAppend | brume/checker.py:129-140 | the search over an object's entries is the search over each entry in turn, results concatenated in order |
| Checker.FindsMatchingEntry | brume/checker.py:130-133 | an entry named `key` whose value is not a pseudo-parameter is reported, whatever its position in the object |
| Checker.FindsInNestedObject | brume/checker.py:138-140 | whatever is found in an object held by an entry with another name is found in the enclosing object |
| Checker.FindsInListedObject | brume/checker.py:134-137 | whatever is found in an object sitting in a list held by an entry with another name is found in the enclosing object |
| Checker.Find | brume/checker.py:34-40 | `find` returns no pseudo-parameter; it is the matches of the resources followed by those of the outputs (parameters are never searched) |
| Checker.MissingRefsAreUndeclared | brume/checker.py:42-54 | a `Ref` target is reported exactly when it is found and names neither a resource nor a parameter, and as many times as it is found |
| Checker.MissingGetAttAreUndeclared | brume/checker.py:56-68 | a `Fn::GetAtt` value is reported exactly when it is found and its first element names neither a resource nor a parameter, with its multiplicity |
| Checker.MissingParametersAreUnpassed | brume/checker.py:70-79 | a name is a missing parameter exactly when it is declared without `Default` and not passed by the parent; only unpassed parameters are asked for `Default` |
| Checker.ExtraParametersAreUndeclared | brume/checker.py:81-90 | a name is an extra parameter exactly when the parent passes it and the stack does not declare it |
| Checker.Stack.constructor | brume/checker.py:21-32 | a new stack has its name, empty sections, no input parameters and an empty template URL |
| Checker.Stack.NewSubstack | brume/checker.py:108-116 | a nested stack gets the parameters and `TemplateURL` of the resource's properties (each `{}` when absent) and empty sections |
| Checker.Stack.LoadFromFile | brume/checker.py:92-106 | the file read is the path given, or the stack's name when the path is empty; when found, the three sections are the document's (each `{}` when absent); when missing, nothing changes and the run is to end |
| Checker.NestedStacksNames | brume/checker.py:158-162 | the nested stacks are exactly the root resources of type `AWS::CloudFormation::Stack` |
| Checker.PlanNames | brume/checker.py:158-163 | the stacks checked are the root and its direct nested stacks, and no others |
| Checker.NewSubstacks | brume/checker.py:158-162 | the comprehension builds one distinct fresh `Stack` per nested stack, in order, each named after it and given what the root passes it |
| Checker.StacksFor | brume/checker.py:158-163 | the `stacks` dictionary pairs every planned name with its stack object; the root's entry is the root stack itself |
| Checker.UpsertDistinct | brume/checker.py:163 | storing the root stack in the dictionary keeps one object per entry |
| Checker.StackReport | brume/checker.py:171-198 | the messages for one loaded stack are its parameter findings (skipped for the root), then its undefined `Ref`s, then its undefined `GetAtt`s |
| Checker.StackParameterFindings | brume/checker.py:171-186 | parameter findings of one stack name that stack, and only a stack other than the root has them |
| Checker.CheckStack | brume/checker.py:167-198 | one pass of the loop: the stack's template is opened exactly when its file exists, and then the stack holds its sections and the messages are those of `StackFindings` |
| Checker.CheckStacks | brume/checker.py:165-198 | the loop's messages are the specification's, in order; a template that cannot be opened ends it; otherwise every stack holds its template's sections afterwards |
| Checker.LoopAbortsOnMissingTemplate | brume/checker.py:97-102 | a loop that stops early stops on a template that cannot be opened, and that is its last message |
| Checker.ParameterFindingsSkipRoot | brume/checker.py:171-186 | every parameter finding names a checked stack other than the root |
| Checker.CheckOutputs | brume/checker.py:200-211 | the closing loop reports, in order, each root `GetAtt` of `Outputs.X` on a known stack whose `X` (every `Outputs.` removed) that stack does not declare |
| Checker.OutputFindingsAreUndeclared | brume/checker.py:200-211 | every output finding names a known stack whose template lacks the output |
| Checker.CheckTemplates | brume/checker.py:143-216 | `check_templates` writes exactly the messages of the specification `Check`, in order, and exits with its status; it needs of the templates only what keeps the code from raising (`Checkable`): a parameter is asked for `Default` only in a nested stack that is not passed it, and only the root's `Fn::GetAtt` values need a second element |
| Checker.CheckLoaded | brume/checker.py:155-216 | once the root is read, the run is the specification `CheckRoot` |
| Checker.CheckExitStatus | brume/checker.py:213-216 | the exit status is 0 exactly when nothing was reported, and 1 otherwise |
| Checker.RootPathAgrees | brume/checker.py:152-167 | the loop re-reads the root template from the very path it was first read from |
| Events.Reverse | brume/stack.py:209-214 | the events are gone through in the reverse of the service's order: oldest first |
| Events.ReverseReverse | brume/stack.py:214 | reversing is its own inverse, so no event is lost or reordered otherwise |
| Events.EmittedExtends | brume/stack.py:226-234 | more events read never take back an event already printed |
| Events.EmittedSnoc | brume/stack.py:226-234 | one more event is printed exactly when it is not older than the baseline and its id was not seen before |
| Events.EmittedAfterBaseline | brume/stack.py:227-230 | with a baseline, no printed event is older than it |
| Events.EmittedDistinct | brume/stack.py:221-234 | no event id is printed twice in a session, across all polls |
| Events.EmittedComplete | brume/stack.py:226-234 | every fresh event (new id, not older than the baseline) is printed |
| Events.EmittedFromStart | brumecli/stack.py:124-135 | after the first listing, only events of later polls whose id did not occur in that listing are printed |
| DeployStack.MakeTags | brume/stack.py:35-36 | one tag per item |
| DeployStack.TagsRoundTrip | brume/stack.py:35-36 | the tags give back the items exactly, keys and values in order |
| DeployStack.MakeParameters | brume/stack.py:39-40 | one parameter per item |
| DeployStack.ParametersRoundTrip | brume/stack.py:39-40 | the parameters give back the items exactly, keys and values in order |
| DeployStack.Stack.constructor | brume/stack.py:65-79 | the stack keeps name and template, builds its parameters and tags, defaults `on_failure` to `ROLLBACK`, and sets the baseline 30 seconds before `now` |
| DeployStack.UntilUnlisted | brume/color.py:46 | the events printed before the first whose status has no colour, which is named; none is named exactly when every status has a colour |
| DeployStack.UntilUnlistedAt | brume/stack.py:28 | printing stops at an event whose status has no colour once every earlier printed one had a colour |
| DeployStack.SessionUnlisted | brume/stack.py:226-234 | a session that reaches an event with an uncoloured status ends on it, with the events printed before it |
| DeployStack.Stack.Tail | brume/stack.py:216-245 | the events printed are exactly those the specification `TailSpec` emits, up to the first whose status has no colour, where `_log_event` raises `KeyError` and the session ends as `Unlisted`; otherwise it ends as `TailSpec` says |
| DeployStack.Stack.ProcessBatch | brume/stack.py:226-234 | after a batch, the seen set, the printed events and the failure flag are those of the stream so far, and the loop variable is the batch's last event; or the batch stopped on an event whose status has no colour, with the events printed before it |
| DeployStack.Stack.LogEvent | brume/stack.py:229-234 | one new event sets the failure flag when its status contains `FAILED`, before it is printed; it is printed and marked seen, unless its status has no colour, which stops the session |
| DeployStack.TailConsumes | brume/stack.py:223-240 | a session processes the batches of the first polls it reads, each oldest first, and nothing else |
| DeployStack.TailProcessesPolls | brume/stack.py:223-240 | what a session goes through is the stream of a prefix of the polls |
| DeployStack.TailCompletion | brume/stack.py:235-238 | a session ends normally or with status 1 only when the last event processed completes the stack; status 1 exactly when a printed event failed |
| DeployStack.TailError | brume/stack.py:241-245 | a client error makes `tail` return `False` exactly when it says `does not exist` and errors are caught; otherwise it is raised |
| DeployStack.TailErrorEnds | brume/stack.py:241-245 | a session only returns `False` when errors are caught, and only raises an error a poll gave |
| DeployStack.Exists | brume/stack.py:121-132 | `exists` is `True` exactly when the stack is described, `False` exactly on a `does not exist` error, `None` otherwise |
| DeployStack.CreateOrUpdate | brume/stack.py:169-176 | `create_or_update` updates exactly when `exists` is truthy |
| DeployStack.CreateError | brume/stack.py:143-148 | creation exits with 1 exactly on `AlreadyExistsException`; any other error is printed |
| DeployStack.UpdateError | brume/stack.py:158-167 | update exits with 1 exactly on `does not exist` or `No updates are to be performed.`; any other error is printed |
| DeployStack.Deploy | brume/stack.py:134-167 | without a request error, the call ends as its `tail`; the request's error, else a client error of the `tail`, is handled as `create` (`CreateError`) or `update` (`UpdateError`) handles it, so no client error escapes |
| DeployStack.Delete | brume/stack.py:178-192 | an existing stack raises the error of `delete_stack`, if any; otherwise it ends as its `tail`, a vanished one as deleted; a missing one exits with 1 |
| CliStack.GetEvents | brumecli/stack.py:105-116 | `get_events` exits exactly when `exists` exits; otherwise it returns the first page's events oldest first, or passes on the page's service error |
| CliStack.FetchOutcome | brumecli/stack.py:44-55 | a `get_events` that yields no events ends `tail` with status 1 exactly when `exists` exited, and otherwise raises the page's error |
| CliStack.LoopKeepsPrefix | brumecli/stack.py:128-140 | the polling loop only appends to the events already gone through |
| CliStack.LoopCompletion | brumecli/stack.py:128-140 | the loop ends normally only on completion with no failure printed; it exits with 1 after a printed failure or when `exists` exits |
| CliStack.Stack.constructor | brumecli/stack.py:29-42 | the stack keeps its configuration, with the defaults of the class attributes, and builds its request |
| CliStack.Stack.Tail | brumecli/stack.py:118-140 | `tail` prints the whole first listing, then the events `SessionSpec` emits, and ends as it says |
| CliStack.Stack.ShowAll | brumecli/stack.py:124-126 | every event of the first listing is printed and seen; the failure flag is untouched |
| CliStack.Stack.Poll | brumecli/stack.py:128-140 | the polling loop prints exactly the events `LoopSpec` emits after the first listing and ends as it says |
| CliStack.Stack.PollOnce | brumecli/stack.py:129-139 | one pass fetches the events, shows the unseen ones, and stops with the fetch's outcome or, once the stack is complete, with status 1 exactly when a shown event failed; otherwise `LoopSpec` goes on from the events gone through |
| CliStack.Stack.ShowNew | brumecli/stack.py:130-135 | in a later batch only unseen ids are printed, each raising the flag when it failed; the loop variable is the batch's last event |
| CliStack.CreateFailure | brumecli/stack.py:57-65 | `create` exits with 1 exactly on `AlreadyExistsException`; other errors are dropped |
| CliStack.UpdateFailure | brumecli/stack.py:67-78 | `update` exits with 1 exactly on `does not exist` or `No updates are to be performed.`; other errors are dropped |
| CliStack.RequestError | brumecli/stack.py:80-94 | the error handled is the request's message, else the message raised by its `tail`; there is none exactly when neither failed |
| CliStack.CreateThenUpdate | brumecli/stack.py:80-94 | `create_or_update` ends as the creation when that succeeds; an error containing `does not exist` or `No updates are to be performed.` exits with 1; any other creation error falls back to `update`, and the call ends as `update` does |
| CliStack.DeleteResult | brumecli/stack.py:96-103 | `delete` exits with 1 exactly when the request or its `tail` raised a client error or exited; otherwise it ends as its `tail` |
| Output.Describe | brume/output.py:21 | the client answers for a known stack as given, and with a `does not exist` error for any other |
| Output.Failure | brume/output.py:30-36 | a `does not exist` error exits with status 1 naming the stack; any other error is raised as it is |
| Output.Substacks | brume/output.py:23-24 | exactly the resources of type `AWS::CloudFormation::Stack` are descended into |
| Output.Collect | brume/output.py:39-44 | `_output_collector` writes the outputs into the map as `Collected` says |
| Output.CollectedValue | brume/output.py:39-44 | after collecting, an output key holds the value of its last pair, and every other key what it held before |
| Output.Walk | brume/output.py:11-36 | `_stack_walker` with the collector returns the map the specification `WalkSpec` gives |
| Output.WalkNested | brume/output.py:25-28 | the loop over nested stacks is `WalkChildren`: each gets a fresh map under its logical id, and the first failure ends the loop |
| Output.StackOutputs | brume/output.py:47-49 | `stack_outputs` is the walk from an empty map |
| Output.ChildrenFailed | brume/output.py:25-28 | once a nested stack's walk fails, the loop ends with that failure |
| Output.ChildrenKeep | brume/output.py:25-28 | a key no nested stack takes keeps the value it had before the loop |
| Output.ChildEntry | brume/output.py:25-28 | the logical id of a nested stack holds the map filled by the walk of its physical id |
| Output.WalkOwnOutputs | brume/output.py:21-29 | a successful walk holds each of the stack's own outputs unless a nested stack takes the key; an absent `Outputs` adds nothing |
| Output.WalkNestedEntry | brume/output.py:22-28 | each nested stack's logical id holds the map of its own walk, so it replaces an output of the same name |
| Output.WalkFailure | brume/output.py:30-36 | a walk exits with 1 only for a stack the service says does not exist, and raises only another error some stack gave |
| Output.ChildrenFailure | brume/output.py:25-36 | the same for the loop over the nested stacks |
| Config.ConfigFile | brume/config.py:14-22 | the file named on the command line when that name is not empty, else `brume.yml` |
| Config.Descend | brume/config.py:46-54 | following keys never fails to fetch, and a missing key is one of the keys followed |
| Config.DescendConcat | brume/config.py:50-52 | following `a + b` is following `a`, then `b` from where `a` led |
| Config.DescendFound | brume/config.py:47-52 | a lookup that succeeds found each key of the path in the map reached before it |
| Config.DescendStops | brume/config.py:29-54 | a lookup stops, with status 1, at the first key the value reached does not hold, and returns no value |
| Config.Request | brume/config.py:44-54 | a cached stack is never fetched again; an uncached one is fetched by walking it and its nested stacks: when the walk succeeds its outputs are stored under the name and the value is the one the keys reach in them, and when it fails the cache is unchanged and the failure is the walk's own; no other entry changes |
| Config.RequestTransparent | brume/config.py:44-46 | while the stacks do not change, the cache changes no answer and stays current |
| Config.OutputCache.constructor | brume/config.py:26 | the cache starts empty |
| Config.OutputCache.Cloudformation | brume/config.py:37-54 | `cloudformation` updates the cache and answers as `Request` says, following `key` then each sub-key |
| Config.CfnSubKeys | brume/config.py:83-87 | no sub-key when `second_key` is `None`, whatever `third_key` is; one when only `third_key` is `None`; two otherwise |
| Config.Cfn | brume/config.py:79-87 | `Config.cfn` is `cloudformation` with the key and those sub-keys |
| Config.Env | brume/config.py:90-100 | with a non-empty default, the variable or that default; without one, the variable, and status 1 when it is not set |
| Config.CommitMessage | brume/config.py:103-111 | the commit subject with surrounding whitespace stripped and every single quote removed, all other characters kept in order |
| Config.CommitMessageUnquoted | brume/config.py:111 | a subject without a single quote is only stripped |
| Config.CommitMessageSplit | brume/config.py:111 | quotes are removed from each part of the stripped subject independently |
| Config.ConfigStore.constructor | brume/config.py:76 | the stored configuration starts empty |
| Config.ConfigStore.Load | brume/config.py:141-169 | a truthy stored configuration (not empty, `None`, `0` or `false`) is returned without rendering; otherwise the file named (or the configuration file) is rendered and stored, or the load exits with 1 |
| Template.RelativePath | brume/template.py:30-32 | with local path `.` or empty, or not occurring in the file path, the file path is unchanged |
| Template.S3Key | brume/template.py:33-36 | the key never starts or ends with `/` |
| Template.NewTemplate | brume/template.py:26-37 | the key is the normalised prefix (default `cloudformation`) and relative path without surrounding slashes, and the URL is built from the bucket and that key |
| Template.PublicUrlPlain | brume/template.py:39-41 | for a key of plain segments, the URL is `https://`, the bucket host, `/` and the key, unchanged |
| Template.S3KeyDoubledSlash | brume/template.py:33-36 | a relative path with a doubled slash under a plain prefix gives the key of the plain segments |
| Template.TemplateDoubledSlash | brume/template.py:26-41 | a template whose relative path is a directory, a doubled slash and a file has the three segments as its key, and the bucket host and that key as its URL |
| Template.RelativePathExample | tests/test_template.py:59-67 | removing `test_stack` from `tests/test_stack/main.json` leaves `tests//main.json` |
| Template.TemplateExample | tests/test_template.py:49-67 | the test's template has key `cloudformation/tests/main.json` and URL `https://dummy-bucket.s3.amazonaws.com/cloudformation/tests/main.json` |
| Template.UploadTarget | brume/template.py:78-90 | a copy is written under the key and URL with `.copy` appended; otherwise under the template's own; the template is not changed |
| Template.UploadedCopyUrl | brume/template.py:78-90 | the `.copy` object is published under the public URL of its own key, for a key of plain segments |
| Template.CopyUrl | brume/template.py:83-87 | for a key of plain segments, the URL with `.copy` appended is the URL of the copied key |
| Template.Validate | brume/template.py:51-76 | up to 51200 bytes, the body is sent inline with no upload; above, the `.copy` object is uploaded and validated by its URL; status 1 exactly when the service rejects it |
| Template.ValidatedCopyIsUploaded | brume/template.py:62-66 | a large template is validated by the public URL of the very object just uploaded |
| CliTemplate.Message | brumecli/template.py:9-15 | the string of an `InvalidTemplateError` is the message it was built with |
| CliTemplate.Template.constructor | brumecli/template.py:20-28 | a template read from a file has its content, and an empty key and URL |
| CliTemplate.Template.Open | brumecli/template.py:20-28 | opening fails exactly when the file is missing; otherwise a fresh template with its content and an empty key and URL |
| CliTemplate.Template.Validate | brumecli/template.py:30-41 | the content is what is validated; status 1 exactly when it is rejected, 0 otherwise |
| CliTemplate.Template.Upload | brumecli/template.py:43-54 | `upload` records the stripped key and its URL and writes the object under the path as given; file and content stay |
| CliTemplate.ObjectKeyMatches | brumecli/template.py:44-52 | the object is written under the recorded key exactly when the path is empty or has no `/` at either end |
| CliTemplate.UploadKeyShape | brumecli/template.py:44 | the recorded key ends with `/` and the file, and starts with `/` exactly when the path is made of slashes only |
| CliTemplate.UploadUrlNormalised | brumecli/template.py:45-46 | for a key of plain segments, this URL is the one `brume/template.py` computes with `normpath` |
| Color.ForStatus | brume/color.py:15-46 | a status outside the table has no colour (the `KeyError`); each in it has red, green, yellow or grey |
| Color.FailedRed | brume/color.py:18-23 | the five `*FAILED` statuses are red |
| Color.CompleteGreen | brume/color.py:27-31 | the five `*COMPLETE` statuses are green |
| Color.InProgressYellow | brume/color.py:35-40 | the six `*IN_PROGRESS` statuses other than `ROLLBACK_IN_PROGRESS` are yellow |
| Color.Classified | brume/color.py:15-45 | every table status has the colour its name calls for (a failure or `ROLLBACK_IN_PROGRESS` red, `COMPLETE` green, `IN_PROGRESS` yellow, `DELETE_SKIPPED` grey); `FAILED` occurs only as an ending |
| Color.FailedIsRed | brume/color.py:18-23 | every table status containing `FAILED` is red |
| Color.CompleteIsGreen | brume/color.py:27-31 | every table status ending in `COMPLETE` is green |
| Color.InProgressIsYellow | brume/color.py:35-40 | every table status ending in `IN_PROGRESS`, other than `ROLLBACK_IN_PROGRESS`, is yellow |
| Cli.AfterFirst | brume/cli.py:126 | the partition is taken at the first occurrence of `:stack/`, and there is one exactly when it occurs |
| Cli.ShortNameShape | brume/cli.py:125-127 | a name without `:stack/` is shown unchanged; the short name of one with it holds no `/` |
| Cli.ShortNameArn | brume/cli.py:125-126 | an ARN is shown as the text between its first `:stack/` and the next `/` |
| Cli.ParamLines | brume/cli.py:128-129 | one line per parameter, in order: a tab, the name, ` = `, the value |
| Cli.ShowStack | brume/cli.py:123-130 | the lines for one stack are nothing without parameters, else its short name, its parameter lines and an empty line |
| Cli.Parameters | brume/cli.py:122-130 | `parameters` echoes exactly the listing: the blocks of the stacks, in order |
| Cli.ListingAppend | brume/cli.py:122-130 | the listing of consecutive groups of stacks is the concatenation of their listings |
| Cli.EmptyStackSkipped | brume/cli.py:123-124 | a stack without parameters contributes nothing |
| Cli.StackShown | brume/cli.py:125-130 | a stack with parameters shows its short name, one tab-indented `name = value` line per parameter, and an empty line |
| Cli.Selected | brume/cli.py:183 | a file is selected exactly when it ends with the extension and is not hidden |
| Cli.CollectTemplates | brume/cli.py:175-184 | one template per selected file, in listing order, whose path is the file name joined to the directory `glob` reads |
| Cli.GlobDirTrimmed | brume/cli.py:183 | the directory `glob` reads and joins names to is the local path (default empty) without its trailing slashes, unless it is all slashes |
| Cli.GlobDirExample | brume/cli.py:183 | with `local_path: tpl//`, the template path of `a.json` is `tpl/a.json` |
| Cli.CollectedTemplatesAreSelected | brume/cli.py:175-184 | every file of the listing with the template body's extension gives a template, and every template comes from such a file |
| Cli.SelectedSameExtension | brume/cli.py:182-183 | a selected file has the template body's extension |
| Cli.ProcessAssets | brume/cli.py:161-172 | nothing happens without an `assets` key; otherwise its three settings are sent, or the first one missing is the error |
| Cli.ValidateAll | brume/cli.py:192 | validation succeeds exactly when no template is rejected; then every template is validated in turn (copy upload, then validation), and otherwise exactly the templates up to and including the first rejected one are; it only validates and uploads copies |
| Cli.ValidationsInclude | brume/cli.py:192 | the validation of every template is among the actions of validating the list |
| Cli.AllValidated | brume/cli.py:191-193 | every template reached (all before it accepted) is validated, and before any upload of a template |
| Cli.ValidateBeforeUpload | brume/cli.py:187-194 | every validation comes before any upload and the assets come last; status 1 exactly when a template is rejected, and then nothing is uploaded |
| Cli.AllUploaded | brume/cli.py:191-194 | when every template is accepted, each is uploaded under its own key and the assets are processed last |
| Dicts.UpsertKeeps | brume/checker.py:163 | `d[key] = v` keeps the keys (a new key goes last), leaves every other entry as it was, and `key` then maps to `v` |
| Dicts.ValueOfUpsert | brume/output.py:26 | after `d[key] = v`, `key` holds `v` and every other key what it held before |
| Dicts.LookupFinds | brume/checker.py:104-106 | an object holds a key exactly when an entry is named so, and yields that entry's value |
| Dicts.LookupLast | brume/checker.py:104-106 | the value found is that of the last entry with the key |
| Paths.SplitPath | brume/checker.py:152 | `os.path.split`: the tail holds no `/` and ends the path; the head loses its trailing slashes unless made of slashes only |
| Paths.SplitExt | brume/checker.py:153 | `os.path.splitext`: the parts concatenate to the name; the extension is empty or a dot with no further dot or slash |
| Paths.JoinPathAppend | brume/checker.py:167 | `os.path.join(dir, name) + ext` is `os.path.join(dir, name + ext)` |
| Paths.NormPath | brume/template.py:33 | `os.path.normpath` never gives an empty path |
| Paths.ResolveNormalised | brume/template.py:33 | normalising leaves no empty or `.` segment, and `..` only in a leading run of a relative path |
| Paths.NormPathRelative | brume/template.py:33-35 | a relative path of plain segments with doubled slashes normalises to its plain segments joined by single slashes |
| Paths.NormPathPlain | brume/template.py:40 | a relative path of plain segments is already normal |
| Strings.IndexOf | brume/stack.py:231 | `in`: the first occurrence if any, and none exactly when the pattern occurs nowhere |
| Strings.Strip | brumecli/template.py:44 | `strip`: a slice of the text whose ends are kept characters, everything cut off being a stripped character |
| Strings.StripIdentity | brumecli/template.py:44 | stripping leaves a text alone exactly when it neither starts nor ends with a stripped character |
| Strings.RemoveAllAbsent | brume/template.py:32 | `replace(p, '')` leaves a text without `p` unchanged |
| Strings.RemoveAllKeep | brume/template.py:32 | a prefix where `p` starts nowhere is kept as it is |
| Strings.RemoveCharMultiset | brume/config.py:111 | removing a one-character pattern drops exactly the copies of that character |
| Strings.RemoveCharWithout | brume/config.py:111 | removing a one-character pattern keeps the other characters in their order |
| Strings.WithoutAppend | brume/config.py:111 | dropping a character from a concatenation drops it from each part |
| Strings.JoinSplit | brume/cli.py:126 | joining the parts of a split gives the text back |
| Strings.SplitJoin | brume/cli.py:126 | splitting joined parts without the separator gives the parts back |
| Strings.SplitFirst | brume/cli.py:126 | the first part of a split is the text before the first separator |

## Left out

- Calls to AWS are inputs:
  - the answers of `describe_stacks`, `describe_stack_resources` and `describe_stack_events`;
  - the outcome of `create_stack`, `update_stack`, `delete_stack` and `validate_template`.
  A `ClientError` is its message. `put_object` is an output value (`Upload`), and `brume/boto_client.py`
  is not part of this model.
- File input and output are inputs:
  - `open` and `json.load` become a map from path to parsed document;
  - `os.path.getsize` is a size;
  - `os.path.realpath` is the real path given;
  - `glob` is the directory listing given.
- Printing, colouring and the headers of the event log are not modelled. The output is the sequence of
  events or findings that would be printed. `Color.ForStatus` gives the colour code rather than the
  coloured text. The `KeyError` of a status with no colour is modelled in `brume/stack.py`'s `tail`,
  which it ends as `Unlisted`. The demonstration block at the end of brume/color.py is left out.
- Time is an input: `sleep` does nothing, timestamps are integers, and the creation time of
  `brume/stack.py`'s `Stack` is a parameter.
- Python 2 dictionaries iterate in hash order. The model uses document (insertion) order. Findings, tags,
  parameters and listing lines are therefore ordered in the model where Python leaves their order
  unspecified. The checker is given documents as `json.load` returns them (`Parsed`: no key twice in an
  object); `Get` elsewhere reads the last entry of a key.
- Checker.Check: does not model the `TypeError`, `KeyError`, `AttributeError` and `IndexError` the code
  raises on malformed templates; `Checkable` requires what the code reads:
  - every template opened is an object with object sections;
  - a parameter of a nested stack that is not passed to it can be asked for `Default`;
  - every root resource has a `Type`, and a nested stack has `Properties`;
  - every `Ref` target is hashable and every `Fn::GetAtt` value has a hashable first element;
  - every `Fn::GetAtt` value of the root also has a string second element.
- Checker.FindNodes: the lemmas prove that every match reachable through objects and lists is reported.
  That nothing else is reported, and that a reported value is not searched further, rests on the
  function's definition alone.
- DeployStack.Stack.Tail: an empty first batch, which leaves `event` unbound, is excluded by a
  precondition. A session is given finitely many polls; one still waiting at the end ends as `Polling`.
- CliStack.Stack.Tail: excluded by preconditions:
  - a page carrying `NextToken`, on which `get_events` raises;
  - reading the loop variable before any event set it.
- CliStack.Stack.constructor: requires the `tags` key, which the source indexes without a default.
- The `outputs`, `params`, `get_stacks` and `status` methods of brume/stack.py are not part of this
  model. The same holds for the unused `env` helper of brumecli/stack.py.
- Output.Walk: `_stack_walker` fills the caller's dictionary in place. The model returns the filled map as
  a value, so aliasing between the map and its caller is not captured. Termination rests on a ranking of
  the stack ids given as a precondition: no stack is nested in itself.
- The region argument of `cloudformation` and `stack_outputs` selects the client, which is an input. The
  cache is keyed by stack name alone, as in the source.
- Jinja2 rendering, YAML loading and git or shell commands are not part of this model:
  - `render`, `git_config`, `_git_commit`, `_git_branch`, `is_installed`, `is_git_repo`;
  - brumecli/config.py, brume.py and main.py.
  `Config.load` takes what rendering each file gives as an input map, and `_git_commit_msg` takes the
  output of `git log`.
- Config.Env: the default is an optional string. Python's truthiness of a non-string default is not
  modelled.
- Template.NewTemplate: the `templates` configuration is a record with a bucket. The `KeyError` of a
  missing `s3_bucket` is not modelled.
- Cli.CollectTemplates: takes the parsed `templates` section and the template body. The `KeyError`s of
  a configuration without `stack` or `templates` are not modelled. A `local_path` or extension holding
  the glob characters `*`, `?` or `[` is matched literally rather than as a pattern.
- The stale tests at tests/test_template.py:43-47 expect a key without the `cloudformation` prefix, and
  those at tests/test_template.py:69-74 read attributes the class does not define. Neither is stated as
  a property.
- brume/assets.py (`send_assets`, a directory walk uploading to S3) is not part of this model.
  `process_assets` ends with the settings it would send.
- The click commands of brume/cli.py (`validate`, `upload`, `check`, `status`, `outputs`) are not
  modelled. Only the helpers they call are: `parameters`, `collect_templates`, `process_assets` and
  `validate_and_upload`.
- Cli.ShortNameArn: gives the exact name only for an ARN with a `/` after the stack name. For text with
  no `/` after `:stack/`, `Cli.ShortNameShape` only says the result holds no `/`.
