# Intent-iterative pipeline, modelled in Dafny

This project models the core of the *intent-iterative* tool. A YAML "intent"
DSL is parsed into an intermediate representation, the `IntentIR`. A planner
simulates a dry run: it generates application code and a Dockerfile and
collects logs and warnings. An executor runs an approved intent, but only
after the AMEN approval gate. A feedback loop suggests next steps and applies
LLM-proposed actions back into the IR. The model covers:

| module | file | what it models |
|---|---|---|
| `Models` | `models.dfy` | the enums, `Action`, `Environment`, `Implementation`, `Intent`, `IntentIR`, `add_iteration`, `approve_amen` (`ir/models.py`) |
| `Codec` | `codec.dfy` | `to_dict` / `from_dict` of every record, over a decoded JSON value (`ir/models.py`) |
| `Values` | `values.dfy` | decoded YAML/JSON values, Python truthiness, `str`/`repr` of a value |
| `ActionGrammar` | `action_grammar.dfy` | the `ACTION_PATTERN` regular expression and the string branch of `_parse_action` (`parser/dsl_parser.py`) |
| `DslParser` | `dsl_parser.dfy` | `parse` and its section parsers and `_validate` (`parser/dsl_parser.py`) |
| `Planner` | `planner.dfy` | `dry_run`, the four code generators, the Dockerfile generator, action simulation, resource estimate (`planner/simulator.py`) |
| `Executor` | `executor.dfy` | the decisions of `execute`, `_write_artifacts`, `_find_available_port`, `_execute_docker`, `_execute_local` (`executor/runner.py`) |
| `Feedback` | `feedback.dfy` | `suggest_next_steps`, `apply_suggestions`, `_extract_action`, the fence and line-fallback parts of `_parse_suggestions` (`ai_gateway/feedback_loop.py`) |
| `Config` | `config.dfy` | the plain-text `.env` loader, `get_env`, `get_env_bool`, `get_env_int` and the executor's settings (`config.py`) |
| `Text`, `Seqs`, `Wrappers` | `text.dfy`, `seqs.dfy`, `wrappers.dfy` | Python's string built-ins used above (`strip`, `split`, `find`, `lower`, `int`, `str`), sequence lemmas, `Option`/`Result` |

Every operation is a pure function from inputs to outputs. Where the Python
mutates an object in place (`add_iteration`, `dry_run`, `execute`,
`apply_suggestions`), the model returns the updated object. Anything the
Python learns from outside becomes a parameter:

- the clock readings and the fresh uuid;
- the process environment;
- the `.env` file's lines;
- the set of ports a bind would succeed on;
- a failure of the workspace writes;
- the outcomes of `docker build`, `docker rm` and `docker run`.

A parse either returns an IR or ends in one of the parser's two exceptions.
The model's `Outcome` records which. It also has an `Unsupported` outcome for
documents whose Python behaviour depends on a type confusion the typed IR
cannot hold, for example a number where a name belongs.

## Model

| member | source | states |
|---|---|---|
| Models.ModeFromToken | ir/models.py:14-16 | `ExecutionMode(t)` succeeds exactly when `t` is the value string of a mode, and returns that mode |
| Models.RuntimeFromToken | ir/models.py:19-22 | `RuntimeType(t)` succeeds exactly for the three runtime value strings and returns the matching member |
| Models.ActionFromToken | ir/models.py:25-31 | `ActionType(t)` succeeds exactly for the six action value strings and returns the matching member |
| Models.NewIntentIR | ir/models.py:144-162 | a fresh IR is unapproved and in dry-run mode, has version 1 and no iterations, takes its id and its two timestamps from the caller's uuid and two separate clock readings, and satisfies the three IR invariants |
| Models.AddIteration | ir/models.py:208-217 | the counter grows by one and the history by exactly one record appended at the end; the old records are kept; the new record's iteration number is the new counter and its timestamp is the new `updated_at`; no other field changes |
| Models.AddIterationPreserves | ir/models.py:208-217 | recording an iteration keeps "counter equals history length", the 1-based numbering of history records, and "approved implies transactional" |
| Models.ApproveAmen | ir/models.py:219-223 | approval sets the approved flag and transactional mode and stamps `updated_at`; nothing else changes; afterwards "approved implies transactional" holds |
| Models.ApproveAmenIdempotent | ir/models.py:219-223 | approving an already approved IR only moves its timestamp |
| Codec.DecodeAction | ir/models.py:50-57 | a missing `type` fails as a missing key; a `type` that is not an action token (including a non-string) fails as an invalid enum value naming it; a success came from a mapping whose `type` is the token of the decoded kind |
| Codec.DecodeActions | ir/models.py:111 | the list decodes exactly when every item does; a success holds each item's action in order; a failure is the error of the first item that fails |
| Codec.DecodeEncodeAction | ir/models.py:42-57 | `Action.from_dict(a.to_dict())` gives back `a` |
| Codec.DecodeEncodeActions | ir/models.py:103-111 | decoding an encoded action list gives back the same list, in order |
| Codec.DecodeEnvironment | ir/models.py:80-89 | an absent runtime defaults to docker and an absent base image to `python:3.12-slim`; a runtime value that is not a runtime token, a non-string included, fails as an invalid enum value; a success holds the runtime the token names |
| Codec.DecodeEncodeEnvironment | ir/models.py:70-89 | `Environment.from_dict(e.to_dict())` gives back `e` |
| Codec.DecodeImplementation | ir/models.py:106-112 | an absent language defaults to `python` and absent actions to the empty list; an action list with an undecodable action fails |
| Codec.DecodeEncodeImplementation | ir/models.py:99-112 | `Implementation.from_dict(i.to_dict())` gives back `i` |
| Codec.DecodeIntent | ir/models.py:129-135 | `name` and then `goal` are required keys; a success holds exactly the mapping's name and goal |
| Codec.DecodeIntentIR | ir/models.py:185-202 | a success needs an `intent` mapping with name and goal; an absent id takes the fresh uuid and absent timestamps take the two separate clock readings; an absent mode is dry-run; an absent approval flag is false; an undecodable action makes the whole decode fail |
| Codec.RoundTrip | ir/models.py:164-202 | `IntentIR.from_dict(ir.to_dict())` gives back `ir`, and encoding the result again gives the same dictionary |
| Codec.ReadEncodedStrList | ir/models.py:85 | a list of strings written by `to_dict` is read back unchanged |
| Codec.ReadEncodedIntList | ir/models.py:86 | a list of ports written by `to_dict` is read back unchanged |
| Codec.ReadEncodedStrMap | ir/models.py:88 | an `env_vars` mapping written by `to_dict` is read back unchanged |
| Codec.DecodeSectionsOf | ir/models.py:192-194 | any mapping holding the encodings of an intent, environment and implementation decodes to exactly those three records |
| Codec.DecodeEncodeSections | ir/models.py:192-194 | the nested records of an encoded IR decode to the IR's own records |
| Codec.DecodeRunStateOf | ir/models.py:195-201 | any mapping holding the encodings of the execution-state fields decodes to exactly those values |
| Codec.DecodeEncodeRunState | ir/models.py:195-201 | the execution state of an encoded IR decodes to the IR's own state |
| Codec.DecodeFillsDefaults | ir/models.py:185-202 | a dictionary with only an intent's name and goal decodes to the fresh IR carrying that intent: every other field at its default, the id and timestamps from the fresh uuid and clock readings |
| Codec.DefaultSections | ir/models.py:192-194 | absent environment and implementation sections decode to the default records |
| Codec.EmptyEnvironment | ir/models.py:80-89 | `Environment.from_dict({})` is the default environment |
| Codec.EmptyImplementation | ir/models.py:106-112 | `Implementation.from_dict({})` is the default implementation |
| Codec.AbsentLists | ir/models.py:85-87 | absent list fields read as empty lists |
| Codec.AbsentRunState | ir/models.py:195-201 | absent execution-state fields read as dry-run, unapproved, zero iterations, empty history, no artifacts and no logs |
| ActionGrammar.LeadingVerb | parser/dsl_parser.py:64 | the method group matches exactly when one of the five HTTP verbs is followed by whitespace, and it takes that verb |
| ActionGrammar.MatchTarget | parser/dsl_parser.py:65-66 | the target is one whitespace-free word; parameters, when present, are non-empty and contain no newline |
| ActionGrammar.MatchAfterType | parser/dsl_parser.py:64-66 | after the type, a match has a target word and an optional verb from the five; when there is no verb and the target is a verb word, there are no parameters |
| ActionGrammar.MatchActionLine | parser/dsl_parser.py:62-67 | a match has a non-empty type made of word characters and dots, a verb from the five if any, a one-word target, and newline-free parameters |
| ActionGrammar.MatchSplitsAtType | parser/dsl_parser.py:63 | a matching line's type group is the longest run of type characters, and whitespace follows it |
| ActionGrammar.MatchAtType | parser/dsl_parser.py:62-67 | conversely, a type run followed by whitespace and a matching remainder makes the whole line match |
| ActionGrammar.MatchAgreesWithWords | parser/dsl_parser.py:62-67 | the match groups are exactly the line's whitespace-separated words: type, optional verb, target, then the parameter words |
| ActionGrammar.ParamsKeys | parser/dsl_parser.py:205-214 | the parameter map's keys are exactly the text before the first `=` of each token |
| ActionGrammar.ParamsLastTokenWins | parser/dsl_parser.py:209-214 | a key's value comes from the last token with that key: the text after its first `=`, or `True` for a bare flag |
| ActionGrammar.ParseActionLine | parser/dsl_parser.py:192-221 | a stripped line the pattern rejects gives the invalid-format error quoting the raw line; a match with an unknown type gives the unknown-type error quoting the type; a match with a known type gives that action with the matched verb, the target and the parameters parsed from the parameter words |
| ActionGrammar.ParseMatchedLine | parser/dsl_parser.py:193-221 | a matching line with a known type becomes that action with its verb, its target and the parameters of its parameter words |
| ActionGrammar.MatchOfWords | parser/dsl_parser.py:62-67 | a stripped newline-free line of at least two words whose first word is made of type characters always matches |
| ActionGrammar.ParseActionLineByWords | parser/dsl_parser.py:192-221 | for a newline-free line: it parses exactly when it has at least two words and the first is an action token, and then gives the action read off the words; an unknown first word of type characters is an unknown-type error; fewer than two words, or a first word with other characters, is an invalid-format error |
| ActionGrammar.PingLine | parser/dsl_parser.py:192 | the docstring's example `api.expose GET /ping` parses to an API-expose action on `/ping` with method GET |
| DslParser.ParseIntent | parser/dsl_parser.py:117-135 | a non-mapping records only "must be a dictionary"; otherwise "name is required" is recorded exactly when the name is falsy, and likewise for the goal; there is one error per falsy field and nothing else, the name's first; a clean section has a non-empty name and goal |
| DslParser.ParseEnvironment | parser/dsl_parser.py:137-157 | a non-mapping gives the default environment and one error; an absent or known runtime is kept with no warning; any other runtime value falls back to docker with exactly the "Unknown runtime '<value>', defaulting to docker" warning |
| DslParser.ParseActionEntry | parser/dsl_parser.py:177-221 | a mapping entry is rejected exactly when its `type` (missing counts as empty) is not an action token, with the `ValueError` message; an accepted one has that token; any other entry is matched as an action line through `str` and gets that line's result |
| DslParser.ParseEntries | parser/dsl_parser.py:166-167 | one entry result per list item |
| DslParser.ActionItems | parser/dsl_parser.py:166 | iterating the actions value walks a list's items, a string's characters one by one, nothing for an empty mapping; a non-empty mapping is iterated by its keys; `None`, a bool or a number is not iterable |
| DslParser.ParseActionList | parser/dsl_parser.py:165-169 | the loop keeps the accepted actions in order and records the rejection errors in order, as the entry-wise definitions say |
| DslParser.ParseImplementation | parser/dsl_parser.py:159-175 | a non-mapping gives the default implementation and one error; the section crashes exactly when the actions value is not iterable, and is read in key order exactly when it is a non-empty mapping; otherwise the actions are the accepted entries and the errors are the rejections |
| DslParser.ParseExecution | parser/dsl_parser.py:223-234 | the mode is transactional exactly when the section is a mapping whose `mode` is `transactional`; a known mode token is taken with no warning; any other value falls back to dry-run with exactly the "Unknown execution mode '<value>', defaulting to dry-run" warning |
| DslParser.CompatErrors | parser/dsl_parser.py:246-251 | at most one error per compatibility rule |
| DslParser.CompatErrorsNoneIffCompatible | parser/dsl_parser.py:246-251 | validation records no compatibility error exactly when FastAPI comes with Python and Express with Node |
| DslParser.RootWarnings | parser/dsl_parser.py:239-244 | at most one warning per action |
| DslParser.RootWarningsNoneIff | parser/dsl_parser.py:239-244 | no root warning is raised exactly when no shell action's parameters mention `root` in any case |
| DslParser.RootWarningsAppend | parser/dsl_parser.py:239-244 | the warnings follow the action order: those of a concatenation are the concatenation of the parts' warnings |
| DslParser.ReadSections | parser/dsl_parser.py:95-98 | a missing INTENT records only "Missing required section: INTENT"; a present one is parsed by the intent parser |
| DslParser.AllErrors | parser/dsl_parser.py:95-113 | the intent section's errors come first, and no error at all means the intent section had none |
| DslParser.ParseSections | parser/dsl_parser.py:92-115 | `ValidationError` is raised exactly when no section crashed or lost data and some error was collected, and it carries all collected errors in order; the IR is returned exactly when every section is exact and no error was collected; it has a non-empty name and goal, differs from the fresh IR only in the four parsed fields, and its warnings end with the root warnings of its actions |
| DslParser.ParseDocument | parser/dsl_parser.py:79-115 | malformed YAML and falsy documents raise `ParseError` with the source's messages; a truthy number or bool is unsupported (the membership test raises); a mapping's validation failure carries all of its sections' errors; a string or list that names no section fails with only the missing-INTENT error; a parsed IR has a name and goal and is otherwise the fresh IR plus the four sections |
| DslParser.ParsedIsCompatible | parser/dsl_parser.py:246-251 | whatever parses satisfies the framework/language compatibility rules |
| DslParser.DictEntryRoundTrip | parser/dsl_parser.py:179-187 | an action given in `to_dict` form is accepted as that same action |
| DslParser.IntentSectionRoundTrip | parser/dsl_parser.py:117-135 | an intent with a name and goal, written as a section, parses back to itself with no errors |
| DslParser.EnvironmentSectionRoundTrip | parser/dsl_parser.py:137-157 | any environment written as a section parses back to itself with no errors or warnings |
| DslParser.EncodedEntriesAccepted | parser/dsl_parser.py:165-190 | every action written in dictionary form is accepted as itself, in order, with no errors |
| DslParser.ImplementationSectionRoundTrip | parser/dsl_parser.py:159-175 | any implementation written as a section parses back to itself |
| DslParser.ExecutionSectionRoundTrip | parser/dsl_parser.py:223-234 | a section naming a mode's token parses back to that mode |
| DslParser.DslDocumentReadSections | parser/dsl_parser.py:92-107 | every section of a document written from records reads back as those records |
| DslParser.DslDocumentSections | parser/dsl_parser.py:92-113 | such a document reads back cleanly, with no error and exact fidelity, when its framework suits its language |
| DslParser.DslDocumentValidation | parser/dsl_parser.py:246-251 | such a document passes the compatibility checks when its framework suits its language |
| DslParser.DocumentRoundTrip | parser/dsl_parser.py:79-115 | a document written from an intent, environment, implementation and mode parses to the fresh IR with exactly those four parts; its warnings are the root warnings of its actions |
| DslParser.MappingDocument | parser/dsl_parser.py:84-93 | a non-empty mapping document is parsed section by section starting from a fresh IR |
| DslParser.CleanSectionsParse | parser/dsl_parser.py:92-115 | when no section records an error, `parse` returns the fresh IR with the four section values; the warnings are environment, then execution, then root warnings |
| Planner.HandlerName | planner/simulator.py:124-126 | a handler name is non-empty, contains no `/`, and neither starts nor ends with `_` |
| Planner.HandlerNameOfPath | planner/simulator.py:126 | for `/` followed by a path, the handler name is that path with every `/` replaced by `_` |
| Planner.HandlerNameOfRoot | planner/simulator.py:124-126 | the root path and a missing target both give the handler `root` |
| Planner.HandlerNameShape | planner/simulator.py:124-126 | for every endpoint: the handler is `root` when it consists only of `/` and `_`; otherwise it is the endpoint without its leading and trailing `/` and `_`, with each `/` turned into `_` |
| Planner.Exposes | planner/simulator.py:121-122 | the generators see only API-expose actions |
| Planner.ExposesMembership | planner/simulator.py:121-122 | an action is routed exactly when it is in the plan and is an API-expose action |
| Planner.GenerateCode | planner/simulator.py:48-51 | code is generated exactly for the languages `python` and `node` |
| Planner.GenerateCodeDispatch | planner/simulator.py:94-103 | Python code is the FastAPI app for FastAPI, the Flask app for Flask and the basic script otherwise; Node code is the Express app for Express and the basic script otherwise |
| Planner.RouteLengths | planner/simulator.py:128-134 | a FastAPI route is five lines; Flask and Express routes are four |
| Planner.GeneratedLineCounts | planner/simulator.py:105-229 | a FastAPI app has 7 header lines, 5 per exposed endpoint and 3 footer lines; Flask has 4, 4 per endpoint and 2; Express has 5, 4 per endpoint and 4 |
| Planner.FastApiRouteOpens | planner/simulator.py:128-130 | a FastAPI route opens with its decorator line, then its `async def` line |
| Planner.FastApiRouteLines | planner/simulator.py:121-134 | the i-th exposed endpoint's route occupies exactly lines `7+5i` to `7+5i+5` of the FastAPI app |
| Planner.FlaskRouteLines | planner/simulator.py:145-172 | the i-th exposed endpoint's route occupies exactly lines `4+4i` to `4+4i+4` of the Flask app |
| Planner.ExpressRouteLines | planner/simulator.py:200-229 | the i-th exposed endpoint's route occupies exactly lines `5+4i` to `5+4i+4` of the Express app |
| Planner.PipDependencies | planner/simulator.py:254-258 | pip installs nothing exactly when no framework is set; FastAPI installs exactly `uvicorn` then `fastapi`; any other framework installs exactly itself; `uvicorn` is installed exactly for FastAPI or a framework named `uvicorn` |
| Planner.InsertBeforeLastTwo | planner/simulator.py:289 | inserting a line adds exactly one line |
| Planner.ExtraExposes | planner/simulator.py:287-289 | at most one extra EXPOSE line per declared port |
| Planner.ExtraExposesMembership | planner/simulator.py:287-289 | `EXPOSE p` is added exactly for the declared ports other than 8000 |
| Planner.InsertPortsClosedForm | planner/simulator.py:286-289 | inserting each port before the last two lines yields the original lines with all extra EXPOSE lines, in port order, just before the final two |
| Planner.DockerfileLines | planner/simulator.py:246-252 | a Dockerfile has at least the five header lines and its second line is `FROM` the base image |
| Planner.DockerfileKeepsCmdLast | planner/simulator.py:266-289 | for Python and Node the extra EXPOSE lines never displace the blank line and the final `CMD`; the file grows by exactly the number of extra ports |
| Planner.SimulateActions | planner/simulator.py:293-321 | each action logs exactly two lines and raises at most one warning |
| Planner.SimulationWarnings | planner/simulator.py:313-315 | the simulation warns once per shell action, in order, naming its target, and for nothing else |
| Planner.EstimateResources | planner/simulator.py:323-342 | memory is 512MB exactly for FastAPI or Django, 128MB exactly for Node without those, and otherwise 256MB; cpu and times are fixed |
| Planner.DryRun | planner/simulator.py:53-92 | a dry run always succeeds; it writes its logs, code and Dockerfile into the IR and changes nothing else; the log has the predicted length, opens with the intent name and ends with the completion line |
| Planner.DryRunWarnings | planner/simulator.py:60-78 | the warnings are the missing-generator warning, if any, followed by one shell warning per shell action, in order |
| Planner.DryRunPreserves | planner/simulator.py:87-90 | a dry run keeps the IR's iteration and approval invariants |
| Planner.GeneratorsReadPlan | planner/simulator.py:94-239 | generated code depends only on the intent, environment and implementation |
| Planner.DockerfileReadsPlan | planner/simulator.py:241-291 | the Dockerfile depends only on the intent, environment and implementation |
| Planner.DryRunReadsPlan | planner/simulator.py:53-92 | the dry-run result depends only on the intent, environment and implementation |
| Planner.DryRunIdempotent | planner/simulator.py:53-92 | repeating a dry run on its own output gives the same result and IR |
| Planner.DryRunFastApiCode | planner/simulator.py:60-65 | a dry run of a FastAPI plan writes the FastAPI app: 10 + 5n lines with route i at line `7+5i` |
| Planner.DryRunFlaskCode | planner/simulator.py:60-65 | a dry run of a Flask plan writes the Flask app: 6 + 4n lines with route i at line `4+4i` |
| Planner.DryRunExpressCode | planner/simulator.py:60-65 | a dry run of an Express plan writes the Express app: 9 + 4n lines with route i at line `5+4i` |
| Executor.Probe | executor/runner.py:165-173 | a probe returns the first free port of the range after only busy ones; past the attempts it returns the fallback; a port outside 0..65535 raises |
| Executor.FindAvailablePort | executor/runner.py:159-173 | the port found is the first free in-range port from the start, or `start + 100` when all 100 are busy; an out-of-range port reached first raises the bind error |
| Executor.ExtraPortMappings | executor/runner.py:227-231 | extra mappings are made only for declared ports other than the container port; a probe failure raises |
| Executor.AppFileName | executor/runner.py:121-127 | the app file is `app.py` for Python, `app.js` for Node and `app.txt` for anything else |
| Executor.NodeDependencies | executor/runner.py:143-145 | `express` `^4.18.0` is a dependency exactly for the Express framework, and nothing else is |
| Executor.PlannedArtifacts | executor/runner.py:116-157 | the app file is written exactly when code was generated, and first; the Dockerfile exactly when one was generated; `package.json` exactly for Node, and last |
| Executor.ArtifactPaths | executor/runner.py:130-156 | every written file's key gets an entry, and each entry is the workspace path of a file with that key |
| Executor.WrittenLogs | executor/runner.py:131-157 | one `Written:` line per file, naming the file, in order |
| Executor.WriteArtifacts | executor/runner.py:116-157 | a failing workspace raises exactly when there is something to write; otherwise every planned file is written and logged and the artifact paths recorded |
| Executor.Head | executor/runner.py:203 | the build-error excerpt is the first 500 characters of stderr, or all of it |
| Executor.ExposedUrls | executor/runner.py:254-256 | one endpoint URL per API-expose action, in order: the base URL followed by the target |
| Executor.StartContainer | executor/runner.py:208-256 | a successful start records the base URL and one URL per exposed endpoint; the container id is the stripped stdout cut to 12 characters; a failed run reports its stderr |
| Executor.ExecuteDocker | executor/runner.py:175-256 | success needs a port, a successful build and a successful run, and records the endpoint URLs on the found port; a failed build reports its stderr; the image name is logged once the port is found |
| Executor.ExecuteLocal | executor/runner.py:258-283 | a missing app file is an error; an unknown language is an error naming it; success records exactly one URL on the found port |
| Executor.Dispatch | executor/runner.py:96-103 | docker and local runtimes go to their executors; kubernetes fails as unsupported |
| Executor.AfterWrite | executor/runner.py:92-103 | once writing raised, nothing else runs |
| Executor.DispatchEndpoints | executor/runner.py:96-103 | a successful dispatch records exactly the endpoints its runtime promises |
| Executor.DockerEndpoints | executor/runner.py:252-256 | a successful docker run records the base URL and the exposed endpoints on the found port |
| Executor.LocalEndpoints | executor/runner.py:282-283 | a successful local run records one URL on the found port |
| Executor.Finish | executor/runner.py:105-111 | the run succeeds exactly when nothing was raised and no error was set, and then logs the completion line last; a raised exception becomes the error and an `ERROR:` log line |
| Executor.RunApproved | executor/runner.py:89-114 | after the gate, success and "no error" coincide, the earlier logs are kept, and a successful run reports the promised endpoints |
| Executor.RunApprovedOutcomes | executor/runner.py:92-111 | a write failure ends the run with that error and nothing written; otherwise every planned file is written, and a kubernetes target fails as unsupported |
| Executor.Execute | executor/runner.py:64-114 | without the skip flag an unapproved IR, or an approved one still in dry-run, is blocked with the source's message and nothing else happens; with it an unapproved IR is auto-approved and logged; any written file or success implies approval; success reports the promised endpoints |
| Config.Unquote | config.py:45 | the unquoted value neither starts nor ends with a single quote |
| Config.ReadLine | config.py:39-45 | a line is skipped exactly when it is blank, a comment, or has no `=`; a read key is stripped and contains no `=` |
| Config.BeforeFirstEquals | config.py:43 | the text before the first `=` contains no `=` |
| Config.FirstEqualsAfterKey | config.py:43 | splitting `key=value` at its first `=` gives back the key and the value |
| Config.UnquoteClean | config.py:45 | unquoting leaves a stripped, unquoted value unchanged |
| Config.ReadLineAt | config.py:39-45 | an assignment line reads as the stripped text before its first `=` and the unquoted text after it |
| Config.ReadLineOfAssignment | config.py:39-45 | a whitespace-padded `key=value` line reads back as exactly that key and value |
| Config.ReadLines | config.py:38-45 | one reading per line of the file, in order |
| Config.Load | config.py:46-47 | loading never removes or overwrites a variable that is already set, and every name it adds is non-empty and NUL-free |
| Config.LoadLookup | config.py:37-47 | after a load that does not raise, a name is set exactly when it was set before or some line assigns it; its value is the old one, else the first assigning line's |
| Config.LoadStorableNeverRaises | config.py:46-47 | a file whose every assignment has a non-empty, NUL-free name and a NUL-free value loads without raising |
| Config.LoadSplit | config.py:38-47 | loading a file is loading its first lines and then the rest, when the first lines do not raise |
| Config.LoadStopsAt | config.py:46-47 | the first assignment to an unset name that cannot be stored raises, and only the lines before it have been stored |
| Config.LoadRaisesAt | config.py:46-47 | a load that raises stops at such an assignment, keeping exactly what the earlier lines stored |
| Config.LoadDotenv | config.py:24-47 | a missing file changes nothing and does not raise, and no existing variable is ever overwritten |
| Config.GetEnvBoolDefault | config.py:59-62 | an unset flag reads as its default |
| Config.GetEnvBoolRoundTrip | config.py:59-62 | a flag set to `str(b)` reads back as `b` |
| Config.GetEnvBoolIgnoresCase | config.py:61 | a flag's reading does not depend on the case of its value |
| Config.GetEnvIntDefault | config.py:65-70 | an unset integer reads as its default |
| Config.GetEnvIntRoundTrip | config.py:65-70 | an integer set to `str(n)` reads back as `n` |
| Config.DefaultExecSettings | config.py:111-115 | with nothing set, the confirmation is skipped, containers are prefixed `intent` and listen on port 8000 |
| Feedback.ActionTokensAreTypeTokens | ai_gateway/feedback_loop.py:321 | the tokens searched are exactly the action types' values, in declaration order |
| Feedback.LineEnd | ai_gateway/feedback_loop.py:325-327 | the end of the line is the next newline after the start, or the end of the text |
| Feedback.FirstFound | ai_gateway/feedback_loop.py:321-322 | the token chosen is the first in list order that occurs in the text; no token is chosen exactly when none occurs |
| Feedback.ExtractAction | ai_gateway/feedback_loop.py:319-329 | an action is extracted exactly when the text mentions an action token |
| Feedback.ExtractedStartsWithToken | ai_gateway/feedback_loop.py:319-329 | an extracted action starts with an action token |
| Feedback.ExtractPrefersListOrder | ai_gateway/feedback_loop.py:321-328 | the extraction starts at the first occurrence of the earliest listed token present, not the earliest position, and runs to the end of that line, stripped |
| Feedback.AnyEndpointContains | ai_gateway/feedback_loop.py:218-220 | the check holds exactly when some API-expose action's target contains the fragment |
| Feedback.StepOfStepText | ai_gateway/feedback_loop.py:221-237 | each suggestion text identifies its rule |
| Feedback.StepTextInjective | ai_gateway/feedback_loop.py:221-237 | distinct rules produce distinct texts |
| Feedback.FiringMembership | ai_gateway/feedback_loop.py:212-239 | a rule is suggested exactly when it is listed and its condition holds |
| Feedback.FiringSorted | ai_gateway/feedback_loop.py:212-239 | filtering keeps the rules' order |
| Feedback.FiresExactly | ai_gateway/feedback_loop.py:212-239 | every rule is listed, so a rule is suggested exactly when its condition holds |
| Feedback.NextSteps | ai_gateway/feedback_loop.py:212-239 | each of the six suggestions appears exactly when its condition holds, and they appear in the source's order |
| Feedback.StepTexts | ai_gateway/feedback_loop.py:212-239 | one text per suggestion, in order |
| Feedback.SuggestedIffFires | ai_gateway/feedback_loop.py:212-239 | a suggestion's text is returned exactly when its rule fires |
| Feedback.EmptyPlanSteps | ai_gateway/feedback_loop.py:212-239 | an IR with no actions, framework, logs or iterations gets health, ping, more-endpoints, dry-run and iterate suggestions, in that order |
| Feedback.FreshIntentSteps | ai_gateway/feedback_loop.py:212-239 | a freshly created IR gets those same five suggestions |
| Feedback.Contribution | ai_gateway/feedback_loop.py:145-160 | one suggestion adds at most one action |
| Feedback.AppliedFrom | ai_gateway/feedback_loop.py:145-160 | no more actions are applied than there are suggestions |
| Feedback.AppliedMembership | ai_gateway/feedback_loop.py:145-160 | an action is applied exactly when some suggestion is selected, carries a non-empty code, and that code parses to the action |
| Feedback.AppliedFromLast | ai_gateway/feedback_loop.py:145-160 | the last suggestion adds exactly what it yields to what the earlier ones applied |
| Feedback.ActionsOf | ai_gateway/feedback_loop.py:153 | one appended action per applied suggestion |
| Feedback.ChangeMessages | ai_gateway/feedback_loop.py:154-156 | one change message per applied suggestion |
| Feedback.ApplyWith | ai_gateway/feedback_loop.py:126-168 | the loop appends the applied actions in order and reports one change per action; it records an iteration listing the auto-apply suggestions only when something changed, and otherwise leaves the IR untouched |
| Feedback.ApplySuggestions | ai_gateway/feedback_loop.py:126-168 | with the DSL's action-line parser, the plan grows by exactly the applied actions, the counter grows by one exactly when something changed, and the IR invariants are kept |
| Feedback.SplitOn | ai_gateway/feedback_loop.py:291 | the pieces contain no separator, there are at least two exactly when the separator occurs, and the first piece is a prefix |
| Feedback.JoinSplitOn | ai_gateway/feedback_loop.py:291 | joining the pieces with the separator gives back the text |
| Feedback.FenceBody | ai_gateway/feedback_loop.py:290-293 | the body is a prefix of the text after the first opening fence; it contains no "```", and it ends either where a "```" starts or at the end of that text (FenceBodyIsSplit fixes it as the part before the first "```" of the piece that ends at the next opening fence) |
| Feedback.FenceBodyIsSplit | ai_gateway/feedback_loop.py:291-293 | the fence body is exactly `content.split(open)[1].split("```")[0]` |
| Feedback.ExtractFenced | ai_gateway/feedback_loop.py:290-293 | content with a `json` fence yields that fence's body; otherwise content with a plain fence yields the plain fence's body; unfenced content is left as it is |
| Feedback.FencedJsonRoundTrip | ai_gateway/feedback_loop.py:290-291 | any body without fences wrapped in a `json` fence is extracted exactly, whatever precedes it and whatever follows the closing fence that does not start with a backtick |
| Feedback.FencedPlainRoundTrip | ai_gateway/feedback_loop.py:292-293 | a body without fences wrapped in a plain fence is extracted exactly, whatever follows the closing fence, when nothing before the opening fence holds or ends in a backtick run and the content holds no `json` fence |
| Feedback.LineSuggestion | ai_gateway/feedback_loop.py:309-315 | a line yields a fallback suggestion exactly when it mentions `api.expose` or `db.create`, described by the stripped line |
| Feedback.MentioningLines | ai_gateway/feedback_loop.py:309 | a line is kept exactly when it is one of the lines and mentions `api.expose` or `db.create` |
| Feedback.FallbackSuggestions | ai_gateway/feedback_loop.py:306-315 | exactly one suggestion per line that mentions `api.expose` or `db.create`, in order, each a medium-priority, non-auto action suggestion described by the stripped line and carrying the extracted action |
| Feedback.MentionExtracts | ai_gateway/feedback_loop.py:310-314 | a line picked by the fallback always has an extractable action |
| Feedback.FallbackCodesStartWithToken | ai_gateway/feedback_loop.py:306-315 | every fallback suggestion's code starts with an action token |
| Text.Find | ai_gateway/feedback_loop.py:323 | `find` returns the first occurrence, and finds one exactly when the pattern occurs |
| Text.Words | parser/dsl_parser.py:209 | `split()` yields non-empty whitespace-free words |
| Text.JoinSplitChar | ai_gateway/feedback_loop.py:308 | splitting at newlines and joining again gives back the text |
| Text.StripIsStripped | config.py:39 | `strip()` leaves no whitespace at either end |
| Text.StripOfStripped | config.py:39 | `strip()` leaves an already stripped text unchanged |
| Text.Lower | config.py:61 | `lower()` keeps the length and lower-cases each letter |
| Text.ParseIntOfIntToString | config.py:68 | `int(str(n))` is `n` for every integer |
| Text.DecimalOfNatToString | config.py:68 | the decimal value of a natural number's digits is the number |

## Left out

- YAML and JSON text decoding are not modelled. `yaml.safe_load` and `json.loads` are taken as already done: the parser receives a `Decoded` value and the codec works on `Value`.
- The LLM gateway, `analyze`, `iterate`, prompt building, user-feedback processing, the CLI and the web app are left out. They are I/O around the modelled core.
- The JSON branch of `_parse_suggestions` is left out because it needs `json.loads`. Only its fence extraction and its line fallback are modelled.
- The `getv` branch of `load_dotenv` is left out because it is a foreign library. Only the plain-text fallback loop is modelled.
- The `.env` file's existence and lines are a parameter (`None` when absent). Line splitting treats only `\n` as a line end.
- Config.Load: an assignment that cannot be stored makes the loop raise, and the model records only that it raised (`raised`). It does not model the exception's type or message: `setenv` refuses an empty name with `OSError`, and a NUL character raises `ValueError`. The import of config.py fails with it.
- `get_env_float` and every float are left out. This includes `execution_time` and `max_model_params`.
- Log timestamps are left out. `add_log` prefixes each line with `[HH:MM:SS]`, and the model keeps the bare message.
- Clock readings and uuids are parameters. `execution_time` is not computed.
- Mapping key order is not modelled because the model's maps are unordered. This affects the order of `-e` flags and the order of parameter insertion.
- Values.Render: a mapping renders as a placeholder instead of its Python `repr`.
- Values.Repr: string escapes are simplified. So the "may run as root" check sees the parameters' keys and string values rather than the exact text of `str(params)`.
- `\w` in the action pattern is modelled as ASCII letters, digits and underscore. `lower()`/`upper()` act on ASCII letters only. Whitespace is Python's `str.isspace` set.
- The `docker run` argument list is not built, so `-p`/`-e` flags and the env vars are not modelled. Only the extra-port probing, which can raise, is modelled.
- `docker rm` only matters when it raises; its exit status is ignored, as in the source.
- Workspace paths are modelled as `workspace + "/" + file name`, without `Path` normalisation. Writes either all succeed or raise one fault before the first write.
- The free-port snapshot is a set of ports taken once. Ports that change between probes are not modelled.
- Feedback.ApplyWith: the "Failed to apply" warning is never produced. The action line parser returns errors rather than raising, and `action_code` is typed as a string, so the exception branch is unreachable in the model.
- DslParser.ParseEntries: states only the length. The per-entry results are stated by `DslParser.ParseActionEntry` and `DslParser.EncodedEntriesAccepted`.
- DslParser.CompatErrors: states only a length bound. The if-and-only-if is `DslParser.CompatErrorsNoneIffCompatible`.
- A field whose decoded value has another type than the field's (for example a number as a name) gives the model's own `WrongType` error in the codec. In the parser it gives an `Unsupported` outcome, because the typed IR cannot hold what Python would store.
- A truthy document that is not a mapping is handled by type. A number or a bool makes `"INTENT" in data` raise `TypeError`, and the model reports `Unsupported`. A string or list that names a section (a string containing `INTENT`, say) makes Python index into it, and the model also reports `Unsupported`. A string or list that names no section gives only "Missing required section: INTENT", as the source does.
- An `actions` value that is a non-empty mapping is iterated by Python over its keys in insertion order. The model's maps have no order, so it reports `Unsupported` for such a section.
- Text.ParseInt: reads base-ten ASCII digits, with surrounding whitespace, an optional sign and single `_` separators. Python's `int()` also accepts digits outside ASCII; for those the model returns `None`.
- ActionGrammar.ParseActionLineByWords: holds for lines without a newline. A newline inside a line is whitespace to `split()` but ends the pattern's parameter group.
- Feedback.FencedJsonRoundTrip: requires that the text after the closing fence does not start with a backtick. The code itself behaves differently there: when `rest` starts with `` `json ``, the first `json` fence begins one character after the body, so `split("```json")[1]`, and with it the result, is the body followed by one backtick.
- Behaviour of the code that the model keeps as it is:
  - the handler name replaces only `/` by `_`; other characters of the endpoint are kept;
  - EXPOSE lines are not deduplicated: a port listed twice is exposed twice;
  - `EXECUTION.mode: transactional` gives a transactional but unapproved IR. So "approved exactly when transactional" is not a parser invariant; only "approved implies transactional" is kept;
  - `apply_suggestions` records every auto-apply suggestion in the iteration, not just the applied ones;
  - `_extract_action` picks the first token in list order, not the token at the earliest position.
