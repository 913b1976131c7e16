# rampx-cli `init` core in Dafny

This project models the decision logic behind `rpx init <type> <name>`. The command scaffolds a Laravel, Flutter or Node project in a chosen structure pattern. The model has three parts.

- **The pattern registry** (`Patterns`). For each project type it holds an ordered table of patterns, each with a key, a label, a description and a "recommended" flag. The four lookups `getPattern`, `getFrameworkPatterns`, `getRecommendedPattern` and `isValidPattern` are modelled on it.
- **The generation plan** (`Templates`). For a type, a pattern and a name it gives the directories and files `createTemplate` lays out. The files include `package.json`, the source stubs, the README and the env files. The module also covers the README text, the env bodies, the pattern descriptions with their fallback, and the `{{PROJECT_NAME}}`/`{{PROJECT_TYPE}}` substitution of `processTemplateVariables`.
- **The orchestration** (`Init`). This is `initCommand` as a step function over an abstract file system. The steps run in order: type check, name check (`^[a-z0-9_-]+$`), the directory-exists prompt, pattern resolution (`--yes`, `--pattern` or the interactive list), generation, `git init`, dependency installation, and the final report with `getNextStepsForType`.
  - Prompts, the generator's I/O outcome and the external tools are answers supplied by an `Oracle` value.
  - Every run ends in `Exit(code)` or `Done(pattern, nextSteps)`.
  - The generation step is stated for any `Generator`. `InitCommand` instantiates it with `createTemplate`'s plan.

Supporting modules:
- `Wrappers` defines `Option` and `Result`.
- `ProjectTypes` defines the three types and parses their names.
- `Strings` defines occurrence, replace-all and lemmas about them.

The file system is a map from `Path(project, rel)` to a directory or a file. A `Path` is a top-level project name in the working directory plus a path inside it, where `""` is the project directory itself. File contents are the `Templates.Content` values of the plan. Source stubs and `package.json` are named constants, not their literal text.

The registry lookups (commands/init/patterns.js:69-99), the pattern check in `selectPattern` (commands/init/index.js:86-97) and the description table of `getPatternDescription` (commands/init/templates.js:562) index plain JavaScript objects. So names inherited from `Object.prototype` (such as `constructor`) are found as well as the declared keys. The type check is different: `validateType` uses `Array.prototype.includes` (commands/init/index.js:20-21), which sees only the three listed names. The model uses declared keys only. The inherited-name behaviour is logged under Findings, with members that state it as written.

## Behaviour notes

- Cancelling at the directory-exists prompt exits with code 0 (commands/init/index.js:59-61). `Init.ExitCodes` and `Init.CancelChangesNothing` state this.
- `getRecommendedPattern` returns a key, not a pattern entry (commands/init/patterns.js:91). `Patterns.GetRecommendedPattern` returns the key.

## Model

| member | source | states |
|---|---|---|
| ProjectTypes.ParseType | commands/init/index.js:19-26 | a parsed type's name is exactly the input string; only `laravel`, `flutter` and `node` parse |
| ProjectTypes.ParseTypeRoundTrip | commands/init/patterns.js:10-64 | parsing a type's own name gives the type back, and that name is the only string that parses to it |
| Patterns.PatternsOf | commands/init/patterns.js:10-64 | each type's table of patterns; its keys, their order, their distinctness and the single recommended flag are stated by Patterns.RegistryKeys, Patterns.RegistryKeysDistinct and Patterns.ExactlyOneRecommended |
| Patterns.Find | commands/init/patterns.js:69-71 | an entry is found exactly when the key is among the table's keys, and what is found is an entry with that key |
| Patterns.FindDistinct | commands/init/patterns.js:69-71 | in a table with distinct keys, looking up an entry's key returns that very entry |
| Patterns.FirstRecommended | commands/init/patterns.js:87-89 | the position found is flagged recommended and no earlier entry is; nothing is found exactly when no entry is flagged |
| Patterns.RecommendedKey | commands/init/patterns.js:87-91 | the result is one of the table's keys, and it is absent only for an empty table |
| Patterns.RecommendedKeyIsFirstRecommended | commands/init/patterns.js:87-91 | the recommended key is the first flagged key in declaration order, and the first key when none is flagged |
| Patterns.GetFrameworkPatterns | commands/init/patterns.js:76-78 | a table is returned exactly for `laravel`, `flutter` and `node`, and it is that type's table |
| Patterns.GetPattern | commands/init/patterns.js:69-71 | an entry is returned exactly for a known type and one of its declared keys, and it is that type's entry with that key |
| Patterns.GetRecommendedPattern | commands/init/patterns.js:83-92 | a key is returned exactly when the framework is known, so an unknown framework gives null |
| Patterns.IsValidPattern | commands/init/patterns.js:97-99 | a pattern is valid exactly when `getPattern` finds it |
| Patterns.RecommendedIsValid | commands/init/patterns.js:83-99 | whenever a recommended key exists, it is a valid pattern of that framework |
| Patterns.UnknownFrameworkFindsNothing | commands/init/patterns.js:69-99 | an unknown framework finds nothing through any of the four lookups |
| Patterns.FrameworksAreTheRegistry | commands/init/patterns.js:10-78 | `getFrameworkPatterns` finds a table for a string exactly when it spells one of the three listed types, each type is listed once, and the table found is that type's own |
| Patterns.RegistryKeys | commands/init/patterns.js:10-64 | each type declares three keys in a fixed order: standard, feature, ddd / layered, feature, clean / simple, modular, clean |
| Patterns.RegistryKeysDistinct | commands/init/patterns.js:10-64 | the keys within a type are pairwise distinct |
| Patterns.ExactlyOneRecommended | commands/init/patterns.js:10-64 | every type flags exactly one pattern as recommended |
| Patterns.CountRecommendedOfThree | commands/init/patterns.js:10-64 | the recommended count of a three-entry table is the sum of its three flags |
| Patterns.FirstKeyIsNotRecommended | commands/init/patterns.js:11-56 | the recommended keys are feature, feature and modular; the first keys are standard, layered and simple; for every type the first key differs from the recommended one |
| Patterns.IsValidPatternAsWritten | commands/init/patterns.js:97-99 | as written, every declared key is accepted, and `Object.prototype` member names are accepted as well |
| Patterns.FrameworkFoundAsWritten | commands/init/patterns.js:76-78 | as written, every known framework is found, and `Object.prototype` member names are found as well |
| Patterns.ConstructorAcceptedAsWritten | commands/init/patterns.js:97-99 | as written, `constructor` is a valid pattern of every type although no type declares it |
| Patterns.ToStringFrameworkAsWritten | commands/init/patterns.js:76-78 | as written, `toString` is found as a framework although it is not one |
| Templates.CommonFiles | commands/init/templates.js:457-488 | exactly README.md, .env.example and .env are written, and both env files hold the type's env body |
| Templates.CreateTemplate | commands/init/templates.js:12-30 | the plan has the generator's directories, plus its files together with the common files; the common files overwrite the generator's |
| Templates.GenerateTemplate | commands/init/templates.js:72-84 | the type-specific generators write no file but `package.json`, `src/index.js` and `lib/main.dart`, so the README and env files come only from the common files; an unknown type generates nothing (Templates.UnknownTypeLayout) |
| Templates.NodePlan | commands/init/templates.js:89-258 | the Node generator's directories and files, as stated by Templates.NodeGenerator and Templates.NodeLayout |
| Templates.LaravelPlan | commands/init/templates.js:263-330 | the Laravel generator's directories, as stated by Templates.LaravelLayout |
| Templates.FlutterPlan | commands/init/templates.js:335-452 | the Flutter generator's directories and `lib/main.dart`, as stated by Templates.FlutterGenerator and Templates.FlutterLayout |
| Templates.PatternDescription | commands/init/templates.js:543-563 | the README's pattern description with its fallback, as stated by Templates.DescriptionCoverage, Templates.UndeclaredHasNoDescription and Templates.DescriptionsDiffer |
| Templates.EnvTemplate | commands/init/templates.js:568-598 | the env body of each type, empty for an unknown type, as stated by Templates.CommonFiles and Templates.UnknownTypeLayout |
| Templates.StartupInstructions | commands/init/templates.js:493-538 | the README's setup section, as stated by Init.StartupInstructionsNameTheCommands |
| Templates.Readme | commands/init/templates.js:459-480 | the README text, as stated by Templates.ReadmeMentions |
| Templates.SubstituteVariables | commands/init/templates.js:41-42 | the two global placeholder replacements, as stated by Templates.SubstituteWithoutPlaceholders, Init.NoPlaceholderRemains and Init.UnderscoreNameCanLeavePlaceholder |
| Templates.SubstituteWithoutPlaceholders | commands/init/templates.js:41-42 | content with neither placeholder is left exactly as it was |
| Templates.ProcessTemplateVariables | commands/init/templates.js:35-46 | no file appears or vanishes; `.json`, `.md` and `.yaml` files are substituted and every other file is left as it was |
| Templates.NodeGenerator | commands/init/templates.js:89-129 | the Node generator always writes `package.json` with the project's name; `src/index.js` is written exactly for the declared node keys, which also get `src` and `tests` |
| Templates.NodeLayout | commands/init/templates.js:89-229 | node: the manifest carries the name; simple, modular and clean give their fixed directory lists; an undeclared pattern creates no directory and no `src/index.js` |
| Templates.LaravelLayout | commands/init/templates.js:263-330 | laravel: the eight base directories always; feature and ddd add their lists; any other pattern falls back to the standard list; only the common files are written |
| Templates.FlutterGenerator | commands/init/templates.js:335-452 | the Flutter generator gives the base and pattern directories and `lib/main.dart`; pattern directories are added exactly for the declared flutter keys |
| Templates.FlutterLayout | commands/init/templates.js:335-452 | flutter: lib, test and assets always; `lib/main.dart` for every pattern; extra directories exactly for layered, feature and clean |
| Templates.UnknownTypeLayout | commands/init/templates.js:72-84 | an unknown type creates no directory, and writes only the common files with an empty env body |
| Templates.LayoutIgnoresName | commands/init/templates.js:12-30 | the name changes file contents only, never which paths are created |
| Templates.DescriptionCoverage | commands/init/templates.js:543-563 | exactly the declared (type, key) pairs get a non-fallback description, and it is worded differently from the registry's |
| Templates.UndeclaredHasNoDescription | commands/init/templates.js:543-563 | an undeclared key gets `Custom project structure.` |
| Templates.DescriptionsDiffer | commands/init/templates.js:543-563 | each declared key's README description exists, and differs both from the registry's description and from the fallback |
| Templates.LaravelDescriptionsDiffer | commands/init/templates.js:550-554 | the same, for the laravel table |
| Templates.FlutterDescriptionsDiffer | commands/init/templates.js:555-559 | the same, for the flutter table |
| Templates.NodeDescriptionsDiffer | commands/init/templates.js:545-549 | the same, for the node table |
| Templates.ReadmeMentions | commands/init/templates.js:459-482 | the README starts with `# <name>` and contains the type, the pattern and the pattern's description |
| Strings.ReplaceAllWithoutOccurrence | commands/init/templates.js:41-42 | a text without the pattern is returned unchanged |
| Strings.NoPatternLeft | commands/init/templates.js:41-42 | when the replacement and the pattern do not share each other's first characters, no occurrence of the pattern survives a replace-all |
| Strings.NoNewOccurrence | commands/init/templates.js:41-42 | a replace-all does not create a token that was absent, as long as the replacement cannot start or end one |
| Strings.ReplaceAllAtFirstOccurrence | commands/init/templates.js:41-42 | the scan replaces the first occurrence and continues after it |
| Strings.CopiedPrefix | commands/init/templates.js:41-42 | text before the first replacement is copied unchanged |
| Strings.OccursInConcat | commands/init/templates.js:459-482 | every piece of an assembled text occurs in it |
| Strings.OccursTransitive | commands/init/templates.js:41-42 | a token inside a token inside a text is inside the text |
| Strings.CharCountRulesOut | commands/init/templates.js:41-42 | a token needing a character more often than the text has it does not occur |
| Init.ValidTypesAreRegistryTypes | commands/init/index.js:19-26 | `validateType` accepts exactly the registry's three type names |
| Init.ValidName | commands/init/index.js:32 | the name pattern `^[a-z0-9_-]+$`, as decided by Init.CheckName and sampled by Init.NameExamples |
| Init.CheckName | commands/init/index.js:31-38 | the scan accepts exactly the non-empty names over `[a-z0-9_-]` |
| Init.NameExamples | commands/init/index.js:31-38 | `my-app_2` is accepted; `My App`, `app!` and the empty name are rejected |
| Init.RemoveProject | commands/init/index.js:62-66 | the project directory and everything below it disappear, and every other entry stays as it was |
| Init.PlanEntries | commands/init/index.js:138-141 | the project directory, every planned directory and every planned file are created, with files holding their planned content |
| Init.Materialize | commands/init/index.js:138-141 | the written entries appear below the project, and every entry not written over is unchanged |
| Init.ProvidedPattern | commands/init/index.js:86 | an empty `--pattern` counts as absent, like a falsy value |
| Init.SelectPattern | commands/init/index.js:77-127 | a provided pattern is returned unchanged exactly when it is valid, and otherwise rejected with the type's keys; without one, the chosen entry of the type's key list is returned |
| Init.ResolvePattern | commands/init/index.js:309-311 | `--yes` gives the type's first key and ignores `--pattern`; otherwise `selectPattern` decides; the result is always a declared key, and resolution fails exactly when `--yes` is off and a non-empty undeclared `--pattern` was given |
| Init.InstallCommand | commands/init/index.js:188-198 | the installer each type runs, as stated by Init.NextStepsMentionInstallIffSkipped and Init.StartupInstructionsNameTheCommands |
| Init.RunCommand | commands/init/index.js:279-289 | the command each type suggests for running the project, as stated by Init.NextStepsMentionInstallIffSkipped and Init.InstallNotInRunLine |
| Init.NextSteps | commands/init/index.js:262-292 | the text always ends in a newline; an unknown type gives just the newline; a known type gives the install line only when installation was skipped, then the run line |
| Init.Step | commands/init/index.js:297-335 | a step never drops an event already recorded |
| Init.ResolveStep | commands/init/index.js:309-311 | pattern resolution leaves the file system and the events alone; when it succeeds, the run moves on to generation for the same type |
| Init.GenerateStep | commands/init/index.js:133-149 | generation never drops an event; when it succeeds, the run moves on to `git init` with the same type and pattern |
| Init.GitStep | commands/init/index.js:154-173 | the git step never ends the run; it is always followed by installation |
| Init.InstallStep | commands/init/index.js:178-203 | the install step never ends the run and leaves the file system alone |
| Init.StepLowersRank | commands/init/index.js:297-335 | every step moves strictly forward through the fixed order of stages |
| Init.Run | commands/init/index.js:297-335 | every run finishes, and it keeps the events recorded so far |
| Init.InitCommandWith | commands/init/index.js:297-335 | for any generator, the command always finishes |
| Init.InitCommand | commands/init/index.js:297-335 | the command with `createTemplate`'s plan always finishes; its outcomes are stated by Init.InitCommandMatchesExpected and the lemmas below |
| Init.InitCommandMatchesExpected | commands/init/index.js:297-335 | the step machine agrees with the reference decision list for every request, oracle answer and file system |
| Init.InvalidInputChangesNothing | commands/init/index.js:300-301 | an unknown type or a malformed name exits 1 with the file system untouched and no event recorded |
| Init.CancelChangesNothing | commands/init/index.js:59-61 | cancelling at the conflict prompt exits 0 and changes nothing |
| Init.RemovalPrecedesPatternCheck | commands/init/index.js:306-311 | choosing "remove" deletes the old project before an undeclared `--pattern` makes the run exit 1 |
| Init.ExitCodes | commands/init/index.js:297-335 | every early end is exit 0 or exit 1, and exit 0 happens exactly on a cancel |
| Init.SuccessCharacterised | commands/init/index.js:297-335 | a run succeeds exactly when it passes validation, is not cancelled, resolves a pattern and generates completely; it reports the resolved pattern and the next steps |
| Init.YesTakesFirstPattern | commands/init/index.js:309-311 | a successful `--yes` run uses the type's first declared key |
| Init.ToolsOnlyWarn | commands/init/index.js:154-203 | whether `git init` and the installer work never changes how the run ends |
| Init.OtherProjectsUntouched | commands/init/index.js:297-335 | entries outside the project directory are never created, changed or removed |
| Init.SuccessHoldsExactlyThePlan | commands/init/index.js:306-323 | after success the project holds exactly the generated entries, plus the repository files when `git init` ran, with nothing left over from a removed directory |
| Init.SuccessTrace | commands/init/index.js:306-326 | a successful run reports the removal if there was one, then generation, then the git event, then the install event |
| Init.InitCommandWritesCommonFiles | commands/init/templates.js:457-488 | a successful run leaves the project directory, the README built from name, type and pattern, and identical `.env` and `.env.example` files |
| Init.SuccessWritesCommonFiles | commands/init/index.js:306-323 | for any generator that lays out the README and env files, a successful run leaves them in the project as laid out |
| Init.PlanHoldsCommonFiles | commands/init/templates.js:12-30 | the entries `createTemplate` lays out always include the project directory, the README and both env files with the type's env body |
| Init.CreateTemplateWritesCommonFiles | commands/init/templates.js:457-488 | `createTemplate`'s plan writes the common files for every type, pattern and name |
| Init.NextStepsMentionInstallIffSkipped | commands/init/index.js:262-292 | the install command is among the next steps exactly when installation was skipped, and the run command always is |
| Init.InstallNotInRunLine | commands/init/index.js:279-289 | the run line never contains the install command |
| Init.StartupInstructionsNameTheCommands | commands/init/templates.js:493-538 | the README's setup section names the same install and run commands that the command runs and suggests |
| Init.NoPlaceholderRemains | commands/init/templates.js:41-42 | for every valid name except `_` and every valid type, no placeholder of either kind survives substitution |
| Init.UnderscoreNameCanLeavePlaceholder | commands/init/templates.js:41-42 | the valid name `_` turns `{{PROJECT{{PROJECT_NAME}}NAME}}` into a fresh `{{PROJECT_NAME}}` |
| Init.SelectPatternAsWritten | commands/init/index.js:86-97 | as written, every pattern the own-key check accepts is accepted as well |
| Init.ConstructorSelectedAsWritten | commands/init/index.js:86-97 | as written, `--pattern constructor` passes validation for every type, while the own-key check rejects it |

## Left out

- The copy-template branch is not modelled (commands/init/templates.js:17-22). Neither is the recursive directory walk (51-67). Both depend on template folders on disk that are not part of this model. The model always takes the generator branch, and substitution is modelled on a map from path to content.
- bin/rpx.js is not part of this model: argument parsing, banner, help and version text. `Options` stands for the parsed flags.
- commands/patterns/index.js is not part of this model. It only renders the registry.
- templates/node/node.js and templates/flutter/flutter.js are not part of this model. Nothing on the `init` path imports them.
- Console output, spinners, colours and boxes are left out. Prompts are oracle answers, and the user-visible outcome is the `Event` trace.
- `execSync` calls are opaque success or failure answers. The installers' effect on the file system (`node_modules`, `vendor`) is not modelled.
- Init.GitStep: a `git init` that succeeds followed by a failing `.gitignore` write is treated like a failed `git init`, because the oracle gives one answer for the whole step.
- Real file-system semantics are not modelled: `ensureDir` parent creation, permissions and symlinks. A failed generation is one oracle answer naming which planned paths got written.
- The state machine (`Init.InitCommandWith`) is stated for any generator, so its proofs do not unfold the plan's text. `Init.InitCommand` is the instance with `createTemplate`. Properties about file contents are proved for that instance.
- Init.SuccessHoldsExactlyThePlan: assumes a well-formed starting tree, in which no entry sits below a missing project directory.
- Stub bodies (`src/index.js`, `lib/main.dart`) and the fields of `package.json` other than `name` are named constants.
- The `$` patterns of `String.prototype.replace` are not modelled. Validated names and types contain no `$`, so the replacement is literal.
- Init.NoPlaceholderRemains: excludes the name `_`. It is the one valid name for which the property is false, as `Init.UnderscoreNameCanLeavePlaceholder` shows.
- Init.SelectPattern: requires the chosen position to be within the type's list. An inquirer list only returns one of its entries.
- The `!typePatterns` exit in `selectPattern` (commands/init/index.js:80-83) is unreachable after `validateType`. Only the valid-type path is modelled.
- Uncaught exceptions other than a failed generation (commands/init/index.js:331-334) are not modelled.
- `getPattern` with an inherited name is not modelled as written. It returns the inherited member, the same mechanism as the findings below.
- Templates.PatternDescription: with an inherited name such as `constructor`, `descriptions[type]?.[pattern]` (commands/init/templates.js:562) finds the inherited `Object` function. That value is truthy, so the README would show the function's text instead of `Custom project structure.`. The model gives the fallback, the same mechanism as the findings below.

## Findings

| source | as written | input that shows it | evidently intended | confidence | as-written member | corrected member |
|---|---|---|---|---|---|---|
| commands/init/patterns.js:97-99 | `patterns[framework]?.[patternKey] !== undefined` also finds names inherited from `Object.prototype` | `isValidPattern('laravel', 'constructor')` is true | only declared keys are valid | high, not executed | Patterns.ConstructorAcceptedAsWritten | Patterns.IsValidPattern |
| commands/init/patterns.js:76-78 | `patterns[framework] \|\| null` finds inherited members | `getFrameworkPatterns('toString')` is a function, not null | null for anything but the three types | high, not executed | Patterns.ToStringFrameworkAsWritten | Patterns.GetFrameworkPatterns |
| commands/init/index.js:86-97 | `!typePatterns[providedPattern]` lets inherited names through | `rpx init laravel app --pattern constructor` passes validation and generates with an undeclared pattern; the README's pattern description then also comes from the inherited `Object` (commands/init/templates.js:562) | exit 1 with the list of available patterns | high, not executed | Init.ConstructorSelectedAsWritten | Init.SelectPattern |
