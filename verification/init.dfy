/**
 * The `init` command: validates the request, settles a conflict with an existing
 * directory, resolves the pattern, generates the project, then optionally
 * initialises git and installs dependencies. It is modelled as a step function
 * over an abstract file system; the prompts, the generator's I/O outcome and the
 * external tools are answers supplied by an oracle.
 */
module Init {
  import opened Wrappers
  import opened Strings
  import opened ProjectTypes
  import Patterns
  import Templates

  // ---------------------------------------------------------------------------
  // Validation
  // ---------------------------------------------------------------------------

  /** The types `validateType` accepts, in the order it lists them. */
  const ValidTypes: seq<string> := ["flutter", "laravel", "node"]

  /** `validateType` accepts exactly the registry's three type names. */
  lemma ValidTypesAreRegistryTypes(typ: string)
    ensures typ in ValidTypes <==> ParseType(typ).Some?
  {
  }

  /** A character of the class `[a-z0-9_-]`. */
  predicate NameChar(c: char)
  {
    ('a' <= c <= 'z') || ('0' <= c <= '9') || c == '_' || c == '-'
  }

  /** The language of `^[a-z0-9_-]+$`: non-empty, every character in the class. */
  predicate ValidName(name: string)
  {
    |name| > 0 && forall i :: 0 <= i < |name| ==> NameChar(name[i])
  }

  /** `validateName`: a left-to-right scan deciding the name pattern. */
  method CheckName(name: string) returns (ok: bool)
    ensures ok <==> ValidName(name)
  {
    if |name| == 0 {
      return false;
    }
    var i := 0;
    while i < |name|
      invariant 0 <= i <= |name|
      invariant forall j :: 0 <= j < i ==> NameChar(name[j])
    {
      if !NameChar(name[i]) {
        return false;
      }
      i := i + 1;
    }
    return true;
  }

  /** Sample accepted and rejected names. */
  lemma NameExamples()
    ensures ValidName("my-app_2")
    ensures !ValidName("My App") && !ValidName("app!") && !ValidName("")
  {
    assert !NameChar("My App"[0]);
    assert !NameChar("app!"[3]);
  }

  // ---------------------------------------------------------------------------
  // Requests, oracle answers and the abstract file system
  // ---------------------------------------------------------------------------

  /** The command-line flags: `--pattern`, `--no-git`, `--no-install`, `--yes`. */
  datatype Options = Options(pattern: Option<string>, git: bool, install: bool, yes: bool)

  datatype Request = Request(typ: string, name: string, options: Options)

  /** The answer to "directory exists, what would you like to do?". */
  datatype ConflictAction = Cancel | Remove

  /** How generation went: complete, or stopped by an I/O error after writing some of the plan. */
  datatype GenerationResult = Generated | GenerationFailed(written: set<string>)

  /**
   * Everything outside the model's control: the conflict answer, the position of the
   * pattern picked in the interactive list, the generator's I/O outcome, and whether
   * `git init` and the installer succeed.
   */
  datatype Oracle = Oracle(
    conflict: ConflictAction,
    choice: nat,
    generation: GenerationResult,
    gitSucceeds: bool,
    installSucceeds: bool)

  /** The interactive list only returns an offered entry: the position is within every type's list. */
  predicate ChoiceOffered(o: Oracle)
  {
    forall t: ProjectType :: o.choice < |Patterns.KeysOf(t)|
  }

  /** A path below the working directory: the top-level project name and a path inside it ("" is the project itself). */
  datatype Path = Path(project: string, rel: string)

  datatype Entry = Directory | File(content: Templates.Content)

  type Fs = map<Path, Entry>

  function ProjectRoot(name: string): Path
  {
    Path(name, "")
  }

  /** `fs.removeSync`: the project directory and everything below it disappear; nothing else changes. */
  function RemoveProject(fs: Fs, name: string): (r: Fs)
    ensures forall p :: p in r <==> p in fs && p.project != name
    ensures forall p :: p in r ==> r[p] == fs[p]
  {
    map p | p in fs && p.project != name :: fs[p]
  }

  /** The entries a plan produces inside the project: the project directory, its directories, its files. */
  function PlanEntries(plan: Templates.Plan): (e: map<string, Entry>)
    ensures e.Keys == {""} + plan.dirs + plan.files.Keys
    ensures forall f :: f in plan.files ==> e[f] == File(plan.files[f])
    ensures forall d :: d in plan.dirs && d !in plan.files && d != "" ==> e[d] == Directory
  {
    map["" := Directory] + (map d | d in plan.dirs :: Directory) + (map f | f in plan.files :: File(plan.files[f]))
  }

  /** Writes the given entries into the project `name`. */
  function Materialize(fs: Fs, name: string, entries: map<string, Entry>): (r: Fs)
    ensures forall p :: p in r <==> p in fs || (p.project == name && p.rel in entries)
    ensures forall p :: p in r && p.project == name && p.rel in entries ==> r[p] == entries[p.rel]
    ensures forall p :: p in r && !(p.project == name && p.rel in entries) ==> r[p] == fs[p]
  {
    fs + (map rel | rel in entries :: Path(name, rel) := entries[rel])
  }

  /** The entries among `entries` that an interrupted generation got to write. */
  function Written(entries: map<string, Entry>, written: set<string>): map<string, Entry>
  {
    map rel | rel in entries && rel in written :: entries[rel]
  }

  /** The `.gitignore` body written after a successful `git init`. */
  const GitignoreBody: string :=
    "# Dependencies\nnode_modules/\nvendor/\n.pub-cache/\n\n# Environment\n.env\n.env.local\n\n"
    + "# IDE\n.vscode/\n.idea/\n*.swp\n*.swo\n\n# OS\n.DS_Store\nThumbs.db\n\n"
    + "# Build\nbuild/\ndist/\n*.log\n"

  /** What `git init` plus the `.gitignore` write leave in the project. */
  function GitEntries(): map<string, Entry>
  {
    map[".git" := Directory, ".gitignore" := File(Templates.Text(GitignoreBody))]
  }

  // ---------------------------------------------------------------------------
  // Pattern resolution and tool commands
  // ---------------------------------------------------------------------------

  /** The `--pattern` value as the command sees it: an empty string is falsy and counts as absent. */
  function ProvidedPattern(options: Options): (r: Option<string>)
    ensures r.Some? ==> r.value != "" && options.pattern == r
    ensures r.None? ==> options.pattern.None? || options.pattern.value == ""
  {
    match options.pattern
    case Some(p) => if p != "" then Some(p) else None
    case None => None
  }

  /**
   * `selectPattern`: a provided pattern is returned unchanged if the type declares it
   * and rejected with the list of available keys otherwise; without one, the user
   * picks from the type's keys in declaration order.
   */
  function SelectPattern(t: ProjectType, provided: Option<string>, choice: nat): (r: Result<string, seq<string>>)
    requires choice < |Patterns.KeysOf(t)|
    ensures provided.Some? ==> (r.Success? <==> Patterns.IsValidPattern(TypeName(t), provided.value))
    ensures provided.Some? && r.Success? ==> r.value == provided.value
    ensures r.Failure? ==> provided.Some? && r.error == Patterns.KeysOf(t)
    ensures r.Success? ==> r.value in Patterns.KeysOf(t)
    ensures provided.None? ==> r.Success? && r.value == Patterns.KeysOf(t)[choice]
  {
    ParseTypeRoundTrip(t, TypeName(t));
    match provided
    case Some(p) =>
      if p in Patterns.KeysOf(t) then Success(p) else Failure(Patterns.KeysOf(t))
    case None => Success(Patterns.KeysOf(t)[choice])
  }

  /** `--yes` takes the first declared key and ignores `--pattern`; otherwise `selectPattern` decides. */
  function ResolvePattern(t: ProjectType, options: Options, choice: nat): (r: Result<string, seq<string>>)
    requires choice < |Patterns.KeysOf(t)|
    ensures options.yes ==> r == Success(Patterns.KeysOf(t)[0])
    ensures !options.yes ==> r == SelectPattern(t, ProvidedPattern(options), choice)
    ensures r.Success? ==> r.value in Patterns.KeysOf(t)
    ensures r.Failure? <==> !options.yes && ProvidedPattern(options).Some?
                            && !Patterns.IsValidPattern(TypeName(t), ProvidedPattern(options).value)
  {
    if options.yes then Success(Patterns.KeysOf(t)[0])
    else SelectPattern(t, ProvidedPattern(options), choice)
  }

  /** The dependency installer each type runs. */
  function InstallCommand(t: ProjectType): string
  {
    match t
    case Node => "npm install"
    case Laravel => "composer install"
    case Flutter => "flutter pub get"
  }

  /** The development-server command each type suggests. */
  function RunCommand(t: ProjectType): string
  {
    match t
    case Node => "npm run dev"
    case Laravel => "php artisan serve"
    case Flutter => "flutter run"
  }

  /** `steps.join('\n')`. */
  function JoinLines(lines: seq<string>): string
  {
    if |lines| == 0 then ""
    else if |lines| == 1 then lines[0]
    else lines[0] + "\n" + JoinLines(lines[1..])
  }

  /**
   * `getNextStepsForType`: the install command first, only when installation was
   * skipped, then the run command; an unknown type gives no line at all. The text
   * always ends with a newline.
   */
  function NextSteps(typ: string, install: bool): (r: string)
    ensures |r| > 0 && r[|r| - 1] == '\n'
    ensures ParseType(typ).None? ==> r == "\n"
    ensures ParseType(typ).Some? ==>
              r == (if install then "" else "  " + InstallCommand(ParseType(typ).value) + "\n")
                   + "  " + RunCommand(ParseType(typ).value) + "\n"
  {
    var lines := StepLines(typ, install);
    match ParseType(typ)
    case None =>
      JoinLines(lines) + "\n"
    case Some(t) =>
      if install then
        assert lines == ["  " + RunCommand(t)];
        JoinLines(lines) + "\n"
      else
        assert lines == ["  " + InstallCommand(t), "  " + RunCommand(t)];
        assert lines[1..] == ["  " + RunCommand(t)];
        assert JoinLines(lines) == lines[0] + "\n" + lines[1];
        JoinLines(lines) + "\n"
  }

  /** The lines of the next-steps text: the install line when installation was skipped, then the run line. */
  function StepLines(typ: string, install: bool): seq<string>
  {
    match ParseType(typ)
    case Some(t) => (if !install then ["  " + InstallCommand(t)] else []) + ["  " + RunCommand(t)]
    case None => []
  }

  // ---------------------------------------------------------------------------
  // The command as a state machine
  // ---------------------------------------------------------------------------

  /** What the run did that a user sees, in order. */
  datatype Event =
    | DirectoryRemoved
    | ProjectGenerated(pattern: string)
    | GitInitialised
    | GitSkipped
    | GitWarning
    | DependenciesInstalled(command: string)
    | InstallSkipped
    | InstallWarning(command: string)

  /** How a run ends: `process.exit(code)`, or the success report with the next steps. */
  datatype Outcome = Exit(code: nat) | Done(pattern: string, nextSteps: string)

  /** The steps of `initCommand`, in the order they run. */
  datatype Stage =
    | CheckType
    | NameCheck(t: ProjectType)
    | CheckConflict(t: ProjectType)
    | Resolve(t: ProjectType)
    | Generate(t: ProjectType, pattern: string)
    | InitGit(t: ProjectType, pattern: string)
    | InstallDeps(t: ProjectType, pattern: string)
    | Report(t: ProjectType, pattern: string)

  datatype State =
    | Running(stage: Stage, fs: Fs, trace: seq<Event>)
    | Finished(outcome: Outcome, fs: Fs, trace: seq<Event>)

  /** Steps still to run: each step lowers it, a finished run has none left. */
  function Rank(s: State): nat
  {
    if s.Finished? then 0 else StageRank(s.stage)
  }

  function StageRank(stage: Stage): nat
  {
    match stage
    case Report(_, _) => 1
    case InstallDeps(_, _) => 2
    case InitGit(_, _) => 3
    case Generate(_, _) => 4
    case Resolve(_) => 5
    case CheckConflict(_) => 6
    case NameCheck(_) => 7
    case CheckType => 8
  }

  /**
   * One step of `initCommand`. Every step moves strictly forward through the fixed
   * order type check, name check, conflict, pattern, generation, git, install,
   * report, and never forgets what the trace already records.
   */
  function Step(req: Request, o: Oracle, gen: Generator, s: State): (r: State)
    requires s.Running?
    requires ChoiceOffered(o)
    ensures s.trace <= r.trace
  {
    var fs := s.fs;
    var trace := s.trace;
    var name := req.name;
    match s.stage
    case CheckType =>
      (match ParseType(req.typ)
       case None => Finished(Exit(1), fs, trace)
       case Some(t) => Running(NameCheck(t), fs, trace))
    case NameCheck(t) =>
      if ValidName(name) then Running(CheckConflict(t), fs, trace)
      else Finished(Exit(1), fs, trace)
    case CheckConflict(t) =>
      if ProjectRoot(name) !in fs then Running(Resolve(t), fs, trace)
      else if o.conflict == Cancel then Finished(Exit(0), fs, trace)
      else Running(Resolve(t), RemoveProject(fs, name), trace + [DirectoryRemoved])
    case Resolve(t) => ResolveStep(req, o, t, fs, trace)
    case Generate(t, p) => GenerateStep(req, o, gen, t, p, fs, trace)
    case InitGit(t, p) => GitStep(req, o, t, p, fs, trace)
    case InstallDeps(t, p) => InstallStep(req, o, t, p, fs, trace)
    case Report(t, p) =>
      Finished(Done(p, NextSteps(req.typ, req.options.install)), fs, trace)
  }

  /** Pattern resolution: an undeclared `--pattern` ends the run with exit 1, after any removal already done. */
  function ResolveStep(req: Request, o: Oracle, t: ProjectType, fs: Fs, trace: seq<Event>): (r: State)
    requires ChoiceOffered(o)
    ensures r.Running? ==> r.stage.Generate? && r.stage.t == t
    ensures r.fs == fs && r.trace == trace
  {
    match ResolvePattern(t, req.options, o.choice)
    case Failure(_) => Finished(Exit(1), fs, trace)
    case Success(p) => Running(Generate(t, p), fs, trace)
  }

  /**
   * A generator: the entries laid out inside the project for a type, a pattern and a
   * name. The machine is stated for any generator; the command uses `createTemplate`'s.
   */
  type Generator = (ProjectType, string, string) -> map<string, Entry>

  /** The entries `createTemplate` lays out for the project. */
  function ProjectEntries(t: ProjectType, pattern: string, name: string): map<string, Entry>
  {
    PlanEntries(Templates.CreateTemplate(TypeName(t), pattern, name))
  }

  const CreateTemplateGenerator: Generator := (t, pattern, name) => ProjectEntries(t, pattern, name)

  /** `createProjectStructure`: the whole plan on success; on an I/O error, what was written before it, and exit 1. */
  function GenerateStep(req: Request, o: Oracle, gen: Generator, t: ProjectType, p: string, fs: Fs, trace: seq<Event>): (r: State)
    ensures r.Running? ==> r.stage == InitGit(t, p)
    ensures trace <= r.trace
  {
    match o.generation
    case Generated =>
      Running(InitGit(t, p), Materialize(fs, req.name, gen(t, p, req.name)), trace + [ProjectGenerated(p)])
    case GenerationFailed(written) =>
      Finished(Exit(1), Materialize(fs, req.name, Written(gen(t, p, req.name), written)), trace)
  }

  /** What `initGit` reports: skipped under `--no-git`, initialised, or a warning when `git init` fails. */
  function GitEvent(options: Options, o: Oracle): Event
  {
    if !options.git then GitSkipped
    else if o.gitSucceeds then GitInitialised
    else GitWarning
  }

  /** `initGit` on the file system: only a successful `git init` leaves anything behind. */
  function GitFs(fs: Fs, name: string, options: Options, o: Oracle): Fs
  {
    if options.git && o.gitSucceeds then Materialize(fs, name, GitEntries()) else fs
  }

  /** What `installDependencies` reports: skipped under `--no-install`, installed, or a warning when the tool fails. */
  function InstallEvent(t: ProjectType, options: Options, o: Oracle): Event
  {
    if !options.install then InstallSkipped
    else if o.installSucceeds then DependenciesInstalled(InstallCommand(t))
    else InstallWarning(InstallCommand(t))
  }

  /** `initGit`: never ends the run. */
  function GitStep(req: Request, o: Oracle, t: ProjectType, p: string, fs: Fs, trace: seq<Event>): (r: State)
    ensures r.Running? && r.stage == InstallDeps(t, p)
    ensures trace <= r.trace
  {
    Running(InstallDeps(t, p), GitFs(fs, req.name, req.options, o), trace + [GitEvent(req.options, o)])
  }

  /** `installDependencies`: never ends the run and leaves the modelled file system alone. */
  function InstallStep(req: Request, o: Oracle, t: ProjectType, p: string, fs: Fs, trace: seq<Event>): (r: State)
    ensures r.Running? && r.stage == Report(t, p) && r.fs == fs
    ensures trace <= r.trace
  {
    Running(Report(t, p), fs, trace + [InstallEvent(t, req.options, o)])
  }

  /** Every step moves strictly forward through the fixed order of stages. */
  lemma StepLowersRank(req: Request, o: Oracle, gen: Generator, s: State)
    requires s.Running?
    requires ChoiceOffered(o)
    ensures Rank(Step(req, o, gen, s)) < Rank(s)
  {
  }

  /** Runs steps until the command ends. */
  function Run(req: Request, o: Oracle, gen: Generator, s: State): (r: State)
    requires ChoiceOffered(o)
    ensures r.Finished?
    ensures s.trace <= r.trace
    decreases Rank(s)
  {
    if s.Finished? then s
    else
      StepLowersRank(req, o, gen, s);
      Run(req, o, gen, Step(req, o, gen, s))
  }

  /** `initCommand` with a given generator: a run from the first step on the given file system. */
  function InitCommandWith(gen: Generator, req: Request, o: Oracle, fs: Fs): (r: State)
    requires ChoiceOffered(o)
    ensures r.Finished?
  {
    Run(req, o, gen, Running(CheckType, fs, []))
  }

  /** `initCommand` itself: the machine with `createTemplate` as the generator. */
  function InitCommand(req: Request, o: Oracle, fs: Fs): (r: State)
    requires ChoiceOffered(o)
    ensures r.Finished?
  {
    InitCommandWith(CreateTemplateGenerator, req, o, fs)
  }

  // ---------------------------------------------------------------------------
  // A direct reference for the whole command
  // ---------------------------------------------------------------------------

  /**
   * What `initCommand` does, written as one decision list rather than as steps:
   * type, name, conflict, pattern, generation, then the two tools that can only warn.
   */
  function Expected(req: Request, o: Oracle, gen: Generator, fs: Fs): State
    requires ChoiceOffered(o)
  {
    match ParseType(req.typ)
    case None => Finished(Exit(1), fs, [])
    case Some(t) =>
      if !ValidName(req.name) then Finished(Exit(1), fs, [])
      else if ProjectRoot(req.name) in fs && o.conflict == Cancel then Finished(Exit(0), fs, [])
      else
        var cleared := if ProjectRoot(req.name) in fs then RemoveProject(fs, req.name) else fs;
        var removal := if ProjectRoot(req.name) in fs then [DirectoryRemoved] else [];
        ExpectedAfterConflict(req, o, gen, t, cleared, removal)
  }

  /** The reference from pattern resolution on. */
  function ExpectedAfterConflict(req: Request, o: Oracle, gen: Generator, t: ProjectType, fs: Fs, trace: seq<Event>): State
    requires ChoiceOffered(o)
  {
    match ResolvePattern(t, req.options, o.choice)
    case Failure(_) => Finished(Exit(1), fs, trace)
    case Success(p) => ExpectedAfterPattern(req, o, gen, t, p, fs, trace)
  }

  /** The reference from generation on. */
  function ExpectedAfterPattern(req: Request, o: Oracle, gen: Generator, t: ProjectType, p: string, fs: Fs, trace: seq<Event>): State
  {
    var entries := gen(t, p, req.name);
    match o.generation
    case GenerationFailed(written) => Finished(Exit(1), Materialize(fs, req.name, Written(entries, written)), trace)
    case Generated =>
      Finished(Done(p, NextSteps(req.typ, req.options.install)),
               GitFs(Materialize(fs, req.name, entries), req.name, req.options, o),
               trace + [ProjectGenerated(p), GitEvent(req.options, o), InstallEvent(t, req.options, o)])
  }

  lemma FromReport(req: Request, o: Oracle, gen: Generator, t: ProjectType, p: string, fs: Fs, trace: seq<Event>)
    requires ChoiceOffered(o)
    ensures Run(req, o, gen, Running(Report(t, p), fs, trace))
            == Finished(Done(p, NextSteps(req.typ, req.options.install)), fs, trace)
  {
    var s := Running(Report(t, p), fs, trace);
    assert Run(req, o, gen, Step(req, o, gen, s)) == Step(req, o, gen, s);
  }

  lemma FromInstall(req: Request, o: Oracle, gen: Generator, t: ProjectType, p: string, fs: Fs, trace: seq<Event>)
    requires ChoiceOffered(o)
    ensures Run(req, o, gen, Running(InstallDeps(t, p), fs, trace))
            == Finished(Done(p, NextSteps(req.typ, req.options.install)), fs, trace + [InstallEvent(t, req.options, o)])
  {
    FromReport(req, o, gen, t, p, fs, trace + [InstallEvent(t, req.options, o)]);
  }

  lemma FromGit(req: Request, o: Oracle, gen: Generator, t: ProjectType, p: string, fs: Fs, trace: seq<Event>)
    requires ChoiceOffered(o)
    ensures Run(req, o, gen, Running(InitGit(t, p), fs, trace))
            == Finished(Done(p, NextSteps(req.typ, req.options.install)),
                        GitFs(fs, req.name, req.options, o),
                        trace + [GitEvent(req.options, o), InstallEvent(t, req.options, o)])
  {
    var trace' := trace + [GitEvent(req.options, o)];
    FromInstall(req, o, gen, t, p, GitFs(fs, req.name, req.options, o), trace');
    assert trace' + [InstallEvent(t, req.options, o)]
        == trace + [GitEvent(req.options, o), InstallEvent(t, req.options, o)];
  }

  lemma FromGenerate(req: Request, o: Oracle, gen: Generator, t: ProjectType, p: string, fs: Fs, trace: seq<Event>)
    requires ChoiceOffered(o)
    ensures Run(req, o, gen, Running(Generate(t, p), fs, trace)) == ExpectedAfterPattern(req, o, gen, t, p, fs, trace)
  {
    if o.generation.Generated? {
      GenerationSucceeds(req, o, gen, t, p, fs, trace);
    } else {
      GenerationFails(req, o, gen, t, p, fs, trace);
    }
  }

  lemma GenerationFails(req: Request, o: Oracle, gen: Generator, t: ProjectType, p: string, fs: Fs, trace: seq<Event>)
    requires ChoiceOffered(o)
    requires o.generation.GenerationFailed?
    ensures Run(req, o, gen, Running(Generate(t, p), fs, trace)) == ExpectedAfterPattern(req, o, gen, t, p, fs, trace)
  {
    var s := Running(Generate(t, p), fs, trace);
    var failed := Finished(Exit(1), Materialize(fs, req.name, Written(gen(t, p, req.name), o.generation.written)), trace);
    assert Step(req, o, gen, s) == failed;
    assert Run(req, o, gen, failed) == failed;
  }

  lemma GenerationSucceeds(req: Request, o: Oracle, gen: Generator, t: ProjectType, p: string, fs: Fs, trace: seq<Event>)
    requires ChoiceOffered(o)
    requires o.generation.Generated?
    ensures Run(req, o, gen, Running(Generate(t, p), fs, trace)) == ExpectedAfterPattern(req, o, gen, t, p, fs, trace)
  {
    var s := Running(Generate(t, p), fs, trace);
    var generated := Materialize(fs, req.name, gen(t, p, req.name));
    var trace' := trace + [ProjectGenerated(p)];
    assert Step(req, o, gen, s) == Running(InitGit(t, p), generated, trace');
    FromGit(req, o, gen, t, p, generated, trace');
    assert trace' + [GitEvent(req.options, o), InstallEvent(t, req.options, o)]
        == trace + [ProjectGenerated(p), GitEvent(req.options, o), InstallEvent(t, req.options, o)];
  }

  lemma FromResolve(req: Request, o: Oracle, gen: Generator, t: ProjectType, fs: Fs, trace: seq<Event>)
    requires ChoiceOffered(o)
    ensures Run(req, o, gen, Running(Resolve(t), fs, trace)) == ExpectedAfterConflict(req, o, gen, t, fs, trace)
  {
    var s := Running(Resolve(t), fs, trace);
    assert Step(req, o, gen, s) == ResolveStep(req, o, t, fs, trace);
    match ResolvePattern(t, req.options, o.choice)
    case Failure(_) =>
    case Success(p) => FromGenerate(req, o, gen, t, p, fs, trace);
  }

  /** The state machine and the reference agree on every request, oracle and file system. */
  lemma InitCommandMatchesExpected(req: Request, o: Oracle, gen: Generator, fs: Fs)
    requires ChoiceOffered(o)
    ensures InitCommandWith(gen, req, o, fs) == Expected(req, o, gen, fs)
  {
    var s0 := Running(CheckType, fs, []);
    match ParseType(req.typ)
    case None =>
      assert Step(req, o, gen, s0) == Finished(Exit(1), fs, []);
      assert Run(req, o, gen, s0) == Finished(Exit(1), fs, []);
      assert Expected(req, o, gen, fs) == Finished(Exit(1), fs, []);
    case Some(t) =>
      assert Step(req, o, gen, s0) == Running(NameCheck(t), fs, []);
      assert Run(req, o, gen, s0) == Run(req, o, gen, Running(NameCheck(t), fs, []));
      FromCheckName(req, o, gen, t, fs);
  }

  lemma FromCheckName(req: Request, o: Oracle, gen: Generator, t: ProjectType, fs: Fs)
    requires ChoiceOffered(o)
    requires ParseType(req.typ) == Some(t)
    ensures Run(req, o, gen, Running(NameCheck(t), fs, [])) == Expected(req, o, gen, fs)
  {
    var s1 := Running(NameCheck(t), fs, []);
    if ValidName(req.name) {
      var s2 := Running(CheckConflict(t), fs, []);
      assert Step(req, o, gen, s1) == s2;
      assert Run(req, o, gen, s1) == Run(req, o, gen, s2);
      FromConflict(req, o, gen, t, fs);
    } else {
      assert Step(req, o, gen, s1) == Finished(Exit(1), fs, []);
      assert Run(req, o, gen, s1) == Finished(Exit(1), fs, []);
      assert Expected(req, o, gen, fs) == Finished(Exit(1), fs, []);
    }
  }

  lemma FromConflict(req: Request, o: Oracle, gen: Generator, t: ProjectType, fs: Fs)
    requires ChoiceOffered(o)
    requires ParseType(req.typ) == Some(t) && ValidName(req.name)
    ensures Run(req, o, gen, Running(CheckConflict(t), fs, [])) == Expected(req, o, gen, fs)
  {
    var s2 := Running(CheckConflict(t), fs, []);
    if ProjectRoot(req.name) !in fs {
      assert Step(req, o, gen, s2) == Running(Resolve(t), fs, []);
      FromResolve(req, o, gen, t, fs, []);
      assert Expected(req, o, gen, fs) == ExpectedAfterConflict(req, o, gen, t, fs, []);
      assert Run(req, o, gen, s2) == Run(req, o, gen, Running(Resolve(t), fs, []));
    } else if o.conflict == Remove {
      var cleared := RemoveProject(fs, req.name);
      assert Step(req, o, gen, s2) == Running(Resolve(t), cleared, [DirectoryRemoved]);
      FromResolve(req, o, gen, t, cleared, [DirectoryRemoved]);
      assert Expected(req, o, gen, fs) == ExpectedAfterConflict(req, o, gen, t, cleared, [DirectoryRemoved]);
      assert Run(req, o, gen, s2) == Run(req, o, gen, Running(Resolve(t), cleared, [DirectoryRemoved]));
    } else {
      assert Step(req, o, gen, s2) == Finished(Exit(0), fs, []);
      assert Run(req, o, gen, s2) == Finished(Exit(0), fs, []);
      assert Expected(req, o, gen, fs) == Finished(Exit(0), fs, []);
    }
  }

  // ---------------------------------------------------------------------------
  // Properties of the command
  // ---------------------------------------------------------------------------

  /** A run that passes both validations and is not cancelled. */
  predicate Proceeds(req: Request, o: Oracle, fs: Fs)
  {
    ParseType(req.typ).Some? && ValidName(req.name) && !(ProjectRoot(req.name) in fs && o.conflict == Cancel)
  }

  /** An unknown type or a malformed name ends the run with exit 1 before anything is touched. */
  lemma InvalidInputChangesNothing(req: Request, o: Oracle, gen: Generator, fs: Fs)
    requires ChoiceOffered(o)
    requires ParseType(req.typ).None? || !ValidName(req.name)
    ensures InitCommandWith(gen, req, o, fs) == Finished(Exit(1), fs, [])
  {
    InitCommandMatchesExpected(req, o, gen, fs);
  }

  /** Cancelling at the conflict prompt exits with 0 and leaves the file system as it was. */
  lemma CancelChangesNothing(req: Request, o: Oracle, gen: Generator, fs: Fs)
    requires ChoiceOffered(o)
    requires ParseType(req.typ).Some? && ValidName(req.name)
    requires ProjectRoot(req.name) in fs && o.conflict == Cancel
    ensures InitCommandWith(gen, req, o, fs) == Finished(Exit(0), fs, [])
  {
    InitCommandMatchesExpected(req, o, gen, fs);
  }

  /**
   * The existing directory is removed before the `--pattern` value is checked, so an
   * undeclared pattern ends the run with exit 1 after the old project is already gone.
   */
  lemma RemovalPrecedesPatternCheck(req: Request, o: Oracle, gen: Generator, fs: Fs, t: ProjectType)
    requires ChoiceOffered(o)
    requires ParseType(req.typ) == Some(t) && ValidName(req.name)
    requires ProjectRoot(req.name) in fs && o.conflict == Remove
    requires !req.options.yes && ProvidedPattern(req.options).Some?
    requires ProvidedPattern(req.options).value !in Patterns.KeysOf(t)
    ensures InitCommandWith(gen, req, o, fs) == Finished(Exit(1), RemoveProject(fs, req.name), [DirectoryRemoved])
    ensures ProjectRoot(req.name) !in InitCommandWith(gen, req, o, fs).fs
  {
    InitCommandMatchesExpected(req, o, gen, fs);
    ParseTypeRoundTrip(t, req.typ);
  }

  /** Exit 0 happens exactly when the user cancels; every other early end is exit 1. */
  lemma ExitCodes(req: Request, o: Oracle, gen: Generator, fs: Fs)
    requires ChoiceOffered(o)
    ensures var r := InitCommandWith(gen, req, o, fs);
            r.outcome.Exit? ==> r.outcome.code == 0 || r.outcome.code == 1
    ensures var r := InitCommandWith(gen, req, o, fs);
            (r.outcome == Exit(0)) <==>
            (ParseType(req.typ).Some? && ValidName(req.name) && ProjectRoot(req.name) in fs && o.conflict == Cancel)
  {
    InitCommandMatchesExpected(req, o, gen, fs);
  }

  /**
   * A run succeeds exactly when it passes validation, is not cancelled, resolves a
   * pattern and generates completely; it then reports the resolved pattern.
   */
  lemma SuccessCharacterised(req: Request, o: Oracle, gen: Generator, fs: Fs)
    requires ChoiceOffered(o)
    ensures var r := InitCommandWith(gen, req, o, fs);
            r.outcome.Done? <==>
            (Proceeds(req, o, fs)
             && ResolvePattern(ParseType(req.typ).value, req.options, o.choice).Success?
             && o.generation.Generated?)
    ensures var r := InitCommandWith(gen, req, o, fs);
            r.outcome.Done? ==>
            ResolvePattern(ParseType(req.typ).value, req.options, o.choice) == Success(r.outcome.pattern)
            && r.outcome.nextSteps == NextSteps(req.typ, req.options.install)
  {
    InitCommandMatchesExpected(req, o, gen, fs);
  }

  /** Under `--yes` a successful run uses the type's first declared pattern, whatever `--pattern` says. */
  lemma YesTakesFirstPattern(req: Request, o: Oracle, gen: Generator, fs: Fs)
    requires ChoiceOffered(o)
    requires req.options.yes
    requires InitCommandWith(gen, req, o, fs).outcome.Done?
    ensures ParseType(req.typ).Some?
    ensures InitCommandWith(gen, req, o, fs).outcome.pattern == Patterns.KeysOf(ParseType(req.typ).value)[0]
  {
    SuccessCharacterised(req, o, gen, fs);
  }

  /** Whether `git init` and the installer work changes what is reported and written, never how the run ends. */
  lemma ToolsOnlyWarn(req: Request, o: Oracle, gen: Generator, fs: Fs, gitSucceeds: bool, installSucceeds: bool)
    requires ChoiceOffered(o)
    ensures var o' := o.(gitSucceeds := gitSucceeds, installSucceeds := installSucceeds);
            ChoiceOffered(o') &&
            InitCommandWith(gen, req, o, fs).outcome == InitCommandWith(gen, req, o', fs).outcome
  {
    var o' := o.(gitSucceeds := gitSucceeds, installSucceeds := installSucceeds);
    assert ChoiceOffered(o');
    InitCommandMatchesExpected(req, o, gen, fs);
    InitCommandMatchesExpected(req, o', gen, fs);
  }

  /** Entries of other projects in the working directory are never created, changed or removed. */
  lemma OtherProjectsUntouched(req: Request, o: Oracle, gen: Generator, fs: Fs)
    requires ChoiceOffered(o)
    ensures var r := InitCommandWith(gen, req, o, fs);
            forall q: Path :: q.project != req.name ==> (q in r.fs <==> q in fs) && (q in fs ==> r.fs[q] == fs[q])
  {
    InitCommandMatchesExpected(req, o, gen, fs);
    if Proceeds(req, o, fs) {
      var t := ParseType(req.typ).value;
      var cleared := if ProjectRoot(req.name) in fs then RemoveProject(fs, req.name) else fs;
      var removal := if ProjectRoot(req.name) in fs then [DirectoryRemoved] else [];
      assert Expected(req, o, gen, fs) == ExpectedAfterConflict(req, o, gen, t, cleared, removal);
      AfterConflictKeepsOthers(req, o, gen, t, cleared, removal);
    }
  }

  lemma AfterConflictKeepsOthers(req: Request, o: Oracle, gen: Generator, t: ProjectType, fs: Fs, trace: seq<Event>)
    requires ChoiceOffered(o)
    ensures var r := ExpectedAfterConflict(req, o, gen, t, fs, trace);
            forall q: Path :: q.project != req.name ==> (q in r.fs <==> q in fs) && (q in fs ==> r.fs[q] == fs[q])
  {
    match ResolvePattern(t, req.options, o.choice)
    case Failure(_) =>
    case Success(p) => AfterPatternKeepsOthers(req, o, gen, t, p, fs, trace);
  }

  lemma AfterPatternKeepsOthers(req: Request, o: Oracle, gen: Generator, t: ProjectType, p: string, fs: Fs, trace: seq<Event>)
    ensures var r := ExpectedAfterPattern(req, o, gen, t, p, fs, trace);
            forall q: Path :: q.project != req.name ==> (q in r.fs <==> q in fs) && (q in fs ==> r.fs[q] == fs[q])
  {
  }

  /** Every entry below a project sits in an existing project directory, as in a real directory tree. */
  predicate WellFormed(fs: Fs)
  {
    forall q :: q in fs ==> ProjectRoot(q.project) in fs
  }

  /**
   * No silent merge: after a successful run the project holds exactly the generated
   * entries, plus the repository files when `git init` ran, whatever was there before.
   */
  lemma SuccessHoldsExactlyThePlan(req: Request, o: Oracle, gen: Generator, fs: Fs)
    requires ChoiceOffered(o)
    requires WellFormed(fs)
    requires InitCommandWith(gen, req, o, fs).outcome.Done?
    ensures ParseType(req.typ).Some?
    ensures var r := InitCommandWith(gen, req, o, fs);
            var entries := gen(ParseType(req.typ).value, r.outcome.pattern, req.name);
            var git := req.options.git && o.gitSucceeds;
            (forall rel :: Path(req.name, rel) in r.fs <==> rel in entries || (git && rel in GitEntries()))
            && (forall rel :: rel in entries && !(git && rel in GitEntries()) ==> r.fs[Path(req.name, rel)] == entries[rel])
            && (git ==> forall rel :: rel in GitEntries() ==> r.fs[Path(req.name, rel)] == GitEntries()[rel])
  {
    InitCommandMatchesExpected(req, o, gen, fs);
    SuccessCharacterised(req, o, gen, fs);
    var t := ParseType(req.typ).value;
    var p := InitCommandWith(gen, req, o, fs).outcome.pattern;
    var cleared := if ProjectRoot(req.name) in fs then RemoveProject(fs, req.name) else fs;
    var removal := if ProjectRoot(req.name) in fs then [DirectoryRemoved] else [];
    assert Expected(req, o, gen, fs) == ExpectedAfterPattern(req, o, gen, t, p, cleared, removal);
    assert forall rel :: Path(req.name, rel) !in cleared;
    AfterPatternHoldsPlan(req, o, gen, t, p, cleared, removal);
  }

  lemma AfterPatternHoldsPlan(req: Request, o: Oracle, gen: Generator, t: ProjectType, p: string, fs: Fs, trace: seq<Event>)
    requires o.generation.Generated?
    requires forall rel :: Path(req.name, rel) !in fs
    ensures var r := ExpectedAfterPattern(req, o, gen, t, p, fs, trace);
            var entries := gen(t, p, req.name);
            var git := req.options.git && o.gitSucceeds;
            (forall rel :: Path(req.name, rel) in r.fs <==> rel in entries || (git && rel in GitEntries()))
            && (forall rel :: rel in entries && !(git && rel in GitEntries()) ==> r.fs[Path(req.name, rel)] == entries[rel])
            && (git ==> forall rel :: rel in GitEntries() ==> r.fs[Path(req.name, rel)] == GitEntries()[rel])
  {
  }

  /** The events of a successful run: the removal if any, generation, then the git and install reports. */
  lemma SuccessTrace(req: Request, o: Oracle, gen: Generator, fs: Fs)
    requires ChoiceOffered(o)
    requires InitCommandWith(gen, req, o, fs).outcome.Done?
    ensures ParseType(req.typ).Some?
    ensures var r := InitCommandWith(gen, req, o, fs);
            var t := ParseType(req.typ).value;
            r.trace == (if ProjectRoot(req.name) in fs then [DirectoryRemoved] else [])
                       + [ProjectGenerated(r.outcome.pattern), GitEvent(req.options, o), InstallEvent(t, req.options, o)]
  {
    InitCommandMatchesExpected(req, o, gen, fs);
    SuccessCharacterised(req, o, gen, fs);
  }

  /** A successful `initCommand` writes the README and both environment files from `createCommonFiles`. */
  lemma InitCommandWritesCommonFiles(req: Request, o: Oracle, fs: Fs)
    requires ChoiceOffered(o)
    requires WellFormed(fs)
    requires InitCommand(req, o, fs).outcome.Done?
    ensures var r := InitCommand(req, o, fs);
            var p := r.outcome.pattern;
            && ProjectRoot(req.name) in r.fs
            && Path(req.name, "README.md") in r.fs
            && r.fs[Path(req.name, "README.md")] == File(Templates.Text(Templates.Readme(req.name, req.typ, p)))
            && Path(req.name, ".env") in r.fs && Path(req.name, ".env.example") in r.fs
            && r.fs[Path(req.name, ".env")] == r.fs[Path(req.name, ".env.example")]
               == File(Templates.Text(Templates.EnvTemplate(req.typ)))
  {
    CreateTemplateWritesCommonFiles();
    SuccessWritesCommonFiles(req, o, CreateTemplateGenerator, fs);
  }

  /** The entries a generator lays out include the project directory, the README and both env files. */
  ghost predicate WritesCommonFiles(gen: Generator)
  {
    forall t, p, name :: var e := gen(t, p, name);
      && "" in e
      && "README.md" in e && e["README.md"] == File(Templates.Text(Templates.Readme(name, TypeName(t), p)))
      && ".env" in e && ".env.example" in e
      && e[".env"] == e[".env.example"] == File(Templates.Text(Templates.EnvTemplate(TypeName(t))))
  }

  /** A successful run with a generator that writes the common files leaves them in the project. */
  lemma SuccessWritesCommonFiles(req: Request, o: Oracle, gen: Generator, fs: Fs)
    requires ChoiceOffered(o)
    requires WellFormed(fs)
    requires WritesCommonFiles(gen)
    requires InitCommandWith(gen, req, o, fs).outcome.Done?
    ensures var r := InitCommandWith(gen, req, o, fs);
            var p := r.outcome.pattern;
            && ProjectRoot(req.name) in r.fs
            && Path(req.name, "README.md") in r.fs
            && r.fs[Path(req.name, "README.md")] == File(Templates.Text(Templates.Readme(req.name, req.typ, p)))
            && Path(req.name, ".env") in r.fs && Path(req.name, ".env.example") in r.fs
            && r.fs[Path(req.name, ".env")] == r.fs[Path(req.name, ".env.example")]
               == File(Templates.Text(Templates.EnvTemplate(req.typ)))
  {
    SuccessHoldsExactlyThePlan(req, o, gen, fs);
    var t := ParseType(req.typ).value;
    ParseTypeRoundTrip(t, req.typ);
    var p := InitCommandWith(gen, req, o, fs).outcome.pattern;
    var e := gen(t, p, req.name);
    assert "" in e && "README.md" in e && ".env" in e && ".env.example" in e;
    assert "README.md" !in GitEntries() && ".env" !in GitEntries() && ".env.example" !in GitEntries();
  }

  /** `createTemplate`'s generator writes the common files for every request. */
  lemma CreateTemplateWritesCommonFiles()
    ensures WritesCommonFiles(CreateTemplateGenerator)
  {
    forall t, p, name
      ensures var e := CreateTemplateGenerator(t, p, name);
        && "" in e
        && "README.md" in e && e["README.md"] == File(Templates.Text(Templates.Readme(name, TypeName(t), p)))
        && ".env" in e && ".env.example" in e
        && e[".env"] == e[".env.example"] == File(Templates.Text(Templates.EnvTemplate(TypeName(t))))
    {
      PlanHoldsCommonFiles(t, p, name);
    }
  }

  /** The entries `createTemplate` lays out include the project directory, the README and both env files. */
  lemma PlanHoldsCommonFiles(t: ProjectType, p: string, name: string)
    ensures var e := ProjectEntries(t, p, name);
            && "" in e
            && "README.md" in e && e["README.md"] == File(Templates.Text(Templates.Readme(name, TypeName(t), p)))
            && ".env" in e && ".env.example" in e
            && e[".env"] == e[".env.example"] == File(Templates.Text(Templates.EnvTemplate(TypeName(t))))
  {
    var plan := Templates.CreateTemplate(TypeName(t), p, name);
    assert "README.md" in Templates.CommonPaths && ".env" in Templates.CommonPaths && ".env.example" in Templates.CommonPaths;
  }


  // ---------------------------------------------------------------------------
  // Next steps and the README's setup section
  // ---------------------------------------------------------------------------

  /** The install command is among the next steps exactly when installation was skipped. */
  lemma NextStepsMentionInstallIffSkipped(t: ProjectType, install: bool)
    ensures Occurs(InstallCommand(t), NextSteps(TypeName(t), install)) <==> !install
    ensures Occurs(RunCommand(t), NextSteps(TypeName(t), install))
  {
    ParseTypeRoundTrip(t, TypeName(t));
    var ic := InstallCommand(t);
    var rc := RunCommand(t);
    if install {
      assert NextSteps(TypeName(t), install) == "  " + rc + "\n";
      InstallNotInRunLine(t);
      OccursBetween(rc, "  ", "\n");
    } else {
      assert NextSteps(TypeName(t), install) == "  " + ic + "\n" + "  " + rc + "\n";
      BothLinesOccur(ic, rc);
    }
  }

  /** Both commands occur in the two-line next-steps text. */
  lemma BothLinesOccur(ic: string, rc: string)
    ensures Occurs(ic, "  " + ic + "\n" + "  " + rc + "\n")
    ensures Occurs(rc, "  " + ic + "\n" + "  " + rc + "\n")
  {
    var steps := "  " + ic + "\n" + "  " + rc + "\n";
    assert steps == "  " + ic + ("\n" + "  " + rc + "\n");
    OccursBetween(ic, "  ", "\n" + "  " + rc + "\n");
    assert steps == ("  " + ic + "\n" + "  ") + rc + "\n";
    OccursBetween(rc, "  " + ic + "\n" + "  ", "\n");
  }

  /** The run line alone never contains the install command. */
  lemma InstallNotInRunLine(t: ProjectType)
    ensures !Occurs(InstallCommand(t), "  " + RunCommand(t) + "\n")
  {
    match t
    case Node => RunLineLacks(InstallCommand(t), RunCommand(t), 'i');
    case Laravel => RunLineLacks(InstallCommand(t), RunCommand(t), 'c');
    case Flutter => RunLineLacks(InstallCommand(t), RunCommand(t), 'b');
  }

  /** A command with a character the run line lacks is not in the run line. */
  lemma RunLineLacks(install: string, run: string, c: char)
    requires c in install && c !in run && c != ' ' && c != '\n'
    ensures !Occurs(install, "  " + run + "\n")
  {
    CharAbsentRulesOut(install, "  " + run + "\n", c);
  }

  /** The README's setup section names the same install and run commands as the next steps. */
  lemma StartupInstructionsNameTheCommands(t: ProjectType)
    ensures Occurs(InstallCommand(t), Templates.StartupInstructions(TypeName(t)))
    ensures Occurs(RunCommand(t), Templates.StartupInstructions(TypeName(t)))
  {
    match t
    case Node => NodeStartup();
    case Laravel => LaravelStartup();
    case Flutter => FlutterStartup();
  }

  lemma NodeStartup()
    ensures Occurs("npm install", Templates.StartupInstructions("node"))
    ensures Occurs("npm run dev", Templates.StartupInstructions("node"))
  {
    assert ParseType("node") == Some(Node);
    TwoCommandsOccur(Templates.InstallHeading, "npm install", Templates.DevelopmentHeading, "npm run dev",
                     Templates.NodeProduction);
  }

  lemma LaravelStartup()
    ensures Occurs("composer install", Templates.StartupInstructions("laravel"))
    ensures Occurs("php artisan serve", Templates.StartupInstructions("laravel"))
  {
    assert ParseType("laravel") == Some(Laravel);
    var middle := Templates.LaravelSetup + Templates.DevelopmentHeading;
    assert Templates.StartupInstructions("laravel")
        == Templates.InstallHeading + "composer install" + middle + "php artisan serve" + Templates.CodeEnd;
    TwoCommandsOccur(Templates.InstallHeading, "composer install", middle, "php artisan serve", Templates.CodeEnd);
  }

  lemma FlutterStartup()
    ensures Occurs("flutter pub get", Templates.StartupInstructions("flutter"))
    ensures Occurs("flutter run", Templates.StartupInstructions("flutter"))
  {
    assert ParseType("flutter") == Some(Flutter);
    TwoCommandsOccur(Templates.InstallHeading, "flutter pub get", Templates.DevelopmentHeading, "flutter run",
                     Templates.CodeEnd);
  }

  /** Both commands of a text laid out as head, install, middle, run, tail occur in it. */
  lemma TwoCommandsOccur(head: string, install: string, middle: string, run: string, tail: string)
    ensures Occurs(install, head + install + middle + run + tail)
    ensures Occurs(run, head + install + middle + run + tail)
  {
    OccursBetween(install, head, middle + run + tail);
    assert head + install + (middle + run + tail) == head + install + middle + run + tail;
    OccursBetween(run, head + install + middle, tail);
  }

  // ---------------------------------------------------------------------------
  // Placeholder substitution for validated requests
  // ---------------------------------------------------------------------------

  /**
   * For every validated name except `_`, substitution leaves no placeholder of
   * either kind behind, whatever the file contained.
   */
  lemma NoPlaceholderRemains(content: string, name: string, t: ProjectType)
    requires ValidName(name) && name != "_"
    ensures var r := Templates.SubstituteVariables(content, name, TypeName(t));
            !Occurs(Templates.NamePlaceholder, r) && !Occurs(Templates.TypePlaceholder, r)
  {
    var np := Templates.NamePlaceholder;
    var tp := Templates.TypePlaceholder;
    var typ := TypeName(t);
    NameFitsNoPlaceholder(name);
    NoPatternLeftInside(content, np, name);
    var once := ReplaceAll(content, np, name);
    assert typ[0] !in np && typ[0] !in tp && np[0] !in typ && tp[0] !in typ;
    NoPatternLeft(once, tp, typ);
    NoNewOccurrence(once, tp, typ, np);
  }

  /**
   * A valid name other than `_` cannot rebuild the name placeholder: it holds
   * neither brace, and it does not occur inside `{PROJECT_NAME}`, whose only name
   * character is a single `_`.
   */
  lemma NameFitsNoPlaceholder(name: string)
    requires ValidName(name) && name != "_"
    ensures var np := Templates.NamePlaceholder;
            |np| > 1 && np[0] !in name && np[|np| - 1] !in name && !Occurs(name, np[1..|np| - 1])
  {
    var np := Templates.NamePlaceholder;
    assert np[0] == '{' && np[|np| - 1] == '}';
    forall i | 0 <= i < |name| ensures name[i] != '{' && name[i] != '}' {
      assert NameChar(name[i]);
    }
    assert np[1..|np| - 1] == "{PROJECT_NAME}";
    NameNotInInnerPlaceholder(name);
  }

  /** A valid name other than `_` does not occur in `{PROJECT_NAME}`. */
  lemma NameNotInInnerPlaceholder(name: string)
    requires ValidName(name) && name != "_"
    ensures !Occurs(name, "{PROJECT_NAME}")
  {
    if i :| 0 <= i < |name| && name[i] != '_' {
      assert NameChar(name[i]);
      NameCharOutsidePlaceholder(name[i]);
      CharAbsentRulesOut(name, "{PROJECT_NAME}", name[i]);
    } else {
      assert name[0] == '_' && name[..1] == "_";
      assert |name| > 1 by {
        assert name != name[..1];
      }
      assert "__" <= name;
      NoDoubleUnderscore();
      if Occurs(name, "{PROJECT_NAME}") {
        OccursTransitive("__", name, "{PROJECT_NAME}");
      }
    }
  }

  /** `_` is the only name character in `{PROJECT_NAME}`. */
  lemma NameCharOutsidePlaceholder(c: char)
    requires NameChar(c) && c != '_'
    ensures c !in "{PROJECT_NAME}"
  {
  }

  /** `{PROJECT_NAME}` holds a single `_`, so `__` does not occur in it. */
  lemma NoDoubleUnderscore()
    ensures !Occurs("__", "{PROJECT_NAME}")
  {
    assert "{PROJECT_NAME}" == "{PROJECT" + "_NAME}";
    assert "_NAME}"[1..] == "NAME}";
    CharAbsentRulesOut("__", "NAME}", '_');
    if Occurs("__", "{PROJECT" + "_NAME}") {
      OccursPastPrefix("__", "{PROJECT", "_NAME}");
    }
  }

  /**
   * The one exception: `_` is a valid name, and the name placeholder split around a
   * placeholder reassembles into a fresh placeholder once the inner one becomes `_`.
   */
  lemma UnderscoreNameCanLeavePlaceholder()
    ensures ValidName("_")
    ensures Occurs(Templates.NamePlaceholder,
                   Templates.SubstituteVariables("{{PROJECT{{PROJECT_NAME}}NAME}}", "_", "node"))
  {
    var np := Templates.NamePlaceholder;
    assert ValidName("_") by {
      assert NameChar("_"[0]);
    }
    assert Templates.SubstituteVariables("{{PROJECT{{PROJECT_NAME}}NAME}}", "_", "node") == np by {
      UnderscoreRebuildsPlaceholder();
      TypePlaceholderNotInNamePlaceholder();
      ReplaceAllWithoutOccurrence(np, Templates.TypePlaceholder, "node");
    }
    assert Occurs(np, np) by {
      assert np <= np;
    }
  }

  /** Replacing the inner placeholder by `_` joins the outer halves into a new placeholder. */
  lemma UnderscoreRebuildsPlaceholder()
    ensures ReplaceAll("{{PROJECT{{PROJECT_NAME}}NAME}}", Templates.NamePlaceholder, "_") == Templates.NamePlaceholder
  {
    var np := Templates.NamePlaceholder;
    var x := "{{PROJECT";
    var y := "NAME}}";
    assert "{{PROJECT{{PROJECT_NAME}}NAME}}" == x + np + y;
    NoEarlierPlaceholder();
    PlaceholderSplits();
    ReplaceAllAtFirstOccurrence(x, np, y, "_");
    NoPlaceholderInTail();
    ReplaceAllWithoutOccurrence(y, np, "_");
  }

  lemma PlaceholderSplits()
    ensures "{{PROJECT" + Templates.NamePlaceholder[..|Templates.NamePlaceholder| - 1] == "{{PROJECT{{PROJECT_NAME}"
    ensures "{{PROJECT" + "_" + "NAME}}" == Templates.NamePlaceholder
  {
    assert Templates.NamePlaceholder[..|Templates.NamePlaceholder| - 1] == "{{PROJECT_NAME}";
  }

  lemma NoEarlierPlaceholder()
    ensures !Occurs(Templates.NamePlaceholder, "{{PROJECT{{PROJECT_NAME}")
  {
    var a := "{{PROJECT{{PROJECT_NAME";
    assert "{{PROJECT{{PROJECT_NAME}" == a + "}";
    if Occurs(Templates.NamePlaceholder, a + "}") {
      assert Templates.NamePlaceholder == "{{PROJECT_NAME" + "}}" + "";
      OccursBetween("}}", "{{PROJECT_NAME", "");
      OccursTransitive("}}", Templates.NamePlaceholder, a + "}");
      assert '}' !in a;
      OccursPastPrefix("}}", a, "}");
    }
  }

  lemma NoPlaceholderInTail()
    ensures !Occurs(Templates.NamePlaceholder, "NAME}}")
  {
    assert '{' in Templates.NamePlaceholder && '{' !in "NAME}}";
    CharAbsentRulesOut(Templates.NamePlaceholder, "NAME}}", '{');
  }

  lemma TypePlaceholderNotInNamePlaceholder()
    ensures !Occurs(Templates.TypePlaceholder, Templates.NamePlaceholder)
  {
    assert 'Y' in Templates.TypePlaceholder && 'Y' !in Templates.NamePlaceholder;
    CharAbsentRulesOut(Templates.TypePlaceholder, Templates.NamePlaceholder, 'Y');
  }

  // ---------------------------------------------------------------------------
  // Pattern validation as written
  // ---------------------------------------------------------------------------

  /** `selectPattern` as written: a provided pattern passes when `typePatterns[pattern]` is truthy. */
  function SelectPatternAsWritten(t: ProjectType, provided: Option<string>, choice: nat): (r: Result<string, seq<string>>)
    requires choice < |Patterns.KeysOf(t)|
    ensures SelectPattern(t, provided, choice).Success? ==> r == SelectPattern(t, provided, choice)
  {
    match provided
    case Some(p) =>
      if Patterns.IsValidPatternAsWritten(t, p) then Success(p) else Failure(Patterns.KeysOf(t))
    case None => Success(Patterns.KeysOf(t)[choice])
  }

  /** As written, `--pattern constructor` is accepted and handed to the generator although no type declares it. */
  lemma ConstructorSelectedAsWritten(t: ProjectType, choice: nat)
    requires choice < |Patterns.KeysOf(t)|
    ensures SelectPatternAsWritten(t, Some("constructor"), choice) == Success("constructor")
    ensures SelectPattern(t, Some("constructor"), choice).Failure?
  {
    Patterns.ConstructorAcceptedAsWritten(t);
  }
}
