/**
 * The generation plan: for a (type, pattern, name) request, the directories the
 * generator creates and the files it writes, relative to the project directory,
 * and the placeholder substitution applied to copied template files.
 */
module Templates {
  import opened Wrappers
  import opened Strings
  import opened ProjectTypes
  import Patterns

  /** Entry-point sources whose literal text the model does not reproduce. */
  datatype Stub = SimpleNodeIndex | ModularNodeIndex | CleanNodeIndex | FlutterMain

  /**
   * What a generated file holds: plain text, the Node manifest (`package.json`, whose
   * only varying field is `name`; version, scripts and dependencies are fixed), or an
   * entry-point stub.
   */
  datatype Content = Text(body: string) | PackageManifest(name: string) | Source(stub: Stub)

  /** Directories to create and files to write, as paths relative to the project directory. */
  datatype Plan = Plan(dirs: set<string>, files: map<string, Content>)

  // Directory lists of each generator.

  const NodeSimpleDirs: seq<string> := ["src", "src/routes", "src/controllers", "src/models", "tests"]
  const NodeModularDirs: seq<string> := [
    "src", "src/modules/users", "src/modules/users/controllers", "src/modules/users/services",
    "src/modules/users/models", "src/modules/users/routes", "src/shared/middleware",
    "src/shared/utils", "src/config", "tests"
  ]
  const NodeCleanDirs: seq<string> := [
    "src", "src/domain/entities", "src/domain/repositories", "src/domain/usecases",
    "src/application/services", "src/application/dto", "src/infrastructure/database",
    "src/infrastructure/repositories", "src/interfaces/http/controllers",
    "src/interfaces/http/routes", "src/interfaces/http/middleware", "tests"
  ]

  const LaravelBaseDirs: seq<string> :=
    ["app", "config", "database", "public", "resources", "routes", "storage", "tests"]
  const LaravelStandardDirs: seq<string> := ["app/Http/Controllers", "app/Models", "app/Services"]
  const LaravelFeatureDirs: seq<string> := ["app/Features/Auth", "app/Features/Users", "app/Support"]
  const LaravelDddDirs: seq<string> := [
    "src/Domain/User/Entities", "src/Domain/User/Repositories", "src/Domain/User/Services",
    "src/Application/UseCases", "src/Infrastructure/Persistence", "src/Presentation/Http/Controllers"
  ]

  const FlutterBaseDirs: seq<string> := ["lib", "test", "assets"]
  const FlutterLayeredDirs: seq<string> := [
    "lib/presentation/pages", "lib/presentation/widgets", "lib/domain/models",
    "lib/domain/repositories", "lib/data/repositories", "lib/data/datasources"
  ]
  const FlutterFeatureDirs: seq<string> :=
    ["lib/features/auth", "lib/features/home", "lib/core/theme", "lib/core/utils"]
  const FlutterCleanDirs: seq<string> := [
    "lib/core/error", "lib/core/usecases", "lib/features/domain/entities",
    "lib/features/domain/repositories", "lib/features/domain/usecases",
    "lib/features/data/models", "lib/features/data/repositories", "lib/features/data/datasources",
    "lib/features/presentation/pages", "lib/features/presentation/widgets",
    "lib/features/presentation/bloc"
  ]

  function AsSet(xs: seq<string>): set<string>
  {
    set x | x in xs
  }

  /** The Node structure a pattern selects: its directories and `src/index.js` stub, if any. */
  function NodeStructure(pattern: string): Option<(seq<string>, Stub)>
  {
    if pattern == "simple" then Some((NodeSimpleDirs, SimpleNodeIndex))
    else if pattern == "modular" then Some((NodeModularDirs, ModularNodeIndex))
    else if pattern == "clean" then Some((NodeCleanDirs, CleanNodeIndex))
    else None
  }

  /** The Node generator: the manifest always, the structure of a known pattern. */
  function NodePlan(pattern: string, name: string): Plan
  {
    var manifest := map["package.json" := PackageManifest(name)];
    match NodeStructure(pattern)
    case None => Plan({}, manifest)
    case Some((dirs, stub)) => Plan(AsSet(dirs), manifest["src/index.js" := Source(stub)])
  }

  /** The Laravel pattern directories; any pattern but feature and ddd gets the standard ones. */
  function LaravelPatternDirs(pattern: string): seq<string>
  {
    if pattern == "feature" then LaravelFeatureDirs
    else if pattern == "ddd" then LaravelDddDirs
    else LaravelStandardDirs
  }

  /** The Laravel generator: base directories plus the pattern's; it writes no files. */
  function LaravelPlan(pattern: string): Plan
  {
    Plan(AsSet(LaravelBaseDirs + LaravelPatternDirs(pattern)), map[])
  }

  /** The Flutter pattern directories; an unknown pattern adds none. */
  function FlutterPatternDirs(pattern: string): seq<string>
  {
    if pattern == "layered" then FlutterLayeredDirs
    else if pattern == "feature" then FlutterFeatureDirs
    else if pattern == "clean" then FlutterCleanDirs
    else []
  }

  /** The Flutter generator: base and pattern directories, and `lib/main.dart` for every pattern. */
  function FlutterPlan(pattern: string): Plan
  {
    Plan(AsSet(FlutterBaseDirs + FlutterPatternDirs(pattern)), map["lib/main.dart" := Source(FlutterMain)])
  }

  /** The per-type generator; a type it does not know generates nothing. */
  function GenerateTemplate(typ: string, pattern: string, name: string): (r: Plan)
    ensures r.files.Keys <= {"package.json", "src/index.js", "lib/main.dart"}
  {
    match ParseType(typ)
    case None => Plan({}, map[])
    case Some(Node) => NodePlan(pattern, name)
    case Some(Laravel) => LaravelPlan(pattern)
    case Some(Flutter) => FlutterPlan(pattern)
  }

  /** Paths of the files written for every request. */
  const CommonPaths: set<string> := {"README.md", ".env.example", ".env"}

  /** The README, both env files; written after the per-type generator. */
  function CommonFiles(name: string, typ: string, pattern: string): (files: map<string, Content>)
    ensures files.Keys == CommonPaths
    ensures files[".env"] == files[".env.example"] == Text(EnvTemplate(typ))
  {
    var env := Text(EnvTemplate(typ));
    map["README.md" := Text(Readme(name, typ, pattern)), ".env.example" := env, ".env" := env]
  }

  /** `createTemplate`: the per-type plan followed by the common files. */
  function CreateTemplate(typ: string, pattern: string, name: string): (p: Plan)
    ensures p.dirs == GenerateTemplate(typ, pattern, name).dirs
    ensures p.files.Keys == GenerateTemplate(typ, pattern, name).files.Keys + CommonPaths
    ensures forall f :: f in GenerateTemplate(typ, pattern, name).files && f !in CommonPaths ==>
              p.files[f] == GenerateTemplate(typ, pattern, name).files[f]
    ensures forall f :: f in CommonPaths ==> p.files[f] == CommonFiles(name, typ, pattern)[f]
  {
    var g := GenerateTemplate(typ, pattern, name);
    Plan(g.dirs, g.files + CommonFiles(name, typ, pattern))
  }

  // README and environment bodies.

  const FallbackDescription: string := "Custom project structure."

  // The README's own wording for each declared pattern.
  const NodeSimpleReadmeDescription: string := "A flat, simple structure ideal for small APIs and microservices."
  const NodeModularReadmeDescription: string := "Feature-based modules for better organization and scalability."
  const NodeCleanReadmeDescription: string := "Clean Architecture with strict separation of concerns."
  const LaravelStandardReadmeDescription: string := "Traditional Laravel MVC structure."
  const LaravelFeatureReadmeDescription: string := "Feature-based organization for better maintainability."
  const LaravelDddReadmeDescription: string := "Domain-Driven Design with rich domain models."
  const FlutterLayeredReadmeDescription: string := "Clear separation between Presentation, Domain, and Data layers."
  const FlutterFeatureReadmeDescription: string := "Features organized by business functionality."
  const FlutterCleanReadmeDescription: string := "Uncle Bob's Clean Architecture principles."

  /** The README's own description of each declared pattern (worded apart from the registry's). */
  function ReadmeDescription(t: ProjectType, pattern: string): Option<string>
  {
    match t
    case Node =>
      if pattern == "simple" then Some(NodeSimpleReadmeDescription)
      else if pattern == "modular" then Some(NodeModularReadmeDescription)
      else if pattern == "clean" then Some(NodeCleanReadmeDescription)
      else None
    case Laravel =>
      if pattern == "standard" then Some(LaravelStandardReadmeDescription)
      else if pattern == "feature" then Some(LaravelFeatureReadmeDescription)
      else if pattern == "ddd" then Some(LaravelDddReadmeDescription)
      else None
    case Flutter =>
      if pattern == "layered" then Some(FlutterLayeredReadmeDescription)
      else if pattern == "feature" then Some(FlutterFeatureReadmeDescription)
      else if pattern == "clean" then Some(FlutterCleanReadmeDescription)
      else None
  }

  /** `getPatternDescription`: the README description, or the fallback for anything undeclared. */
  function PatternDescription(typ: string, pattern: string): string
  {
    match ParseType(typ)
    case None => FallbackDescription
    case Some(t) =>
      match ReadmeDescription(t, pattern)
      case Some(d) => d
      case None => FallbackDescription
  }

  // The fixed text around the commands in the README's setup section.
  const InstallHeading: string := "### Installation\n```bash\n"
  const DevelopmentHeading: string := "\n```\n\n### Development\n```bash\n"
  const NodeProduction: string := "\n```\n\n### Production\n```bash\nnpm start\n```"
  const LaravelSetup: string := "\ncp .env.example .env\nphp artisan key:generate"
  const CodeEnd: string := "\n```"

  /** `getStartupInstructions`: the README's setup section for a type. */
  function StartupInstructions(typ: string): string
  {
    match ParseType(typ)
    case Some(Node) => InstallHeading + "npm install" + DevelopmentHeading + "npm run dev" + NodeProduction
    case Some(Laravel) =>
      InstallHeading + "composer install" + LaravelSetup + DevelopmentHeading + "php artisan serve" + CodeEnd
    case Some(Flutter) => InstallHeading + "flutter pub get" + DevelopmentHeading + "flutter run" + CodeEnd
    case None => "See documentation for setup instructions."
  }


  // Environment bodies of each type.
  const NodeEnv: string := "PORT=3000\nNODE_ENV=development\n"
  const LaravelEnv: string :=
    "APP_NAME=Laravel\nAPP_ENV=local\nAPP_KEY=\nAPP_DEBUG=true\nAPP_URL=http://localhost\n\n"
    + "DB_CONNECTION=mysql\nDB_HOST=127.0.0.1\nDB_PORT=3306\nDB_DATABASE=laravel\n"
    + "DB_USERNAME=root\nDB_PASSWORD=\n"
  const FlutterEnv: string := "# Add your environment variables here\nAPI_URL=https://api.example.com\n"

  /** `getEnvTemplate`: the environment body for a type; empty for an unknown type. */
  function EnvTemplate(typ: string): string
  {
    match ParseType(typ)
    case Some(Node) => NodeEnv
    case Some(Laravel) => LaravelEnv
    case Some(Flutter) => FlutterEnv
    case None => ""
  }


  // The fixed text between the request's values in the README.
  const ReadmeTypeLabel: string := "\n\n## Project Information\n\n- **Type:** "
  const ReadmePatternLabel: string := "\n- **Pattern:** "
  const ReadmeGettingStarted: string := "\n- **Generated by:** RampX CLI\n\n## Getting Started\n\n"
  const ReadmeStructureIntro: string := "\n\n## Project Structure\n\nThis project follows the **"
  const ReadmeStructureOutro: string := "** architecture pattern.\n\n"
  const ReadmeLicense: string := "\n\n## License\n\nMIT\n"

  /** The README text built from the request, as the pieces it is assembled from. */
  function ReadmeParts(name: string, typ: string, pattern: string): seq<string>
  {
    [ "# " + name + ReadmeTypeLabel, typ,
      ReadmePatternLabel, pattern,
      ReadmeGettingStarted, StartupInstructions(typ),
      ReadmeStructureIntro, pattern, ReadmeStructureOutro,
      PatternDescription(typ, pattern),
      ReadmeLicense ]
  }

  /** The README text built from the request. */
  function Readme(name: string, typ: string, pattern: string): string
  {
    Concat(ReadmeParts(name, typ, pattern))
  }

  // Placeholder substitution in copied template files.

  const NamePlaceholder: string := "{{PROJECT_NAME}}"
  const TypePlaceholder: string := "{{PROJECT_TYPE}}"

  /** Replace every name placeholder by the name, then every type placeholder by the type. */
  function SubstituteVariables(content: string, name: string, typ: string): string
  {
    ReplaceAll(ReplaceAll(content, NamePlaceholder, name), TypePlaceholder, typ)
  }

  /** Content with neither placeholder is left exactly as it was. */
  lemma SubstituteWithoutPlaceholders(content: string, name: string, typ: string)
    requires !Occurs(NamePlaceholder, content) && !Occurs(TypePlaceholder, content)
    ensures SubstituteVariables(content, name, typ) == content
  {
    ReplaceAllWithoutOccurrence(content, NamePlaceholder, name);
    ReplaceAllWithoutOccurrence(content, TypePlaceholder, typ);
  }

  /** Only files with these extensions have their placeholders substituted. */
  predicate IsTemplated(path: string)
  {
    EndsWith(path, ".json") || EndsWith(path, ".md") || EndsWith(path, ".yaml")
  }

  /**
   * `processTemplateVariables` over a copied file tree (path to content): templated
   * files are rewritten, every other file is left as it is, no file appears or vanishes.
   */
  function ProcessTemplateVariables(files: map<string, string>, name: string, typ: string): (r: map<string, string>)
    ensures r.Keys == files.Keys
    ensures forall p :: p in files && !IsTemplated(p) ==> r[p] == files[p]
    ensures forall p :: p in files && IsTemplated(p) ==> r[p] == SubstituteVariables(files[p], name, typ)
  {
    map p | p in files :: if IsTemplated(p) then SubstituteVariables(files[p], name, typ) else files[p]
  }

  // Properties of the plan.

  /** The Node generator alone: manifest always, structure and stub exactly for the registry's keys. */
  lemma NodeGenerator(pattern: string, name: string)
    ensures var g := GenerateTemplate("node", pattern, name);
      && "package.json" in g.files && g.files["package.json"] == PackageManifest(name)
      && (pattern in Patterns.KeysOf(Node) <==> "src/index.js" in g.files)
      && (pattern in Patterns.KeysOf(Node) ==> {"src", "tests"} <= g.dirs)
      && (pattern !in Patterns.KeysOf(Node) ==> g.dirs == {})
      && (pattern == "simple" ==> g.dirs == AsSet(NodeSimpleDirs))
      && (pattern == "modular" ==> g.dirs == AsSet(NodeModularDirs))
      && (pattern == "clean" ==> g.dirs == AsSet(NodeCleanDirs))
  {
    var g := NodePlan(pattern, name);
    var keys := Patterns.KeysOf(Node);
    Patterns.RegistryKeys(Node);
    assert keys[0] == "simple" && keys[1] == "modular" && keys[2] == "clean";
    if pattern == "simple" {
      assert NodeSimpleDirs[0] == "src" && NodeSimpleDirs[4] == "tests";
    } else if pattern == "modular" {
      assert NodeModularDirs[0] == "src" && NodeModularDirs[9] == "tests";
    } else if pattern == "clean" {
      assert NodeCleanDirs[0] == "src" && NodeCleanDirs[11] == "tests";
    } else {
      assert pattern !in keys;
    }
  }

  /**
   * Node: the manifest always carries the project name; the registry's node keys are
   * exactly the patterns that get a directory structure and `src/index.js`; any other
   * pattern creates no directory at all. The three structures are the fixed lists.
   */
  lemma NodeLayout(pattern: string, name: string)
    ensures var p := CreateTemplate("node", pattern, name);
      && p.files["package.json"] == PackageManifest(name)
      && (pattern in Patterns.KeysOf(Node) <==> "src/index.js" in p.files)
      && (pattern in Patterns.KeysOf(Node) ==> {"src", "tests"} <= p.dirs)
      && (pattern !in Patterns.KeysOf(Node) ==> p.dirs == {})
      && (pattern == "simple" ==> p.dirs == AsSet(NodeSimpleDirs))
      && (pattern == "modular" ==> p.dirs == AsSet(NodeModularDirs))
      && (pattern == "clean" ==> p.dirs == AsSet(NodeCleanDirs))
  {
    NodeGenerator(pattern, name);
    assert "package.json" !in CommonPaths && "src/index.js" !in CommonPaths;
  }

  /**
   * Laravel: the eight base directories are always created; feature and ddd add their
   * own lists and every other pattern, declared or not, falls back to the standard list.
   * The generator writes only the common files.
   */
  lemma LaravelLayout(pattern: string, name: string)
    ensures var p := CreateTemplate("laravel", pattern, name);
      && AsSet(LaravelBaseDirs) <= p.dirs
      && (pattern == "feature" ==> p.dirs == AsSet(LaravelBaseDirs) + AsSet(LaravelFeatureDirs))
      && (pattern == "ddd" ==> p.dirs == AsSet(LaravelBaseDirs) + AsSet(LaravelDddDirs))
      && (pattern != "feature" && pattern != "ddd" ==>
            p.dirs == AsSet(LaravelBaseDirs) + AsSet(LaravelStandardDirs))
      && p.files.Keys == CommonPaths
  {
    var xs := LaravelBaseDirs + LaravelPatternDirs(pattern);
    assert AsSet(xs) == AsSet(LaravelBaseDirs) + AsSet(LaravelPatternDirs(pattern)) by {
      forall d ensures d in xs <==> d in LaravelBaseDirs || d in LaravelPatternDirs(pattern) { }
    }
  }

  /** The Flutter generator alone: base dirs and the entry point always, extra dirs exactly for the registry's keys. */
  lemma FlutterGenerator(pattern: string, name: string)
    ensures var g := GenerateTemplate("flutter", pattern, name);
      && g.dirs == AsSet(FlutterBaseDirs) + AsSet(FlutterPatternDirs(pattern))
      && g.files == map["lib/main.dart" := Source(FlutterMain)]
      && (pattern in Patterns.KeysOf(Flutter) <==> g.dirs != AsSet(FlutterBaseDirs))
  {
    var keys := Patterns.KeysOf(Flutter);
    Patterns.RegistryKeys(Flutter);
    assert keys[0] == "layered" && keys[1] == "feature" && keys[2] == "clean";
    var xs := FlutterBaseDirs + FlutterPatternDirs(pattern);
    assert AsSet(xs) == AsSet(FlutterBaseDirs) + AsSet(FlutterPatternDirs(pattern)) by {
      forall d ensures d in xs <==> d in FlutterBaseDirs || d in FlutterPatternDirs(pattern) { }
    }
    if pattern in keys {
      var d := FlutterPatternDirs(pattern)[0];
      assert d in AsSet(FlutterPatternDirs(pattern));
      assert d !in AsSet(FlutterBaseDirs);
    } else {
      assert pattern != keys[0] && pattern != keys[1] && pattern != keys[2];
      assert FlutterPatternDirs(pattern) == [];
    }
  }

  /**
   * Flutter: lib, test and assets are always created and `lib/main.dart` is always
   * written; pattern directories are added exactly for the registry's flutter keys.
   */
  lemma FlutterLayout(pattern: string, name: string)
    ensures var p := CreateTemplate("flutter", pattern, name);
      && AsSet(FlutterBaseDirs) <= p.dirs
      && "lib/main.dart" in p.files && p.files["lib/main.dart"] == Source(FlutterMain)
      && (pattern in Patterns.KeysOf(Flutter) <==> p.dirs != AsSet(FlutterBaseDirs))
  {
    FlutterGenerator(pattern, name);
    assert "lib/main.dart" !in CommonPaths;
  }

  /** An unknown type creates no directory and writes only the common files, with an empty env body. */
  lemma UnknownTypeLayout(typ: string, pattern: string, name: string)
    requires ParseType(typ).None?
    ensures var p := CreateTemplate(typ, pattern, name);
      && p.dirs == {}
      && p.files.Keys == CommonPaths
      && p.files[".env"] == p.files[".env.example"] == Text("")
  {
  }

  /** The layout depends on type and pattern only: the name changes file contents, never paths. */
  lemma LayoutIgnoresName(typ: string, pattern: string, name1: string, name2: string)
    ensures CreateTemplate(typ, pattern, name1).dirs == CreateTemplate(typ, pattern, name2).dirs
    ensures CreateTemplate(typ, pattern, name1).files.Keys == CreateTemplate(typ, pattern, name2).files.Keys
  {
  }

  /**
   * Exactly the declared (type, key) pairs have a README description of their own,
   * and that description is worded differently from the registry's description.
   */
  lemma DescriptionCoverage(t: ProjectType, pattern: string)
    ensures (PatternDescription(TypeName(t), pattern) != FallbackDescription)
              <==> pattern in Patterns.KeysOf(t)
    ensures pattern in Patterns.KeysOf(t) ==>
              PatternDescription(TypeName(t), pattern) != Patterns.Find(Patterns.PatternsOf(t), pattern).value.description
  {
    var keys := Patterns.KeysOf(t);
    var ps := Patterns.PatternsOf(t);
    Patterns.RegistryKeys(t);
    ParseTypeRoundTrip(t, TypeName(t));
    if pattern in keys {
      var i :| 0 <= i < 3 && keys[i] == pattern;
      Patterns.RegistryKeysDistinct(t);
      Patterns.FindDistinct(ps, i);
      DescriptionsDiffer(t, i);
      assert ps[i].key == pattern;
      assert PatternDescription(TypeName(t), pattern) == ReadmeDescription(t, pattern).value;
    } else {
      UndeclaredHasNoDescription(t, pattern);
    }
  }

  /** A key the registry does not declare for the type has no README description. */
  lemma UndeclaredHasNoDescription(t: ProjectType, pattern: string)
    requires pattern !in Patterns.KeysOf(t)
    ensures ReadmeDescription(t, pattern).None?
    ensures PatternDescription(TypeName(t), pattern) == FallbackDescription
  {
    Patterns.RegistryKeys(t);
  }

  /** The README wording of the i-th pattern is its own, not the registry's, and not the fallback. */
  lemma DescriptionsDiffer(t: ProjectType, i: nat)
    requires i < 3
    ensures var p := Patterns.PatternsOf(t)[i];
      && ReadmeDescription(t, p.key).Some?
      && ReadmeDescription(t, p.key).value != p.description
      && ReadmeDescription(t, p.key).value != FallbackDescription
  {
    match t
    case Laravel => LaravelDescriptionsDiffer(i);
    case Flutter => FlutterDescriptionsDiffer(i);
    case Node => NodeDescriptionsDiffer(i);
  }

  /** DescriptionsDiffer for the laravel table, key by key. */
  lemma LaravelDescriptionsDiffer(i: nat)
    requires i < 3
    ensures var p := Patterns.PatternsOf(Laravel)[i];
      && ReadmeDescription(Laravel, p.key).Some?
      && ReadmeDescription(Laravel, p.key).value != p.description
      && ReadmeDescription(Laravel, p.key).value != FallbackDescription
  {
    if i == 0 {
      assert Patterns.PatternsOf(Laravel)[0].key == "standard";
    } else if i == 1 {
      assert Patterns.PatternsOf(Laravel)[1].key == "feature";
    } else {
      assert Patterns.PatternsOf(Laravel)[2].key == "ddd";
    }
  }

  /** DescriptionsDiffer for the flutter table, key by key. */
  lemma FlutterDescriptionsDiffer(i: nat)
    requires i < 3
    ensures var p := Patterns.PatternsOf(Flutter)[i];
      && ReadmeDescription(Flutter, p.key).Some?
      && ReadmeDescription(Flutter, p.key).value != p.description
      && ReadmeDescription(Flutter, p.key).value != FallbackDescription
  {
    if i == 0 {
      assert Patterns.PatternsOf(Flutter)[0].key == "layered";
    } else if i == 1 {
      assert Patterns.PatternsOf(Flutter)[1].key == "feature";
    } else {
      assert Patterns.PatternsOf(Flutter)[2].key == "clean";
    }
  }

  /** DescriptionsDiffer for the node table, key by key. */
  lemma NodeDescriptionsDiffer(i: nat)
    requires i < 3
    ensures var p := Patterns.PatternsOf(Node)[i];
      && ReadmeDescription(Node, p.key).Some?
      && ReadmeDescription(Node, p.key).value != p.description
      && ReadmeDescription(Node, p.key).value != FallbackDescription
  {
    if i == 0 {
      assert Patterns.PatternsOf(Node)[0].key == "simple";
    } else if i == 1 {
      assert Patterns.PatternsOf(Node)[1].key == "modular";
    } else {
      assert Patterns.PatternsOf(Node)[2].key == "clean";
    }
  }

  /**
   * The README opens with the name as a heading and mentions the type, the pattern
   * and the pattern's description.
   */
  lemma ReadmeMentions(name: string, typ: string, pattern: string)
    ensures "# " + name + "\n" <= Readme(name, typ, pattern)
    ensures Occurs(typ, Readme(name, typ, pattern))
    ensures Occurs(pattern, Readme(name, typ, pattern))
    ensures Occurs(PatternDescription(typ, pattern), Readme(name, typ, pattern))
  {
    var parts := ReadmeParts(name, typ, pattern);
    assert Concat(parts) == parts[0] + Concat(parts[1..]);
    assert "# " + name + "\n" <= parts[0];
    OccursInConcat(parts, 1);
    OccursInConcat(parts, 3);
    OccursInConcat(parts, 9);
  }
}
