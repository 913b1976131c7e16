/**
 * The pattern registry: for each project type, an ordered table of structure
 * patterns, each with a display label, a one-line description and a "recommended" flag,
 * and the four lookups the command line uses on it.
 */
module Patterns {
  import opened Wrappers
  import opened ProjectTypes

  datatype Pattern = Pattern(key: string, displayLabel: string, description: string, recommended: bool)

  /** The registry's types, in the order they are declared. */
  const Frameworks: seq<ProjectType> := [Laravel, Flutter, Node]

  // The display label and one-line description of each declared pattern.
  const LaravelStandardLabel: string := "Standard"
  const LaravelStandardDescription: string := "Laravel default MVC structure (controllers, models, views)"
  const LaravelFeatureLabel: string := "Feature-based"
  const LaravelFeatureDescription: string := "Organize by features/modules for better scalability"
  const LaravelDddLabel: string := "Domain-Driven Design"
  const LaravelDddDescription: string := "DDD layers (Domain, Application, Infrastructure)"
  const FlutterLayeredLabel: string := "Layered Architecture"
  const FlutterLayeredDescription: string := "Presentation, Domain, Data layers separation"
  const FlutterFeatureLabel: string := "Feature-first"
  const FlutterFeatureDescription: string := "Group by features with co-located code"
  const FlutterCleanLabel: string := "Clean Architecture"
  const FlutterCleanDescription: string := "Uncle Bob's clean architecture with strict boundaries"
  const NodeSimpleLabel: string := "Simple"
  const NodeSimpleDescription: string := "Flat structure for small projects and APIs"
  const NodeModularLabel: string := "Modular"
  const NodeModularDescription: string := "Module-based organization for medium projects"
  const NodeCleanLabel: string := "Clean Architecture"
  const NodeCleanDescription: string := "Layered architecture with dependency inversion"

  /** The patterns of one type, in the order they are declared (which is the order they are offered). */
  function PatternsOf(t: ProjectType): seq<Pattern>
  {
    match t
    case Laravel => [
      Pattern("standard", LaravelStandardLabel, LaravelStandardDescription, false),
      Pattern("feature", LaravelFeatureLabel, LaravelFeatureDescription, true),
      Pattern("ddd", LaravelDddLabel, LaravelDddDescription, false)
    ]
    case Flutter => [
      Pattern("layered", FlutterLayeredLabel, FlutterLayeredDescription, false),
      Pattern("feature", FlutterFeatureLabel, FlutterFeatureDescription, true),
      Pattern("clean", FlutterCleanLabel, FlutterCleanDescription, false)
    ]
    case Node => [
      Pattern("simple", NodeSimpleLabel, NodeSimpleDescription, false),
      Pattern("modular", NodeModularLabel, NodeModularDescription, true),
      Pattern("clean", NodeCleanLabel, NodeCleanDescription, false)
    ]
  }

  /** The keys of a pattern table, in order. */
  function Keys(ps: seq<Pattern>): (ks: seq<string>)
    ensures |ks| == |ps|
    ensures forall i :: 0 <= i < |ps| ==> ks[i] == ps[i].key
  {
    seq(|ps|, i requires 0 <= i < |ps| => ps[i].key)
  }

  /** The keys a type offers, in order. */
  function KeysOf(t: ProjectType): seq<string>
  {
    Keys(PatternsOf(t))
  }

  /** The first entry of a table with the given key, if there is one. */
  function Find(ps: seq<Pattern>, key: string): (r: Option<Pattern>)
    ensures r.Some? <==> key in Keys(ps)
    ensures r.Some? ==> r.value in ps && r.value.key == key
  {
    if |ps| == 0 then None
    else if ps[0].key == key then Some(ps[0])
    else
      assert Keys(ps) == [ps[0].key] + Keys(ps[1..]);
      Find(ps[1..], key)
  }

  /** In a table with distinct keys, looking up an entry's key finds that very entry. */
  lemma {:induction false} FindDistinct(ps: seq<Pattern>, i: nat)
    requires i < |ps|
    requires forall a, b :: 0 <= a < b < |ps| ==> ps[a].key != ps[b].key
    ensures Find(ps, ps[i].key) == Some(ps[i])
    decreases i
  {
    if i > 0 {
      assert ps[0].key != ps[i].key;
      assert ps[1..][i - 1] == ps[i];
      FindDistinct(ps[1..], i - 1);
    }
  }

  /** The position of the first entry flagged recommended, if any entry is. */
  function FirstRecommended(ps: seq<Pattern>): (r: Option<nat>)
    ensures r.Some? ==> r.value < |ps| && ps[r.value].recommended
    ensures r.Some? ==> forall j :: 0 <= j < r.value ==> !ps[j].recommended
    ensures r.None? <==> forall j :: 0 <= j < |ps| ==> !ps[j].recommended
  {
    if |ps| == 0 then None
    else if ps[0].recommended then Some(0)
    else
      match FirstRecommended(ps[1..])
      case None => None
      case Some(i) => Some(i + 1)
  }

  /**
   * The key of the first recommended entry, falling back to the first key when no
   * entry is recommended; nothing for an empty table.
   */
  function RecommendedKey(ps: seq<Pattern>): (r: Option<string>)
    ensures r.None? <==> |ps| == 0
    ensures r.Some? ==> r.value in Keys(ps)
  {
    match FirstRecommended(ps)
    case Some(i) => Some(ps[i].key)
    case None => if |ps| == 0 then None else Some(ps[0].key)
  }

  /** The recommended key is the first recommended one in declaration order, else the first key. */
  lemma RecommendedKeyIsFirstRecommended(ps: seq<Pattern>, i: nat)
    requires i < |ps|
    ensures (ps[i].recommended && forall j :: 0 <= j < i ==> !ps[j].recommended)
              ==> RecommendedKey(ps) == Some(ps[i].key)
    ensures (forall j :: 0 <= j < |ps| ==> !ps[j].recommended) ==> RecommendedKey(ps) == Some(ps[0].key)
  {
    if ps[i].recommended && (forall j :: 0 <= j < i ==> !ps[j].recommended) {
      var k := FirstRecommended(ps).value;
      assert !(k < i) && !(i < k);
    }
  }

  /** `getFrameworkPatterns`: the table of a known type; nothing for any other string. */
  function GetFrameworkPatterns(framework: string): (r: Option<seq<Pattern>>)
    ensures r.Some? <==> framework in {"laravel", "flutter", "node"}
    ensures r.Some? ==> r.value == PatternsOf(ParseType(framework).value)
  {
    match ParseType(framework)
    case None => None
    case Some(t) => Some(PatternsOf(t))
  }

  /** `getPattern`: the entry with the given key of a known type; nothing otherwise. */
  function GetPattern(framework: string, key: string): (r: Option<Pattern>)
    ensures r.Some? <==> ParseType(framework).Some? && key in KeysOf(ParseType(framework).value)
    ensures r.Some? ==> r.value.key == key && r.value in PatternsOf(ParseType(framework).value)
  {
    match GetFrameworkPatterns(framework)
    case None => None
    case Some(ps) => Find(ps, key)
  }

  /** `getRecommendedPattern`: the recommended key of a known type; nothing otherwise. */
  function GetRecommendedPattern(framework: string): (r: Option<string>)
    ensures r.Some? <==> GetFrameworkPatterns(framework).Some?
  {
    match GetFrameworkPatterns(framework)
    case None => None
    case Some(ps) => RecommendedKey(ps)
  }

  /** `isValidPattern`: the key is one the type declares. */
  function IsValidPattern(framework: string, key: string): (b: bool)
    ensures b <==> GetPattern(framework, key).Some?
  {
    match ParseType(framework)
    case None => false
    case Some(t) => key in KeysOf(t)
  }

  /** Whenever a recommended key exists it names a pattern of that framework. */
  lemma RecommendedIsValid(framework: string)
    ensures GetRecommendedPattern(framework).Some? ==>
              IsValidPattern(framework, GetRecommendedPattern(framework).value)
  {
  }

  /** An unknown framework finds nothing through any of the four lookups. */
  lemma UnknownFrameworkFindsNothing(framework: string, key: string)
    requires ParseType(framework).None?
    ensures GetFrameworkPatterns(framework).None?
    ensures GetPattern(framework, key).None?
    ensures GetRecommendedPattern(framework).None?
    ensures !IsValidPattern(framework, key)
  {
  }

  /** How many entries of a table are flagged recommended. */
  function CountRecommended(ps: seq<Pattern>): nat
  {
    if |ps| == 0 then 0 else (if ps[0].recommended then 1 else 0) + CountRecommended(ps[1..])
  }

  /**
   * `Frameworks` lists the registry's top-level keys: it names every type exactly
   * once, `getFrameworkPatterns` finds a table for a string exactly when the string
   * spells one of the listed types, and the table found is that type's own.
   */
  lemma FrameworksAreTheRegistry()
    ensures |Frameworks| == 3
    ensures forall u: ProjectType :: u in Frameworks
    ensures forall i, j :: 0 <= i < j < |Frameworks| ==> Frameworks[i] != Frameworks[j]
    ensures forall s :: GetFrameworkPatterns(s).Some? <==>
                        exists i :: 0 <= i < |Frameworks| && TypeName(Frameworks[i]) == s
    ensures forall i :: 0 <= i < |Frameworks| ==>
                        GetFrameworkPatterns(TypeName(Frameworks[i])) == Some(PatternsOf(Frameworks[i]))
  {
    forall u: ProjectType
      ensures u in Frameworks
    {
      match u
      case Laravel => assert Frameworks[0] == u;
      case Flutter => assert Frameworks[1] == u;
      case Node => assert Frameworks[2] == u;
    }
    forall s
      ensures GetFrameworkPatterns(s).Some? <==>
              exists i :: 0 <= i < |Frameworks| && TypeName(Frameworks[i]) == s
    {
      if GetFrameworkPatterns(s).Some? {
        var t := ParseType(s).value;
        assert TypeName(t) == s;
        match t
        case Laravel => assert TypeName(Frameworks[0]) == s;
        case Flutter => assert TypeName(Frameworks[1]) == s;
        case Node => assert TypeName(Frameworks[2]) == s;
      }
      if exists i :: 0 <= i < |Frameworks| && TypeName(Frameworks[i]) == s {
        var i :| 0 <= i < |Frameworks| && TypeName(Frameworks[i]) == s;
        ParseTypeRoundTrip(Frameworks[i], s);
      }
    }
    forall i | 0 <= i < |Frameworks|
      ensures GetFrameworkPatterns(TypeName(Frameworks[i])) == Some(PatternsOf(Frameworks[i]))
    {
      ParseTypeRoundTrip(Frameworks[i], TypeName(Frameworks[i]));
    }
  }

  /** Each type declares three keys in a fixed order. */
  lemma RegistryKeys(t: ProjectType)
    ensures KeysOf(t) == match t
      case Laravel => ["standard", "feature", "ddd"]
      case Flutter => ["layered", "feature", "clean"]
      case Node => ["simple", "modular", "clean"]
  {
  }

  /** The keys of a type are pairwise distinct, so a key names exactly one pattern. */
  lemma RegistryKeysDistinct(t: ProjectType)
    ensures forall i, j :: 0 <= i < j < |KeysOf(t)| ==> KeysOf(t)[i] != KeysOf(t)[j]
    ensures forall i, j :: 0 <= i < j < |PatternsOf(t)| ==> PatternsOf(t)[i].key != PatternsOf(t)[j].key
  {
    RegistryKeys(t);
  }

  /** Every type flags exactly one of its patterns as recommended. */
  lemma ExactlyOneRecommended(t: ProjectType)
    ensures CountRecommended(PatternsOf(t)) == 1
  {
    CountRecommendedOfThree(PatternsOf(t));
  }

  /** The recommended count of a three-entry table, entry by entry. */
  lemma CountRecommendedOfThree(ps: seq<Pattern>)
    requires |ps| == 3
    ensures CountRecommended(ps) == (if ps[0].recommended then 1 else 0)
      + (if ps[1].recommended then 1 else 0) + (if ps[2].recommended then 1 else 0)
  {
    assert ps[1..][1..] == ps[2..];
    assert ps[2..][1..] == [];
    assert CountRecommended(ps[2..]) == (if ps[2].recommended then 1 else 0);
    assert CountRecommended(ps[1..]) == (if ps[1].recommended then 1 else 0) + CountRecommended(ps[2..]);
  }

  /** The key a type recommends. */
  function RecommendedOf(t: ProjectType): string
  {
    match t
    case Laravel => "feature"
    case Flutter => "feature"
    case Node => "modular"
  }

  /**
   * The first declared key (the one the non-interactive mode takes) is standard,
   * layered and simple, and differs for every type from the recommended key.
   */
  lemma FirstKeyIsNotRecommended(t: ProjectType)
    ensures GetRecommendedPattern(TypeName(t)) == Some(RecommendedOf(t))
    ensures KeysOf(t)[0] == (match t case Laravel => "standard" case Flutter => "layered" case Node => "simple")
    ensures KeysOf(t)[0] != RecommendedOf(t)
  {
    RecommendedKeyIsFirstRecommended(PatternsOf(t), 1);
  }

  // ---------------------------------------------------------------------------
  // The lookups as written index plain JavaScript objects, so a name inherited
  // from Object.prototype is found as well as the declared keys. The model above
  // keeps to declared keys; the members below state the behaviour as written.
  // ---------------------------------------------------------------------------

  /** Property names every plain JavaScript object inherits (all with a non-null value). */
  const ObjectPrototypeMembers: set<string> := {
    "constructor", "hasOwnProperty", "isPrototypeOf", "propertyIsEnumerable",
    "toLocaleString", "toString", "valueOf", "__proto__",
    "__defineGetter__", "__defineSetter__", "__lookupGetter__", "__lookupSetter__"
  }

  /** `patterns[type]?.[key] !== undefined` for a known type, as written. */
  function IsValidPatternAsWritten(t: ProjectType, key: string): (b: bool)
    ensures IsValidPattern(TypeName(t), key) ==> b
  {
    key in KeysOf(t) || key in ObjectPrototypeMembers
  }

  /** `patterns[framework] || null` is non-null, as written. */
  function FrameworkFoundAsWritten(framework: string): (b: bool)
    ensures GetFrameworkPatterns(framework).Some? ==> b
  {
    ParseType(framework).Some? || framework in ObjectPrototypeMembers
  }

  /** As written, `constructor` passes as a pattern of every type although no type declares it. */
  lemma ConstructorAcceptedAsWritten(t: ProjectType)
    ensures IsValidPatternAsWritten(t, "constructor")
    ensures !IsValidPattern(TypeName(t), "constructor")
  {
    RegistryKeys(t);
    assert "constructor" in ObjectPrototypeMembers;
  }

  /** As written, `toString` is found as a framework although it is not one. */
  lemma ToStringFrameworkAsWritten()
    ensures FrameworkFoundAsWritten("toString")
    ensures GetFrameworkPatterns("toString").None?
  {
  }
}
