/**
 * The field-name dispatch table: every JSON field name the parser recognises,
 * in declaration order, and the lookup map the enum fills once when the class
 * is initialised. Several constants share a wire name; the lookup keeps the
 * constant inserted last.
 */
module VulnAttributes {
  import opened Common

  datatype VulnAttribute =
    // report level
    | EngineVersion | ProjectName | ScanDate | ReportSchema | ScanInfo
    // dependency level
    | FileName | FilePath | Sha1 | Description | License
    // dependency-check names
    | Name | Url
    // vulnerability level
    | Vulnerabilities | UniqueId | VulName | CvssScore | CvssAccessVector | CvssAccessComplexity
    | CvssConImpact | CvssIntImpact | CvssAvailImpact | Severity | Cwe | CweDescription

  /** The wire name each constant is declared with. */
  function AttrName(a: VulnAttribute): string
  {
    match a
    case EngineVersion => "engineVersion"
    case ProjectName => "name"
    case ScanDate => "reportDate"
    case ReportSchema => "reportSchema"
    case ScanInfo => "scanInfo"
    case FileName => "fileName"
    case FilePath => "filePath"
    case Sha1 => "sha1"
    case Description => "description"
    case License => "license"
    case Name => "name"
    case Url => "url"
    case Vulnerabilities => "vulnerabilities"
    case UniqueId => "uniqueId"
    case VulName => "name"
    case CvssScore => "cvssScore"
    case CvssAccessVector => "cvssAccessVector"
    case CvssAccessComplexity => "cvssAccessComplexity"
    case CvssConImpact => "cvssConfidentialImpact"
    case CvssIntImpact => "cvssIntegrityImpact"
    case CvssAvailImpact => "cvssAvailabilityImpact"
    case Severity => "severity"
    case Cwe => "cwe"
    case CweDescription => "description"
  }

  /** The declaration position of each constant (Java's `ordinal()`). */
  function Ordinal(a: VulnAttribute): nat
  {
    match a
    case EngineVersion => 0
    case ProjectName => 1
    case ScanDate => 2
    case ReportSchema => 3
    case ScanInfo => 4
    case FileName => 5
    case FilePath => 6
    case Sha1 => 7
    case Description => 8
    case License => 9
    case Name => 10
    case Url => 11
    case Vulnerabilities => 12
    case UniqueId => 13
    case VulName => 14
    case CvssScore => 15
    case CvssAccessVector => 16
    case CvssAccessComplexity => 17
    case CvssConImpact => 18
    case CvssIntImpact => 19
    case CvssAvailImpact => 20
    case Severity => 21
    case Cwe => 22
    case CweDescription => 23
  }

  /** The constants of each commented section of the enum, in declaration order. */
  const TopLevel: seq<VulnAttribute> := [EngineVersion, ProjectName, ScanDate, ReportSchema, ScanInfo]
  const DependencyLevel: seq<VulnAttribute> := [FileName, FilePath, Sha1, Description, License]
  const CheckNames: seq<VulnAttribute> := [Name, Url]
  const VulnerabilityLevel: seq<VulnAttribute> :=
    [ Vulnerabilities, UniqueId, VulName, CvssScore, CvssAccessVector, CvssAccessComplexity,
      CvssConImpact, CvssIntImpact, CvssAvailImpact, Severity, Cwe, CweDescription ]

  /** `EnumSet.allOf(VulnAttribute.class)`, which iterates in declaration order. */
  const Declared: seq<VulnAttribute> := TopLevel + DependencyLevel + CheckNames + VulnerabilityLevel

  /** `Declared` lists every constant exactly once, at its ordinal. */
  lemma DeclaredInOrder()
    ensures |Declared| == 24
    ensures forall a: VulnAttribute :: Ordinal(a) < |Declared| && Declared[Ordinal(a)] == a
    ensures forall i | 0 <= i < |Declared| :: Ordinal(Declared[i]) == i
  {
  }

  /** The static initializer's loop: one `put` per constant, in the given order. */
  function Fill(m: map<string, VulnAttribute>, xs: seq<VulnAttribute>): map<string, VulnAttribute>
    decreases |xs|
  {
    if xs == [] then m else Fill(m[AttrName(xs[0]) := xs[0]], xs[1..])
  }

  /** The static initializer: `lookup.put(s.attrName(), s)` for every constant in declaration order. */
  function StaticInit(): map<string, VulnAttribute>
  {
    Fill(map[], Declared)
  }

  /** The last constant in `xs` whose wire name is `s`. */
  function LastNamed(xs: seq<VulnAttribute>, s: string): (r: Option<VulnAttribute>)
    ensures r.Some? ==> AttrName(r.value) == s
    decreases |xs|
  {
    if xs == [] then None
    else
      var later := LastNamed(xs[1..], s);
      if later.Some? then later
      else if AttrName(xs[0]) == s then Some(xs[0])
      else None
  }

  /** After filling, a name is mapped exactly when some filled constant carries it, and then to the last such. */
  lemma {:induction false} FillLastWins(m: map<string, VulnAttribute>, xs: seq<VulnAttribute>, s: string)
    ensures s in Fill(m, xs) <==> LastNamed(xs, s).Some? || s in m
    ensures LastNamed(xs, s).Some? ==> Fill(m, xs)[s] == LastNamed(xs, s).value
    ensures LastNamed(xs, s).None? && s in m ==> Fill(m, xs)[s] == m[s]
    decreases |xs|
  {
    if xs != [] {
      FillLastWins(m[AttrName(xs[0]) := xs[0]], xs[1..], s);
    }
  }

  /** `LastNamed` finds a constant at some position, and nothing after it carries the name. */
  lemma {:induction false} LastNamedIsLast(xs: seq<VulnAttribute>, s: string)
    ensures LastNamed(xs, s).None? <==> forall i | 0 <= i < |xs| :: AttrName(xs[i]) != s
    ensures LastNamed(xs, s).Some? ==>
      exists i | 0 <= i < |xs| :: xs[i] == LastNamed(xs, s).value
        && forall j | i < j < |xs| :: AttrName(xs[j]) != s
    decreases |xs|
  {
    if xs != [] {
      LastNamedIsLast(xs[1..], s);
      var later := LastNamed(xs[1..], s);
      if later.Some? {
        var i :| 0 <= i < |xs[1..]| && xs[1..][i] == later.value
          && forall j | i < j < |xs[1..]| :: AttrName(xs[1..][j]) != s;
        assert xs[i + 1] == later.value;
        assert forall j | i + 1 < j < |xs| :: AttrName(xs[j]) != s by {
          forall j | i + 1 < j < |xs| ensures AttrName(xs[j]) != s {
            assert xs[j] == xs[1..][j - 1];
          }
        }
      } else {
        assert forall i | 1 <= i < |xs| :: xs[i] == xs[1..][i - 1];
        if AttrName(xs[0]) == s {
          assert xs[0] == LastNamed(xs, s).value;
        }
      }
    }
  }

  /** Filling from a list that holds every constant at its ordinal maps each name to the last constant so named. */
  lemma FillInDeclarationOrder(xs: seq<VulnAttribute>, s: string)
    requires forall a: VulnAttribute :: Ordinal(a) < |xs| && xs[Ordinal(a)] == a
    requires forall i | 0 <= i < |xs| :: Ordinal(xs[i]) == i
    ensures s !in Fill(map[], xs) <==> forall a: VulnAttribute :: AttrName(a) != s
    ensures s in Fill(map[], xs) ==> AttrName(Fill(map[], xs)[s]) == s
    ensures s in Fill(map[], xs) ==>
      forall a: VulnAttribute :: AttrName(a) == s ==> Ordinal(a) <= Ordinal(Fill(map[], xs)[s])
  {
    var m := Fill(map[], xs);
    FillLastWins(map[], xs, s);
    LastNamedIsLast(xs, s);
    if s in m {
      var i :| 0 <= i < |xs| && xs[i] == m[s] && forall j | i < j < |xs| :: AttrName(xs[j]) != s;
      assert Ordinal(m[s]) == i;
    } else {
      forall a: VulnAttribute ensures AttrName(a) != s {
        assert xs[Ordinal(a)] == a;
      }
    }
  }

  /** The lookup map as the static initializer leaves it. */
  const Lookup: map<string, VulnAttribute> := StaticInit()

  /** Where a key of the map is someone's wire name, the constant it maps to is the last one so named. */
  lemma LookupIsLastDeclared(s: string)
    ensures s !in Lookup <==> forall a: VulnAttribute :: AttrName(a) != s
    ensures s in Lookup ==> AttrName(Lookup[s]) == s
    ensures s in Lookup ==> forall a: VulnAttribute :: AttrName(a) == s ==> Ordinal(a) <= Ordinal(Lookup[s])
  {
    DeclaredInOrder();
    FillInDeclarationOrder(Declared, s);
  }

  /**
   * `VulnAttribute.get`: total, no match for an unknown name, and for a name
   * shared by several constants the one declared last.
   */
  function Get(s: string): (r: Option<VulnAttribute>)
    ensures r.Some? ==> AttrName(r.value) == s
  {
    LookupIsLastDeclared(s);
    if s in Lookup then Some(Lookup[s]) else None
  }

  /** `get` on a name that may be null: the map holds no null key, so null finds nothing. */
  function GetOrNull(s: Option<string>): Option<VulnAttribute>
  {
    if s.None? then None else Get(s.value)
  }

  /**
   * What `get` finds: nothing for a name no constant carries, otherwise a
   * constant of that name declared no earlier than any other so named.
   */
  lemma GetSpec(s: string)
    ensures Get(s).None? <==> forall a: VulnAttribute :: AttrName(a) != s
    ensures Get(s).Some? ==> AttrName(Get(s).value) == s
    ensures Get(s).Some? ==> forall a: VulnAttribute :: AttrName(a) == s ==> Ordinal(a) <= Ordinal(Get(s).value)
  {
    LookupIsLastDeclared(s);
  }

  /** The last-declared constant sharing a constant's wire name. */
  function Namesake(a: VulnAttribute): (r: VulnAttribute)
    ensures AttrName(r) == AttrName(a) && Ordinal(a) <= Ordinal(r)
  {
    match a
    case ProjectName => VulName
    case Name => VulName
    case Description => CweDescription
    case _ => a
  }

  /** No constant sharing `a`'s wire name is declared after `Namesake(a)`. */
  lemma NamesakeIsLast(a: VulnAttribute, b: VulnAttribute)
    ensures AttrName(b) == AttrName(a) ==> Ordinal(b) <= Ordinal(Namesake(a))
  {
  }

  /** Two constants at the same position are the same constant. */
  lemma OrdinalInjective(a: VulnAttribute, b: VulnAttribute)
    ensures Ordinal(a) == Ordinal(b) ==> a == b
  {
  }

  /** Looking up a constant's wire name finds its namesake. */
  lemma GetFindsNamesake(a: VulnAttribute)
    ensures Get(AttrName(a)) == Some(Namesake(a))
  {
    var r := Get(AttrName(a));
    GetSpec(AttrName(a));
    NamesakeIsLast(a, r.value);
    OrdinalInjective(r.value, Namesake(a));
  }

  /** Two constants share a wire name exactly when they have the same namesake. */
  lemma SameName(a: VulnAttribute, b: VulnAttribute)
    ensures AttrName(a) == AttrName(b) <==> Namesake(a) == Namesake(b)
  {
    GetFindsNamesake(a);
    GetFindsNamesake(b);
  }

  /** `get("name")` yields the vulnerability name, not the project or dependency name. */
  lemma GetName()
    ensures AttrName(ProjectName) == "name" && AttrName(Name) == "name"
    ensures Get("name") == Some(VulName)
  {
    GetFindsNamesake(Name);
  }

  /** `get("description")` yields the CWE explanation; the dependency description is never returned. */
  lemma GetDescription()
    ensures Get("description") == Some(CweDescription)
    ensures forall s: string :: Get(s) != Some(Description)
  {
    GetFindsNamesake(Description);
    forall s: string ensures Get(s) != Some(Description) {
      var r := Get(s);
      GetSpec(s);
      if r.Some? && AttrName(r.value) == "description" {
        assert Ordinal(CweDescription) <= Ordinal(r.value);
      }
    }
  }

  /**
   * Round trip: a constant is found under its own wire name exactly when no
   * later-declared constant shares that name; the three shadowed ones are
   * ProjectName, Description and Name.
   */
  lemma RoundTrip(c: VulnAttribute)
    ensures Get(AttrName(c)) == Some(c) <==> c !in {ProjectName, Description, Name}
    ensures (forall d: VulnAttribute :: d != c ==> AttrName(d) != AttrName(c)) ==> Get(AttrName(c)) == Some(c)
  {
    GetFindsNamesake(c);
  }
}
