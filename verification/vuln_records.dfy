/**
 * What the plugin hands to the host for one vulnerability, and the per-field
 * decisions of the record pass: the `loadFinding` and `loadDependency`
 * switches, the emit rule of `processFindings`, and `populateVulnerability`.
 */
module VulnRecords {
  import opened Common
  import opened Tokens
  import opened DepVulns
  import VA = VulnAttributes
  import CA = CustomVulnAttributes

  /** One completed vulnerability as the builder receives it. */
  datatype Vuln = Vuln(
    instanceId: string,
    kingdom: string,
    analyzer: string,
    category: string,
    subCategory: string,
    mappedCategory: Option<string>,
    fileName: Option<string>,
    vulnerabilityAbstract: Option<string>,
    impact: Option<string>,
    priority: GenPriority,
    custom: map<CA.CustomVulnAttribute, string>)

  /** The accumulator field each custom attribute is filled from; `None` for the attributes never set. */
  function Source(a: CA.CustomVulnAttribute, fn: DepVuln): Option<string>
  {
    match a
    case Cwe => fn.cwe
    case UniqueId => fn.uniqueId
    case CvssAccessComplexity => fn.cvssAccessComplexity
    case CvssAccessVector => fn.cvssAccessVector
    case CvssAvailImpact => fn.cvssAvailabilityImpact
    case CvssConImpact => fn.cvssConfidentialImpact
    case CvssIntImpact => fn.cvssIntegrityImpact
    case Description => fn.description
    case _ => None
  }

  /** The custom attributes `populateVulnerability` may set. */
  const Filled: set<CA.CustomVulnAttribute> :=
    {CA.Cwe, CA.UniqueId, CA.CvssAccessComplexity, CA.CvssAccessVector, CA.CvssAvailImpact,
     CA.CvssConImpact, CA.CvssIntImpact, CA.Description}

  /** The custom attributes `populateVulnerability` sets: each one whose field is non-null. */
  function CustomBag(fn: DepVuln): (r: map<CA.CustomVulnAttribute, string>)
    ensures forall a: CA.CustomVulnAttribute :: a in r <==> Source(a, fn).Some?
    ensures forall a: CA.CustomVulnAttribute :: a in r ==> r[a] == Source(a, fn).value
  {
    map a | a in Filled && Source(a, fn).Some? :: Source(a, fn).value
  }

  /** The fixed classification every record carries, and the CWE kept in step with the mapped category. */
  predicate Standard(v: Vuln)
  {
    && v.kingdom == "Environment"
    && v.analyzer == "Configuration"
    && v.category == "Insecure Deployment"
    && v.subCategory == "Unpatched Application"
    && (v.mappedCategory.Some? <==> CA.Cwe in v.custom)
    && (CA.Cwe in v.custom ==> v.custom[CA.Cwe] == v.mappedCategory.value)
  }

  /**
   * `populateVulnerability`: the builtin attributes from the accumulator, the
   * custom ones present exactly where their field is non-null. Reading the
   * name of a null priority throws, and only IllegalArgumentException is caught.
   */
  function Populate(fn: DepVuln): (r: Result<Vuln>)
    ensures r.Err? <==> fn.priority.None?
    ensures r.Err? ==> r.fault == NullPriority
    ensures r.Ok? ==> Standard(r.value)
    ensures r.Ok? ==> r.value.instanceId == InstanceId(fn) && r.value.priority == fn.priority.value
    ensures r.Ok? ==> r.value.mappedCategory == fn.cwe && r.value.fileName == fn.fileName
    ensures r.Ok? ==> r.value.vulnerabilityAbstract == fn.vulnerabilityAbstract && r.value.impact == fn.impact
    ensures r.Ok? ==> forall a: CA.CustomVulnAttribute ::
      (a in r.value.custom <==> Source(a, fn).Some?) && (a in r.value.custom ==> r.value.custom[a] == Source(a, fn).value)
  {
    if fn.priority.None? then Err(NullPriority)
    else
      Ok(Vuln(
        InstanceId(fn),
        "Environment", "Configuration", "Insecure Deployment", "Unpatched Application",
        fn.cwe, fn.fileName, fn.vulnerabilityAbstract, fn.impact, fn.priority.value,
        CustomBag(fn)))
  }

  /**
   * The emit rule of `processFindings`: once a vulnerability object has been
   * read, a record keyed by the instance id is appended exactly when the name
   * is non-null.
   */
  function Emit(fn: DepVuln, out: seq<Vuln>): (r: Result<seq<Vuln>>)
    ensures fn.name.None? ==> r == Ok(out)
    ensures fn.name.Some? ==> (r.Err? <==> fn.priority.None?)
    ensures r.Err? ==> r.fault == NullPriority
    ensures fn.name.Some? && r.Ok? ==>
      |r.value| == |out| + 1 && r.value[..|out|] == out && r.value[|out|] == Populate(fn).value
  {
    if fn.name.None? then Ok(out)
    else match Populate(fn)
      case Ok(v) => Ok(out + [v])
      case Err(f) => Err(f)
  }

  /** The severity switch: the exact priority name, or Medium when `valueOf` throws. */
  function SeverityOf(text: string): (p: GenPriority)
    ensures PriorityName(p) == text || p == Medium
    ensures ValueOf(text).Some? ==> PriorityName(p) == text
  {
    match ValueOf(text)
    case Some(q) => q
    case None => Medium
  }

  /** Severity is read case-sensitively, with Medium for anything unrecognised. */
  lemma SeverityMapping(text: string, p: GenPriority)
    ensures SeverityOf(text) == p <==> text == PriorityName(p) || (p == Medium && forall q: GenPriority :: PriorityName(q) != text)
  {
    ValueOfName(p, text);
  }

  /** The vulnerability-object fields `loadFinding` reads, as opposed to skipping. */
  predicate FindingReads(a: Option<VA.VulnAttribute>)
  {
    a.Some? && a.value in {VA.VulName, VA.Cwe, VA.CweDescription, VA.CvssScore, VA.CvssAccessVector,
      VA.CvssAccessComplexity, VA.CvssConImpact, VA.CvssIntImpact, VA.CvssAvailImpact, VA.Severity}
  }

  /** The plain string field a vulnerability-object attribute is copied into. */
  function FindingSlot(a: VA.VulnAttribute): (r: Option<Slot>)
    ensures r.Some? <==> a in {VA.VulName, VA.CweDescription, VA.CvssAccessVector, VA.CvssAccessComplexity,
      VA.CvssConImpact, VA.CvssIntImpact, VA.CvssAvailImpact}
    ensures r.Some? ==> r.value !in {UniqueIdSlot, FileNameSlot, DescriptionSlot, CommentSlot}
  {
    match a
    case VulName => Some(NameSlot)
    case CweDescription => Some(AbstractSlot)
    case CvssAccessVector => Some(CvssAccessVectorSlot)
    case CvssAccessComplexity => Some(CvssAccessComplexitySlot)
    case CvssConImpact => Some(CvssConfidentialImpactSlot)
    case CvssIntImpact => Some(CvssIntegrityImpactSlot)
    case CvssAvailImpact => Some(CvssAvailabilityImpactSlot)
    case _ => None
  }

  /**
   * One case of `loadFinding`'s switch, given the value's text: `None` when
   * the field is skipped instead. `parses` says whether `Float.parseFloat`
   * accepts a text.
   */
  function FindingField(a: Option<VA.VulnAttribute>, text: string, fn: DepVuln, parses: string -> bool): (r: Option<Result<DepVuln>>)
    ensures r.Some? <==> FindingReads(a)
    ensures r.Some? && r.value.Err? ==>
      (a == Some(VA.Cwe) && r.value.fault == CweIndex) || (a == Some(VA.CvssScore) && r.value.fault == BadNumber)
    ensures r.Some? && r.value.Ok? ==>
      var g := r.value.value;
      g.uniqueId == fn.uniqueId && g.fileName == fn.fileName && g.description == fn.description && g.comment == fn.comment
  {
    match a
    case None => None
    case Some(attr) =>
      if FindingSlot(attr).Some? then Some(Ok(Write(fn, FindingSlot(attr).value, Some(text))))
      else if attr == VA.Cwe then Some(SetCwe(fn, text))
      else if attr == VA.CvssScore then
        (if parses(text) then Some(Ok(Write(fn, ImpactSlot, Some(text)))) else Some(Err(BadNumber)))
      else if attr == VA.Severity then Some(Ok(fn.(priority := Some(SeverityOf(text)))))
      else None
  }

  /** Which field each vulnerability-object attribute writes; nothing else changes. */
  lemma FindingFieldWrites(a: VA.VulnAttribute, text: string, fn: DepVuln, parses: string -> bool)
    ensures a == VA.VulName ==> FindingField(Some(a), text, fn, parses) == Some(Ok(fn.(name := Some(text))))
    ensures a == VA.CweDescription ==>
      FindingField(Some(a), text, fn, parses) == Some(Ok(fn.(vulnerabilityAbstract := Some(text))))
    ensures a == VA.Severity ==> FindingField(Some(a), text, fn, parses) == Some(Ok(fn.(priority := Some(SeverityOf(text)))))
    ensures a == VA.Cwe ==> FindingField(Some(a), text, fn, parses) == Some(SetCwe(fn, text))
    ensures a == VA.CvssScore ==>
      FindingField(Some(a), text, fn, parses) == if parses(text) then Some(Ok(fn.(impact := Some(text)))) else Some(Err(BadNumber))
  {
  }

  /**
   * The cases of `loadDependency`'s switch, applied once the value has been
   * skipped, with the text of the token the cursor rests on. The DESCRIPTION
   * case is kept although the lookup never yields DESCRIPTION.
   */
  function DepField(a: Option<VA.VulnAttribute>, text: string, fn: DepVuln): (r: DepVuln)
    ensures r.name == fn.name && r.priority == fn.priority && r.cwe == fn.cwe && r.description == fn.description
    ensures r.vulnerabilityAbstract == fn.vulnerabilityAbstract && r.impact == fn.impact
    ensures r.cvssAccessVector == fn.cvssAccessVector && r.cvssAccessComplexity == fn.cvssAccessComplexity
    ensures r.cvssConfidentialImpact == fn.cvssConfidentialImpact && r.cvssIntegrityImpact == fn.cvssIntegrityImpact
    ensures r.cvssAvailabilityImpact == fn.cvssAvailabilityImpact
  {
    if a == Some(VA.Sha1) then Write(fn, UniqueIdSlot, Some(text))
    else if a == Some(VA.FileName) || a == Some(VA.FilePath) then Write(fn, FileNameSlot, Some(text))
    else if a == Some(VA.Description) then Write(fn, CommentSlot, Some(text))
    else fn
  }

  /** `sha1` sets the unique id, `fileName` and `filePath` both set the file name, and no field name sets the comment. */
  lemma DepFieldWrites(name: string, text: string, fn: DepVuln)
    ensures name == "sha1" ==> DepField(VA.Get(name), text, fn) == fn.(uniqueId := Some(text))
    ensures name == "fileName" || name == "filePath" ==> DepField(VA.Get(name), text, fn) == fn.(fileName := Some(text))
    ensures DepField(VA.Get(name), text, fn).comment == fn.comment
  {
    VA.GetDescription();
    if name == "sha1" {
      VA.GetFindsNamesake(VA.Sha1);
    } else if name == "fileName" {
      VA.GetFindsNamesake(VA.FileName);
    } else if name == "filePath" {
      VA.GetFindsNamesake(VA.FilePath);
    }
  }
}
