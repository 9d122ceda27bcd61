/**
 * The custom attributes the plugin declares to the host: each one borrows the
 * wire name of a dispatch-table constant and carries a display type. They are
 * the keys of the custom-attribute bag of an emitted record.
 */
module CustomVulnAttributes {
  import opened Common
  import VA = VulnAttributes

  /** The host's attribute types this plugin uses. */
  datatype AttrType = String | LongString | Decimal | Date

  /** In declaration order; PROJECT_NAME, LICENSE and URL are commented out in the enum. */
  datatype CustomVulnAttribute =
    | UniqueId | EngineVersion | ScanDate | ReportSchema | ScanInfo
    | FileName | FilePath | Sha1 | Description | Name | VulName
    | CvssScore | CvssConImpact | CvssIntImpact | CvssAvailImpact | Severity | Cwe
    | CweDescription | CvssAccessVector | CvssAccessComplexity

  /** The dispatch-table constant whose wire name the constant is declared with. */
  function Wrapped(c: CustomVulnAttribute): VA.VulnAttribute
  {
    match c
    case UniqueId => VA.UniqueId
    case EngineVersion => VA.EngineVersion
    case ScanDate => VA.ScanDate
    case ReportSchema => VA.ReportSchema
    case ScanInfo => VA.ScanInfo
    case FileName => VA.FileName
    case FilePath => VA.FilePath
    case Sha1 => VA.Sha1
    case Description => VA.Description
    case Name => VA.Name
    case VulName => VA.VulName
    case CvssScore => VA.CvssScore
    case CvssConImpact => VA.CvssConImpact
    case CvssIntImpact => VA.CvssIntImpact
    case CvssAvailImpact => VA.CvssAvailImpact
    case Severity => VA.Severity
    case Cwe => VA.Cwe
    // declared with DESCRIPTION's name, not CWE_DESCRIPTION's
    case CweDescription => VA.Description
    case CvssAccessVector => VA.CvssAccessVector
    case CvssAccessComplexity => VA.CvssAccessComplexity
  }

  /** `attributeName()`: the constructor argument, which is the wrapped constant's wire name. */
  function AttributeName(c: CustomVulnAttribute): string
  {
    VA.AttrName(Wrapped(c))
  }

  /** `attributeType()`: the constructor argument. */
  function AttributeType(c: CustomVulnAttribute): AttrType
  {
    match c
    case ScanDate => Date
    case FilePath => LongString
    case Description => LongString
    case CvssScore => Decimal
    case CweDescription => LongString
    case _ => String
  }

  /** The custom attribute declared for a dispatch-table constant, if any. */
  function Unwrap(a: VA.VulnAttribute): (r: Option<CustomVulnAttribute>)
    ensures r.Some? ==> Wrapped(r.value) == a
  {
    match a
    case UniqueId => Some(UniqueId)
    case EngineVersion => Some(EngineVersion)
    case ScanDate => Some(ScanDate)
    case ReportSchema => Some(ReportSchema)
    case ScanInfo => Some(ScanInfo)
    case FileName => Some(FileName)
    case FilePath => Some(FilePath)
    case Sha1 => Some(Sha1)
    case Description => Some(Description)
    case Name => Some(Name)
    case VulName => Some(VulName)
    case CvssScore => Some(CvssScore)
    case CvssConImpact => Some(CvssConImpact)
    case CvssIntImpact => Some(CvssIntImpact)
    case CvssAvailImpact => Some(CvssAvailImpact)
    case Severity => Some(Severity)
    case Cwe => Some(Cwe)
    case CvssAccessVector => Some(CvssAccessVector)
    case CvssAccessComplexity => Some(CvssAccessComplexity)
    case _ => None
  }

  /**
   * Every dispatch-table constant except PROJECT_NAME, LICENSE, URL,
   * VULNERABILITIES and CWE_DESCRIPTION is wrapped, and unwrapping recovers the
   * custom attribute except for CWE_DESCRIPTION, which borrowed DESCRIPTION.
   */
  lemma WrapUnwrap(c: CustomVulnAttribute, a: VA.VulnAttribute)
    ensures Unwrap(Wrapped(c)) == Some(c) <==> c != CweDescription
    ensures Unwrap(a).None? <==> a in {VA.ProjectName, VA.License, VA.Url, VA.Vulnerabilities, VA.CweDescription}
  {
  }

  /**
   * Every custom attribute's name is a wire name the dispatch table knows;
   * looking it up yields the wrapped constant or the later namesake shadowing it.
   */
  lemma NameIsWireName(c: CustomVulnAttribute)
    ensures VA.Get(AttributeName(c)) == Some(VA.Namesake(Wrapped(c)))
    ensures VA.Get(AttributeName(c)) == Some(Wrapped(c)) <==> c !in {Description, Name, CweDescription}
  {
    VA.GetFindsNamesake(Wrapped(c));
  }

  /** Where a custom attribute's name leads in the dispatch table. */
  lemma NamesakeOfWrapped(c: CustomVulnAttribute)
    ensures VA.Namesake(Wrapped(c)) == VA.CweDescription <==> c == Description || c == CweDescription
    ensures VA.Namesake(Wrapped(c)) == VA.VulName <==> c == Name || c == VulName
    ensures c !in {Description, CweDescription, Name, VulName} ==> VA.Namesake(Wrapped(c)) == Wrapped(c)
  {
  }

  /** Only CWE_DESCRIPTION borrows another custom attribute's constant. */
  lemma WrappedInjective(c: CustomVulnAttribute, d: CustomVulnAttribute)
    ensures Wrapped(c) == Wrapped(d) ==> c == d || (c in {Description, CweDescription} && d in {Description, CweDescription})
  {
  }

  /** Names are not unique: exactly DESCRIPTION/CWE_DESCRIPTION and NAME/VUL_NAME collide. */
  lemma NameCollisions(c: CustomVulnAttribute, d: CustomVulnAttribute)
    ensures c != d && AttributeName(c) == AttributeName(d) <==>
      {c, d} == {Description, CweDescription} || {c, d} == {Name, VulName}
  {
    VA.SameName(Wrapped(c), Wrapped(d));
    NamesakeOfWrapped(c);
    NamesakeOfWrapped(d);
    WrappedInjective(c, d);
  }

  /** The declared types: one decimal, one date, three long strings, plain strings otherwise. */
  lemma Types(c: CustomVulnAttribute)
    ensures AttributeType(c) == Decimal <==> c == CvssScore
    ensures AttributeType(c) == Date <==> c == ScanDate
    ensures AttributeType(c) == LongString <==> c in {FilePath, Description, CweDescription}
    ensures AttributeType(c) == String <==> Wrapped(c) !in {VA.CvssScore, VA.ScanDate, VA.FilePath, VA.Description}
  {
  }
}
