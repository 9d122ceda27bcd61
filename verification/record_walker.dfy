/**
 * The record pass over the token stream: `parseVulnerabilitiesInternal`, the
 * `dependencies` array, `loadDependency`, the `vulnerabilities` array,
 * `processFindings` and `loadFinding`. Each loop is a function of the tokens
 * not yet read; records are appended to `out` as the builder completes them.
 * Every loop also sees `doc`, the whole token stream of which the unread
 * tokens are a suffix, from which `getCurrentName()` is answered when a loop
 * has fallen out of step with the fields.
 */
module RecordWalker {
  import opened Common
  import opened Tokens
  import opened DepVulns
  import opened VulnRecords
  import VA = VulnAttributes
  import CA = CustomVulnAttributes

  /**
   * A loop that ran to its closing token, with the unread tokens, its state and
   * the records emitted so far; or the exception that ended the pass, with
   * the records completed before it.
   */
  datatype Walk<S> =
    | Walked(rest: seq<Token>, st: S, out: seq<Vuln>)
    | Halted(fault: Fault, out: seq<Vuln>)

  /** What `parseVulnerabilities` leaves behind: the completed records, and the exception if one escaped. */
  datatype Outcome =
    | Parsed(records: seq<Vuln>)
    | Aborted(fault: Fault, records: seq<Vuln>)

  /**
   * A record emitted while `fn`'s dependency was being read: standard, with
   * the dependency's file name and unique id, an instance id that starts with
   * that unique id, and DESCRIPTION only if the accumulator holds a
   * description.
   */
  predicate FromDependency(v: Vuln, fn: DepVuln)
  {
    && Standard(v)
    && v.fileName == fn.fileName
    && Show(fn.uniqueId) + "-" <= v.instanceId
    && (CA.UniqueId in v.custom <==> fn.uniqueId.Some?)
    && (CA.UniqueId in v.custom ==> v.custom[CA.UniqueId] == fn.uniqueId.value)
    && (CA.Description in v.custom <==> fn.description.Some?)
  }

  /** The fields a vulnerability object cannot change. */
  predicate KeepsDependency(g: DepVuln, fn: DepVuln)
  {
    g.uniqueId == fn.uniqueId && g.fileName == fn.fileName && g.description == fn.description && g.comment == fn.comment
  }

  /** `out2` extends `out`, and every record added is standard with DESCRIPTION exactly when `described`. */
  predicate Extends(out: seq<Vuln>, out2: seq<Vuln>, described: bool)
  {
    out <= out2 && forall i | |out| <= i < |out2| :: Standard(out2[i]) && (CA.Description in out2[i].custom <==> described)
  }

  /**
   * One field of a vulnerability object, the cursor on its value: a field the
   * switch handles is set from the value's text without skipping it; any
   * other value, and a null name, is skipped.
   */
  function FindingValue(name: Option<string>, c: Cursor, fn: DepVuln, parses: string -> bool): (r: Result<Step<DepVuln>>)
    ensures r.Ok? ==> |r.value.rest| <= |c.rest| && KeepsDependency(r.value.st, fn)
    ensures r.Err? ==> r.fault in {Malformed, CweIndex, BadNumber}
  {
    match FindingField(VA.GetOrNull(name), Text(c.cur), fn, parses)
    case Some(Ok(g)) => Ok(Step(c.rest, g))
    case Some(Err(f)) => Err(f)
    case None =>
      match SkipChildren(c)
      case Ok(c2) => Ok(Step(c2.rest, fn))
      case Err(f) => Err(f)
  }

  /** `loadFinding`: the fields of one vulnerability object, up to and including its `}`. */
  function FindingFields(doc: seq<Token>, rest: seq<Token>, fn: DepVuln, parses: string -> bool): (r: Result<Step<DepVuln>>)
    ensures r.Ok? ==> |r.value.rest| < |rest| && KeepsDependency(r.value.st, fn)
    ensures r.Err? ==> r.fault in {Malformed, CweIndex, BadNumber}
    decreases |rest|
  {
    match NextEntry(doc, rest)
    case Err(f) => Err(f)
    case Ok(Closed(r)) => Ok(Step(r, fn))
    case Ok(Entry(name, c)) =>
      match FindingValue(name, c, fn, parses)
      case Err(f) => Err(f)
      case Ok(s) => FindingFields(doc, s.rest, s.st, parses)
  }

  /**
   * The `vulnerabilities` array after its `[`: every element must be an object;
   * each is read into the shared accumulator and then offered to the emit rule.
   */
  function VulnArray(doc: seq<Token>, rest: seq<Token>, fn: DepVuln, out: seq<Vuln>, parses: string -> bool): (r: Walk<DepVuln>)
    ensures r.Walked? ==> |r.rest| < |rest| && KeepsDependency(r.st, fn)
    ensures out <= r.out && forall i | |out| <= i < |r.out| :: FromDependency(r.out[i], fn)
    decreases |rest|
  {
    if |rest| == 0 then Halted(Malformed, out)
    else match rest[0]
      case EndArr => Walked(rest[1..], fn, out)
      case StartObj =>
        (match FindingFields(doc, rest[1..], fn, parses)
         case Err(f) => Halted(f, out)
         case Ok(s) =>
           match Emit(s.st, out)
           case Err(f) => Halted(f, out)
           case Ok(out2) => VulnArray(doc, s.rest, s.st, out2, parses))
      case _ => Halted(Structural, out)
  }

  /**
   * One field of a dependency object, the cursor on its value. `vulnerabilities`
   * must hold an array, which is walked; any other value is skipped, after
   * which the switch reads the text of the token the cursor rests on.
   */
  function DepValue(doc: seq<Token>, name: string, c: Cursor, fn: DepVuln, out: seq<Vuln>, parses: string -> bool): (r: Walk<DepVuln>)
    ensures r.Walked? ==> |r.rest| <= |c.rest| && r.st.description == fn.description
    ensures Extends(out, r.out, fn.description.Some?)
  {
    if name == "vulnerabilities" then
      if c.cur != StartArr then Halted(Structural, out)
      else
        match VulnArray(doc, c.rest, fn, out, parses)
        case Halted(f, o) => Halted(f, o)
        case Walked(r2, g, o) => Walked(r2, DepField(VA.Get(name), Text(EndArr), g), o)
    else
      match SkipChildren(c)
      case Err(f) => Halted(f, out)
      case Ok(c2) => Walked(c2.rest, DepField(VA.Get(name), Text(c2.cur), fn), out)
  }

  /**
   * `loadDependency`: the fields of one dependency object, up to and including
   * its `}`. The name is compared with `vulnerabilities` before anything else,
   * so a null name is a NullPointerException.
   */
  function DepFields(doc: seq<Token>, rest: seq<Token>, fn: DepVuln, out: seq<Vuln>, parses: string -> bool): (r: Walk<DepVuln>)
    ensures r.Walked? ==> |r.rest| < |rest| && r.st.description == fn.description
    ensures Extends(out, r.out, fn.description.Some?)
    decreases |rest|
  {
    match NextEntry(doc, rest)
    case Err(f) => Halted(f, out)
    case Ok(Closed(r)) => Walked(r, fn, out)
    case Ok(Entry(None, _)) => Halted(NullField, out)
    case Ok(Entry(Some(name), c)) =>
      match DepValue(doc, name, c, fn, out, parses)
      case Halted(f, o) => Halted(f, o)
      case Walked(r2, g, o) => DepFields(doc, r2, g, o, parses)
  }

  /** The `dependencies` array after its `[`: every element must be an object, read into a fresh accumulator. */
  function DepArray(doc: seq<Token>, rest: seq<Token>, out: seq<Vuln>, parses: string -> bool): (r: Walk<()>)
    ensures r.Walked? ==> |r.rest| < |rest|
    ensures Extends(out, r.out, false)
    decreases |rest|
  {
    if |rest| == 0 then Halted(Malformed, out)
    else match rest[0]
      case EndArr => Walked(rest[1..], (), out)
      case StartObj =>
        (match DepFields(doc, rest[1..], Fresh, out, parses)
         case Halted(f, o) => Halted(f, o)
         case Walked(r2, _, o) => DepArray(doc, r2, o, parses))
      case _ => Halted(Structural, out)
  }

  /**
   * The top-level loop: `dependencies` must hold an array; every other field
   * is skipped. A null name fails the comparison with `dependencies`.
   */
  function RootFields(doc: seq<Token>, rest: seq<Token>, out: seq<Vuln>, parses: string -> bool): (r: Walk<()>)
    ensures r.Walked? ==> |r.rest| < |rest|
    ensures Extends(out, r.out, false)
    decreases |rest|
  {
    match NextEntry(doc, rest)
    case Err(f) => Halted(f, out)
    case Ok(Closed(r)) => Walked(r, (), out)
    case Ok(Entry(None, _)) => Halted(NullField, out)
    case Ok(Entry(Some(name), c)) =>
      if name == "dependencies" then
        if c.cur != StartArr then Halted(Structural, out)
        else
          match DepArray(doc, c.rest, out, parses)
          case Halted(f, o) => Halted(f, o)
          case Walked(r2, _, o) => RootFields(doc, r2, o, parses)
      else
        match SkipChildren(c)
        case Err(f) => Halted(f, out)
        case Ok(c2) => RootFields(doc, c2.rest, out, parses)
  }

  /**
   * `parseVulnerabilities`: the document must start with an object; tokens
   * after the root object's `}` are never read. Every record is standard and
   * none carries the DESCRIPTION attribute.
   */
  function ParseVulnerabilities(toks: seq<Token>, parses: string -> bool): (r: Outcome)
    ensures |toks| == 0 || toks[0] != StartObj ==> r == Aborted(Structural, [])
    ensures forall v | v in r.records :: Standard(v) && CA.Description !in v.custom
  {
    if |toks| == 0 || toks[0] != StartObj then Aborted(Structural, [])
    else
      match RootFields(toks, toks[1..], [], parses)
      case Walked(_, _, o) => Parsed(o)
      case Halted(f, o) => Aborted(f, o)
  }
}
