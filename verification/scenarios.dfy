/**
 * Worked examples: the CWE normalisation on the texts Dependency-Check
 * reports, the severity switch, the name lookup, and a small report read by
 * both passes.
 */
module Scenarios {
  import opened Common
  import opened Tokens
  import opened JsonTree
  import opened JsonFields
  import opened JavaStrings
  import opened DepVulns
  import opened VulnRecords
  import opened RecordWalker
  import opened RecordReference
  import opened ScanMetadata
  import opened RecordProperties
  import VA = VulnAttributes
  import CA = CustomVulnAttributes

  /** The usual shape: the number after the first '-'. */
  lemma CweExample()
    ensures NormalizeCwe("CWE-79") == Ok("CWE ID 79")
    ensures NormalizeCwe("") == Ok("")
  {
    NormalizeWellFormed("CWE", "79", "");
    assert "CWE" + "-" + "79" + "" == "CWE-79";
    assert "CWE ID " + "79" == "CWE ID 79";
  }

  /** A text without any '-' has no second piece, so `setCWE` throws. */
  lemma CweWithoutDash(cwe: string)
    requires cwe != "" && '-' !in cwe
    ensures NormalizeCwe(cwe) == Err(CweIndex)
  {
    NormalizeCweIsCweId(cwe);
    var word := TakeUntil(cwe, ' ');
    assert '-' !in word by {
      forall i | 0 <= i < |word| ensures word[i] != '-' {
        assert word[i] == cwe[i];
      }
    }
  }

  /** Java's split drops trailing empty pieces, so a tag followed by a bare '-' has no second piece either. */
  lemma CweTrailingDash(tag: string)
    requires ' ' !in tag && '-' !in tag
    ensures NormalizeCwe(tag + "-") == Err(CweIndex)
  {
    var cwe := tag + "-";
    NormalizeCweIsCweId(cwe);
    NoSeparator(cwe, ' ');
    TakeUntilPrefix(tag, "", '-');
    assert tag + ['-'] + "" == cwe;
    Decompose(cwe, '-');
    assert DropThrough(cwe, '-') == "";
  }

  /** A leading space makes the first word empty, whatever follows. */
  lemma CweLeadingSpace(rest: string)
    ensures NormalizeCwe(" " + rest) == Err(CweIndex)
  {
    NormalizeCweIsCweId(" " + rest);
    assert TakeUntil(" " + rest, ' ') == "";
  }

  /** Severity names are matched exactly; anything else is Medium. */
  lemma SeverityExamples()
    ensures SeverityOf("High") == High && SeverityOf("Critical") == Critical && SeverityOf("Low") == Low
    ensures SeverityOf("HIGH") == Medium && SeverityOf("") == Medium && SeverityOf("Moderate") == Medium
  {
  }

  // ----- a small report -----

  /** A vulnerability with a name and a severity. */
  function Named(name: string, severity: string): seq<Member>
  {
    [Member("name", JScalar(name)), Member("severity", JScalar(severity))]
  }

  /** A vulnerability with a name, severity High and a CWE. */
  function First(name: string, cwe: string): seq<Member>
  {
    Named(name, "High") + [Member("cwe", JScalar(cwe))]
  }

  /** A second vulnerability that names no CWE. */
  function Second(name: string): seq<Member>
  {
    Named(name, "Low")
  }

  /** A dependency with a file name and a sha1, then its two vulnerabilities. */
  function Dependency(file: string, sha: string, n1: string, n2: string, cwe: string): seq<Member>
  {
    Header(file, sha) + [Member("vulnerabilities", JArr([JObj(First(n1, cwe)), JObj(Second(n2))]))]
  }

  /** The members of a dependency ahead of its vulnerabilities. */
  function Header(file: string, sha: string): seq<Member>
  {
    [Member("fileName", JScalar(file)), Member("sha1", JScalar(sha))]
  }

  /** The report: schema, engine version, one dependency. */
  function Report(schema: string, version: string, dep: seq<Member>): seq<Member>
  {
    [Member("reportSchema", JScalar(schema)),
     Member("scanInfo", JObj([Member("engineVersion", JScalar(version))])),
     Member("dependencies", JArr([JObj(dep)]))]
  }

  /** The vulnerability-object names the report uses, and where the dispatch table sends them. */
  lemma FindingNames()
    ensures VA.Get("name") == Some(VA.VulName) && VA.Get("severity") == Some(VA.Severity) && VA.Get("cwe") == Some(VA.Cwe)
  {
    VA.GetName();
    VA.GetFindsNamesake(VA.Severity);
    VA.GetFindsNamesake(VA.Cwe);
  }

  /** The dependency-object names the report uses. */
  lemma DependencyNames()
    ensures VA.Get("fileName") == Some(VA.FileName) && VA.Get("sha1") == Some(VA.Sha1)
    ensures VA.Get("vulnerabilities") == Some(VA.Vulnerabilities)
  {
    VA.GetFindsNamesake(VA.FileName);
    VA.GetFindsNamesake(VA.Sha1);
    VA.GetFindsNamesake(VA.Vulnerabilities);
  }

  /** The top-level names the report uses; `dependencies` is no constant's name. */
  lemma RootNames()
    ensures VA.Get("reportSchema") == Some(VA.ReportSchema) && VA.Get("scanInfo") == Some(VA.ScanInfo)
    ensures VA.Get("engineVersion") == Some(VA.EngineVersion) && VA.Get("dependencies").None?
  {
    VA.GetFindsNamesake(VA.ReportSchema);
    VA.GetFindsNamesake(VA.ScanInfo);
    VA.GetFindsNamesake(VA.EngineVersion);
    VA.GetSpec("dependencies");
  }

  /** One field of a vulnerability object, read into `fn`: the text of its scalar value goes where the switch sends it. */
  lemma MemberRead(key: string, a: VA.VulnAttribute, text: string, fn: DepVuln, parses: string -> bool)
    requires VA.Get(key) == Some(a)
    ensures a == VA.VulName ==> RefFindingMember(Member(key, JScalar(text)), fn, parses) == Ok(fn.(name := Some(text)))
    ensures a == VA.Severity ==> RefFindingMember(Member(key, JScalar(text)), fn, parses) == Ok(fn.(priority := Some(SeverityOf(text))))
    ensures a == VA.Cwe ==> RefFindingMember(Member(key, JScalar(text)), fn, parses) == SetCwe(fn, text)
  {
    FindingFieldWrites(a, text, fn, parses);
  }

  /** A named vulnerability object overwrites name and severity and keeps the rest. */
  lemma NamedRead(name: string, severity: string, fn: DepVuln, parses: string -> bool)
    ensures RefFinding(Named(name, severity), fn, parses) == Ok(fn.(name := Some(name), priority := Some(SeverityOf(severity))))
  {
    FindingNames();
    var ms := Named(name, severity);
    var g1 := fn.(name := Some(name));
    MemberRead("name", VA.VulName, name, fn, parses);
    MemberRead("severity", VA.Severity, severity, g1, parses);
    assert RefFindingMember(ms[0], fn, parses) == Ok(g1);
    assert RefFindingMember(ms[1], g1, parses) == Ok(g1.(priority := Some(SeverityOf(severity))));
    assert ms[1..] == [ms[1]] && ms[1..][1..] == [];
    assert RefFinding(ms[1..], g1, parses) == Ok(g1.(priority := Some(SeverityOf(severity))));
  }

  /** The first vulnerability object, read into the dependency's accumulator. */
  lemma FirstRead(name: string, cwe: string, id: string, fn: DepVuln, parses: string -> bool)
    requires NormalizeCwe(cwe) == Ok(id)
    ensures RefFinding(First(name, cwe), fn, parses)
         == Ok(fn.(name := Some(name), priority := Some(High), cwe := Some(id)))
  {
    var g := fn.(name := Some(name), priority := Some(High));
    var m := Member("cwe", JScalar(cwe));
    NamedRead(name, "High", fn, parses);
    assert SeverityOf("High") == High;
    FindingAppend(Named(name, "High"), [m], fn, parses);
    CweRead(cwe, id, g, parses);
  }

  /** A lone `cwe` field stores the normalised id and nothing else. */
  lemma CweRead(cwe: string, id: string, g: DepVuln, parses: string -> bool)
    requires NormalizeCwe(cwe) == Ok(id)
    ensures RefFinding([Member("cwe", JScalar(cwe))], g, parses) == Ok(g.(cwe := Some(id)))
  {
    var ms := [Member("cwe", JScalar(cwe))];
    FindingNames();
    MemberRead("cwe", VA.Cwe, cwe, g, parses);
    FindingStep(ms, g, parses);
    assert ms[1..] == [];
  }

  /** An object naming a vulnerability with a severity emits one record, built from the accumulator it leaves. */
  lemma ItemEmits(ms: seq<Member>, fn: DepVuln, g: DepVuln, out: seq<Vuln>, parses: string -> bool)
    requires RefFinding(ms, fn, parses) == Ok(g) && g.name.Some? && g.priority.Some?
    ensures RefFindingItem(JObj(ms), fn, out, parses) == Ran(g, out + [Populate(g).value])
  {
    var o := Emit(g, out);
    assert o.Ok? && o.value[..|out|] == out && o.value[|out|] == Populate(g).value;
    assert o.value == out + [Populate(g).value];
  }

  /** The vulnerabilities array: one record per object, the second inheriting what it does not set. */
  lemma FindingsRead(n1: string, n2: string, cwe: string, id: string, g0: DepVuln, parses: string -> bool)
    requires NormalizeCwe(cwe) == Ok(id)
    ensures var g1 := g0.(name := Some(n1), priority := Some(High), cwe := Some(id));
      var g2 := g1.(name := Some(n2), priority := Some(Low));
      RefFindings([JObj(First(n1, cwe)), JObj(Second(n2))], g0, [], parses) == Ran(g2, [Populate(g1).value, Populate(g2).value])
  {
    var g1 := g0.(name := Some(n1), priority := Some(High), cwe := Some(id));
    var g2 := g1.(name := Some(n2), priority := Some(Low));
    FirstRead(n1, cwe, id, g0, parses);
    NamedRead(n2, "Low", g1, parses);
    assert SeverityOf("Low") == Low;
    ItemEmits(First(n1, cwe), g0, g1, [], parses);
    ItemEmits(Second(n2), g1, g2, [Populate(g1).value], parses);
    var items := [JObj(First(n1, cwe)), JObj(Second(n2))];
    FindingsStep(items, g0, [], parses);
    FindingsStep(items[1..], g1, [Populate(g1).value], parses);
    assert items[1..][1..] == [];
    assert [] + [Populate(g1).value] + [Populate(g2).value] == [Populate(g1).value, Populate(g2).value];
  }

  /** The dependency's header sets the file name and the unique id. */
  lemma HeaderRead(file: string, sha: string, parses: string -> bool)
    ensures RefDep(Header(file, sha), Fresh, [], parses) == Ran(Fresh.(fileName := Some(file), uniqueId := Some(sha)), [])
  {
    var ga := Fresh.(fileName := Some(file));
    var ms := Header(file, sha);
    DepFieldWrites("fileName", file, Fresh);
    DepFieldWrites("sha1", sha, ga);
    assert RefDepMember(ms[0], Fresh, [], parses) == Ran(ga, []);
    assert RefDepMember(ms[1], ga, [], parses) == Ran(ga.(uniqueId := Some(sha)), []);
    assert ms[1..][1..] == [];
    assert RefDep(ms[1..][1..], ga.(uniqueId := Some(sha)), [], parses) == Ran(ga.(uniqueId := Some(sha)), []);
    assert RefDep(ms[1..], ga, [], parses) == Ran(ga.(uniqueId := Some(sha)), []);
  }

  /** The dependency: the file name and sha1 come first, so both records carry them. */
  lemma DependencyRead(file: string, sha: string, n1: string, n2: string, cwe: string, id: string, parses: string -> bool)
    requires NormalizeCwe(cwe) == Ok(id)
    ensures var g1 := Fresh.(fileName := Some(file), uniqueId := Some(sha), name := Some(n1), priority := Some(High),
                             cwe := Some(id));
      var g2 := g1.(name := Some(n2), priority := Some(Low));
      RefDep(Dependency(file, sha, n1, n2, cwe), Fresh, [], parses) == Ran(g2, [Populate(g1).value, Populate(g2).value])
  {
    var g0 := Fresh.(fileName := Some(file), uniqueId := Some(sha));
    var g1 := g0.(name := Some(n1), priority := Some(High), cwe := Some(id));
    var g2 := g1.(name := Some(n2), priority := Some(Low));
    var o := [Populate(g1).value, Populate(g2).value];
    var vm := Member("vulnerabilities", JArr([JObj(First(n1, cwe)), JObj(Second(n2))]));
    HeaderRead(file, sha, parses);
    DepAppend(Header(file, sha), [vm], Fresh, [], parses);
    FindingsRead(n1, n2, cwe, id, g0, parses);
    DependencyNames();
    assert DepField(VA.Get("vulnerabilities"), Text(EndArr), g2) == g2;
    assert RefDepMember(vm, g0, [], parses) == Ran(g2, o);
    assert [vm][1..] == [];
    assert RefDep([vm], g0, [], parses) == Ran(g2, o);
  }

  /** The vulnerability objects hold scalars under the names the switch reads. */
  lemma DependencyFlat(file: string, sha: string, n1: string, n2: string, cwe: string)
    ensures FlatDep(Dependency(file, sha, n1, n2, cwe))
  {
    FindingNames();
    var items := [JObj(First(n1, cwe)), JObj(Second(n2))];
    assert FlatFinding(First(n1, cwe));
    assert FlatFinding(Second(n2));
    assert FlatFindings(items);
    var dep := Dependency(file, sha, n1, n2, cwe);
    assert dep[2].value.items == items;
  }

  /** Every value the reading loops would walk into is a scalar, so the report is a flat document. */
  lemma ReportFlat(schema: string, version: string, file: string, sha: string, n1: string, n2: string, cwe: string)
    ensures Flat(JObj(Report(schema, version, Dependency(file, sha, n1, n2, cwe))))
  {
    var dep := Dependency(file, sha, n1, n2, cwe);
    DependencyFlat(file, sha, n1, n2, cwe);
    assert FlatDeps([JObj(dep)]);
  }

  /** The reference semantics of the report: the dependency's two records, nothing else. */
  lemma ReportRoot(schema: string, version: string, file: string, sha: string, n1: string, n2: string, cwe: string, id: string, parses: string -> bool)
    requires NormalizeCwe(cwe) == Ok(id)
    ensures var g1 := Fresh.(fileName := Some(file), uniqueId := Some(sha), name := Some(n1), priority := Some(High),
                             cwe := Some(id));
      var g2 := g1.(name := Some(n2), priority := Some(Low));
      RefRoot(Report(schema, version, Dependency(file, sha, n1, n2, cwe)), [], parses) == Ran((), [Populate(g1).value, Populate(g2).value])
  {
    var dep := Dependency(file, sha, n1, n2, cwe);
    var ms := Report(schema, version, dep);
    var g1 := Fresh.(fileName := Some(file), uniqueId := Some(sha), name := Some(n1), priority := Some(High),
                     cwe := Some(id));
    var g2 := g1.(name := Some(n2), priority := Some(Low));
    var o := [Populate(g1).value, Populate(g2).value];
    DependencyRead(file, sha, n1, n2, cwe, id, parses);
    DepsStep([JObj(dep)], [], parses);
    assert [JObj(dep)][1..] == [];
    assert RefRootMember(ms[2], [], parses) == Ran((), o);
    assert ms == ms[..2] + [ms[2]];
    ReportFront(schema, version, dep, parses);
    RootAppend(ms[..2], [ms[2]], [], parses);
    assert [ms[2]][1..] == [];
  }

  /** The members ahead of `dependencies` produce no records. */
  lemma ReportFront(schema: string, version: string, dep: seq<Member>, parses: string -> bool)
    ensures RefRoot(Report(schema, version, dep)[..2], [], parses) == Ran((), [])
  {
    var front := Report(schema, version, dep)[..2];
    assert front[1..][1..] == [];
    assert RefRoot(front[1..][1..], [], parses) == Ran((), []);
    assert RefRootMember(front[1], [], parses) == Ran((), []);
    assert RefRoot(front[1..], [], parses) == Ran((), []);
    assert RefRootMember(front[0], [], parses) == Ran((), []);
  }

  /**
   * The record pass on the report: two records keyed by sha1 and name, the
   * second carrying the first one's CWE because the accumulator is shared.
   */
  lemma ReportRecords(schema: string, version: string, file: string, sha: string, n1: string, n2: string, cwe: string, parses: string -> bool)
    requires NormalizeCwe(cwe).Ok?
    ensures var r := ParseVulnerabilities(Tok(JObj(Report(schema, version, Dependency(file, sha, n1, n2, cwe)))), parses);
      && r.Parsed? && |r.records| == 2
      && r.records[0].instanceId == sha + "-" + n1 && r.records[0].priority == High
      && r.records[1].instanceId == sha + "-" + n2 && r.records[1].priority == Low
      && r.records[0].mappedCategory == r.records[1].mappedCategory == Some(NormalizeCwe(cwe).value)
      && r.records[1].fileName == Some(file)
  {
    var ms := Report(schema, version, Dependency(file, sha, n1, n2, cwe));
    var g1 := Fresh.(fileName := Some(file), uniqueId := Some(sha), name := Some(n1), priority := Some(High),
                     cwe := Some(NormalizeCwe(cwe).value));
    var g2 := g1.(name := Some(n2), priority := Some(Low));
    ReportRoot(schema, version, file, sha, n1, n2, cwe, NormalizeCwe(cwe).value, parses);
    ReportFlat(schema, version, file, sha, n1, n2, cwe);
    ParseMatches(JObj(ms), [], parses);
    assert Tok(JObj(ms)) + [] == Tok(JObj(ms));
    assert InstanceId(g1) == sha + "-" + n1 && InstanceId(g2) == sha + "-" + n2;
  }

  /** In a three-member object the last member of a kind is found from the end. */
  lemma LastOfThree(m0: Member, m1: Member, m2: Member, names: set<VA.VulnAttribute>)
    ensures LastFor([m0, m1, m2], names)
         == if Names(m2, names) then Some(m2) else if Names(m1, names) then Some(m1) else if Names(m0, names) then Some(m0) else None
  {
    LastForCons(m2, [], names);
    assert [m2] + [] == [m2];
    LastForCons(m1, [m2], names);
    assert [m1] + [m2] == [m1, m2];
    LastForCons(m0, [m1, m2], names);
    assert [m0] + [m1, m2] == [m0, m1, m2];
  }

  /** The report's top-level members as the scan pass sees them: one schema, one scan info, no date. */
  lemma ReportOverlay(schema: string, version: string, dep: seq<Member>)
    ensures Overlay(Unset, Report(schema, version, dep)) == ScanMeta(Some(schema), Some(version), None)
  {
    RootNames();
    var ms := Report(schema, version, dep);
    var info := [Member("engineVersion", JScalar(version))];
    LastForCons(info[0], [], {VA.EngineVersion});
    assert [info[0]] + [] == info;
    LastOfThree(ms[0], ms[1], ms[2], {VA.ReportSchema});
    LastOfThree(ms[0], ms[1], ms[2], {VA.ScanInfo});
    LastOfThree(ms[0], ms[1], ms[2], {VA.ScanDate});
    assert [ms[0], ms[1], ms[2]] == ms;
  }

  /** The scan pass on the same report: the schema becomes the host name; there is no scan date. */
  lemma ReportScan(schema: string, version: string, dep: seq<Member>)
    ensures ParseScan(Tok(JObj(Report(schema, version, dep)))) == Ok(ScanMeta(Some(schema), Some(version), None))
  {
    RootNames();
    var ms := Report(schema, version, dep);
    assert FlatInfo([Member("engineVersion", JScalar(version))]);
    assert FlatMeta(ms);
    ReportOverlay(schema, version, dep);
    ParseScanMatches(ms, []);
    assert Tok(JObj(ms)) + [] == Tok(JObj(ms));
  }

  // ----- a value read without being skipped -----

  /** `d` opens with `{"dependencies":[{"vulnerabilities":[{"severity":"High","name":`, as tokens. */
  predicate Opening(d: seq<Token>)
  {
    && |d| >= 10
    && d[0] == StartObj && d[1] == Field("dependencies") && d[2] == StartArr && d[3] == StartObj
    && d[4] == Field("vulnerabilities") && d[5] == StartArr && d[6] == StartObj
    && d[7] == Field("severity") && d[8] == Scalar("High") && d[9] == Field("name")
  }

  /** `d` is `{"dependencies":[{"vulnerabilities":[{"severity":"High","name":[x]}]}]}`, as tokens. */
  predicate ArrayNamed(d: seq<Token>, x: string)
  {
    && Opening(d) && |d| == 18
    && d[10] == StartArr && d[11] == Scalar(x) && d[12] == EndArr
    && d[13] == EndObj && d[14] == EndArr && d[15] == EndObj && d[16] == EndArr && d[17] == EndObj
  }

  /** `d` is `{"dependencies":[{"vulnerabilities":[{"severity":"High","name":{k:x}}]}]}`, as tokens. */
  predicate ObjectNamed(d: seq<Token>, k: string, x: string)
  {
    && Opening(d) && |d| == 19
    && d[10] == StartObj && d[11] == Field(k) && d[12] == Scalar(x) && d[13] == EndObj
    && d[14] == EndObj && d[15] == EndArr && d[16] == EndObj && d[17] == EndArr && d[18] == EndObj
  }

  /** The vulnerability object's first field: the severity `High`. */
  lemma SeverityRead(d: seq<Token>, fn: DepVuln, parses: string -> bool)
    requires Opening(d)
    ensures FindingFields(d, d[7..], fn, parses) == FindingFields(d, d[9..], fn.(priority := Some(High)), parses)
  {
    FindingNames();
    FindingFieldWrites(VA.Severity, "High", fn, parses);
    assert SeverityOf("High") == High;
    assert d[7..][0] == d[7] && d[7..][1] == d[8] && d[7..][2..] == d[9..];
    assert NextEntry(d, d[7..]) == Ok(Entry(Some("severity"), Cursor(Scalar("High"), d[9..])));
  }

  /** The vulnerability object's first two fields: the severity, then a name read as its value's first token. */
  lemma SeverityThenName(d: seq<Token>, fn: DepVuln, parses: string -> bool)
    requires Opening(d) && |d| >= 14 && IsValueStart(d[10])
    ensures FindingFields(d, d[7..], fn, parses)
         == FindingFields(d, d[11..], fn.(priority := Some(High), name := Some(Text(d[10]))), parses)
  {
    FindingNames();
    var g1 := fn.(priority := Some(High));
    SeverityRead(d, fn, parses);
    FindingFieldWrites(VA.VulName, Text(d[10]), g1, parses);
    assert d[9..][0] == d[9] && d[9..][1] == d[10] && d[9..][2..] == d[11..];
    assert NextEntry(d, d[9..]) == Ok(Entry(Some("name"), Cursor(d[10], d[11..])));
  }

  /**
   * A name whose value is an array: the name is read as "[", the array's item
   * is then met where a field should be, its name is null so it is skipped,
   * and the array's `]` is taken for its value. The object's `}` still ends
   * the vulnerability.
   */
  lemma ArrayNameFinding(d: seq<Token>, x: string, fn: DepVuln, parses: string -> bool)
    requires ArrayNamed(d, x)
    ensures FindingFields(d, d[7..], fn, parses) == Ok(Step(d[14..], fn.(priority := Some(High), name := Some("["))))
  {
    SeverityThenName(d, fn, parses);
    UnnamedItem(d, x, fn.(priority := Some(High), name := Some("[")), parses);
  }

  /** The item of the name's array, met where a field should be, has a null name and is skipped with the `]`. */
  lemma UnnamedItem(d: seq<Token>, x: string, g: DepVuln, parses: string -> bool)
    requires ArrayNamed(d, x)
    ensures FindingFields(d, d[11..], g, parses) == Ok(Step(d[14..], g))
  {
    assert d[..12] == d[..10] + [StartArr] + ItemsTok([]) + Tok(JScalar(x));
    ItemIsUnnamed(d[..10], [], JScalar(x));
    assert NameAt(d, d[12..]) == None;
    assert d[11..][0] == d[11] && d[11..][1..] == d[12..] && d[11..][1] == d[12] && d[11..][2..] == d[13..];
    assert FindingFields(d, d[11..], g, parses) == FindingFields(d, d[13..], g, parses);
    assert d[13..][0] == d[13] && d[13..][1..] == d[14..];
  }

  /** The records of the two documents below: no unique id was read, so their instance ids start with "null". */
  lemma UnidentifiedRecords()
    ensures Populate(Fresh.(priority := Some(High), name := Some("["))).Ok?
    ensures Populate(Fresh.(priority := Some(High), name := Some("["))).value.instanceId == "null-["
    ensures Populate(Fresh.(priority := Some(High), name := Some("{"))).value.instanceId == "null-{"
  {
  }

  /** The `vulnerabilities` array of `ArrayNameFinding`'s document. */
  lemma ArrayNameVulns(d: seq<Token>, x: string, parses: string -> bool)
    requires ArrayNamed(d, x)
    ensures var g := Fresh.(priority := Some(High), name := Some("["));
      VulnArray(d, d[6..], Fresh, [], parses) == Walked(d[15..], g, [Populate(g).value])
  {
    ArrayNameFinding(d, x, Fresh, parses);
    assert d[6..][0] == d[6] && d[6..][1..] == d[7..];
    assert d[14..][0] == d[14] && d[14..][1..] == d[15..];
  }

  /** The dependency object of `ArrayNameFinding`'s document. */
  lemma ArrayNameDependency(d: seq<Token>, x: string, parses: string -> bool)
    requires ArrayNamed(d, x)
    ensures var g := Fresh.(priority := Some(High), name := Some("["));
      var r := DepFields(d, d[4..], Fresh, [], parses);
      r.Walked? && r.rest == d[16..] && r.out == [Populate(g).value]
  {
    ArrayNameVulns(d, x, parses);
    assert d[4..][0] == d[4] && d[4..][1] == d[5] && d[4..][2..] == d[6..];
    assert d[15..][0] == d[15] && d[15..][1..] == d[16..];
  }

  /** The `dependencies` array of `ArrayNameFinding`'s document. */
  lemma ArrayNameDependencies(d: seq<Token>, x: string, parses: string -> bool)
    requires ArrayNamed(d, x)
    ensures var g := Fresh.(priority := Some(High), name := Some("["));
      DepArray(d, d[3..], [], parses) == Walked(d[17..], (), [Populate(g).value])
  {
    ArrayNameDependency(d, x, parses);
    assert d[3..][0] == d[3] && d[3..][1..] == d[4..];
    assert d[16..][0] == d[16] && d[16..][1..] == d[17..];
  }

  /** The whole document of `ArrayNameFinding`: the pass completes with that one record. */
  lemma ArrayNameRecord(d: seq<Token>, x: string, parses: string -> bool)
    requires ArrayNamed(d, x)
    ensures var r := ParseVulnerabilities(d, parses);
      && r.Parsed? && |r.records| == 1
      && r.records[0].instanceId == "null-[" && r.records[0].priority == High
  {
    var v := Populate(Fresh.(priority := Some(High), name := Some("["))).value;
    UnidentifiedRecords();
    ArrayNameDependencies(d, x, parses);
    assert RootFields(d, d[1..], [], parses) == RootFields(d, d[17..], [v], parses) by {
      assert d[1..][0] == d[1] && d[1..][1] == d[2] && d[1..][2..] == d[3..];
    }
    assert d[17..][0] == d[17] && d[17..][1..] == [];
  }

  /** The vulnerability object of `ObjectNameRecord`'s document ends at the name's own `}`. */
  lemma ObjectNameFinding(d: seq<Token>, k: string, x: string, parses: string -> bool)
    requires ObjectNamed(d, k, x) && VA.Get(k).None?
    ensures var g := Fresh.(priority := Some(High), name := Some("{"));
      VulnArray(d, d[6..], Fresh, [], parses) == Halted(Structural, [Populate(g).value])
  {
    var g := Fresh.(priority := Some(High), name := Some("{"));
    UnidentifiedRecords();
    SeverityThenName(d, Fresh, parses);
    assert d[11..][0] == d[11] && d[11..][1] == d[12] && d[11..][2..] == d[13..];
    assert FindingFields(d, d[11..], g, parses) == FindingFields(d, d[13..], g, parses);
    assert d[13..][0] == d[13] && d[13..][1..] == d[14..];
    assert d[6..][0] == d[6] && d[6..][1..] == d[7..];
    assert d[14..][0] == d[14];
  }

  /** The dependency object of `ObjectNameRecord`'s document. */
  lemma ObjectNameDependency(d: seq<Token>, k: string, x: string, parses: string -> bool)
    requires ObjectNamed(d, k, x) && VA.Get(k).None?
    ensures var g := Fresh.(priority := Some(High), name := Some("{"));
      DepFields(d, d[4..], Fresh, [], parses) == Halted(Structural, [Populate(g).value])
  {
    ObjectNameFinding(d, k, x, parses);
    assert d[4..][0] == d[4] && d[4..][1] == d[5] && d[4..][2..] == d[6..];
  }

  /**
   * A name whose value is an object: the name is read as "{", the object's
   * own field is then taken for one of the vulnerability's, and its `}` ends
   * the vulnerability early. The record is emitted, and the `}` that really
   * closes the vulnerability then stands where the array expects an element,
   * which stops the pass with that record kept.
   */
  lemma ObjectNameRecord(d: seq<Token>, k: string, x: string, parses: string -> bool)
    requires ObjectNamed(d, k, x) && VA.Get(k).None?
    ensures var r := ParseVulnerabilities(d, parses);
      && r == Aborted(Structural, r.records) && |r.records| == 1
      && r.records[0].instanceId == "null-{" && r.records[0].priority == High
  {
    var v := Populate(Fresh.(priority := Some(High), name := Some("{"))).value;
    UnidentifiedRecords();
    ObjectNameDependency(d, k, x, parses);
    assert DepArray(d, d[3..], [], parses) == Halted(Structural, [v]) by {
      assert d[3..][0] == d[3] && d[3..][1..] == d[4..];
    }
    assert RootFields(d, d[1..], [], parses) == Halted(Structural, [v]) by {
      assert d[1..][0] == d[1] && d[1..][1] == d[2] && d[1..][2..] == d[3..];
    }
  }

  /** `d` is `{"reportSchema":[x],k:y}`, as tokens. */
  predicate SchemaArray(d: seq<Token>, x: string, k: string, y: string)
  {
    && |d| == 8 && d[0] == StartObj && d[1] == Field("reportSchema") && d[2] == StartArr && d[3] == Scalar(x)
    && d[4] == EndArr && d[5] == Field(k) && d[6] == Scalar(y) && d[7] == EndObj
  }

  /** The item of the schema's array, met where a field should be, has a null name and is skipped with the `]`. */
  lemma SchemaItem(d: seq<Token>, x: string, k: string, y: string, meta: ScanMeta)
    requires SchemaArray(d, x, k, y)
    ensures RootMeta(d, d[3..], meta) == RootMeta(d, d[5..], meta)
  {
    assert d[..4] == d[..2] + [StartArr] + ItemsTok([]) + Tok(JScalar(x));
    ItemIsUnnamed(d[..2], [], JScalar(x));
    assert d[3..][0] == d[3] && d[3..][1..] == d[4..] && d[3..][1] == d[4] && d[3..][2..] == d[5..];
  }

  /**
   * The scan pass on `{"reportSchema":[x],k:y}`: the host name is read as "[",
   * the array's item is met with a null name and skipped, the `]` is taken for
   * its value, and the loop is back in step for the next field.
   */
  lemma ArraySchemaScan(d: seq<Token>, x: string, k: string, y: string)
    requires SchemaArray(d, x, k, y) && VA.Get(k).None?
    ensures ParseScan(d) == Ok(ScanMeta(Some("["), None, None))
  {
    var meta := Unset.(hostName := Some("["));
    RootNames();
    assert RootMeta(d, d[1..], Unset) == RootMeta(d, d[3..], meta) by {
      assert d[1..][0] == d[1] && d[1..][1] == d[2] && d[1..][2..] == d[3..];
    }
    SchemaItem(d, x, k, y, meta);
    assert RootMeta(d, d[5..], meta) == RootMeta(d, d[7..], meta) by {
      assert d[5..][0] == d[5] && d[5..][1] == d[6] && d[5..][2..] == d[7..];
    }
    assert d[7..][0] == d[7] && d[7..][1..] == [];
  }
}
