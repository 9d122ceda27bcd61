/**
 * What the record pass promises, stated on the tree semantics: fields the
 * switches do not know are ignored wherever they appear, the accumulator is
 * never reset between vulnerabilities, and a dependency's records carry the
 * unique id and file name read before its `vulnerabilities` array. The
 * equivalence theorems of `RecordReference` carry each statement to the
 * token walker.
 */
module RecordProperties {
  import opened Common
  import opened Tokens
  import opened JsonTree
  import opened DepVulns
  import opened VulnRecords
  import opened RecordWalker
  import opened RecordReference
  import opened JsonFields
  import VA = VulnAttributes
  import CA = CustomVulnAttributes

  // ----- the folds split at any point -----

  /** Reading `ms1 + ms2` is reading `ms1`, then `ms2` from where it left off. */
  lemma {:induction false} FindingAppend(ms1: seq<Member>, ms2: seq<Member>, fn: DepVuln, parses: string -> bool)
    ensures var r := RefFinding(ms1, fn, parses);
      RefFinding(ms1 + ms2, fn, parses) == if r.Err? then r else RefFinding(ms2, r.value, parses)
    decreases |ms1|
  {
    if ms1 == [] {
      assert ms1 + ms2 == ms2;
    } else {
      assert (ms1 + ms2)[0] == ms1[0] && (ms1 + ms2)[1..] == ms1[1..] + ms2;
      match RefFindingMember(ms1[0], fn, parses)
      case Err(_) =>
      case Ok(g) => FindingAppend(ms1[1..], ms2, g, parses);
    }
  }

  /** The same for a dependency object. */
  lemma {:induction false} DepAppend(ms1: seq<Member>, ms2: seq<Member>, fn: DepVuln, out: seq<Vuln>, parses: string -> bool)
    ensures var r := RefDep(ms1, fn, out, parses);
      RefDep(ms1 + ms2, fn, out, parses) == if r.Failed? then r else RefDep(ms2, r.st, r.out, parses)
    decreases |ms1|
  {
    if ms1 == [] {
      assert ms1 + ms2 == ms2;
    } else {
      assert (ms1 + ms2)[0] == ms1[0] && (ms1 + ms2)[1..] == ms1[1..] + ms2;
      match RefDepMember(ms1[0], fn, out, parses)
      case Failed(_, _) =>
      case Ran(g, o) => DepAppend(ms1[1..], ms2, g, o, parses);
    }
  }

  /** The same for the root object. */
  lemma {:induction false} RootAppend(ms1: seq<Member>, ms2: seq<Member>, out: seq<Vuln>, parses: string -> bool)
    ensures var r := RefRoot(ms1, out, parses);
      RefRoot(ms1 + ms2, out, parses) == if r.Failed? then r else RefRoot(ms2, r.out, parses)
    decreases |ms1|
  {
    if ms1 == [] {
      assert ms1 + ms2 == ms2;
    } else {
      assert (ms1 + ms2)[0] == ms1[0] && (ms1 + ms2)[1..] == ms1[1..] + ms2;
      match RefRootMember(ms1[0], out, parses)
      case Failed(_, _) =>
      case Ran(_, o) => RootAppend(ms1[1..], ms2, o, parses);
    }
  }

  // ----- unknown fields are ignored -----

  /** A vulnerability-object field the switch does not read changes nothing, whatever its value. */
  lemma FindingInsertion(ms1: seq<Member>, m: Member, ms2: seq<Member>, fn: DepVuln, parses: string -> bool)
    requires !FindingReads(VA.Get(m.key))
    ensures RefFinding(ms1 + [m] + ms2, fn, parses) == RefFinding(ms1 + ms2, fn, parses)
  {
    assert ms1 + [m] + ms2 == ms1 + ([m] + ms2);
    FindingAppend(ms1, [m] + ms2, fn, parses);
    FindingAppend(ms1, ms2, fn, parses);
    assert ([m] + ms2)[0] == m && ([m] + ms2)[1..] == ms2;
  }

  /** Where a member is inserted into a list, the old members keep their values. */
  lemma InsertedAt(ms1: seq<Member>, m: Member, ms2: seq<Member>, i: int)
    requires 0 <= i < |ms1| + 1 + |ms2| && i != |ms1|
    ensures (ms1 + [m] + ms2)[i] == (ms1 + ms2)[if i < |ms1| then i else i - 1]
  {
  }

  /** The insertion property for `loadFinding` on tokens. */
  lemma FindingFieldsInsertion(doc: seq<Token>, ms1: seq<Member>, m: Member, ms2: seq<Member>, tail: seq<Token>, fn: DepVuln, parses: string -> bool)
    requires FlatFinding(ms1 + ms2)
    requires !FindingReads(VA.Get(m.key))
    ensures FindingFields(doc, MembersTok(ms1 + [m] + ms2) + ([EndObj] + tail), fn, parses)
         == FindingFields(doc, MembersTok(ms1 + ms2) + ([EndObj] + tail), fn, parses)
  {
    var ms := ms1 + [m] + ms2;
    forall i | 0 <= i < |ms| ensures FindingReads(VA.Get(ms[i].key)) ==> ms[i].value.JScalar? {
      if i != |ms1| {
        InsertedAt(ms1, m, ms2, i);
      }
    }
    FindingFieldsMatch(doc, ms, tail, fn, parses);
    FindingFieldsMatch(doc, ms1 + ms2, tail, fn, parses);
    FindingInsertion(ms1, m, ms2, fn, parses);
  }

  /** The dispatch-table constants `loadDependency`'s switch acts on. */
  predicate DepReads(a: Option<VA.VulnAttribute>)
  {
    a == Some(VA.Sha1) || a == Some(VA.FileName) || a == Some(VA.FilePath) || a == Some(VA.Description)
  }

  /** A dependency-object field other than `vulnerabilities` that the switch does not act on changes nothing. */
  lemma DepInsertion(ms1: seq<Member>, m: Member, ms2: seq<Member>, fn: DepVuln, out: seq<Vuln>, parses: string -> bool)
    requires m.key != "vulnerabilities" && !DepReads(VA.Get(m.key))
    ensures RefDep(ms1 + [m] + ms2, fn, out, parses) == RefDep(ms1 + ms2, fn, out, parses)
  {
    assert ms1 + [m] + ms2 == ms1 + ([m] + ms2);
    DepAppend(ms1, [m] + ms2, fn, out, parses);
    DepAppend(ms1, ms2, fn, out, parses);
    assert ([m] + ms2)[0] == m && ([m] + ms2)[1..] == ms2;
  }

  /** The insertion property for `loadDependency` on tokens. */
  lemma DepFieldsInsertion(doc: seq<Token>, ms1: seq<Member>, m: Member, ms2: seq<Member>, tail: seq<Token>, fn: DepVuln, out: seq<Vuln>, parses: string -> bool)
    requires FlatDep(ms1 + ms2)
    requires m.key != "vulnerabilities" && !DepReads(VA.Get(m.key))
    ensures DepFields(doc, MembersTok(ms1 + [m] + ms2) + ([EndObj] + tail), fn, out, parses)
         == DepFields(doc, MembersTok(ms1 + ms2) + ([EndObj] + tail), fn, out, parses)
  {
    var ms := ms1 + [m] + ms2;
    forall i | 0 <= i < |ms|
      ensures ms[i].key == "vulnerabilities" && ms[i].value.JArr? ==> FlatFindings(ms[i].value.items)
    {
      if i != |ms1| {
        InsertedAt(ms1, m, ms2, i);
      }
    }
    DepFieldsMatch(doc, ms, tail, fn, out, parses);
    DepFieldsMatch(doc, ms1 + ms2, tail, fn, out, parses);
    DepInsertion(ms1, m, ms2, fn, out, parses);
  }

  /** A top-level field other than `dependencies` changes nothing. */
  lemma RootInsertion(ms1: seq<Member>, m: Member, ms2: seq<Member>, out: seq<Vuln>, parses: string -> bool)
    requires m.key != "dependencies"
    ensures RefRoot(ms1 + [m] + ms2, out, parses) == RefRoot(ms1 + ms2, out, parses)
  {
    assert ms1 + [m] + ms2 == ms1 + ([m] + ms2);
    RootAppend(ms1, [m] + ms2, out, parses);
    RootAppend(ms1, ms2, out, parses);
    assert ([m] + ms2)[0] == m && ([m] + ms2)[1..] == ms2;
  }

  /** The record pass ignores top-level fields other than `dependencies`, whatever they hold. */
  lemma ParseInsertion(ms1: seq<Member>, m: Member, ms2: seq<Member>, tail: seq<Token>, parses: string -> bool)
    requires FlatRoot(ms1 + ms2)
    requires m.key != "dependencies"
    ensures ParseVulnerabilities(Tok(JObj(ms1 + [m] + ms2)) + tail, parses)
         == ParseVulnerabilities(Tok(JObj(ms1 + ms2)) + tail, parses)
  {
    var ms := ms1 + [m] + ms2;
    forall i | 0 <= i < |ms|
      ensures ms[i].key == "dependencies" && ms[i].value.JArr? ==> FlatDeps(ms[i].value.items)
    {
      if i != |ms1| {
        InsertedAt(ms1, m, ms2, i);
      }
    }
    ParseMatches(JObj(ms), tail, parses);
    ParseMatches(JObj(ms1 + ms2), tail, parses);
    RootInsertion(ms1, m, ms2, [], parses);
  }

  // ----- the accumulator is shared between vulnerabilities -----

  /** Whether a vulnerability-object field the switch reads may change a given accumulator slot. */
  predicate FindingWrites(a: Option<VA.VulnAttribute>, s: Slot)
  {
    && a.Some?
    && (FindingSlot(a.value) == Some(s) || (a.value == VA.Cwe && s == CweSlot) || (a.value == VA.CvssScore && s == ImpactSlot))
  }

  /** A slot no field of the object writes keeps the value the accumulator had. */
  lemma MemberKeepsSlot(m: Member, fn: DepVuln, s: Slot, parses: string -> bool)
    requires !FindingWrites(VA.Get(m.key), s)
    ensures RefFindingMember(m, fn, parses).Ok? ==> Read(RefFindingMember(m, fn, parses).value, s) == Read(fn, s)
  {
    var a := VA.Get(m.key);
    var text := ValueText(m.value);
    if a.Some? {
      var attr := a.value;
      if FindingSlot(attr).Some? {
        ReadWrite(fn, FindingSlot(attr).value, s, Some(text));
      } else if attr == VA.Cwe {
        if NormalizeCwe(text).Ok? {
          ReadWrite(fn, CweSlot, s, Some(NormalizeCwe(text).value));
        }
      } else if attr == VA.CvssScore {
        ReadWrite(fn, ImpactSlot, s, Some(text));
      }
    }
  }

  /** Over a whole vulnerability object. */
  lemma {:induction false} FindingKeepsSlot(ms: seq<Member>, fn: DepVuln, s: Slot, parses: string -> bool)
    requires forall i | 0 <= i < |ms| :: !FindingWrites(VA.Get(ms[i].key), s)
    ensures RefFinding(ms, fn, parses).Ok? ==> Read(RefFinding(ms, fn, parses).value, s) == Read(fn, s)
    decreases |ms|
  {
    if ms != [] {
      MemberKeepsSlot(ms[0], fn, s, parses);
      match RefFindingMember(ms[0], fn, parses)
      case Err(_) =>
      case Ok(g) =>
        assert forall i | 0 <= i < |ms[1..]| :: ms[1..][i] == ms[i + 1];
        FindingKeepsSlot(ms[1..], g, s, parses);
    }
  }

  /**
   * Nothing is reset between the objects of a `vulnerabilities` array: a
   * second object without a name re-emits the first one's instance id, and
   * every slot it does not mention, the CWE included, is inherited.
   */
  lemma NoReset(ms1: seq<Member>, ms2: seq<Member>, fn: DepVuln, out: seq<Vuln>, parses: string -> bool)
    requires RefFinding(ms1, fn, parses).Ok?
    requires RefFinding(ms1, fn, parses).value.name.Some? && RefFinding(ms1, fn, parses).value.priority.Some?
    requires RefFinding(ms2, RefFinding(ms1, fn, parses).value, parses).Ok?
    requires forall i | 0 <= i < |ms2| :: !FindingWrites(VA.Get(ms2[i].key), NameSlot)
    ensures var r := RefFindings([JObj(ms1), JObj(ms2)], fn, out, parses);
      && r.Ran? && |r.out| == |out| + 2
      && r.out[|out| + 1].instanceId == r.out[|out|].instanceId
      && ((forall i | 0 <= i < |ms2| :: !FindingWrites(VA.Get(ms2[i].key), CweSlot)) ==>
            r.out[|out| + 1].mappedCategory == r.out[|out|].mappedCategory)
  {
    var g1 := RefFinding(ms1, fn, parses).value;
    var g2 := RefFinding(ms2, g1, parses).value;
    FindingKeepsSlot(ms2, g1, NameSlot, parses);
    assert g2.name == g1.name && g2.uniqueId == g1.uniqueId && g2.priority.Some?;
    if forall i | 0 <= i < |ms2| :: !FindingWrites(VA.Get(ms2[i].key), CweSlot) {
      FindingKeepsSlot(ms2, g1, CweSlot, parses);
    }
    var o1 := out + [Populate(g1).value];
    var o2 := o1 + [Populate(g2).value];
    assert Emit(g1, out) == Ok(o1) && Emit(g2, o1) == Ok(o2);
    var items := [JObj(ms1), JObj(ms2)];
    assert RefFindingItem(JObj(ms2), g1, o1, parses) == Ran(g2, o2);
    assert RefFindings([JObj(ms2)], g1, o1, parses) == Ran(g2, o2) by {
      assert [JObj(ms2)][1..] == [];
    }
    assert RefFindingItem(JObj(ms1), fn, out, parses) == Ran(g1, o1);
    assert RefFindings(items, fn, out, parses) == Ran(g2, o2) by {
      assert items[0] == JObj(ms1) && items[1..] == [JObj(ms2)];
    }
    assert o2[|out|] == Populate(g1).value && o2[|out| + 1] == Populate(g2).value;
  }

  // ----- the dependency's fields -----

  /** The skipped text of the last field of `ms` whose name looks up to one of `names`, if any. */
  function LastDepText(ms: seq<Member>, names: set<VA.VulnAttribute>): (r: Option<string>)
    ensures r.Some? ==> exists i | 0 <= i < |ms| :: Names(ms[i], names)
  {
    match LastFor(ms, names)
    case Some(m) => Some(SkippedText(m.value))
    case None => None
  }

  /** What `loadDependency` does with one field's value, for the unique id and file name. */
  lemma DepMemberState(m: Member, fn: DepVuln, out: seq<Vuln>, parses: string -> bool)
    ensures var r := RefDepMember(m, fn, out, parses);
      var a := VA.Get(m.key);
      r.Ran? ==>
        && r.st.uniqueId == (if a == Some(VA.Sha1) then Some(SkippedText(m.value)) else fn.uniqueId)
        && r.st.fileName == (if a == Some(VA.FileName) || a == Some(VA.FilePath) then Some(SkippedText(m.value)) else fn.fileName)
  {
    var a := VA.Get(m.key);
    if m.key == "vulnerabilities" {
      VA.GetFindsNamesake(VA.Vulnerabilities);
      assert VA.Namesake(VA.Vulnerabilities) == VA.Vulnerabilities;
    }
  }

  /**
   * After the fields `ms` of a dependency object, the unique id is the text
   * of the last `sha1` field and the file name that of the last `fileName` or
   * `filePath` field, each skipped first; the accumulator's value where there
   * is none.
   */
  lemma {:induction false} DepStateAfter(ms: seq<Member>, fn: DepVuln, out: seq<Vuln>, parses: string -> bool)
    ensures var r := RefDep(ms, fn, out, parses);
      var sha := LastDepText(ms, {VA.Sha1});
      var file := LastDepText(ms, {VA.FileName, VA.FilePath});
      r.Ran? ==>
        && r.st.uniqueId == (if sha.Some? then sha else fn.uniqueId)
        && r.st.fileName == (if file.Some? then file else fn.fileName)
    decreases |ms|
  {
    if ms != [] {
      var init := ms[..|ms| - 1];
      var last := ms[|ms| - 1];
      assert ms == init + [last];
      DepAppend(init, [last], fn, out, parses);
      DepStateAfter(init, fn, out, parses);
      var r1 := RefDep(init, fn, out, parses);
      if r1.Ran? {
        DepMemberState(last, r1.st, r1.out, parses);
        assert [last][1..] == [];
      }
    }
  }

  /**
   * The records a `vulnerabilities` field emits carry the unique id and file
   * name read before it, and their instance ids start with that unique id;
   * fields after it cannot change them, and those records stay at the front
   * of the dependency's output.
   */
  lemma RecordsCarryEarlierFields(pre: seq<Member>, items: seq<Json>, post: seq<Member>, fn: DepVuln, out: seq<Vuln>, parses: string -> bool)
    requires RefDep(pre, fn, out, parses).Ran?
    ensures var r1 := RefDep(pre, fn, out, parses);
      var r2 := RefDepMember(Member("vulnerabilities", JArr(items)), r1.st, r1.out, parses);
      var sha := LastDepText(pre, {VA.Sha1});
      var file := LastDepText(pre, {VA.FileName, VA.FilePath});
      var id := if sha.Some? then sha else fn.uniqueId;
      && r2.out <= RefDep(pre + [Member("vulnerabilities", JArr(items))] + post, fn, out, parses).out
      && forall i | |r1.out| <= i < |r2.out| ::
           && r2.out[i].fileName == (if file.Some? then file else fn.fileName)
           && (CA.UniqueId in r2.out[i].custom <==> id.Some?)
           && (CA.UniqueId in r2.out[i].custom ==> r2.out[i].custom[CA.UniqueId] == id.value)
           && Show(id) + "-" <= r2.out[i].instanceId
  {
    var vm := Member("vulnerabilities", JArr(items));
    var r1 := RefDep(pre, fn, out, parses);
    var r2 := RefDepMember(vm, r1.st, r1.out, parses);
    DepStateAfter(pre, fn, out, parses);
    assert pre + [vm] + post == pre + ([vm] + post);
    DepAppend(pre, [vm] + post, fn, out, parses);
    assert ([vm] + post)[0] == vm && ([vm] + post)[1..] == post;
  }

  // ----- structural failures -----

  /**
   * The assertions of the record pass: `dependencies` and `vulnerabilities`
   * must hold arrays and their elements objects, else the pass stops with
   * the records completed so far.
   */
  lemma StructuralChecks(doc: seq<Token>, v: Json, rest: seq<Token>, fn: DepVuln, out: seq<Vuln>, parses: string -> bool)
    ensures !v.JArr? ==> RootFields(doc, [Field("dependencies")] + Tok(v) + rest, out, parses) == Halted(Structural, out)
    ensures !v.JArr? ==> DepFields(doc, [Field("vulnerabilities")] + Tok(v) + rest, fn, out, parses) == Halted(Structural, out)
    ensures !v.JObj? ==> DepArray(doc, Tok(v) + rest, out, parses) == Halted(Structural, out)
    ensures !v.JObj? ==> VulnArray(doc, Tok(v) + rest, fn, out, parses) == Halted(Structural, out)
  {
    var t := Tok(v) + rest;
    var u := [Field("dependencies")] + t;
    var w := [Field("vulnerabilities")] + t;
    assert u[0] == Field("dependencies") && u[1] == t[0] && w[0] == Field("vulnerabilities") && w[1] == t[0];
    assert Cursor(w[1], w[2..]) == Cursor(t[0], t[1..]);
    match v
    case JScalar(x) =>
      assert t[0] == Scalar(x);
      ElementChecks(doc, t, fn, out, parses);
    case JArr(_) =>
      assert t[0] == StartArr;
      ElementChecks(doc, t, fn, out, parses);
    case JObj(_) =>
      assert t[0] == StartObj;
  }

  /**
   * The array loops accept nothing but an object or the closing `]` in an
   * element position, whatever token stands there.
   */
  lemma ElementChecks(doc: seq<Token>, rest: seq<Token>, fn: DepVuln, out: seq<Vuln>, parses: string -> bool)
    requires |rest| >= 1 && rest[0] != StartObj && rest[0] != EndArr
    ensures DepArray(doc, rest, out, parses) == Halted(Structural, out)
    ensures VulnArray(doc, rest, fn, out, parses) == Halted(Structural, out)
  {
  }
}
