/**
 * The record pass stated on JSON trees instead of tokens: a fold over the
 * members and items of the document, with no cursor and no skipping. The
 * theorems here say that the token walker computes exactly this on the
 * serialisation of any document whose read fields hold scalars, whatever
 * follows the document.
 */
module RecordReference {
  import opened Common
  import opened Tokens
  import opened JsonTree
  import opened DepVulns
  import opened VulnRecords
  import opened RecordWalker
  import VA = VulnAttributes
  import CA = CustomVulnAttributes

  /** The tree-level counterpart of `Walk`: no tokens left to report. */
  datatype Run<S> = Ran(st: S, out: seq<Vuln>) | Failed(fault: Fault, out: seq<Vuln>)

  /** A tree-level run seen from the walker: on success, the tokens after the value are still unread. */
  function Resume<S>(r: Run<S>, tail: seq<Token>): Walk<S>
  {
    match r
    case Ran(st, out) => Walked(tail, st, out)
    case Failed(f, out) => Halted(f, out)
  }

  /** A finding-level result seen from the walker. */
  function Then(r: Result<DepVuln>, tail: seq<Token>): Result<Step<DepVuln>>
  {
    match r
    case Ok(g) => Ok(Step(tail, g))
    case Err(f) => Err(f)
  }

  // ----- shapes: the fields the switches read hold scalars -----

  /**
   * Every field of a vulnerability object that `loadFinding` reads holds a
   * scalar. (A read value is not skipped: a nested one would be walked as if
   * its contents were fields of the vulnerability.)
   */
  predicate FlatFinding(ms: seq<Member>)
  {
    forall i | 0 <= i < |ms| :: FindingReads(VA.Get(ms[i].key)) ==> ms[i].value.JScalar?
  }

  predicate FlatFindings(items: seq<Json>)
  {
    forall i | 0 <= i < |items| :: items[i].JObj? ==> FlatFinding(items[i].members)
  }

  predicate FlatDep(ms: seq<Member>)
  {
    forall i | 0 <= i < |ms| :: ms[i].key == "vulnerabilities" && ms[i].value.JArr? ==> FlatFindings(ms[i].value.items)
  }

  predicate FlatDeps(items: seq<Json>)
  {
    forall i | 0 <= i < |items| :: items[i].JObj? ==> FlatDep(items[i].members)
  }

  predicate FlatRoot(ms: seq<Member>)
  {
    forall i | 0 <= i < |ms| :: ms[i].key == "dependencies" && ms[i].value.JArr? ==> FlatDeps(ms[i].value.items)
  }

  predicate Flat(j: Json)
  {
    j.JObj? ==> FlatRoot(j.members)
  }

  // ----- the reference semantics -----

  /** One member of a vulnerability object. */
  function RefFindingMember(m: Member, fn: DepVuln, parses: string -> bool): (r: Result<DepVuln>)
    ensures r.Ok? ==> KeepsDependency(r.value, fn)
    ensures r.Ok? && fn.priority.Some? ==> r.value.priority.Some?
    ensures r.Err? ==> r.fault in {CweIndex, BadNumber}
  {
    match FindingField(VA.Get(m.key), ValueText(m.value), fn, parses)
    case Some(r) => r
    case None => Ok(fn)
  }

  /** A vulnerability object: its members in order, stopping at the first exception. */
  function RefFinding(ms: seq<Member>, fn: DepVuln, parses: string -> bool): (r: Result<DepVuln>)
    ensures r.Ok? ==> KeepsDependency(r.value, fn)
    ensures r.Ok? && fn.priority.Some? ==> r.value.priority.Some?
    ensures r.Err? ==> r.fault in {CweIndex, BadNumber}
    decreases |ms|
  {
    if ms == [] then Ok(fn)
    else match RefFindingMember(ms[0], fn, parses)
      case Err(f) => Err(f)
      case Ok(g) => RefFinding(ms[1..], g, parses)
  }

  /** One item of a `vulnerabilities` array: an object read into the shared accumulator, then offered to the emit rule. */
  function RefFindingItem(j: Json, fn: DepVuln, out: seq<Vuln>, parses: string -> bool): (r: Run<DepVuln>)
    ensures r.Ran? ==> KeepsDependency(r.st, fn)
    ensures r.Failed? ==> r.fault != Malformed
    ensures out <= r.out && forall i | |out| <= i < |r.out| :: FromDependency(r.out[i], fn)
  {
    if !j.JObj? then Failed(Structural, out)
    else match RefFinding(j.members, fn, parses)
      case Err(f) => Failed(f, out)
      case Ok(g) =>
        match Emit(g, out)
        case Err(f) => Failed(f, out)
        case Ok(out2) => Ran(g, out2)
  }

  /** The items of a `vulnerabilities` array in order. */
  function RefFindings(items: seq<Json>, fn: DepVuln, out: seq<Vuln>, parses: string -> bool): (r: Run<DepVuln>)
    ensures r.Ran? ==> KeepsDependency(r.st, fn)
    ensures r.Failed? ==> r.fault != Malformed
    ensures out <= r.out && forall i | |out| <= i < |r.out| :: FromDependency(r.out[i], fn)
    decreases |items|
  {
    if items == [] then Ran(fn, out)
    else match RefFindingItem(items[0], fn, out, parses)
      case Failed(f, o) => Failed(f, o)
      case Ran(g, o) => RefFindings(items[1..], g, o, parses)
  }

  /** One member of a dependency object. */
  function RefDepMember(m: Member, fn: DepVuln, out: seq<Vuln>, parses: string -> bool): (r: Run<DepVuln>)
    ensures r.Ran? ==> r.st.description == fn.description
    ensures r.Failed? ==> r.fault != Malformed
    ensures Extends(out, r.out, fn.description.Some?)
  {
    if m.key == "vulnerabilities" then
      if !m.value.JArr? then Failed(Structural, out)
      else match RefFindings(m.value.items, fn, out, parses)
        case Failed(f, o) => Failed(f, o)
        case Ran(g, o) => Ran(DepField(VA.Get(m.key), Text(EndArr), g), o)
    else Ran(DepField(VA.Get(m.key), SkippedText(m.value), fn), out)
  }

  /** A dependency object: its members in order. */
  function RefDep(ms: seq<Member>, fn: DepVuln, out: seq<Vuln>, parses: string -> bool): (r: Run<DepVuln>)
    ensures r.Ran? ==> r.st.description == fn.description
    ensures r.Failed? ==> r.fault != Malformed
    ensures Extends(out, r.out, fn.description.Some?)
    decreases |ms|
  {
    if ms == [] then Ran(fn, out)
    else match RefDepMember(ms[0], fn, out, parses)
      case Failed(f, o) => Failed(f, o)
      case Ran(g, o) => RefDep(ms[1..], g, o, parses)
  }

  /** One item of the `dependencies` array: an object read into a fresh accumulator. */
  function RefDepItem(j: Json, out: seq<Vuln>, parses: string -> bool): (r: Run<()>)
    ensures r.Failed? ==> r.fault != Malformed
    ensures Extends(out, r.out, false)
  {
    if !j.JObj? then Failed(Structural, out)
    else match RefDep(j.members, Fresh, out, parses)
      case Failed(f, o) => Failed(f, o)
      case Ran(_, o) => Ran((), o)
  }

  /** The items of the `dependencies` array in order. */
  function RefDeps(items: seq<Json>, out: seq<Vuln>, parses: string -> bool): (r: Run<()>)
    ensures r.Failed? ==> r.fault != Malformed
    ensures Extends(out, r.out, false)
    decreases |items|
  {
    if items == [] then Ran((), out)
    else match RefDepItem(items[0], out, parses)
      case Failed(f, o) => Failed(f, o)
      case Ran(_, o) => RefDeps(items[1..], o, parses)
  }

  /** One member of the root object. */
  function RefRootMember(m: Member, out: seq<Vuln>, parses: string -> bool): (r: Run<()>)
    ensures r.Failed? ==> r.fault != Malformed
    ensures Extends(out, r.out, false)
  {
    if m.key != "dependencies" then Ran((), out)
    else if !m.value.JArr? then Failed(Structural, out)
    else RefDeps(m.value.items, out, parses)
  }

  /** The root object's members in order. */
  function RefRoot(ms: seq<Member>, out: seq<Vuln>, parses: string -> bool): (r: Run<()>)
    ensures r.Failed? ==> r.fault != Malformed
    ensures Extends(out, r.out, false)
    decreases |ms|
  {
    if ms == [] then Ran((), out)
    else match RefRootMember(ms[0], out, parses)
      case Failed(f, o) => Failed(f, o)
      case Ran(_, o) => RefRoot(ms[1..], o, parses)
  }

  /** The whole document. */
  function RefParse(j: Json, parses: string -> bool): (r: Outcome)
    ensures r.Aborted? ==> r.fault != Malformed
    ensures forall v | v in r.records :: Standard(v) && CA.Description !in v.custom
  {
    if !j.JObj? then Aborted(Structural, [])
    else match RefRoot(j.members, [], parses)
      case Ran(_, o) => Parsed(o)
      case Failed(f, o) => Aborted(f, o)
  }

  // ----- the walker computes the reference -----

  /** Where a member list is followed by `after`: the first member's name, then its value, then the rest. */
  lemma MemberAhead(ms: seq<Member>, after: seq<Token>)
    requires ms != []
    ensures var t := MembersTok(ms) + after;
      |t| >= 2 && t[0] == Field(ms[0].key) && IsValueStart(t[1])
      && t[1..] == Tok(ms[0].value) + (MembersTok(ms[1..]) + after)
  {
    MembersCons(ms, after);
  }

  /** One field of a vulnerability object. */
  lemma FindingValueMatches(m: Member, after: seq<Token>, fn: DepVuln, parses: string -> bool)
    requires FindingReads(VA.Get(m.key)) ==> m.value.JScalar?
    ensures var t := Tok(m.value) + after;
      FindingValue(Some(m.key), Cursor(t[0], t[1..]), fn, parses) == Then(RefFindingMember(m, fn, parses), after)
  {
    var t := Tok(m.value) + after;
    if FindingReads(VA.Get(m.key)) {
      assert t[0] == Scalar(m.value.text) && t[1..] == after;
    } else {
      SkipValue(m.value, after);
    }
  }

  /** `loadFinding` on a serialised vulnerability object. */
  lemma {:induction false} FindingFieldsMatch(doc: seq<Token>, ms: seq<Member>, tail: seq<Token>, fn: DepVuln, parses: string -> bool)
    requires FlatFinding(ms)
    ensures FindingFields(doc, MembersTok(ms) + ([EndObj] + tail), fn, parses) == Then(RefFinding(ms, fn, parses), tail)
    decreases |ms|
  {
    var after := [EndObj] + tail;
    if ms == [] {
      assert MembersTok(ms) + after == after;
      assert after[1..] == tail;
    } else {
      var t := MembersTok(ms) + after;
      var rest := MembersTok(ms[1..]) + after;
      MemberAhead(ms, after);
      FindingValueMatches(ms[0], rest, fn, parses);
      assert Cursor(t[1], t[2..]) == Cursor((t[1..])[0], (t[1..])[1..]);
      FindingStep(ms, fn, parses);
      match RefFindingMember(ms[0], fn, parses)
      case Err(f) =>
      case Ok(g) =>
        FlatFindingTail(ms);
        FindingFieldsMatch(doc, ms[1..], tail, g, parses);
    }
  }

  /** `RefFinding` on a non-empty list: the first member, then the rest. */
  lemma FindingStep(ms: seq<Member>, fn: DepVuln, parses: string -> bool)
    requires ms != []
    ensures var r := RefFindingMember(ms[0], fn, parses);
      RefFinding(ms, fn, parses) == if r.Err? then r else RefFinding(ms[1..], r.value, parses)
  {
  }

  /** The shape is kept by dropping the first member. */
  lemma FlatFindingTail(ms: seq<Member>)
    requires ms != [] && FlatFinding(ms)
    ensures FlatFinding(ms[1..])
  {
    forall i | 0 <= i < |ms[1..]| ensures FindingReads(VA.Get(ms[1..][i].key)) ==> ms[1..][i].value.JScalar? {
      assert ms[1..][i] == ms[i + 1];
    }
  }

  /** One object of a `vulnerabilities` array. */
  lemma VulnItemMatches(doc: seq<Token>, j: Json, rest: seq<Token>, fn: DepVuln, out: seq<Vuln>, parses: string -> bool)
    requires j.JObj? ==> FlatFinding(j.members)
    ensures var r := RefFindingItem(j, fn, out, parses);
      VulnArray(doc, Tok(j) + rest, fn, out, parses) == if r.Failed? then Halted(r.fault, r.out) else VulnArray(doc, rest, r.st, r.out, parses)
  {
    var t := Tok(j) + rest;
    match j
    case JScalar(x) =>
      assert t[0] == Scalar(x);
    case JArr(xs) =>
      assert t[0] == StartArr;
    case JObj(ms) =>
      assert t[0] == StartObj && t[1..] == MembersTok(ms) + ([EndObj] + rest);
      FindingFieldsMatch(doc, ms, rest, fn, parses);
  }

  /** `processFindings` on a serialised `vulnerabilities` array. */
  lemma {:induction false} VulnArrayMatches(doc: seq<Token>, items: seq<Json>, tail: seq<Token>, fn: DepVuln, out: seq<Vuln>, parses: string -> bool)
    requires FlatFindings(items)
    ensures VulnArray(doc, ItemsTok(items) + ([EndArr] + tail), fn, out, parses) == Resume(RefFindings(items, fn, out, parses), tail)
    decreases |items|
  {
    var after := [EndArr] + tail;
    if items == [] {
      assert ItemsTok(items) + after == after;
      assert after[1..] == tail;
    } else {
      var rest := ItemsTok(items[1..]) + after;
      ItemsCons(items, after);
      assert items[0].JObj? ==> FlatFinding(items[0].members);
      VulnItemMatches(doc, items[0], rest, fn, out, parses);
      var r := RefFindingItem(items[0], fn, out, parses);
      FindingsStep(items, fn, out, parses);
      if r.Ran? {
        FlatFindingsTail(items);
        VulnArrayMatches(doc, items[1..], tail, r.st, r.out, parses);
      }
    }
  }

  /** `RefFindings` on a non-empty list: the first item, then the rest from where it left off. */
  lemma FindingsStep(items: seq<Json>, fn: DepVuln, out: seq<Vuln>, parses: string -> bool)
    requires items != []
    ensures var r := RefFindingItem(items[0], fn, out, parses);
      RefFindings(items, fn, out, parses) == if r.Failed? then Failed(r.fault, r.out) else RefFindings(items[1..], r.st, r.out, parses)
  {
  }

  /** The shape is kept by dropping the first item. */
  lemma FlatFindingsTail(items: seq<Json>)
    requires items != [] && FlatFindings(items)
    ensures FlatFindings(items[1..])
  {
    forall i | 0 <= i < |items[1..]| ensures items[1..][i].JObj? ==> FlatFinding(items[1..][i].members) {
      assert items[1..][i] == items[i + 1];
    }
  }

  /** One field of a dependency object. */
  lemma DepValueMatches(doc: seq<Token>, m: Member, after: seq<Token>, fn: DepVuln, out: seq<Vuln>, parses: string -> bool)
    requires m.key == "vulnerabilities" && m.value.JArr? ==> FlatFindings(m.value.items)
    ensures var t := Tok(m.value) + after;
      DepValue(doc, m.key, Cursor(t[0], t[1..]), fn, out, parses) == Resume(RefDepMember(m, fn, out, parses), after)
  {
    var t := Tok(m.value) + after;
    if m.key == "vulnerabilities" {
      match m.value
      case JScalar(x) =>
        assert t[0] == Scalar(x);
      case JObj(ms) =>
        assert t[0] == StartObj;
      case JArr(items) =>
        assert t[0] == StartArr && t[1..] == ItemsTok(items) + ([EndArr] + after);
        VulnArrayMatches(doc, items, after, fn, out, parses);
    } else {
      SkipValue(m.value, after);
    }
  }

  /** `loadDependency` on a serialised dependency object. */
  lemma {:induction false} DepFieldsMatch(doc: seq<Token>, ms: seq<Member>, tail: seq<Token>, fn: DepVuln, out: seq<Vuln>, parses: string -> bool)
    requires FlatDep(ms)
    ensures DepFields(doc, MembersTok(ms) + ([EndObj] + tail), fn, out, parses) == Resume(RefDep(ms, fn, out, parses), tail)
    decreases |ms|
  {
    var after := [EndObj] + tail;
    if ms == [] {
      assert MembersTok(ms) + after == after;
      assert after[1..] == tail;
    } else {
      var t := MembersTok(ms) + after;
      var rest := MembersTok(ms[1..]) + after;
      MemberAhead(ms, after);
      DepValueMatches(doc, ms[0], rest, fn, out, parses);
      assert Cursor(t[1], t[2..]) == Cursor((t[1..])[0], (t[1..])[1..]);
      DepStep(ms, fn, out, parses);
      match RefDepMember(ms[0], fn, out, parses)
      case Failed(f, o) =>
      case Ran(g, o) =>
        FlatDepTail(ms);
        DepFieldsMatch(doc, ms[1..], tail, g, o, parses);
    }
  }

  /** `RefDep` on a non-empty list: the first member, then the rest from where it left off. */
  lemma DepStep(ms: seq<Member>, fn: DepVuln, out: seq<Vuln>, parses: string -> bool)
    requires ms != []
    ensures var r := RefDepMember(ms[0], fn, out, parses);
      RefDep(ms, fn, out, parses) == if r.Failed? then r else RefDep(ms[1..], r.st, r.out, parses)
  {
  }

  /** The shape is kept by dropping the first member. */
  lemma FlatDepTail(ms: seq<Member>)
    requires ms != [] && FlatDep(ms)
    ensures FlatDep(ms[1..])
  {
    forall i | 0 <= i < |ms[1..]|
      ensures ms[1..][i].key == "vulnerabilities" && ms[1..][i].value.JArr? ==> FlatFindings(ms[1..][i].value.items)
    {
      assert ms[1..][i] == ms[i + 1];
    }
  }

  /** One object of the `dependencies` array. */
  lemma DepItemMatches(doc: seq<Token>, j: Json, rest: seq<Token>, out: seq<Vuln>, parses: string -> bool)
    requires j.JObj? ==> FlatDep(j.members)
    ensures var r := RefDepItem(j, out, parses);
      DepArray(doc, Tok(j) + rest, out, parses) == if r.Failed? then Halted(r.fault, r.out) else DepArray(doc, rest, r.out, parses)
  {
    var t := Tok(j) + rest;
    match j
    case JScalar(x) =>
      assert t[0] == Scalar(x);
    case JArr(xs) =>
      assert t[0] == StartArr;
    case JObj(ms) =>
      assert t[0] == StartObj && t[1..] == MembersTok(ms) + ([EndObj] + rest);
      DepFieldsMatch(doc, ms, rest, Fresh, out, parses);
  }

  /** The `dependencies` loop on a serialised array. */
  lemma {:induction false} DepArrayMatches(doc: seq<Token>, items: seq<Json>, tail: seq<Token>, out: seq<Vuln>, parses: string -> bool)
    requires FlatDeps(items)
    ensures DepArray(doc, ItemsTok(items) + ([EndArr] + tail), out, parses) == Resume(RefDeps(items, out, parses), tail)
    decreases |items|
  {
    var after := [EndArr] + tail;
    if items == [] {
      assert ItemsTok(items) + after == after;
      assert after[1..] == tail;
    } else {
      var rest := ItemsTok(items[1..]) + after;
      ItemsCons(items, after);
      assert items[0].JObj? ==> FlatDep(items[0].members);
      DepItemMatches(doc, items[0], rest, out, parses);
      var r := RefDepItem(items[0], out, parses);
      DepsStep(items, out, parses);
      if r.Ran? {
        FlatDepsTail(items);
        DepArrayMatches(doc, items[1..], tail, r.out, parses);
      } else {
        assert DepArray(doc, ItemsTok(items) + ([EndArr] + tail), out, parses) == Halted(r.fault, r.out);
      }
    }
  }

  /** `RefDeps` on a non-empty list: the first item, then the rest. */
  lemma DepsStep(items: seq<Json>, out: seq<Vuln>, parses: string -> bool)
    requires items != []
    ensures var r := RefDepItem(items[0], out, parses);
      RefDeps(items, out, parses) == if r.Failed? then r else RefDeps(items[1..], r.out, parses)
  {
  }

  /** The shape is kept by dropping the first item. */
  lemma FlatDepsTail(items: seq<Json>)
    requires items != [] && FlatDeps(items)
    ensures FlatDeps(items[1..])
  {
    forall i | 0 <= i < |items[1..]| ensures items[1..][i].JObj? ==> FlatDep(items[1..][i].members) {
      assert items[1..][i] == items[i + 1];
    }
  }

  /** One field of the root object. */
  lemma RootValueMatches(doc: seq<Token>, m: Member, after: seq<Token>, out: seq<Vuln>, parses: string -> bool)
    requires m.key == "dependencies" && m.value.JArr? ==> FlatDeps(m.value.items)
    ensures var t := [Field(m.key)] + (Tok(m.value) + after);
      var r := RefRootMember(m, out, parses);
      RootFields(doc, t, out, parses) == if r.Failed? then Halted(r.fault, r.out) else RootFields(doc, after, r.out, parses)
  {
    var t := [Field(m.key)] + (Tok(m.value) + after);
    assert t[1..] == Tok(m.value) + after;
    if m.key == "dependencies" {
      match m.value
      case JScalar(x) =>
        assert t[1] == Scalar(x);
      case JObj(ms) =>
        assert t[1] == StartObj;
      case JArr(items) =>
        assert t[1] == StartArr && t[2..] == ItemsTok(items) + ([EndArr] + after);
        DepArrayMatches(doc, items, after, out, parses);
    } else {
      SkipValue(m.value, after);
      assert Cursor(t[1], t[2..]) == Cursor((t[1..])[0], (t[1..])[1..]);
    }
  }

  /** The top-level loop on a serialised root object. */
  lemma {:induction false} RootFieldsMatch(doc: seq<Token>, ms: seq<Member>, tail: seq<Token>, out: seq<Vuln>, parses: string -> bool)
    requires FlatRoot(ms)
    ensures RootFields(doc, MembersTok(ms) + ([EndObj] + tail), out, parses) == Resume(RefRoot(ms, out, parses), tail)
    decreases |ms|
  {
    var after := [EndObj] + tail;
    if ms == [] {
      assert MembersTok(ms) + after == after;
      assert after[1..] == tail;
    } else {
      var rest := MembersTok(ms[1..]) + after;
      MembersCons(ms, after);
      RootValueMatches(doc, ms[0], rest, out, parses);
      RootStep(ms, out, parses);
      match RefRootMember(ms[0], out, parses)
      case Failed(f, o) =>
      case Ran(_, o) =>
        FlatRootTail(ms);
        RootFieldsMatch(doc, ms[1..], tail, o, parses);
    }
  }

  /** `RefRoot` on a non-empty list: the first member, then the rest. */
  lemma RootStep(ms: seq<Member>, out: seq<Vuln>, parses: string -> bool)
    requires ms != []
    ensures var r := RefRootMember(ms[0], out, parses);
      RefRoot(ms, out, parses) == if r.Failed? then r else RefRoot(ms[1..], r.out, parses)
  {
  }

  /** The shape is kept by dropping the first member. */
  lemma FlatRootTail(ms: seq<Member>)
    requires ms != [] && FlatRoot(ms)
    ensures FlatRoot(ms[1..])
  {
    forall i | 0 <= i < |ms[1..]|
      ensures ms[1..][i].key == "dependencies" && ms[1..][i].value.JArr? ==> FlatDeps(ms[1..][i].value.items)
    {
      assert ms[1..][i] == ms[i + 1];
    }
  }

  /**
   * The record pass on a serialised document computes the tree semantics,
   * whatever tokens follow the document.
   */
  lemma ParseMatches(j: Json, tail: seq<Token>, parses: string -> bool)
    requires Flat(j)
    ensures ParseVulnerabilities(Tok(j) + tail, parses) == RefParse(j, parses)
  {
    var t := Tok(j) + tail;
    match j
    case JScalar(x) =>
      assert t[0] == Scalar(x);
    case JArr(xs) =>
      assert t[0] == StartArr;
    case JObj(ms) =>
      assert t[0] == StartObj && t[1..] == MembersTok(ms) + ([EndObj] + tail);
      RootFieldsMatch(t, ms, tail, [], parses);
  }

  /** A serialised document never makes the record pass report a lexical error. */
  lemma TreesNeverMalformed(j: Json, tail: seq<Token>, parses: string -> bool)
    requires Flat(j)
    ensures ParseVulnerabilities(Tok(j) + tail, parses).Aborted? ==> ParseVulnerabilities(Tok(j) + tail, parses).fault != Malformed
  {
    ParseMatches(j, tail, parses);
  }
}
