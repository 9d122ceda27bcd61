/**
 * The scan pass, `parseScanInternal` with `getEngineVersion`: a walk over the
 * root object that hands the report schema to the builder as the host name,
 * the engine version found in `scanInfo`, and the scan date. Stated on tokens,
 * then on trees as "the last field of each kind wins", and the two proved
 * equal on every serialised document whose read fields hold what the switch
 * expects.
 */
module ScanMetadata {
  import opened Common
  import opened Tokens
  import opened JsonTree
  import opened JsonFields
  import VA = VulnAttributes

  /** What the scan builder receives; `None` stands for null (or a setter never called). */
  datatype ScanMeta = ScanMeta(hostName: Option<string>, engineVersion: Option<string>, scanDate: Option<string>)

  /** The builder before the pass. */
  const Unset := ScanMeta(None, None, None)

  // ----- the walker -----

  /**
   * `getEngineVersion`, the cursor after the `scanInfo` value's first token:
   * fields up to and including the next `}`. `engineVersion` is read without
   * skipping its value; every other field, and a null name, is skipped.
   */
  function EngineVersionFields(doc: seq<Token>, rest: seq<Token>, ev: Option<string>): (r: Result<Step<Option<string>>>)
    ensures r.Ok? ==> |r.value.rest| < |rest|
    ensures r.Err? ==> r.fault == Malformed
    decreases |rest|
  {
    match NextEntry(doc, rest)
    case Err(f) => Err(f)
    case Ok(Closed(r)) => Ok(Step(r, ev))
    case Ok(Entry(name, c)) =>
      if VA.GetOrNull(name) == Some(VA.EngineVersion) then EngineVersionFields(doc, c.rest, Some(Text(c.cur)))
      else
        match SkipChildren(c)
        case Err(f) => Err(f)
        case Ok(c2) => EngineVersionFields(doc, c2.rest, ev)
  }

  /**
   * The top-level loop of `parseScanInternal`. `reportSchema` and `scanDate`
   * are read without skipping their value; `scanInfo` hands over to
   * `getEngineVersion`, whose answer is set even when null; every other
   * field, and a null name, is skipped.
   */
  function RootMeta(doc: seq<Token>, rest: seq<Token>, meta: ScanMeta): (r: Result<Step<ScanMeta>>)
    ensures r.Ok? ==> |r.value.rest| < |rest|
    ensures r.Err? ==> r.fault == Malformed
    decreases |rest|
  {
    match NextEntry(doc, rest)
    case Err(f) => Err(f)
    case Ok(Closed(r)) => Ok(Step(r, meta))
    case Ok(Entry(name, c)) =>
      var a := VA.GetOrNull(name);
      if a == Some(VA.ReportSchema) then RootMeta(doc, c.rest, meta.(hostName := Some(Text(c.cur))))
      else if a == Some(VA.ScanDate) then RootMeta(doc, c.rest, meta.(scanDate := Some(Text(c.cur))))
      else if a == Some(VA.ScanInfo) then
        match EngineVersionFields(doc, c.rest, None)
        case Err(f) => Err(f)
        case Ok(s) => RootMeta(doc, s.rest, meta.(engineVersion := s.st))
      else
        match SkipChildren(c)
        case Err(f) => Err(f)
        case Ok(c2) => RootMeta(doc, c2.rest, meta)
  }

  /**
   * `parseScan`: the document must start with an object; the scan is
   * completed only when the whole root object has been read.
   */
  function ParseScan(toks: seq<Token>): (r: Result<ScanMeta>)
    ensures |toks| == 0 || toks[0] != StartObj ==> r == Err(Structural)
    ensures r.Err? ==> r.fault in {Structural, Malformed}
  {
    if |toks| == 0 || toks[0] != StartObj then Err(Structural)
    else match RootMeta(toks, toks[1..], Unset)
      case Ok(s) => Ok(s.st)
      case Err(f) => Err(f)
  }

  // ----- the tree semantics -----

  /** The text the switch reads from the last member of a kind, if there is one. */
  function ReadText(m: Option<Member>): Option<string>
  {
    match m
    case Some(x) => Some(ValueText(x.value))
    case None => None
  }

  /** The engine version of a `scanInfo` object: its last `engineVersion` field, or null. */
  function EngineVersionOf(ms: seq<Member>): Option<string>
  {
    ReadText(LastFor(ms, {VA.EngineVersion}))
  }

  /** The builder after the members `ms`, starting from `meta`: the last member of each kind wins. */
  function Overlay(meta: ScanMeta, ms: seq<Member>): ScanMeta
  {
    var schema := LastFor(ms, {VA.ReportSchema});
    var info := LastFor(ms, {VA.ScanInfo});
    var date := LastFor(ms, {VA.ScanDate});
    ScanMeta(
      if schema.Some? then ReadText(schema) else meta.hostName,
      if info.Some? then (if info.value.value.JObj? then EngineVersionOf(info.value.value.members) else None) else meta.engineVersion,
      if date.Some? then ReadText(date) else meta.scanDate)
  }

  /** `engineVersion` fields hold scalars. */
  predicate FlatInfo(ms: seq<Member>)
  {
    forall i | 0 <= i < |ms| :: Names(ms[i], {VA.EngineVersion}) ==> ms[i].value.JScalar?
  }

  /**
   * `reportSchema` and `scanDate` hold scalars and `scanInfo` an object of
   * that shape. (A value that is read is not skipped, so nested content would
   * be walked as if it were fields of the enclosing object.)
   */
  predicate FlatMeta(ms: seq<Member>)
  {
    forall i | 0 <= i < |ms| ::
      && (Names(ms[i], {VA.ReportSchema, VA.ScanDate}) ==> ms[i].value.JScalar?)
      && (Names(ms[i], {VA.ScanInfo}) ==> ms[i].value.JObj? && FlatInfo(ms[i].value.members))
  }

  // ----- the walker computes the tree semantics -----

  /** `getEngineVersion` on a serialised object: the last `engineVersion` field, or what came before. */
  lemma {:induction false} EngineVersionMatches(doc: seq<Token>, ms: seq<Member>, tail: seq<Token>, ev: Option<string>)
    requires FlatInfo(ms)
    ensures var last := LastFor(ms, {VA.EngineVersion});
      EngineVersionFields(doc, MembersTok(ms) + ([EndObj] + tail), ev) == Ok(Step(tail, if last.Some? then ReadText(last) else ev))
    decreases |ms|
  {
    var after := [EndObj] + tail;
    if ms == [] {
      assert MembersTok(ms) + after == after;
      assert after[1..] == tail;
    } else {
      var m := ms[0];
      var rest := MembersTok(ms[1..]) + after;
      var t := MembersTok(ms) + after;
      MembersCons(ms, after);
      assert t[0] == Field(m.key) && t[1..] == Tok(m.value) + rest;
      var ev' := if Names(m, {VA.EngineVersion}) then Some(ValueText(m.value)) else ev;
      if Names(m, {VA.EngineVersion}) {
        assert t[1] == Scalar(m.value.text) && t[2..] == rest;
      } else {
        SkipValue(m.value, rest);
        assert Cursor(t[1], t[2..]) == Cursor((t[1..])[0], (t[1..])[1..]);
      }
      assert EngineVersionFields(doc, t, ev) == EngineVersionFields(doc, rest, ev');
      FlatInfoTail(ms);
      EngineVersionMatches(doc, ms[1..], tail, ev');
      assert ms == [m] + ms[1..];
      LastForCons(m, ms[1..], {VA.EngineVersion});
    }
  }

  /** The shape is kept by dropping the first member. */
  lemma FlatInfoTail(ms: seq<Member>)
    requires ms != [] && FlatInfo(ms)
    ensures FlatInfo(ms[1..])
  {
    forall i | 0 <= i < |ms[1..]| ensures Names(ms[1..][i], {VA.EngineVersion}) ==> ms[1..][i].value.JScalar? {
      assert ms[1..][i] == ms[i + 1];
    }
  }

  /** One member of the root object, as the builder sees it. */
  function Apply(meta: ScanMeta, m: Member): ScanMeta
  {
    Overlay(meta, [m])
  }

  /** Overlaying a member and then the rest is overlaying the whole list. */
  lemma OverlayCons(meta: ScanMeta, m: Member, ms: seq<Member>)
    ensures Overlay(Apply(meta, m), ms) == Overlay(meta, [m] + ms)
  {
    LastForCons(m, ms, {VA.ReportSchema});
    LastForCons(m, ms, {VA.ScanInfo});
    LastForCons(m, ms, {VA.ScanDate});
    LastForCons(m, [], {VA.ReportSchema});
    LastForCons(m, [], {VA.ScanInfo});
    LastForCons(m, [], {VA.ScanDate});
    assert [m] + [] == [m];
  }

  /** One root field: the walker applies it and moves past its value. */
  lemma RootMemberStep(doc: seq<Token>, m: Member, rest: seq<Token>, meta: ScanMeta)
    requires Names(m, {VA.ReportSchema, VA.ScanDate}) ==> m.value.JScalar?
    requires Names(m, {VA.ScanInfo}) ==> m.value.JObj? && FlatInfo(m.value.members)
    ensures RootMeta(doc, [Field(m.key)] + (Tok(m.value) + rest), meta) == RootMeta(doc, rest, Apply(meta, m))
  {
    var t := [Field(m.key)] + (Tok(m.value) + rest);
    assert t[0] == Field(m.key) && t[1..] == Tok(m.value) + rest;
    var a := VA.Get(m.key);
    LastForCons(m, [], {VA.ReportSchema});
    LastForCons(m, [], {VA.ScanInfo});
    LastForCons(m, [], {VA.ScanDate});
    assert [m] + [] == [m];
    if a == Some(VA.ReportSchema) || a == Some(VA.ScanDate) {
      assert t[1] == Scalar(m.value.text) && t[2..] == rest;
    } else if a == Some(VA.ScanInfo) {
      var ms := m.value.members;
      assert t[1] == StartObj && t[2..] == MembersTok(ms) + ([EndObj] + rest);
      EngineVersionMatches(doc, ms, rest, None);
    } else {
      SkipValue(m.value, rest);
      assert Cursor(t[1], t[2..]) == Cursor((t[1..])[0], (t[1..])[1..]);
    }
  }

  /** The top-level loop on a serialised root object. */
  lemma {:induction false} RootMetaMatches(doc: seq<Token>, ms: seq<Member>, tail: seq<Token>, meta: ScanMeta)
    requires FlatMeta(ms)
    ensures RootMeta(doc, MembersTok(ms) + ([EndObj] + tail), meta) == Ok(Step(tail, Overlay(meta, ms)))
    decreases |ms|
  {
    var after := [EndObj] + tail;
    if ms == [] {
      assert MembersTok(ms) + after == after;
      assert after[1..] == tail;
    } else {
      var m := ms[0];
      var rest := MembersTok(ms[1..]) + after;
      MembersCons(ms, after);
      RootMemberStep(doc, m, rest, meta);
      FlatMetaTail(ms);
      RootMetaMatches(doc, ms[1..], tail, Apply(meta, m));
      assert ms == [m] + ms[1..];
      OverlayCons(meta, m, ms[1..]);
    }
  }

  /** The shape is kept by dropping the first member. */
  lemma FlatMetaTail(ms: seq<Member>)
    requires ms != [] && FlatMeta(ms)
    ensures FlatMeta(ms[1..])
  {
    forall i | 0 <= i < |ms[1..]|
      ensures && (Names(ms[1..][i], {VA.ReportSchema, VA.ScanDate}) ==> ms[1..][i].value.JScalar?)
              && (Names(ms[1..][i], {VA.ScanInfo}) ==> ms[1..][i].value.JObj? && FlatInfo(ms[1..][i].value.members))
    {
      assert ms[1..][i] == ms[i + 1];
    }
  }

  /**
   * The scan pass on a serialised document yields, for each of the three
   * settings, the last field of its kind, whatever follows the document.
   */
  lemma ParseScanMatches(ms: seq<Member>, tail: seq<Token>)
    requires FlatMeta(ms)
    ensures ParseScan(Tok(JObj(ms)) + tail) == Ok(Overlay(Unset, ms))
  {
    var t := Tok(JObj(ms)) + tail;
    assert t[0] == StartObj && t[1..] == MembersTok(ms) + ([EndObj] + tail);
    RootMetaMatches(t, ms, tail, Unset);
  }

  /** A root field that is none of the three changes nothing, whatever it holds; `dependencies` in particular. */
  lemma ParseScanInsertion(ms1: seq<Member>, m: Member, ms2: seq<Member>, tail: seq<Token>)
    requires FlatMeta(ms1 + ms2)
    requires !Names(m, {VA.ReportSchema, VA.ScanInfo, VA.ScanDate})
    ensures ParseScan(Tok(JObj(ms1 + [m] + ms2)) + tail) == ParseScan(Tok(JObj(ms1 + ms2)) + tail)
  {
    var ms := ms1 + [m] + ms2;
    forall i | 0 <= i < |ms|
      ensures && (Names(ms[i], {VA.ReportSchema, VA.ScanDate}) ==> ms[i].value.JScalar?)
              && (Names(ms[i], {VA.ScanInfo}) ==> ms[i].value.JObj? && FlatInfo(ms[i].value.members))
    {
      if i < |ms1| {
        assert ms[i] == (ms1 + ms2)[i];
      } else if i > |ms1| {
        assert ms[i] == (ms1 + ms2)[i - 1];
      }
    }
    ParseScanMatches(ms, tail);
    ParseScanMatches(ms1 + ms2, tail);
    LastForInsertion(ms1, m, ms2, {VA.ReportSchema});
    LastForInsertion(ms1, m, ms2, {VA.ScanInfo});
    LastForInsertion(ms1, m, ms2, {VA.ScanDate});
  }
}
