/**
 * The accumulator one dependency's vulnerabilities are read into: nullable
 * string fields with independent setters, the CWE normalisation done by
 * `setCWE`, and the instance id the record is emitted under.
 */
module DepVulns {
  import opened Common
  import opened JavaStrings

  /** `DepVuln.GenPriority`, in declaration order. */
  datatype GenPriority = Critical | High | Medium | Low

  /** `values()`: every priority, in declaration order. */
  const Priorities: seq<GenPriority> := [Critical, High, Medium, Low]

  /** `name()` of a priority. */
  function PriorityName(p: GenPriority): string
  {
    match p
    case Critical => "Critical"
    case High => "High"
    case Medium => "Medium"
    case Low => "Low"
  }

  /** `GenPriority.valueOf`: exact, case-sensitive; `None` where Java throws IllegalArgumentException. */
  function ValueOf(s: string): (r: Option<GenPriority>)
    ensures r.Some? ==> PriorityName(r.value) == s
  {
    if s == "Critical" then Some(Critical)
    else if s == "High" then Some(High)
    else if s == "Medium" then Some(Medium)
    else if s == "Low" then Some(Low)
    else None
  }

  /** The priorities form a closed set of four, each listed once, at its position. */
  lemma PrioritiesClosed(p: GenPriority)
    ensures |Priorities| == 4
    ensures p in Priorities
    ensures forall i, j | 0 <= i < j < |Priorities| :: Priorities[i] != Priorities[j]
  {
  }

  /** `valueOf` and `name()` are inverse: a text is accepted exactly when it is some priority's name. */
  lemma ValueOfName(p: GenPriority, s: string)
    ensures ValueOf(PriorityName(p)) == Some(p)
    ensures ValueOf(s).None? <==> forall q: GenPriority :: PriorityName(q) != s
  {
  }

  /** The string fields of `DepVuln` that the parser writes or reads. */
  datatype Slot =
    | UniqueIdSlot | NameSlot | FileNameSlot | AbstractSlot | ImpactSlot
    | DescriptionSlot | CommentSlot | CweSlot
    | CvssAccessVectorSlot | CvssAccessComplexitySlot
    | CvssConfidentialImpactSlot | CvssIntegrityImpactSlot | CvssAvailabilityImpactSlot

  /**
   * `DepVuln`'s state. `impact` holds the text of the score that
   * `Float.parseFloat` accepted; `None` is `null` throughout.
   */
  datatype DepVuln = DepVuln(
    uniqueId: Option<string>,
    name: Option<string>,
    fileName: Option<string>,
    vulnerabilityAbstract: Option<string>,
    impact: Option<string>,
    priority: Option<GenPriority>,
    description: Option<string>,
    comment: Option<string>,
    cwe: Option<string>,
    cvssAccessVector: Option<string>,
    cvssAccessComplexity: Option<string>,
    cvssConfidentialImpact: Option<string>,
    cvssIntegrityImpact: Option<string>,
    cvssAvailabilityImpact: Option<string>)

  /** `new DepVuln()`: every field null. */
  const Fresh: DepVuln :=
    DepVuln(None, None, None, None, None, None, None, None, None, None, None, None, None, None)

  /** The getter of a string field. */
  function Read(v: DepVuln, s: Slot): Option<string>
  {
    match s
    case UniqueIdSlot => v.uniqueId
    case NameSlot => v.name
    case FileNameSlot => v.fileName
    case AbstractSlot => v.vulnerabilityAbstract
    case ImpactSlot => v.impact
    case DescriptionSlot => v.description
    case CommentSlot => v.comment
    case CweSlot => v.cwe
    case CvssAccessVectorSlot => v.cvssAccessVector
    case CvssAccessComplexitySlot => v.cvssAccessComplexity
    case CvssConfidentialImpactSlot => v.cvssConfidentialImpact
    case CvssIntegrityImpactSlot => v.cvssIntegrityImpact
    case CvssAvailabilityImpactSlot => v.cvssAvailabilityImpact
  }

  /** The setter of a string field. */
  function Write(v: DepVuln, s: Slot, x: Option<string>): (r: DepVuln)
    ensures r.priority == v.priority
    ensures s != UniqueIdSlot ==> r.uniqueId == v.uniqueId
    ensures s != NameSlot ==> r.name == v.name
    ensures s != FileNameSlot ==> r.fileName == v.fileName
    ensures s != AbstractSlot ==> r.vulnerabilityAbstract == v.vulnerabilityAbstract
    ensures s != ImpactSlot ==> r.impact == v.impact
    ensures s != DescriptionSlot ==> r.description == v.description
    ensures s != CommentSlot ==> r.comment == v.comment
    ensures s != CweSlot ==> r.cwe == v.cwe
    ensures s != CvssAccessVectorSlot ==> r.cvssAccessVector == v.cvssAccessVector
    ensures s != CvssAccessComplexitySlot ==> r.cvssAccessComplexity == v.cvssAccessComplexity
    ensures s != CvssConfidentialImpactSlot ==> r.cvssConfidentialImpact == v.cvssConfidentialImpact
    ensures s != CvssIntegrityImpactSlot ==> r.cvssIntegrityImpact == v.cvssIntegrityImpact
    ensures s != CvssAvailabilityImpactSlot ==> r.cvssAvailabilityImpact == v.cvssAvailabilityImpact
  {
    match s
    case UniqueIdSlot => v.(uniqueId := x)
    case NameSlot => v.(name := x)
    case FileNameSlot => v.(fileName := x)
    case AbstractSlot => v.(vulnerabilityAbstract := x)
    case ImpactSlot => v.(impact := x)
    case DescriptionSlot => v.(description := x)
    case CommentSlot => v.(comment := x)
    case CweSlot => v.(cwe := x)
    case CvssAccessVectorSlot => v.(cvssAccessVector := x)
    case CvssAccessComplexitySlot => v.(cvssAccessComplexity := x)
    case CvssConfidentialImpactSlot => v.(cvssConfidentialImpact := x)
    case CvssIntegrityImpactSlot => v.(cvssIntegrityImpact := x)
    case CvssAvailabilityImpactSlot => v.(cvssAvailabilityImpact := x)
  }

  /** A setter writes its own field and leaves every other field, and the priority, unchanged. */
  lemma ReadWrite(v: DepVuln, s: Slot, t: Slot, x: Option<string>)
    ensures Read(Write(v, s, x), s) == x
    ensures t != s ==> Read(Write(v, s, x), t) == Read(v, t)
    ensures Write(v, s, Read(v, s)) == v
  {
  }

  /** A fresh accumulator reads null everywhere. */
  lemma FreshIsNull(s: Slot)
    ensures Read(Fresh, s).None? && Fresh.priority.None?
  {
  }

  /** One setter call. */
  datatype Assignment = Assignment(slot: Slot, value: Option<string>)

  /** Calling the setters one after the other. */
  function WriteAll(v: DepVuln, ws: seq<Assignment>): DepVuln
    decreases |ws|
  {
    if ws == [] then v else WriteAll(Write(v, ws[0].slot, ws[0].value), ws[1..])
  }

  /** The value of the last assignment to `s` in `ws`, if any. */
  function LastWrite(ws: seq<Assignment>, s: Slot): Option<Option<string>>
    decreases |ws|
  {
    if ws == [] then None
    else if ws[|ws| - 1].slot == s then Some(ws[|ws| - 1].value)
    else LastWrite(ws[..|ws| - 1], s)
  }

  /** After a run of setter calls, a getter returns the value written last, or the old one if none was. */
  lemma {:induction false} LastWriteWins(v: DepVuln, ws: seq<Assignment>, s: Slot)
    ensures Read(WriteAll(v, ws), s) == if LastWrite(ws, s).Some? then LastWrite(ws, s).value else Read(v, s)
    ensures WriteAll(v, ws).priority == v.priority
    decreases |ws|
  {
    if ws != [] {
      var last := ws[|ws| - 1];
      WriteAllSnoc(v, ws[..|ws| - 1], last);
      assert ws[..|ws| - 1] + [last] == ws;
      LastWriteWins(v, ws[..|ws| - 1], s);
      ReadWrite(WriteAll(v, ws[..|ws| - 1]), last.slot, s, last.value);
    }
  }

  /** Writing one more assignment at the end. */
  lemma {:induction false} WriteAllSnoc(v: DepVuln, ws: seq<Assignment>, w: Assignment)
    ensures WriteAll(v, ws + [w]) == Write(WriteAll(v, ws), w.slot, w.value)
    decreases |ws|
  {
    if ws != [] {
      assert (ws + [w])[1..] == ws[1..] + [w];
      WriteAllSnoc(Write(v, ws[0].slot, ws[0].value), ws[1..], w);
    }
  }

  /**
   * `setCWE` exactly as written: the empty text is stored unchanged; otherwise
   * the first ' '-separated word is split at '-' and the second piece is kept.
   * An index past the end of either `split` result is an exception.
   */
  function NormalizeCwe(cwe: string): (r: Result<string>)
    ensures cwe == "" ==> r == Ok("")
    ensures cwe != "" && r.Ok? ==> "CWE ID " <= r.value
    ensures r.Err? ==> r.fault == CweIndex
  {
    if cwe == "" then Ok("")
    else
      var words := Split(cwe, ' ');
      if |words| == 0 then Err(CweIndex)
      else
        var parts := Split(words[0], '-');
        if |parts| < 2 then Err(CweIndex)
        else Ok("CWE ID " + parts[1])
  }

  /**
   * The same normalisation stated without `split`: take the text up to the
   * first space, then the piece between its first '-' and the next '-'. It
   * fails exactly when the first word has no second '-'-piece that
   * `split` would keep, i.e. no character other than '-' after its first '-'.
   */
  function CweId(cwe: string): Result<string>
  {
    if cwe == "" then Ok("")
    else
      var word := TakeUntil(cwe, ' ');
      var after := DropThrough(word, '-');
      if '-' in word && HasOther(after, '-') then Ok("CWE ID " + TakeUntil(after, '-'))
      else Err(CweIndex)
  }

  /** `setCWE`'s split-based code computes the split-free reference everywhere. */
  lemma NormalizeCweIsCweId(cwe: string)
    ensures NormalizeCwe(cwe) == CweId(cwe)
  {
    if cwe != "" {
      var words := Split(cwe, ' ');
      SplitFirst(cwe, ' ');
      if |words| > 0 {
        SplitHasSecond(words[0], '-');
      }
    }
  }

  /**
   * A CWE text of the usual shape `<tag>-<id>` followed by nothing, a space or
   * another '-' normalises to "CWE ID <id>".
   */
  lemma NormalizeWellFormed(tag: string, id: string, tail: string)
    requires ' ' !in tag && '-' !in tag
    requires id != "" && ' ' !in id && '-' !in id
    requires tail == "" || tail[0] == ' ' || tail[0] == '-'
    ensures NormalizeCwe(tag + "-" + id + tail) == Ok("CWE ID " + id)
  {
    NormalizeCweIsCweId(tag + "-" + id + tail);
    FirstWordPiece(tag, id, tail);
  }

  /** The split-free reading of the usual shape: the first word is `<tag>-<id>` up to the tail's first space. */
  lemma FirstWordPiece(tag: string, id: string, tail: string)
    requires ' ' !in tag && '-' !in tag
    requires id != "" && ' ' !in id && '-' !in id
    requires tail == "" || tail[0] == ' ' || tail[0] == '-'
    ensures CweId(tag + "-" + id + tail) == Ok("CWE ID " + id)
  {
    var head, rest := tag + "-" + id, TakeUntil(tail, ' ');
    assert ' ' !in head;
    TakeUntilAppend(head, tail, ' ');
    var word := TakeUntil(head + tail, ' ');
    assert word == tag + ['-'] + (id + rest) by {
      assert head + rest == tag + ['-'] + (id + rest);
    }
    TakeUntilPrefix(tag, id + rest, '-');
    assert rest == "" || rest[0] == '-';
    PieceBeforeDash(id, rest);
  }

  /** An identifier followed by nothing or by a '-' is the piece up to the next '-'. */
  lemma PieceBeforeDash(id: string, rest: string)
    requires id != "" && '-' !in id
    requires rest == "" || rest[0] == '-'
    ensures HasOther(id + rest, '-') && TakeUntil(id + rest, '-') == id
  {
    var s := id + rest;
    assert s[0] == id[0] != '-';
    if rest == "" {
      assert s == id;
      NoSeparator(id, '-');
    } else {
      assert s == id + ['-'] + rest[1..];
      TakeUntilPrefix(id, rest[1..], '-');
    }
  }

  /** `setCWE`: the field receives the normalised text, or the exception escapes. */
  function SetCwe(v: DepVuln, text: string): (r: Result<DepVuln>)
    ensures r.Ok? <==> NormalizeCwe(text).Ok?
    ensures r.Ok? ==> r.value == Write(v, CweSlot, Some(NormalizeCwe(text).value))
  {
    match NormalizeCwe(text)
    case Ok(id) => Ok(Write(v, CweSlot, Some(id)))
    case Err(f) => Err(f)
  }

  /** `getInstanceId()`: the unique id and the name joined by '-', a null one shown as "null". */
  function InstanceId(v: DepVuln): (r: string)
    ensures Show(v.uniqueId) + "-" <= r && r[|Show(v.uniqueId)| + 1..] == Show(v.name)
  {
    Show(v.uniqueId) + "-" + Show(v.name)
  }

  /**
   * The instance id depends on the unique id and the name alone, and it
   * determines both when the unique id contains no '-'.
   */
  lemma InstanceIdKey(v: DepVuln, w: DepVuln)
    requires '-' !in Show(v.uniqueId) && '-' !in Show(w.uniqueId)
    ensures InstanceId(v) == InstanceId(w) <==> Show(v.uniqueId) == Show(w.uniqueId) && Show(v.name) == Show(w.name)
  {
    if InstanceId(v) == InstanceId(w) {
      TakeUntilPrefix(Show(v.uniqueId), Show(v.name), '-');
      TakeUntilPrefix(Show(w.uniqueId), Show(w.name), '-');
      assert InstanceId(v) == Show(v.uniqueId) + ['-'] + Show(v.name);
      assert InstanceId(w) == Show(w.uniqueId) + ['-'] + Show(w.name);
    }
  }
}
