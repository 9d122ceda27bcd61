/**
 * The token stream the Jackson streaming parser delivers, and the two cursor
 * primitives the plugin relies on: advancing, and `skipChildren`.
 *
 * A walker loop in the plugin always starts with `nextToken()`, so its state is
 * just the sequence of tokens not yet read; the "current token" matters only when
 * a value is read with `getText()` or skipped, and is then passed explicitly.
 */
module Tokens {
  import opened Common

  datatype Token =
    | StartObj
    | EndObj
    | StartArr
    | EndArr
    | Field(name: string)
    | Scalar(text: string)

  predicate IsStart(t: Token) { t.StartObj? || t.StartArr? }

  predicate IsEnd(t: Token) { t.EndObj? || t.EndArr? }

  /** The tokens that may follow a field name in well-formed JSON. */
  predicate IsValueStart(t: Token) { t.StartObj? || t.StartArr? || t.Scalar? }

  /**
   * Jackson's `getText()` for the current token: a structural token reads as
   * its own bracket. A field name or scalar with the same text reads the same,
   * so the text alone does not tell a `{` token from the string "{".
   */
  function Text(t: Token): (r: string)
    ensures t.Field? ==> r == t.name
    ensures t.Scalar? ==> r == t.text
    ensures !t.Field? && !t.Scalar? ==> |r| == 1 && r[0] in "{}[]"
    ensures IsStart(t) ==> r[0] in "{[" && (r == "{" <==> t.StartObj?)
  {
    match t
    case StartObj => "{"
    case EndObj => "}"
    case StartArr => "["
    case EndArr => "]"
    case Field(name) => name
    case Scalar(text) => text
  }

  /** The parser's position: the current token and the tokens not yet read. */
  datatype Cursor = Cursor(cur: Token, rest: seq<Token>)

  /** The unread tokens after a loop, together with the state the loop built. */
  datatype Step<S> = Step(rest: seq<Token>, st: S)

  /**
   * The body of Jackson's `skipChildren` once a start token has been read:
   * `depth` containers are open; reading stops at the end token closing the
   * outermost one. Running out of tokens is a parse error.
   */
  function SkipTo(rest: seq<Token>, depth: nat): (r: Result<Cursor>)
    requires depth >= 1
    ensures r.Ok? ==> IsEnd(r.value.cur) && |r.value.rest| < |rest|
    ensures r.Err? ==> r.fault == Malformed
    decreases |rest|
  {
    if |rest| == 0 then Err(Malformed)
    else match rest[0]
      case StartObj => SkipTo(rest[1..], depth + 1)
      case StartArr => SkipTo(rest[1..], depth + 1)
      case EndObj => if depth == 1 then Ok(Cursor(rest[0], rest[1..])) else SkipTo(rest[1..], depth - 1)
      case EndArr => if depth == 1 then Ok(Cursor(rest[0], rest[1..])) else SkipTo(rest[1..], depth - 1)
      case _ => SkipTo(rest[1..], depth)
  }

  /**
   * The plugin's `skipChildren`: on a start token consume the whole subtree,
   * leaving the cursor on its matching end token; on anything else do nothing.
   */
  function SkipChildren(c: Cursor): (r: Result<Cursor>)
    ensures r.Ok? ==> !IsStart(r.value.cur) && |r.value.rest| <= |c.rest|
    ensures IsStart(c.cur) && r.Ok? ==> IsEnd(r.value.cur) && |r.value.rest| < |c.rest|
    ensures !IsStart(c.cur) ==> r == Ok(c)
    ensures r.Err? ==> r.fault == Malformed
  {
    if IsStart(c.cur) then SkipTo(c.rest, 1) else Ok(c)
  }

  // ----- the parsing context behind getCurrentName -----

  /** One open container of Jackson's parsing context; an object remembers the last field name read in it. */
  datatype Frame = InObject(name: Option<string>) | InArray

  /** The context after reading one more token. An unmatched end token leaves the (root) context empty. */
  function Advance(ctx: seq<Frame>, t: Token): seq<Frame>
  {
    match t
    case StartObj => ctx + [InObject(None)]
    case StartArr => ctx + [InArray]
    case EndObj => if ctx == [] then [] else ctx[..|ctx| - 1]
    case EndArr => if ctx == [] then [] else ctx[..|ctx| - 1]
    case Field(n) => if ctx != [] && ctx[|ctx| - 1].InObject? then ctx[..|ctx| - 1] + [InObject(Some(n))] else ctx
    case Scalar(_) => ctx
  }

  /** The context after reading `toks`, starting from `ctx`. */
  function Context(ctx: seq<Frame>, toks: seq<Token>): seq<Frame>
    decreases |toks|
  {
    if toks == [] then ctx else Context(Advance(ctx, toks[0]), toks[1..])
  }

  /** The name a context reports: the last field name of the innermost container if it is an object, null otherwise. */
  function NameIn(ctx: seq<Frame>): Option<string>
  {
    if ctx == [] || ctx[|ctx| - 1].InArray? then None else ctx[|ctx| - 1].name
  }

  /**
   * Jackson's `getCurrentName()` once the tokens `read` have been read: for a
   * field name, that name; for a start token, the name its container is held
   * under in the enclosing context; for any other token, the name of the
   * enclosing container's last field. Before the first token it is null.
   */
  function CurrentName(read: seq<Token>): Option<string>
  {
    if read == [] then None
    else match read[|read| - 1]
      case Field(n) => Some(n)
      case StartObj => NameIn(Context([], read[..|read| - 1]))
      case StartArr => NameIn(Context([], read[..|read| - 1]))
      case _ => NameIn(Context([], read))
  }

  /** `getCurrentName()` when `doc` is the whole stream and `rest` the part of it not yet read. */
  function NameAt(doc: seq<Token>, rest: seq<Token>): Option<string>
  {
    if |rest| <= |doc| then CurrentName(doc[..|doc| - |rest|]) else None
  }

  /** Reading two token lists one after the other. */
  lemma {:induction false} ContextAppend(ctx: seq<Frame>, a: seq<Token>, b: seq<Token>)
    ensures Context(ctx, a + b) == Context(Context(ctx, a), b)
    decreases |a|
  {
    if a != [] {
      assert (a + b)[1..] == a[1..] + b;
      ContextAppend(Advance(ctx, a[0]), a[1..], b);
    } else {
      assert a + b == b;
    }
  }

  // ----- the head of a field loop -----

  /** What the head of a field loop finds: the closing `}`, or a name and the cursor on the value after it. */
  datatype Entry = Closed(rest: seq<Token>) | Entry(name: Option<string>, value: Cursor)

  /**
   * The head shared by the plugin's field loops: `nextToken()` until `}`,
   * then `getCurrentName()`, then `nextToken()` onto the value. A field token
   * names itself and must be followed by a value. The code never checks that
   * it stands on a field: on any other token it asks the context for the
   * current name and takes whatever token comes next as the value, which is
   * how a value that is read without being skipped puts the loop out of step.
   */
  function NextEntry(doc: seq<Token>, rest: seq<Token>): (r: Result<Entry>)
    ensures r.Err? <==> |rest| == 0 || (rest[0] != EndObj && (|rest| == 1 || (rest[0].Field? && !IsValueStart(rest[1]))))
    ensures r.Err? ==> r.fault == Malformed
    ensures r.Ok? && r.value.Closed? <==> |rest| >= 1 && rest[0] == EndObj
    ensures r.Ok? && r.value.Closed? ==> r.value.rest == rest[1..]
    ensures r.Ok? && r.value.Entry? ==> r.value.value == Cursor(rest[1], rest[2..])
    ensures r.Ok? && r.value.Entry? && rest[0].Field? ==> r.value.name == Some(rest[0].name)
    ensures r.Ok? && r.value.Entry? && !rest[0].Field? ==> r.value.name == NameAt(doc, rest[1..])
  {
    if |rest| == 0 then Err(Malformed)
    else match rest[0]
      case EndObj => Ok(Closed(rest[1..]))
      case Field(n) =>
        if |rest| == 1 || !IsValueStart(rest[1]) then Err(Malformed)
        else Ok(Entry(Some(n), Cursor(rest[1], rest[2..])))
      case _ =>
        if |rest| == 1 then Err(Malformed)
        else Ok(Entry(NameAt(doc, rest[1..]), Cursor(rest[1], rest[2..])))
  }
}
