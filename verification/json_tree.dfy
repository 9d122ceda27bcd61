/**
 * JSON documents as trees, their token serialisation, and the alignment
 * property of `skipChildren`: skipping a serialised value consumes exactly its
 * tokens, whatever follows them.
 */
module JsonTree {
  import opened Common
  import opened Tokens

  datatype Json =
    | JScalar(text: string)
    | JArr(items: seq<Json>)
    | JObj(members: seq<Member>)

  datatype Member = Member(key: string, value: Json)

  /** The tokens Jackson delivers for a value. */
  function Tok(j: Json): (r: seq<Token>)
    ensures |r| >= 1 && IsValueStart(r[0])
    decreases j, 1
  {
    match j
    case JScalar(t) => [Scalar(t)]
    case JArr(items) => [StartArr] + ItemsTok(items) + [EndArr]
    case JObj(ms) => [StartObj] + MembersTok(ms) + [EndObj]
  }

  function ItemsTok(items: seq<Json>): seq<Token>
    decreases items, 0
  {
    if items == [] then [] else Tok(items[0]) + ItemsTok(items[1..])
  }

  function MembersTok(ms: seq<Member>): seq<Token>
    decreases ms, 0
  {
    if ms == [] then [] else MemberTok(ms[0]) + MembersTok(ms[1..])
  }

  function MemberTok(m: Member): seq<Token>
    decreases m, 0
  {
    [Field(m.key)] + Tok(m.value)
  }

  /** The token the cursor rests on once a value has been read and skipped. */
  function Closing(j: Json): Token
  {
    match j
    case JScalar(t) => Scalar(t)
    case JArr(_) => EndArr
    case JObj(_) => EndObj
  }

  /** What `getText()` returns with the cursor on the first token of a value, which is read without skipping it. */
  function ValueText(j: Json): string
  {
    match j
    case JScalar(t) => t
    case JArr(_) => "["
    case JObj(_) => "{"
  }

  /** What `getText()` returns once a value has been skipped. */
  function SkippedText(j: Json): string
  {
    Text(Closing(j))
  }

  lemma {:induction false} SkipOverValue(j: Json, tail: seq<Token>, depth: nat)
    requires depth >= 1
    ensures SkipTo(Tok(j) + tail, depth) == SkipTo(tail, depth)
    decreases j, 1
  {
    match j
    case JScalar(t) =>
      assert (Tok(j) + tail)[1..] == tail;
    case JArr(items) =>
      var s := Tok(j) + tail;
      assert s == [StartArr] + (ItemsTok(items) + ([EndArr] + tail));
      assert s[1..] == ItemsTok(items) + ([EndArr] + tail);
      SkipOverItems(items, [EndArr] + tail, depth + 1);
      assert ([EndArr] + tail)[1..] == tail;
    case JObj(ms) =>
      var s := Tok(j) + tail;
      assert s == [StartObj] + (MembersTok(ms) + ([EndObj] + tail));
      assert s[1..] == MembersTok(ms) + ([EndObj] + tail);
      SkipOverMembers(ms, [EndObj] + tail, depth + 1);
      assert ([EndObj] + tail)[1..] == tail;
  }

  lemma {:induction false} SkipOverItems(items: seq<Json>, tail: seq<Token>, depth: nat)
    requires depth >= 1
    ensures SkipTo(ItemsTok(items) + tail, depth) == SkipTo(tail, depth)
    decreases items, 0
  {
    if items == [] {
      assert ItemsTok(items) + tail == tail;
    } else {
      assert ItemsTok(items) + tail == Tok(items[0]) + (ItemsTok(items[1..]) + tail);
      SkipOverValue(items[0], ItemsTok(items[1..]) + tail, depth);
      SkipOverItems(items[1..], tail, depth);
    }
  }

  lemma {:induction false} SkipOverMembers(ms: seq<Member>, tail: seq<Token>, depth: nat)
    requires depth >= 1
    ensures SkipTo(MembersTok(ms) + tail, depth) == SkipTo(tail, depth)
    decreases ms, 0
  {
    if ms == [] {
      assert MembersTok(ms) + tail == tail;
    } else {
      var m := ms[0];
      var s := MembersTok(ms) + tail;
      MembersCons(ms, tail);
      assert s[1..] == Tok(m.value) + (MembersTok(ms[1..]) + tail);
      SkipOverValue(m.value, MembersTok(ms[1..]) + tail, depth);
      SkipOverMembers(ms[1..], tail, depth);
    }
  }

  /**
   * Skipping keeps alignment: with the cursor on the first token of a value,
   * `skipChildren` leaves it on the value's last token with exactly the tokens
   * after the value still unread.
   */
  lemma {:induction false} SkipValue(j: Json, tail: seq<Token>)
    ensures var t := Tok(j) + tail;
            SkipChildren(Cursor(t[0], t[1..])) == Ok(Cursor(Closing(j), tail))
  {
    var t := Tok(j) + tail;
    match j
    case JScalar(s) =>
      assert t[1..] == tail;
    case JArr(items) =>
      assert t[1..] == ItemsTok(items) + ([EndArr] + tail);
      SkipOverItems(items, [EndArr] + tail, 1);
      assert ([EndArr] + tail)[1..] == tail;
    case JObj(ms) =>
      assert t[1..] == MembersTok(ms) + ([EndObj] + tail);
      SkipOverMembers(ms, [EndObj] + tail, 1);
      assert ([EndObj] + tail)[1..] == tail;
  }

  /** Splitting the serialisation of a non-empty member list at its first member. */
  lemma MembersCons(ms: seq<Member>, tail: seq<Token>)
    requires ms != []
    ensures MembersTok(ms) + tail
         == [Field(ms[0].key)] + (Tok(ms[0].value) + (MembersTok(ms[1..]) + tail))
  {
  }

  /** Splitting the serialisation of a non-empty item list at its first item. */
  lemma ItemsCons(items: seq<Json>, tail: seq<Token>)
    requires items != []
    ensures ItemsTok(items) + tail == Tok(items[0]) + (ItemsTok(items[1..]) + tail)
  {
  }

  // ----- the parsing context over serialised values -----

  /** The last token of a serialised value is the one `Closing` names. */
  lemma LastToken(j: Json)
    ensures Tok(j)[|Tok(j)| - 1] == Closing(j)
  {
  }

  /** The field name an object frame holds after its members `ms` have been read. */
  function LastKey(x: Option<string>, ms: seq<Member>): Option<string>
  {
    if ms == [] then x else Some(ms[|ms| - 1].key)
  }

  /** A serialised value leaves the context as it found it. */
  lemma {:induction false} ValueBalanced(ctx: seq<Frame>, j: Json)
    ensures Context(ctx, Tok(j)) == ctx
    decreases j, 1
  {
    match j
    case JScalar(t) =>
      assert Tok(j)[1..] == [];
    case JArr(items) =>
      var inner := ItemsTok(items) + [EndArr];
      assert Tok(j) == [StartArr] + inner;
      ContextAppend(ctx, [StartArr], inner);
      assert Context(ctx, [StartArr]) == ctx + [InArray] by {
        assert [StartArr][1..] == [];
      }
      ContextAppend(ctx + [InArray], ItemsTok(items), [EndArr]);
      ItemsBalanced(ctx + [InArray], items);
      assert [EndArr][1..] == [];
      assert (ctx + [InArray])[..|ctx|] == ctx;
    case JObj(ms) =>
      var inner := MembersTok(ms) + [EndObj];
      assert Tok(j) == [StartObj] + inner;
      ContextAppend(ctx, [StartObj], inner);
      assert Context(ctx, [StartObj]) == ctx + [InObject(None)] by {
        assert [StartObj][1..] == [];
      }
      ContextAppend(ctx + [InObject(None)], MembersTok(ms), [EndObj]);
      MembersContext(ctx, None, ms);
      var x := LastKey(None, ms);
      assert [EndObj][1..] == [];
      assert (ctx + [InObject(x)])[..|ctx|] == ctx;
  }

  /** Serialised array items leave the context as they found it. */
  lemma {:induction false} ItemsBalanced(ctx: seq<Frame>, items: seq<Json>)
    ensures Context(ctx, ItemsTok(items)) == ctx
    decreases items, 0
  {
    if items != [] {
      ContextAppend(ctx, Tok(items[0]), ItemsTok(items[1..]));
      ValueBalanced(ctx, items[0]);
      ItemsBalanced(ctx, items[1..]);
    }
  }

  /** Inside an object, serialised members leave the object's frame holding the last member's key. */
  lemma {:induction false} MembersContext(c: seq<Frame>, x: Option<string>, ms: seq<Member>)
    ensures Context(c + [InObject(x)], MembersTok(ms)) == c + [InObject(LastKey(x, ms))]
    decreases ms, 0
  {
    if ms != [] {
      var m := ms[0];
      MembersCons(ms, []);
      assert MembersTok(ms) == [Field(m.key)] + (Tok(m.value) + MembersTok(ms[1..]));
      ContextAppend(c + [InObject(x)], [Field(m.key)], Tok(m.value) + MembersTok(ms[1..]));
      assert Context(c + [InObject(x)], [Field(m.key)]) == c + [InObject(Some(m.key))] by {
        assert [Field(m.key)][1..] == [];
        assert (c + [InObject(x)])[..|c|] == c;
      }
      ContextAppend(c + [InObject(Some(m.key))], Tok(m.value), MembersTok(ms[1..]));
      ValueBalanced(c + [InObject(Some(m.key))], m.value);
      MembersContext(c, Some(m.key), ms[1..]);
      assert LastKey(Some(m.key), ms[1..]) == LastKey(x, ms) by {
        if ms[1..] != [] {
          assert ms[1..][|ms[1..]| - 1] == ms[|ms| - 1];
        }
      }
    } else {
      assert MembersTok(ms) == [];
    }
  }

  /** After the last token of a value, `getCurrentName()` is the name the context holds. */
  lemma NameAfterValue(read: seq<Token>, j: Json)
    requires |read| >= |Tok(j)| && read[|read| - |Tok(j)|..] == Tok(j)
    ensures CurrentName(read) == NameIn(Context([], read))
  {
    LastToken(j);
    assert read[|read| - 1] == Tok(j)[|Tok(j)| - 1];
  }

  /** In an object, a field and its value leave the object's frame holding the field's name. */
  lemma FieldContext(ctx: seq<Frame>, k: string, j: Json)
    requires ctx != [] && ctx[|ctx| - 1].InObject?
    ensures Context(ctx, [Field(k)] + Tok(j)) == ctx[..|ctx| - 1] + [InObject(Some(k))]
  {
    var top := ctx[..|ctx| - 1] + [InObject(Some(k))];
    ContextAppend(ctx, [Field(k)], Tok(j));
    assert Context(ctx, [Field(k)]) == top by {
      assert [Field(k)][1..] == [];
    }
    ValueBalanced(top, j);
  }

  /**
   * Once a field's value has been read to its last token, `getCurrentName()`
   * answers that field's name, provided the field stood in an object.
   */
  lemma ValueIsNamed(pre: seq<Token>, k: string, j: Json)
    requires Context([], pre) != [] && Context([], pre)[|Context([], pre)| - 1].InObject?
    ensures CurrentName(pre + [Field(k)] + Tok(j)) == Some(k)
  {
    var read := pre + [Field(k)] + Tok(j);
    assert read == pre + ([Field(k)] + Tok(j));
    assert read[|read| - |Tok(j)|..] == Tok(j);
    NameAfterValue(read, j);
    ContextAppend([], pre, [Field(k)] + Tok(j));
    FieldContext(Context([], pre), k, j);
  }

  /** Opening an array and reading whole items leaves the context one array deeper. */
  lemma {:induction false} ArrayContext(pre: seq<Token>, items: seq<Json>, j: Json)
    ensures Context([], pre + [StartArr] + ItemsTok(items) + Tok(j)) == Context([], pre) + [InArray]
  {
    var ctx := Context([], pre);
    var inner := ItemsTok(items) + Tok(j);
    assert pre + [StartArr] + ItemsTok(items) + Tok(j) == pre + ([StartArr] + inner);
    ContextAppend([], pre, [StartArr] + inner);
    ContextAppend(ctx, [StartArr], inner);
    assert Context(ctx, [StartArr]) == ctx + [InArray] by {
      assert [StartArr][1..] == [];
    }
    ContextAppend(ctx + [InArray], ItemsTok(items), Tok(j));
    ItemsBalanced(ctx + [InArray], items);
    ValueBalanced(ctx + [InArray], j);
  }

  /** Once an array item has been read to its last token, `getCurrentName()` answers null. */
  lemma ItemIsUnnamed(pre: seq<Token>, items: seq<Json>, j: Json)
    ensures CurrentName(pre + [StartArr] + ItemsTok(items) + Tok(j)) == None
  {
    var front := pre + [StartArr] + ItemsTok(items);
    var read := front + Tok(j);
    assert read[|front|..] == Tok(j);
    NameAfterValue(read, j);
    ArrayContext(pre, items, j);
  }
}
