/** The strict key check that runs over the tokens of a JSON document before it is decoded. */
module StrictJson {
  import opened Contract

  datatype Json = Null | Text(text: string) | Plain | Array(items: Items) | Object(fields: Fields)

  datatype Items = Nil | Cons(head: Json, tail: Items)

  datatype Fields = Empty | Field(key: string, value: Json, rest: Fields)

  /** What json.Decoder.Token returns. */
  datatype Token = NullToken | TextToken(text: string) | PlainToken | Delim(c: char)

  /** The types the contract decodes into, as reflection shows them. */
  datatype GoType =
    | Pointer(elem: GoType)
    | Struct(fields: map<string, GoType>, required: set<string>)
    | List(elem: GoType)
    | Other

  // ----- tokens of a value -----

  function Tokens(v: Json): seq<Token> {
    match v
    case Null => [NullToken]
    case Text(text) => [TextToken(text)]
    case Plain => [PlainToken]
    case Array(items) => [Delim('[')] + ItemTokens(items) + [Delim(']')]
    case Object(fields) => [Delim('{')] + FieldTokens(fields) + [Delim('}')]
  }

  function ItemTokens(items: Items): seq<Token> {
    match items
    case Nil => []
    case Cons(head, tail) => Tokens(head) + ItemTokens(tail)
  }

  function FieldTokens(fields: Fields): seq<Token> {
    match fields
    case Empty => []
    case Field(key, value, rest) => [TextToken(key)] + Tokens(value) + FieldTokens(rest)
  }

  // ----- what is accepted -----

  function Base(t: GoType): GoType { if t.Pointer? then Base(t.elem) else t }

  function Keys(fields: Fields): seq<string> {
    match fields
    case Empty => []
    case Field(key, _, rest) => [key] + Keys(rest)
  }

  /** No null where the type is not a pointer; struct-typed objects have known keys, none twice, and all
      required ones; what a type says nothing about is not looked into. */
  predicate Accepted(t: GoType, v: Json)
    decreases v
  {
    match v
    case Null => t.Pointer?
    case Object(fields) =>
      Base(t).Struct? ==>
        Unrepeated(Keys(fields)) && (forall name :: name in Base(t).required ==> name in Keys(fields)) &&
        AllKnown(Base(t).fields, fields)
    case Array(items) => Base(t).List? ==> AllAccepted(Base(t).elem, items)
    case _ => true
  }

  predicate Unrepeated(keys: seq<string>) { forall i, j :: 0 <= i < j < |keys| ==> keys[i] != keys[j] }

  predicate AllAccepted(t: GoType, items: Items)
    decreases items
  {
    items.Cons? ==> Accepted(t, items.head) && AllAccepted(t, items.tail)
  }

  predicate AllKnown(types: map<string, GoType>, fields: Fields)
    decreases fields
  {
    fields.Field? ==>
      fields.key in types && Accepted(types[fields.key], fields.value) && AllKnown(types, fields.rest)
  }

  // ----- counting one kind of bracket -----

  function Weight(t: Token, open: char, close: char): int {
    if t == Delim(open) then 1 else if t == Delim(close) then -1 else 0
  }

  function Net(s: seq<Token>, open: char, close: char): int {
    if s == [] then 0 else Net(s[..|s| - 1], open, close) + Weight(s[|s| - 1], open, close)
  }

  /** Brackets of this kind match up, and none is closed before it was opened. */
  ghost predicate Balanced(s: seq<Token>, open: char, close: char) {
    Net(s, open, close) == 0 && forall k :: 0 <= k <= |s| ==> Net(s[..k], open, close) >= 0
  }

  predicate Pair(open: char, close: char) { (open == '[' && close == ']') || (open == '{' && close == '}') }

  lemma {:induction false} NetConcat(a: seq<Token>, b: seq<Token>, open: char, close: char)
    ensures Net(a + b, open, close) == Net(a, open, close) + Net(b, open, close)
  {
    if b == [] {
      assert a + b == a;
    } else {
      assert (a + b)[..|a + b| - 1] == a + b[..|b| - 1];
      NetConcat(a, b[..|b| - 1], open, close);
    }
  }

  lemma BalancedConcat(a: seq<Token>, b: seq<Token>, open: char, close: char)
    requires Balanced(a, open, close) && Balanced(b, open, close)
    ensures Balanced(a + b, open, close)
  {
    NetConcat(a, b, open, close);
    forall k | 0 <= k <= |a + b| ensures Net((a + b)[..k], open, close) >= 0 {
      if k <= |a| {
        assert (a + b)[..k] == a[..k];
      } else {
        assert (a + b)[..k] == a + b[..k - |a|];
        NetConcat(a, b[..k - |a|], open, close);
      }
    }
  }

  lemma NetOne(t: Token, open: char, close: char)
    ensures Net([t], open, close) == Weight(t, open, close)
  {
    assert [t][..0] == [];
  }

  lemma BalancedOne(t: Token, open: char, close: char)
    requires Weight(t, open, close) == 0
    ensures Balanced([t], open, close)
  {
    NetOne(t, open, close);
    assert forall k :: 0 <= k <= 1 ==> [t][..k] == [] || [t][..k] == [t];
  }

  lemma BalancedWrap(s: seq<Token>, o: char, c: char, open: char, close: char)
    requires Pair(o, c) && Pair(open, close) && Balanced(s, open, close)
    ensures Balanced([Delim(o)] + s + [Delim(c)], open, close)
  {
    var front := [Delim(o)] + s;
    NetOne(Delim(o), open, close);
    NetOne(Delim(c), open, close);
    NetConcat([Delim(o)], s, open, close);
    NetConcat(front, [Delim(c)], open, close);
    forall k | 0 <= k <= |front| + 1 ensures Net((front + [Delim(c)])[..k], open, close) >= 0 {
      var whole := front + [Delim(c)];
      if k == 0 {
        assert whole[..k] == [];
      } else if k <= |front| {
        assert whole[..k] == [Delim(o)] + s[..k - 1];
        NetConcat([Delim(o)], s[..k - 1], open, close);
      } else {
        assert whole[..k] == whole;
      }
    }
  }

  lemma {:induction false} TokensBalanced(v: Json, open: char, close: char)
    requires Pair(open, close)
    ensures Balanced(Tokens(v), open, close)
  {
    hide Balanced;
    match v
    case Null => BalancedOne(NullToken, open, close);
    case Text(text) => BalancedOne(TextToken(text), open, close);
    case Plain => BalancedOne(PlainToken, open, close);
    case Array(items) =>
      ItemsBalanced(items, open, close);
      BalancedWrap(ItemTokens(items), '[', ']', open, close);
    case Object(fields) =>
      FieldsBalanced(fields, open, close);
      BalancedWrap(FieldTokens(fields), '{', '}', open, close);
  }

  lemma {:induction false} ItemsBalanced(items: Items, open: char, close: char)
    requires Pair(open, close)
    ensures Balanced(ItemTokens(items), open, close)
  {
    match items
    case Nil =>
    case Cons(head, tail) =>
      TokensBalanced(head, open, close);
      ItemsBalanced(tail, open, close);
      BalancedConcat(Tokens(head), ItemTokens(tail), open, close);
  }

  lemma {:induction false} FieldsBalanced(fields: Fields, open: char, close: char)
    requires Pair(open, close)
    ensures Balanced(FieldTokens(fields), open, close)
  {
    match fields
    case Empty =>
    case Field(key, value, rest) =>
      BalancedOne(TextToken(key), open, close);
      TokensBalanced(value, open, close);
      FieldsBalanced(rest, open, close);
      BalancedConcat([TextToken(key)], Tokens(value), open, close);
      BalancedConcat([TextToken(key)] + Tokens(value), FieldTokens(rest), open, close);
  }

  // ----- the decoder -----

  predicate Closing(t: Token) { t == Delim(']') || t == Delim('}') }

  lemma {:induction false} TokensOpen(v: Json)
    ensures Tokens(v) != [] && !Closing(Tokens(v)[0])
  {
  }

  class Decoder {
    const tokens: seq<Token>
    var pos: nat

    constructor (tokens: seq<Token>)
      ensures this.tokens == tokens && pos == 0
    {
      this.tokens, pos := tokens, 0;
    }

    /** What is still to be read. */
    function Rest(): seq<Token>
      reads this
    {
      if pos <= |tokens| then tokens[pos..] else []
    }

    /** Token; None is an error, which on well-formed input means the end. */
    method Next() returns (t: Option<Token>)
      modifies this
      ensures old(Rest()) == [] ==> t == None && Rest() == []
      ensures old(Rest()) != [] ==> t == Some(old(Rest()[0])) && Rest() == old(Rest())[1..]
    {
      if pos >= |tokens| { return None; }
      t := Some(tokens[pos]);
      pos := pos + 1;
    }

    method More() returns (more: bool)
      ensures more <==> Rest() != [] && !Closing(Rest()[0])
    {
      more := pos < |tokens| && !Closing(tokens[pos]);
    }
  }

  /** skipDelim: counting brackets of one kind, it stops right after the one that matches. */
  method SkipDelim(dec: Decoder, open: char, close: char, ghost inside: seq<Token>, ghost after: seq<Token>)
    returns (ok: bool)
    requires Pair(open, close) && Balanced(inside, open, close) && dec.Rest() == inside + [Delim(close)] + after
    modifies dec
    ensures ok && dec.Rest() == after
  {
    var depth := 1;
    ghost var i, all := 0, inside + [Delim(close)] + after;
    while depth > 0
      invariant 0 <= i <= |inside| + 1 && dec.Rest() == all[i..]
      invariant i <= |inside| ==> depth == 1 + Net(inside[..i], open, close)
      invariant i == |inside| + 1 ==> depth == 0
      decreases |inside| + 1 - i
    {
      var token := dec.Next();
      if token == None { return false; }
      if i < |inside| { assert inside[..i + 1][..i] == inside[..i]; } else { assert inside[..i] == inside; }
      if token.value == Delim(open) {
        depth := depth + 1;
      } else if token.value == Delim(close) {
        depth := depth - 1;
      }
      i := i + 1;
    }
    return true;
  }

  /** validateToken: it accepts exactly the accepted values, and then has consumed exactly that value. */
  method ValidateToken(dec: Decoder, t: GoType, ghost v: Json, ghost after: seq<Token>) returns (ok: bool)
    requires dec.Rest() == Tokens(v) + after
    modifies dec
    ensures ok <==> Accepted(t, v)
    ensures ok ==> dec.Rest() == after
    decreases v, 1
  {
    FirstToken(v, after);
    hide Tokens, FieldTokens, ItemTokens, Balanced;
    var token := dec.Next();
    if token.value == NullToken { return t.Pointer?; }
    var u := Base(t);
    if token.value == Delim('{') {
      if u.Struct? {
        ok := ValidateObject(dec, u, v.fields, after);
      } else {
        FieldsBalanced(v.fields, '{', '}');
        ok := SkipDelim(dec, '{', '}', FieldTokens(v.fields), after);
      }
    } else if token.value == Delim('[') {
      if u.List? {
        ok := ValidateArray(dec, u.elem, v.items, after);
      } else {
        ItemsBalanced(v.items, '[', ']');
        ok := SkipDelim(dec, '[', ']', ItemTokens(v.items), after);
      }
    } else {
      ok := true;
    }
  }

  /** validateArrayElements. */
  method ValidateArray(dec: Decoder, elem: GoType, ghost items: Items, ghost after: seq<Token>) returns (ok: bool)
    requires dec.Rest() == ItemTokens(items) + [Delim(']')] + after
    modifies dec
    ensures ok <==> AllAccepted(elem, items)
    ensures ok ==> dec.Rest() == after
    decreases items, 0
  {
    ghost var left := items;
    ItemsOpen(left, after);
    var more := dec.More();
    while more
      invariant left == items || left < items
      invariant dec.Rest() == ItemTokens(left) + [Delim(']')] + after
      invariant more <==> left.Cons?
      invariant AllAccepted(elem, items) <==> AllAccepted(elem, left)
      decreases left
    {
      ghost var then_ := ItemTokens(left.tail) + [Delim(']')] + after;
      FirstItem(left, after, then_);
      ok := ValidateToken(dec, elem, left.head, then_);
      if !ok { return; }
      left := left.tail;
      ItemsOpen(left, after);
      more := dec.More();
    }
    assert ItemTokens(left) == [];
    var token := dec.Next();
    return token.Some?;
  }

  lemma ItemsOpen(items: Items, after: seq<Token>)
    ensures var rest := ItemTokens(items) + [Delim(']')] + after;
            rest != [] && (items.Cons? <==> !Closing(rest[0]))
  {
    if items.Cons? { TokensOpen(items.head); }
  }

  lemma FieldsOpen(fields: Fields, after: seq<Token>)
    ensures var rest := FieldTokens(fields) + [Delim('}')] + after;
            rest != [] && (fields.Field? <==> !Closing(rest[0]))
  {
  }

  lemma RepeatedKey(done: seq<string>, left: Fields, key: string)
    requires left.Field? && left.key == key && key in done
    ensures !Unrepeated(done + Keys(left))
  {
    var i :| 0 <= i < |done| && done[i] == key;
    var all := done + Keys(left);
    assert all[i] == key && all[|done|] == key;
  }

  lemma NewKey(done: seq<string>, key: string)
    requires Unrepeated(done) && key !in done
    ensures Unrepeated(done + [key])
  {
  }

  lemma KeyStep(fields: Fields, done: seq<string>, left: Fields)
    requires left.Field? && Keys(fields) == done + Keys(left)
    ensures Keys(fields) == done + [left.key] + Keys(left.rest)
  {
    assert Keys(left) == [left.key] + Keys(left.rest);
  }

  lemma NothingRepeated(fields: Fields)
    ensures Unrepeated([]) && [] + Keys(fields) == Keys(fields)
  {
  }

  lemma KnownStep(types: map<string, GoType>, left: Fields)
    requires left.Field?
    ensures AllKnown(types, left) <==>
      left.key in types && Accepted(types[left.key], left.value) && AllKnown(types, left.rest)
  {
  }

  lemma NothingKnown(types: map<string, GoType>, left: Fields)
    requires !left.Field?
    ensures AllKnown(types, left) && Keys(left) == [] && FieldTokens(left) == []
  {
  }

  /** validateObject. */
  method ValidateObject(dec: Decoder, t: GoType, ghost fields: Fields, ghost after: seq<Token>) returns (ok: bool)
    requires t.Struct? && dec.Rest() == FieldTokens(fields) + [Delim('}')] + after
    modifies dec
    ensures ok <==>
      Unrepeated(Keys(fields)) && (forall name :: name in t.required ==> name in Keys(fields)) &&
      AllKnown(t.fields, fields)
    ensures ok ==> dec.Rest() == after
    decreases fields, 0
  {
    hide Unrepeated, AllKnown, Accepted, Keys, Tokens, FieldTokens;
    var seen: set<string> := {};
    NothingRepeated(fields);
    ghost var left, done: seq<string> := fields, [];
    FieldsOpen(left, after);
    var more := dec.More();
    while more
      invariant left == fields || left < fields
      invariant dec.Rest() == FieldTokens(left) + [Delim('}')] + after
      invariant more <==> left.Field?
      invariant Keys(fields) == done + Keys(left) && Unrepeated(done) && forall k :: k in seen <==> k in done
      invariant AllKnown(t.fields, fields) <==> AllKnown(t.fields, left)
      decreases left
    {
      KnownStep(t.fields, left);
      ghost var then_ := FieldTokens(left.rest) + [Delim('}')] + after;
      FirstField(left, after, then_);
      var key := dec.Next();
      if key.value.text !in t.fields { return false; }
      if key.value.text in seen {
        RepeatedKey(done, left, left.key);
        return false;
      }
      NewKey(done, left.key);
      ghost var done0 := done;
      seen, done := seen + {key.value.text}, done + [left.key];
      ok := ValidateToken(dec, t.fields[key.value.text], left.value, then_);
      if !ok { return; }
      KeyStep(fields, done0, left);
      left := left.rest;
      FieldsOpen(left, after);
      more := dec.More();
    }
    NothingKnown(t.fields, left);
    assert done + [] == done;
    var token := dec.Next();
    return token.Some? && t.required <= seen;
  }

  /** validateJSONKeys: one accepted value and nothing after it. */
  method ValidateKeys(tokens: seq<Token>, t: GoType, ghost v: Json, ghost after: seq<Token>) returns (ok: bool)
    requires tokens == Tokens(v) + after
    ensures ok <==> Accepted(if t.Pointer? then t.elem else t, v) && after == []
  {
    var dec := new Decoder(tokens);
    assert tokens[0..] == tokens;
    ok := ValidateToken(dec, if t.Pointer? then t.elem else t, v, after);
    if !ok { return; }
    var extra := dec.Next();
    ok := extra == None;
  }

  // ----- tokens determine the value -----

  /** The tokens of one value are never a proper beginning of another's: what is consumed is no matter of choice. */
  lemma {:induction false} TokensPrefixFree(v: Json, x: seq<Token>, w: Json, y: seq<Token>)
    requires Tokens(v) + x == Tokens(w) + y
    ensures v == w && x == y
    decreases v
  {
    FirstToken(v, x);
    FirstToken(w, y);
    hide Tokens;
    match v
    case Array(items) => ItemsPrefixFree(items, x, w.items, y);
    case Object(fields) => FieldsPrefixFree(fields, x, w.fields, y);
    case _ =>
  }

  /** What follows the first token of a value. */
  function Inside(v: Json): seq<Token> {
    match v
    case Array(items) => ItemTokens(items) + [Delim(']')]
    case Object(fields) => FieldTokens(fields) + [Delim('}')]
    case _ => []
  }

  function Head(v: Json): Token {
    match v
    case Null => NullToken
    case Text(text) => TextToken(text)
    case Plain => PlainToken
    case Array(_) => Delim('[')
    case Object(_) => Delim('{')
  }

  lemma FirstToken(v: Json, x: seq<Token>)
    ensures (Tokens(v) + x)[0] == Head(v) && (Tokens(v) + x)[1..] == Inside(v) + x && Tokens(v) != []
  {
    hide ItemTokens, FieldTokens;
    assert Tokens(v) == [Head(v)] + Inside(v);
    assert Tokens(v) + x == [Head(v)] + (Inside(v) + x);
  }

  lemma FirstItem(a: Items, x: seq<Token>, p: seq<Token>)
    requires a.Cons? && p == ItemTokens(a.tail) + [Delim(']')] + x
    ensures ItemTokens(a) + [Delim(']')] + x == Tokens(a.head) + p
  {
    hide Tokens;
    assert ItemTokens(a) == Tokens(a.head) + ItemTokens(a.tail);
  }

  lemma {:induction false} ItemsPrefixFree(a: Items, x: seq<Token>, b: Items, y: seq<Token>)
    requires ItemTokens(a) + [Delim(']')] + x == ItemTokens(b) + [Delim(']')] + y
    ensures a == b && x == y
    decreases a
  {
    var l, r := ItemTokens(a) + [Delim(']')] + x, ItemTokens(b) + [Delim(']')] + y;
    ItemsOpen(a, x);
    ItemsOpen(b, y);
    if a.Cons? {
      var p, q := ItemTokens(a.tail) + [Delim(']')] + x, ItemTokens(b.tail) + [Delim(']')] + y;
      FirstItem(a, x, p);
      FirstItem(b, y, q);
      TokensPrefixFree(a.head, p, b.head, q);
      ItemsPrefixFree(a.tail, x, b.tail, y);
    } else {
      assert l[1..] == x && r[1..] == y;
    }
  }

  lemma FirstField(a: Fields, x: seq<Token>, p: seq<Token>)
    requires a.Field? && p == FieldTokens(a.rest) + [Delim('}')] + x
    ensures var l := FieldTokens(a) + [Delim('}')] + x; l[0] == TextToken(a.key) && l[1..] == Tokens(a.value) + p
  {
    hide Tokens;
    var rest := FieldTokens(a.rest);
    assert FieldTokens(a) == [TextToken(a.key)] + Tokens(a.value) + rest;
    var l := FieldTokens(a) + [Delim('}')] + x;
    assert l == [TextToken(a.key)] + (Tokens(a.value) + p);
  }

  lemma {:induction false} FieldsPrefixFree(a: Fields, x: seq<Token>, b: Fields, y: seq<Token>)
    requires FieldTokens(a) + [Delim('}')] + x == FieldTokens(b) + [Delim('}')] + y
    ensures a == b && x == y
    decreases a
  {
    var l, r := FieldTokens(a) + [Delim('}')] + x, FieldTokens(b) + [Delim('}')] + y;
    FieldsOpen(a, x);
    FieldsOpen(b, y);
    if a.Field? {
      var p, q := FieldTokens(a.rest) + [Delim('}')] + x, FieldTokens(b.rest) + [Delim('}')] + y;
      FirstField(a, x, p);
      FirstField(b, y, q);
      TokensPrefixFree(a.value, p, b.value, q);
      FieldsPrefixFree(a.rest, x, b.rest, y);
    } else {
      assert l[1..] == x && r[1..] == y;
    }
  }
}
