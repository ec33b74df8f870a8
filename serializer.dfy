/** The property walk of `toCssLiteral`, as functions on an explicit
    accumulator, and the document it produces.

    The accumulator `Acc` is the closure state of the source: the open text
    buffer and the two lists of closed fragments and expressions.
    `SerializeProp`/`SerializeUpTo` step it exactly as the property loop
    does.  `PropStream`/`StreamUpTo` say independently what that loop writes:
    a stream of characters and expression holes.  `SerializeRenders` proves
    that an accumulator with as many fragments as expressions, read back as
    a stream, becomes the old stream followed by the document of the
    properties walked; `FlatUpTo` proves the same of the text alone from any
    accumulator, and `SerializeFrame` that a walk depends on what was closed
    before only by keeping it in front. */
module Serializer {
  import opened Ast
  import opened Names

  datatype Acc = Acc(text: string, quasis: seq<string>, exprs: seq<Expr>)

  const Start := Acc("", [], [])

  /** Two spaces per nesting level; the top level is 1. */
  function Indent(level: nat): (r: string)
    ensures |r| == 2 * level
  {
    if level == 0 then "" else "  " + Indent(level - 1)
  }

  lemma {:induction false} IndentSpaces(level: nat)
    ensures forall k :: 0 <= k < |Indent(level)| ==> Indent(level)[k] == ' '
  {
    if level > 0 {
      IndentSpaces(level - 1);
      assert Indent(level) == "  " + Indent(level - 1);
    }
  }

  function Append(acc: Acc, s: string): Acc
  {
    acc.(text := acc.text + s)
  }

  /** Close the open fragment, pair it with `e`, open a new one with `s`. */
  function Finalize(acc: Acc, e: Expr, s: string): Acc
  {
    Acc(s, acc.quasis + [acc.text], acc.exprs + [e])
  }

  function StaticName(k: Key): string
    requires !k.Computed?
  {
    match k
    case Ident(name) => name
    case StrKey(value) => value
  }

  /** `key && !unitless[key]`: the name is unset for a computed key and
      falsy when empty. */
  predicate TakesPx(k: Key)
  {
    !k.Computed? && StaticName(k) != "" && !IsUnitless(StaticName(k))
  }

  /** The key of a property: a static key is written inline after a line
      break and the indent; a computed key closes the fragment after them and
      is interpolated, and the new fragment starts with `sep`. */
  function EmitKey(acc: Acc, k: Key, indent: string, name: string, sep: string): Acc
  {
    if k.Computed? then Finalize(Append(acc, "\n" + indent), Source(k.expr), sep)
    else Append(acc, "\n" + indent + name + sep)
  }

  /** The value of a leaf property keyed by `k`. */
  function EmitLeaf(acc: Acc, k: Key, v: Value): Acc
    requires !v.Obj?
  {
    match v
    case StrLit(s) => Append(acc, s + ";")
    case NumLit(d) => Append(acc, (if TakesPx(k) then d + "px" else d) + ";")
    case _ => Finalize(acc, Source(v), ";")
  }

  /** One property at position `i` of an object at depth `level`. */
  function SerializeProp(p: Prop, i: nat, level: nat, acc: Acc): Acc
    decreases p, 0
  {
    var indent := Indent(level);
    match p.value
    case Obj(children) =>
      var blank := if i != 0 then Append(acc, "\n") else acc;
      var head := EmitKey(blank, p.key, indent, if p.key.Computed? then "" else StaticName(p.key), " {");
      var inner := SerializeUpTo(children, |children|, level + 1, head);
      Append(inner, "\n" + indent + "}")
    case _ =>
      var keyed := EmitKey(acc, p.key, indent, if p.key.Computed? then "" else Dashify(StaticName(p.key)), ": ");
      EmitLeaf(keyed, p.key, p.value)
  }

  /** The first `n` properties of `styles`, in order. */
  function SerializeUpTo(styles: seq<Prop>, n: nat, level: nat, acc: Acc): Acc
    requires n <= |styles|
    decreases styles, n
  {
    if n == 0 then acc
    else SerializeProp(styles[n - 1], n - 1, level, SerializeUpTo(styles, n - 1, level, acc))
  }

  function Serialize(styles: seq<Prop>, level: nat, acc: Acc): Acc
  {
    SerializeUpTo(styles, |styles|, level, acc)
  }

  /** A leaf whose value is a string or numeric literal closes no fragment
      when its key is static and writes the dashified key, the literal, and
      `";"`; a string is written verbatim, and a number takes `"px"` exactly
      when its key is static, non-empty and not unitless, so never when the
      key is computed. */
  lemma LiteralLeaf(p: Prop, i: nat, level: nat, acc: Acc)
    requires p.value.StrLit? || p.value.NumLit?
    ensures var lit :=
        if p.value.StrLit? then p.value.value
        else if !p.key.Computed? && StaticName(p.key) != "" && !IsUnitless(StaticName(p.key)) then p.value.digits + "px"
        else p.value.digits;
      SerializeProp(p, i, level, acc) ==
        if p.key.Computed? then Acc(": " + lit + ";", acc.quasis + [acc.text + "\n" + Indent(level)], acc.exprs + [Source(p.key.expr)])
        else Acc(acc.text + "\n" + Indent(level) + Dashify(StaticName(p.key)) + ": " + lit + ";", acc.quasis, acc.exprs)
  {
    var indent := Indent(level);
    var lit :=
      if p.value.StrLit? then p.value.value
      else if TakesPx(p.key) then p.value.digits + "px"
      else p.value.digits;
    var name := if p.key.Computed? then "" else Dashify(StaticName(p.key));
    var keyed := EmitKey(acc, p.key, indent, name, ": ");
    assert SerializeProp(p, i, level, acc) == EmitLeaf(keyed, p.key, p.value);
    assert EmitLeaf(keyed, p.key, p.value) == Append(keyed, lit + ";");
    if p.key.Computed? {
      assert acc.text + ("\n" + indent) == acc.text + "\n" + indent;
      assert keyed == Acc(": ", acc.quasis + [acc.text + "\n" + indent], acc.exprs + [Source(p.key.expr)]);
      assert ": " + (lit + ";") == ": " + lit + ";";
    } else {
      StringAssoc(acc.text, "\n", indent, name, ": ");
      assert keyed == Acc(acc.text + "\n" + indent + name + ": ", acc.quasis, acc.exprs);
      assert keyed.text + (lit + ";") == keyed.text + lit + ";";
    }
  }

  lemma StringAssoc(a: string, b: string, c: string, d: string, e: string)
    ensures a + (b + c + d + e) == a + b + c + d + e
  {
  }

  // ---------------------------------------------------------------------
  // The expressions the walk interpolates.

  /** A computed key is interpolated; a static one is written inline. */
  function KeyHoles(k: Key): seq<Expr>
  {
    if k.Computed? then [Source(k.expr)] else []
  }

  /** A leaf value other than a string or numeric literal is interpolated. */
  function LeafHoles(v: Value): seq<Expr>
  {
    if v.StrLit? || v.NumLit? || v.Obj? then [] else [Source(v)]
  }

  /** A computed key, then either the children's expressions or a value
      that is not a string, number or object literal. */
  function PropHoles(p: Prop): seq<Expr>
    decreases p, 0
  {
    KeyHoles(p.key)
    + match p.value
      case Obj(children) => HolesUpTo(children, |children|)
      case _ => LeafHoles(p.value)
  }

  function HolesUpTo(styles: seq<Prop>, n: nat): seq<Expr>
    requires n <= |styles|
    decreases styles, n
  {
    if n == 0 then [] else HolesUpTo(styles, n - 1) + PropHoles(styles[n - 1])
  }

  /** `r` is `acc` after `holes` were interpolated: one fragment closed per
      expression, the expressions appended in order, and the fragments
      closed before kept as they were. */
  predicate Extends(r: Acc, acc: Acc, holes: seq<Expr>)
  {
    && |r.quasis| == |acc.quasis| + |holes|
    && acc.quasis <= r.quasis
    && r.exprs == acc.exprs + holes
  }

  lemma ExtendsChain(a: Acc, b: Acc, c: Acc, h1: seq<Expr>, h2: seq<Expr>)
    requires Extends(b, a, h1) && Extends(c, b, h2)
    ensures Extends(c, a, h1 + h2)
  {
    assert c.exprs == (a.exprs + h1) + h2;
  }

  lemma AppendExtends(acc: Acc, s: string)
    ensures Extends(Append(acc, s), acc, [])
  {
    assert acc.exprs + [] == acc.exprs;
  }

  lemma KeyPushes(acc: Acc, k: Key, indent: string, name: string, sep: string)
    ensures Extends(EmitKey(acc, k, indent, name, sep), acc, KeyHoles(k))
  {
    if !k.Computed? {
      AppendExtends(acc, "\n" + indent + name + sep);
    }
  }

  lemma LeafPushes(acc: Acc, k: Key, v: Value)
    requires !v.Obj?
    ensures Extends(EmitLeaf(acc, k, v), acc, LeafHoles(v))
  {
    match v
    case StrLit(s) => AppendExtends(acc, s + ";");
    case NumLit(d) => AppendExtends(acc, (if TakesPx(k) then d + "px" else d) + ";");
    case _ =>
  }

  lemma {:induction false} PropPushes(p: Prop, i: nat, level: nat, acc: Acc)
    ensures Extends(SerializeProp(p, i, level, acc), acc, PropHoles(p))
    decreases p, 2
  {
    if p.value.Obj? {
      BlockPushes(p, i, level, acc);
    } else {
      var indent := Indent(level);
      var name := if p.key.Computed? then "" else Dashify(StaticName(p.key));
      var keyed := EmitKey(acc, p.key, indent, name, ": ");
      KeyPushes(acc, p.key, indent, name, ": ");
      LeafPushes(keyed, p.key, p.value);
      ExtendsChain(acc, keyed, EmitLeaf(keyed, p.key, p.value), KeyHoles(p.key), LeafHoles(p.value));
    }
  }

  lemma {:induction false} BlockPushes(p: Prop, i: nat, level: nat, acc: Acc)
    requires p.value.Obj?
    ensures Extends(SerializeProp(p, i, level, acc), acc, PropHoles(p))
    decreases p, 1
  {
    var indent := Indent(level);
    var children := p.value.props;
    var blank := if i != 0 then Append(acc, "\n") else acc;
    AppendExtends(acc, "\n");
    assert Extends(blank, acc, []);
    var name := if p.key.Computed? then "" else StaticName(p.key);
    var head := EmitKey(blank, p.key, indent, name, " {");
    KeyPushes(blank, p.key, indent, name, " {");
    var kh := KeyHoles(p.key);
    ExtendsChain(acc, blank, head, [], kh);
    assert [] + kh == kh;
    UpToPushes(children, |children|, level + 1, head);
    var inner := SerializeUpTo(children, |children|, level + 1, head);
    var ch := HolesUpTo(children, |children|);
    ExtendsChain(acc, head, inner, kh, ch);
    AppendExtends(inner, "\n" + indent + "}");
    ExtendsChain(acc, inner, Append(inner, "\n" + indent + "}"), kh + ch, []);
    assert kh + ch + [] == PropHoles(p);
  }

  /** The walk closes one fragment per interpolated expression, appends the
      expressions in property order and never touches what was closed
      before. */
  lemma {:induction false} UpToPushes(styles: seq<Prop>, n: nat, level: nat, acc: Acc)
    requires n <= |styles|
    ensures Extends(SerializeUpTo(styles, n, level, acc), acc, HolesUpTo(styles, n))
    decreases styles, n
  {
    if n == 0 {
      assert acc.exprs + [] == acc.exprs;
    } else {
      UpToPushes(styles, n - 1, level, acc);
      var mid := SerializeUpTo(styles, n - 1, level, acc);
      PropPushes(styles[n - 1], n - 1, level, mid);
      ExtendsChain(acc, mid, SerializeProp(styles[n - 1], n - 1, level, mid),
        HolesUpTo(styles, n - 1), PropHoles(styles[n - 1]));
    }
  }

  // ---------------------------------------------------------------------
  // The document: characters and expression holes.

  datatype Tok = Chr(c: char) | Hole(e: Expr)

  function Chars(s: string): (r: seq<Tok>)
    ensures |r| == |s|
  {
    seq(|s|, i requires 0 <= i < |s| => Chr(s[i]))
  }

  lemma CharsConcat(a: string, b: string)
    ensures Chars(a + b) == Chars(a) + Chars(b)
  {
  }

  /** Fragment 0, expression 0, fragment 1, expression 1, ... */
  function Pairs(quasis: seq<string>, exprs: seq<Expr>): seq<Tok>
    requires |quasis| == |exprs|
  {
    if quasis == [] then []
    else
      var n := |quasis| - 1;
      Pairs(quasis[..n], exprs[..n]) + Chars(quasis[n]) + [Hole(exprs[n])]
  }

  /** What an accumulator with as many closed fragments as expressions holds,
      read in order, the open buffer last. */
  function Rendered(acc: Acc): seq<Tok>
    requires |acc.quasis| == |acc.exprs|
  {
    Pairs(acc.quasis, acc.exprs) + Chars(acc.text)
  }

  function KeyStream(k: Key, indent: string, name: string, sep: string): seq<Tok>
  {
    if k.Computed? then Chars("\n" + indent) + [Hole(Source(k.expr))] + Chars(sep)
    else Chars("\n" + indent + name + sep)
  }

  function LeafStream(k: Key, v: Value): seq<Tok>
    requires !v.Obj?
  {
    match v
    case StrLit(s) => Chars(s + ";")
    case NumLit(d) => Chars(d + (if TakesPx(k) then "px;" else ";"))
    case _ => [Hole(Source(v))] + Chars(";")
  }

  /** The document of one property: a nested block opens with `" {"` under
      the raw key (after a blank line unless it comes first), holds its
      children one level deeper and closes at the key's indent; a leaf is the
      dashified key, `": "`, and the value with `";"`. */
  function PropStream(p: Prop, i: nat, level: nat): seq<Tok>
    decreases p, 0
  {
    var indent := Indent(level);
    match p.value
    case Obj(children) =>
      (if i != 0 then Chars("\n") else [])
      + KeyStream(p.key, indent, if p.key.Computed? then "" else StaticName(p.key), " {")
      + StreamUpTo(children, |children|, level + 1)
      + Chars("\n" + indent + "}")
    case _ =>
      KeyStream(p.key, indent, if p.key.Computed? then "" else Dashify(StaticName(p.key)), ": ")
      + LeafStream(p.key, p.value)
  }

  function StreamUpTo(styles: seq<Prop>, n: nat, level: nat): seq<Tok>
    requires n <= |styles|
    decreases styles, n
  {
    if n == 0 then [] else StreamUpTo(styles, n - 1, level) + PropStream(styles[n - 1], n - 1, level)
  }

  predicate Balanced(acc: Acc)
  {
    |acc.quasis| == |acc.exprs|
  }

  /** `r` reads as `acc` followed by `toks`, both pairing every closed
      fragment with an expression. */
  predicate RendersAs(r: Acc, acc: Acc, toks: seq<Tok>)
  {
    Balanced(acc) && Balanced(r) && Rendered(r) == Rendered(acc) + toks
  }

  lemma RendersChain(a: Acc, b: Acc, c: Acc, t1: seq<Tok>, t2: seq<Tok>)
    requires RendersAs(b, a, t1) && RendersAs(c, b, t2)
    ensures RendersAs(c, a, t1 + t2)
  {
    assert Rendered(c) == (Rendered(a) + t1) + t2;
  }

  lemma RenderedAppend(acc: Acc, s: string)
    requires Balanced(acc)
    ensures RendersAs(Append(acc, s), acc, Chars(s))
  {
    CharsConcat(acc.text, s);
  }

  lemma RenderedFinalize(acc: Acc, e: Expr, s: string)
    requires Balanced(acc)
    ensures RendersAs(Finalize(acc, e, s), acc, [Hole(e)] + Chars(s))
  {
    var r := Finalize(acc, e, s);
    assert r.quasis[..|acc.quasis|] == acc.quasis;
    assert r.exprs[..|acc.exprs|] == acc.exprs;
    assert Rendered(r) == (Pairs(acc.quasis, acc.exprs) + Chars(acc.text) + [Hole(e)]) + Chars(s);
  }

  lemma KeyRenders(acc: Acc, k: Key, indent: string, name: string, sep: string)
    requires Balanced(acc)
    ensures RendersAs(EmitKey(acc, k, indent, name, sep), acc, KeyStream(k, indent, name, sep))
  {
    if k.Computed? {
      var lead := Append(acc, "\n" + indent);
      RenderedAppend(acc, "\n" + indent);
      RenderedFinalize(lead, Source(k.expr), sep);
      RendersChain(acc, lead, Finalize(lead, Source(k.expr), sep), Chars("\n" + indent), [Hole(Source(k.expr))] + Chars(sep));
    } else {
      RenderedAppend(acc, "\n" + indent + name + sep);
    }
  }

  lemma LeafValueRenders(acc: Acc, k: Key, v: Value)
    requires !v.Obj?
    requires Balanced(acc)
    ensures RendersAs(EmitLeaf(acc, k, v), acc, LeafStream(k, v))
  {
    match v
    case StrLit(s) => RenderedAppend(acc, s + ";");
    case NumLit(d) =>
      assert (if TakesPx(k) then d + "px" else d) + ";" == d + (if TakesPx(k) then "px;" else ";");
      RenderedAppend(acc, (if TakesPx(k) then d + "px" else d) + ";");
    case _ => RenderedFinalize(acc, Source(v), ";");
  }

  lemma {:induction false} PropRenders(p: Prop, i: nat, level: nat, acc: Acc)
    requires Balanced(acc)
    ensures RendersAs(SerializeProp(p, i, level, acc), acc, PropStream(p, i, level))
    decreases p, 2
  {
    if p.value.Obj? {
      BlockRenders(p, i, level, acc);
    } else {
      var indent := Indent(level);
      var name := if p.key.Computed? then "" else Dashify(StaticName(p.key));
      var keyed := EmitKey(acc, p.key, indent, name, ": ");
      KeyRenders(acc, p.key, indent, name, ": ");
      LeafValueRenders(keyed, p.key, p.value);
      RendersChain(acc, keyed, EmitLeaf(keyed, p.key, p.value), KeyStream(p.key, indent, name, ": "), LeafStream(p.key, p.value));
    }
  }

  lemma {:induction false} BlockRenders(p: Prop, i: nat, level: nat, acc: Acc)
    requires p.value.Obj?
    requires Balanced(acc)
    ensures RendersAs(SerializeProp(p, i, level, acc), acc, PropStream(p, i, level))
    decreases p, 1
  {
    var indent := Indent(level);
    var children := p.value.props;
    var blank := if i != 0 then Append(acc, "\n") else acc;
    var gap: seq<Tok> := if i != 0 then Chars("\n") else [];
    RenderedAppend(acc, "\n");
    assert RendersAs(blank, acc, gap);
    var name := if p.key.Computed? then "" else StaticName(p.key);
    var head := EmitKey(blank, p.key, indent, name, " {");
    var ks := KeyStream(p.key, indent, name, " {");
    KeyRenders(blank, p.key, indent, name, " {");
    RendersChain(acc, blank, head, gap, ks);
    var inner := SerializeUpTo(children, |children|, level + 1, head);
    var body := StreamUpTo(children, |children|, level + 1);
    UpToRenders(children, |children|, level + 1, head);
    RendersChain(acc, head, inner, gap + ks, body);
    RenderedAppend(inner, "\n" + indent + "}");
    RendersChain(acc, inner, Append(inner, "\n" + indent + "}"), gap + ks + body, Chars("\n" + indent + "}"));
  }

  /** Read back in order, the fragments closed and the buffer left by the
      walk spell out the old contents followed by the document of the
      properties walked: nothing is lost, duplicated or reordered. */
  lemma {:induction false} UpToRenders(styles: seq<Prop>, n: nat, level: nat, acc: Acc)
    requires n <= |styles|
    requires Balanced(acc)
    ensures RendersAs(SerializeUpTo(styles, n, level, acc), acc, StreamUpTo(styles, n, level))
    decreases styles, n
  {
    if n == 0 {
      assert Rendered(acc) + [] == Rendered(acc);
    } else {
      var mid := SerializeUpTo(styles, n - 1, level, acc);
      UpToRenders(styles, n - 1, level, acc);
      PropRenders(styles[n - 1], n - 1, level, mid);
      RendersChain(acc, mid, SerializeProp(styles[n - 1], n - 1, level, mid),
        StreamUpTo(styles, n - 1, level), PropStream(styles[n - 1], n - 1, level));
    }
  }

  lemma SerializeRenders(styles: seq<Prop>, level: nat, acc: Acc)
    requires Balanced(acc)
    ensures RendersAs(Serialize(styles, level, acc), acc, StreamUpTo(styles, |styles|, level))
  {
    UpToRenders(styles, |styles|, level, acc);
  }

  // ---------------------------------------------------------------------
  // The text alone: what the accumulator holds with the expressions dropped.
  // Unlike `Rendered` it needs no pairing, so it also describes the
  // argument loop, which closes fragments without expressions.

  /** The fragments, joined in order. */
  function Concat(qs: seq<string>): string
  {
    if qs == [] then "" else Concat(qs[..|qs| - 1]) + qs[|qs| - 1]
  }

  /** All the text an accumulator holds: the closed fragments, then the buffer. */
  function Flat(acc: Acc): string
  {
    Concat(acc.quasis) + acc.text
  }

  /** The characters of a stream, its holes dropped. */
  function Plain(toks: seq<Tok>): string
  {
    if toks == [] then "" else (if toks[0].Chr? then [toks[0].c] else "") + Plain(toks[1..])
  }

  lemma {:induction false} PlainConcat(a: seq<Tok>, b: seq<Tok>)
    ensures Plain(a + b) == Plain(a) + Plain(b)
    decreases |a|
  {
    if a == [] {
      assert a + b == b;
    } else {
      assert (a + b)[1..] == a[1..] + b;
      PlainConcat(a[1..], b);
    }
  }

  lemma {:induction false} PlainChars(s: string)
    ensures Plain(Chars(s)) == s
    decreases |s|
  {
    if s != [] {
      assert Chars(s)[1..] == Chars(s[1..]);
      PlainChars(s[1..]);
      assert [s[0]] + s[1..] == s;
    }
  }

  lemma ConcatSnoc(qs: seq<string>, t: string)
    ensures Concat(qs + [t]) == Concat(qs) + t
  {
    assert (qs + [t])[..|qs|] == qs;
  }

  lemma {:induction false} PlainPairs(quasis: seq<string>, exprs: seq<Expr>)
    requires |quasis| == |exprs|
    ensures Plain(Pairs(quasis, exprs)) == Concat(quasis)
    decreases |quasis|
  {
    if quasis != [] {
      var n := |quasis| - 1;
      var front := Pairs(quasis[..n], exprs[..n]);
      PlainPairs(quasis[..n], exprs[..n]);
      PlainConcat(front + Chars(quasis[n]), [Hole(exprs[n])]);
      PlainConcat(front, Chars(quasis[n]));
      PlainChars(quasis[n]);
      assert Plain([Hole(exprs[n])]) == "";
    }
  }

  /** Reading a paired accumulator back and dropping the holes leaves its text. */
  lemma PlainRendered(acc: Acc)
    requires Balanced(acc)
    ensures Plain(Rendered(acc)) == Flat(acc)
  {
    PlainPairs(acc.quasis, acc.exprs);
    PlainConcat(Pairs(acc.quasis, acc.exprs), Chars(acc.text));
    PlainChars(acc.text);
  }

  /** The text `r` holds is the text `acc` holds followed by that of `toks`. */
  predicate FlatAs(r: Acc, acc: Acc, toks: seq<Tok>)
  {
    Flat(r) == Flat(acc) + Plain(toks)
  }

  lemma FlatChain(a: Acc, b: Acc, c: Acc, t1: seq<Tok>, t2: seq<Tok>)
    requires FlatAs(b, a, t1) && FlatAs(c, b, t2)
    ensures FlatAs(c, a, t1 + t2)
  {
    PlainConcat(t1, t2);
    assert Flat(c) == (Flat(a) + Plain(t1)) + Plain(t2);
  }

  lemma FlatAppend(acc: Acc, s: string)
    ensures FlatAs(Append(acc, s), acc, Chars(s))
  {
    PlainChars(s);
    assert Flat(Append(acc, s)) == (Concat(acc.quasis) + acc.text) + s;
  }

  /** `finalize` moves the buffer into the fragments: no text is lost. */
  lemma FlatFinalize(acc: Acc, e: Expr, s: string)
    ensures FlatAs(Finalize(acc, e, s), acc, [Hole(e)] + Chars(s))
  {
    ConcatSnoc(acc.quasis, acc.text);
    PlainConcat([Hole(e)], Chars(s));
    PlainChars(s);
    assert Plain([Hole(e)]) == "";
  }

  lemma FlatKey(acc: Acc, k: Key, indent: string, name: string, sep: string)
    ensures FlatAs(EmitKey(acc, k, indent, name, sep), acc, KeyStream(k, indent, name, sep))
  {
    if k.Computed? {
      var lead := Append(acc, "\n" + indent);
      var hole := [Hole(Source(k.expr))];
      FlatAppend(acc, "\n" + indent);
      FlatFinalize(lead, Source(k.expr), sep);
      FlatChain(acc, lead, Finalize(lead, Source(k.expr), sep), Chars("\n" + indent), hole + Chars(sep));
      assert Chars("\n" + indent) + (hole + Chars(sep)) == KeyStream(k, indent, name, sep);
    } else {
      FlatAppend(acc, "\n" + indent + name + sep);
    }
  }

  lemma FlatLeaf(acc: Acc, k: Key, v: Value)
    requires !v.Obj?
    ensures FlatAs(EmitLeaf(acc, k, v), acc, LeafStream(k, v))
  {
    match v
    case StrLit(s) => FlatAppend(acc, s + ";");
    case NumLit(d) =>
      assert (if TakesPx(k) then d + "px" else d) + ";" == d + (if TakesPx(k) then "px;" else ";");
      FlatAppend(acc, (if TakesPx(k) then d + "px" else d) + ";");
    case _ => FlatFinalize(acc, Source(v), ";");
  }

  lemma {:induction false} FlatProp(p: Prop, i: nat, level: nat, acc: Acc)
    ensures FlatAs(SerializeProp(p, i, level, acc), acc, PropStream(p, i, level))
    decreases p, 2
  {
    if p.value.Obj? {
      FlatBlock(p, i, level, acc);
    } else {
      var indent := Indent(level);
      var name := if p.key.Computed? then "" else Dashify(StaticName(p.key));
      var keyed := EmitKey(acc, p.key, indent, name, ": ");
      FlatKey(acc, p.key, indent, name, ": ");
      FlatLeaf(keyed, p.key, p.value);
      FlatChain(acc, keyed, EmitLeaf(keyed, p.key, p.value), KeyStream(p.key, indent, name, ": "), LeafStream(p.key, p.value));
    }
  }

  lemma {:induction false} FlatBlock(p: Prop, i: nat, level: nat, acc: Acc)
    requires p.value.Obj?
    ensures FlatAs(SerializeProp(p, i, level, acc), acc, PropStream(p, i, level))
    decreases p, 1
  {
    var indent := Indent(level);
    var children := p.value.props;
    var blank := if i != 0 then Append(acc, "\n") else acc;
    var gap: seq<Tok> := if i != 0 then Chars("\n") else [];
    FlatAppend(acc, "\n");
    assert Plain([]) == "";
    assert FlatAs(blank, acc, gap);
    var name := if p.key.Computed? then "" else StaticName(p.key);
    var head := EmitKey(blank, p.key, indent, name, " {");
    var ks := KeyStream(p.key, indent, name, " {");
    FlatKey(blank, p.key, indent, name, " {");
    FlatChain(acc, blank, head, gap, ks);
    var inner := SerializeUpTo(children, |children|, level + 1, head);
    FlatUpTo(children, |children|, level + 1, head);
    FlatChain(acc, head, inner, gap + ks, StreamUpTo(children, |children|, level + 1));
    FlatAppend(inner, "\n" + indent + "}");
    FlatChain(acc, inner, Append(inner, "\n" + indent + "}"), gap + ks + StreamUpTo(children, |children|, level + 1), Chars("\n" + indent + "}"));
  }

  /** From any accumulator, paired or not, the walk adds exactly the text of
      the properties' documents, in order. */
  lemma {:induction false} FlatUpTo(styles: seq<Prop>, n: nat, level: nat, acc: Acc)
    requires n <= |styles|
    ensures FlatAs(SerializeUpTo(styles, n, level, acc), acc, StreamUpTo(styles, n, level))
    decreases styles, n
  {
    if n == 0 {
      assert Plain([]) == "";
      assert Flat(acc) + "" == Flat(acc);
    } else {
      var mid := SerializeUpTo(styles, n - 1, level, acc);
      FlatUpTo(styles, n - 1, level, acc);
      FlatProp(styles[n - 1], n - 1, level, mid);
      FlatChain(acc, mid, SerializeProp(styles[n - 1], n - 1, level, mid),
        StreamUpTo(styles, n - 1, level), PropStream(styles[n - 1], n - 1, level));
    }
  }

  // ---------------------------------------------------------------------
  // The frame: a walk never looks at what was closed before it.

  /** `w` with the fragments and expressions `pre` closed put in front. */
  function Shift(pre: Acc, w: Acc): Acc
  {
    Acc(w.text, pre.quasis + w.quasis, pre.exprs + w.exprs)
  }

  lemma ShiftFinalize(pre: Acc, w: Acc, e: Expr, s: string)
    ensures Finalize(Shift(pre, w), e, s) == Shift(pre, Finalize(w, e, s))
  {
    assert (pre.quasis + w.quasis) + [w.text] == pre.quasis + (w.quasis + [w.text]);
    assert (pre.exprs + w.exprs) + [e] == pre.exprs + (w.exprs + [e]);
  }

  lemma ShiftKey(pre: Acc, w: Acc, k: Key, indent: string, name: string, sep: string)
    ensures EmitKey(Shift(pre, w), k, indent, name, sep) == Shift(pre, EmitKey(w, k, indent, name, sep))
  {
    if k.Computed? {
      ShiftFinalize(pre, Append(w, "\n" + indent), Source(k.expr), sep);
    }
  }

  lemma ShiftLeaf(pre: Acc, w: Acc, k: Key, v: Value)
    requires !v.Obj?
    ensures EmitLeaf(Shift(pre, w), k, v) == Shift(pre, EmitLeaf(w, k, v))
  {
    if !(v.StrLit? || v.NumLit?) {
      ShiftFinalize(pre, w, Source(v), ";");
    }
  }

  lemma {:induction false} ShiftProp(p: Prop, i: nat, level: nat, pre: Acc, w: Acc)
    ensures SerializeProp(p, i, level, Shift(pre, w)) == Shift(pre, SerializeProp(p, i, level, w))
    decreases p, 2
  {
    if p.value.Obj? {
      ShiftBlock(p, i, level, pre, w);
    } else {
      var indent := Indent(level);
      var name := if p.key.Computed? then "" else Dashify(StaticName(p.key));
      ShiftKey(pre, w, p.key, indent, name, ": ");
      ShiftLeaf(pre, EmitKey(w, p.key, indent, name, ": "), p.key, p.value);
    }
  }

  lemma {:induction false} ShiftBlock(p: Prop, i: nat, level: nat, pre: Acc, w: Acc)
    requires p.value.Obj?
    ensures SerializeProp(p, i, level, Shift(pre, w)) == Shift(pre, SerializeProp(p, i, level, w))
    decreases p, 1
  {
    var indent := Indent(level);
    var children := p.value.props;
    var blank := if i != 0 then Append(w, "\n") else w;
    assert (if i != 0 then Append(Shift(pre, w), "\n") else Shift(pre, w)) == Shift(pre, blank);
    var name := if p.key.Computed? then "" else StaticName(p.key);
    ShiftKey(pre, blank, p.key, indent, name, " {");
    var head := EmitKey(blank, p.key, indent, name, " {");
    ShiftUpTo(children, |children|, level + 1, pre, head);
  }

  lemma {:induction false} ShiftUpTo(styles: seq<Prop>, n: nat, level: nat, pre: Acc, w: Acc)
    requires n <= |styles|
    ensures SerializeUpTo(styles, n, level, Shift(pre, w)) == Shift(pre, SerializeUpTo(styles, n, level, w))
    decreases styles, n
  {
    if n > 0 {
      ShiftUpTo(styles, n - 1, level, pre, w);
      ShiftProp(styles[n - 1], n - 1, level, pre, SerializeUpTo(styles, n - 1, level, w));
    }
  }

  /** The walk from any accumulator is the walk from its open buffer alone,
      with the fragments and expressions closed before kept in front. */
  lemma SerializeFrame(styles: seq<Prop>, level: nat, acc: Acc)
    ensures var w := Serialize(styles, level, Acc(acc.text, [], []));
      Serialize(styles, level, acc) == Acc(w.text, acc.quasis + w.quasis, acc.exprs + w.exprs)
  {
    var bare := Acc(acc.text, [], []);
    assert Shift(acc, bare) == acc;
    ShiftUpTo(styles, |styles|, level, acc, bare);
  }
}
