/** The argument loop of `toCssLiteral` and the template it returns.

    `ArgStep` is one pass of the loop over the call's arguments: an object
    literal is walked and its text closed with a line break but no paired
    expression; a concise arrow with an object body is rewritten into an
    arrow whose body is a `css`-tagged template of that object; anything
    else is interpolated as it is.  Every argument leaves the buffer holding
    `";"`, and the buffer left by the last one is dropped. */
module Assemble {
  import opened Ast
  import opened Serializer

  /** `props => ({ ... })`: a concise arrow whose body is an object literal. */
  predicate IsStyleArrow(v: Value)
  {
    v.Arrow? && v.concise && v.body.Obj?
  }

  /** 0 for a lone object argument, the only shape the nested call for an
      arrow's body ever has; 1 otherwise.  It bounds the recursion. */
  function Nesting(args: seq<Value>): nat
  {
    if |args| == 1 && args[0].Obj? then 0 else 1
  }

  /** What an argument that is not an object literal is interpolated as. */
  function ArgExpr(arg: Value): Expr
    requires !arg.Obj?
    decreases 1, 0
  {
    if IsStyleArrow(arg) then CssArrow(arg.params, CssLiteral([arg.body], Some(CssTag)))
    else Source(arg)
  }

  function ArgStep(arg: Value, acc: Acc): Acc
    decreases if arg.Obj? then 0 else 1, 1
  {
    if arg.Obj? then
      var walked := Serialize(arg.props, 1, acc);
      Acc(";", walked.quasis + [walked.text + "\n"], walked.exprs)
    else
      Acc(";", acc.quasis + [acc.text + "\n"], acc.exprs + [ArgExpr(arg)])
  }

  /** The first `n` arguments, left to right. */
  function ArgsUpTo(args: seq<Value>, n: nat, acc: Acc): Acc
    requires n <= |args|
    decreases Nesting(args), 2, n
  {
    if n == 0 then acc
    else ArgStep(args[n - 1], ArgsUpTo(args, n - 1, acc))
  }

  /** The template literal for a call's arguments, tagged exactly when a tag
      is given. */
  function CssLiteral(args: seq<Value>, pre: Option<Expr>): (r: Template)
    ensures r.tag == pre
    decreases Nesting(args), 3
  {
    var done := ArgsUpTo(args, |args|, Start);
    Template(done.quasis, done.exprs, pre)
  }

  // ---------------------------------------------------------------------
  // Counting and ordering.

  /** How many of the first `n` arguments are object literals. */
  function ObjectsUpTo(args: seq<Value>, n: nat): nat
    requires n <= |args|
  {
    if n == 0 then 0 else ObjectsUpTo(args, n - 1) + (if args[n - 1].Obj? then 1 else 0)
  }

  /** `addImportDeclaration` runs once per rewritten arrow among the first
      `n` arguments. */
  function ImportsUpTo(args: seq<Value>, n: nat): nat
    requires n <= |args|
  {
    if n == 0 then 0 else ImportsUpTo(args, n - 1) + (if IsStyleArrow(args[n - 1]) then 1 else 0)
  }

  /** The expressions one argument contributes. */
  function ArgHoles(arg: Value): seq<Expr>
  {
    if arg.Obj? then HolesUpTo(arg.props, |arg.props|) else [ArgExpr(arg)]
  }

  function ArgsHolesUpTo(args: seq<Value>, n: nat): seq<Expr>
    requires n <= |args|
  {
    if n == 0 then [] else ArgsHolesUpTo(args, n - 1) + ArgHoles(args[n - 1])
  }

  lemma ArgStepPushes(arg: Value, acc: Acc)
    ensures var r := ArgStep(arg, acc);
      && |r.quasis| == |acc.quasis| + |ArgHoles(arg)| + (if arg.Obj? then 1 else 0)
      && acc.quasis <= r.quasis
      && r.exprs == acc.exprs + ArgHoles(arg)
  {
    if arg.Obj? {
      UpToPushes(arg.props, |arg.props|, 1, acc);
      var walked := Serialize(arg.props, 1, acc);
      assert walked.quasis <= walked.quasis + [walked.text + "\n"];
    } else {
      assert acc.quasis <= acc.quasis + [acc.text + "\n"];
    }
  }

  /** Every argument leaves the buffer holding `";"`. The text held so far
      gains the argument's own text (`ArgDoc` with its hole dropped) and
      that `";"`: an object's document and a line break, or a line break. */
  lemma ArgStepText(arg: Value, acc: Acc)
    ensures var r := ArgStep(arg, acc);
      r.text == ";" && Flat(r) == Flat(acc) + Plain(ArgDoc(arg)) + ";"
  {
    if arg.Obj? {
      ObjectArgText(arg, acc);
    } else {
      PlainChars("\n");
      ConcatSnoc(acc.quasis, acc.text + "\n");
      PlainConcat(Chars("\n"), [Hole(ArgExpr(arg))]);
      assert Plain([Hole(ArgExpr(arg))]) == "";
    }
  }

  lemma ObjectArgText(arg: Value, acc: Acc)
    requires arg.Obj?
    ensures var r := ArgStep(arg, acc);
      r.text == ";" && Flat(r) == Flat(acc) + Plain(ArgDoc(arg)) + ";"
  {
    PlainChars("\n");
    var walked := Serialize(arg.props, 1, acc);
    FlatUpTo(arg.props, |arg.props|, 1, acc);
    ConcatSnoc(walked.quasis, walked.text + "\n");
    PlainConcat(StreamUpTo(arg.props, |arg.props|, 1), Chars("\n"));
    var r := ArgStep(arg, acc);
    assert Flat(r) == (Concat(walked.quasis) + walked.text) + "\n" + ";";
  }

  /** The fragments an argument closes. An object is walked from the old
      buffer alone: the fragments it closes there, paired with its
      expressions, read as that buffer followed by the object's document; its
      last buffer and a line break then close one fragment more. Any other
      argument closes the old buffer and a line break. Either way what was
      closed before stays in front. */
  lemma ArgStepFragments(arg: Value, acc: Acc)
    ensures arg.Obj? ==>
      var w := Serialize(arg.props, 1, Acc(acc.text, [], []));
      var r := ArgStep(arg, acc);
      && r.quasis == acc.quasis + w.quasis + [w.text + "\n"]
      && r.exprs == acc.exprs + w.exprs
      && RendersAs(w, Acc(acc.text, [], []), StreamUpTo(arg.props, |arg.props|, 1))
    ensures !arg.Obj? ==> ArgStep(arg, acc).quasis == acc.quasis + [acc.text + "\n"]
  {
    if arg.Obj? {
      var bare := Acc(acc.text, [], []);
      SerializeFrame(arg.props, 1, acc);
      SerializeRenders(arg.props, 1, bare);
    }
  }

  /** Every argument closes exactly one more fragment than it adds
      expressions if it is an object literal, and as many otherwise; the
      expressions come argument by argument, left to right, and what was
      closed before is kept. */
  lemma {:induction false} ArgsPushes(args: seq<Value>, n: nat, acc: Acc)
    requires n <= |args|
    ensures var r := ArgsUpTo(args, n, acc);
      && |r.quasis| == |acc.quasis| + |ArgsHolesUpTo(args, n)| + ObjectsUpTo(args, n)
      && acc.quasis <= r.quasis
      && r.exprs == acc.exprs + ArgsHolesUpTo(args, n)
  {
    if n == 0 {
      assert acc.exprs + [] == acc.exprs;
    } else {
      ArgsPushes(args, n - 1, acc);
      var mid := ArgsUpTo(args, n - 1, acc);
      ArgStepPushes(args[n - 1], mid);
      assert ArgsUpTo(args, n, acc) == ArgStep(args[n - 1], mid);
      assert acc.exprs + ArgsHolesUpTo(args, n) == (acc.exprs + ArgsHolesUpTo(args, n - 1)) + ArgHoles(args[n - 1]);
    }
  }

  /** After `n > 0` arguments the buffer holds `";"`, and the text held is
      the arguments' text in order, each followed by `";"`. */
  lemma {:induction false} ArgsText(args: seq<Value>, n: nat)
    requires n <= |args|
    ensures var r := ArgsUpTo(args, n, Start);
      && (n > 0 ==> r.text == ";")
      && Flat(r) == Plain(ArgsDocUpTo(args, n)) + (if n > 0 then ";" else "")
  {
    if n == 0 {
      assert Plain([]) == "";
    } else {
      ArgsText(args, n - 1);
      var mid := ArgsUpTo(args, n - 1, Start);
      var gap: seq<Tok> := if n > 1 then Chars(";") else [];
      ArgStepText(args[n - 1], mid);
      PlainConcat(ArgsDocUpTo(args, n - 1) + gap, ArgDoc(args[n - 1]));
      PlainConcat(ArgsDocUpTo(args, n - 1), gap);
      PlainChars(";");
      assert Plain([]) == "";
    }
  }

  /** The result has one more fragment than expressions for each object
      argument, not one more in all: `css(x)` gives one of each, and two
      object arguments give two fragments and no expression. */
  lemma CssLiteralCounts(args: seq<Value>, pre: Option<Expr>)
    ensures var r := CssLiteral(args, pre);
      && |r.quasis| == |r.exprs| + ObjectsUpTo(args, |args|)
      && r.exprs == ArgsHolesUpTo(args, |args|)
  {
    ArgsPushes(args, |args|, Start);
  }

  /** Joined, the source's fragments spell the arguments' text in order with
      `";"` between them; the `";"` left in the buffer after the last
      argument is dropped. */
  lemma CssLiteralText(args: seq<Value>, pre: Option<Expr>)
    ensures Concat(CssLiteral(args, pre).quasis) == Plain(ArgsDocUpTo(args, |args|))
  {
    var done := ArgsUpTo(args, |args|, Start);
    ArgsText(args, |args|);
    if |args| > 0 {
      var joined := Concat(done.quasis);
      assert joined + ";" == Plain(ArgsDocUpTo(args, |args|)) + ";";
      assert joined == (joined + ";")[..|joined|];
    }
  }

  /** Reads a template literal the way it is printed: fragment, expression,
      fragment, ..., fragment. */
  function TemplateStream(t: Template): seq<Tok>
    requires |t.quasis| == |t.exprs| + 1
  {
    Pairs(t.quasis[..|t.exprs|], t.exprs) + Chars(t.quasis[|t.exprs|])
  }

  /** Closing the buffer of a balanced accumulator, with `s` appended, as
      the last fragment gives a template that reads as the accumulator
      followed by `s`. */
  lemma ClosedTemplate(acc: Acc, s: string, pre: Option<Expr>)
    requires Balanced(acc)
    ensures var t := Template(acc.quasis + [acc.text + s], acc.exprs, pre);
      |t.quasis| == |t.exprs| + 1 && TemplateStream(t) == Rendered(acc) + Chars(s)
  {
    var t := Template(acc.quasis + [acc.text + s], acc.exprs, pre);
    assert t.quasis[..|t.exprs|] == acc.quasis;
    CharsConcat(acc.text, s);
  }

  /** A call with a single object literal (the `css` attribute, and the body
      of every rewritten arrow) gives a well-formed template that reads as
      the document of the object's properties at level 1, then a line
      break. */
  lemma LoneObject(props: seq<Prop>, pre: Option<Expr>)
    ensures var r := CssLiteral([Obj(props)], pre);
      && |r.quasis| == |r.exprs| + 1
      && r.exprs == HolesUpTo(props, |props|)
      && TemplateStream(r) == StreamUpTo(props, |props|, 1) + Chars("\n")
  {
    var walked := Serialize(props, 1, Start);
    SerializeRenders(props, 1, Start);
    UpToPushes(props, |props|, 1, Start);
    assert [] + HolesUpTo(props, |props|) == HolesUpTo(props, |props|);
    assert ArgsUpTo([Obj(props)], 1, Start) == ArgStep(Obj(props), Start);
    assert CssLiteral([Obj(props)], pre) == Template(walked.quasis + [walked.text + "\n"], walked.exprs, pre);
    ClosedTemplate(walked, "\n", pre);
    assert Rendered(Start) == [];
    assert Rendered(walked) == StreamUpTo(props, |props|, 1);
  }

  /** A rewritten arrow keeps its parameters, and its body becomes a
      `css`-tagged, well-formed template of the object it returned. */
  lemma StyleArrowRewrite(arg: Value)
    requires IsStyleArrow(arg)
    ensures ArgExpr(arg).CssArrow? && ArgExpr(arg).params == arg.params
    ensures var t := ArgExpr(arg).body;
      && t.tag == Some(CssTag)
      && |t.quasis| == |t.exprs| + 1
      && TemplateStream(t) == StreamUpTo(arg.body.props, |arg.body.props|, 1) + Chars("\n")
  {
    LoneObject(arg.body.props, Some(CssTag));
  }

  // ---------------------------------------------------------------------
  // Import requests.

  function CountArrows(es: seq<Expr>): nat
  {
    if es == [] then 0
    else CountArrows(es[..|es| - 1]) + (if es[|es| - 1].CssArrow? then 1 else 0)
  }

  lemma {:induction false} CountArrowsConcat(a: seq<Expr>, b: seq<Expr>)
    ensures CountArrows(a + b) == CountArrows(a) + CountArrows(b)
    decreases |b|
  {
    if b == [] {
      assert a + b == a;
    } else {
      var n := |b| - 1;
      assert (a + b)[..|a + b| - 1] == a + b[..n];
      CountArrowsConcat(a, b[..n]);
    }
  }

  lemma {:induction false} PropHolesAreSource(p: Prop)
    ensures CountArrows(PropHoles(p)) == 0
    decreases p, 0
  {
    var keyPart := KeyHoles(p.key);
    assert CountArrows(keyPart) == 0 by {
      if keyPart != [] { assert keyPart[..0] == []; }
    }
    var rest := if p.value.Obj? then HolesUpTo(p.value.props, |p.value.props|) else LeafHoles(p.value);
    if p.value.Obj? {
      HolesAreSource(p.value.props, |p.value.props|);
    } else if rest != [] {
      assert rest[..0] == [];
    }
    CountArrowsConcat(keyPart, rest);
  }

  /** The property walk never yields a rewritten arrow: arrows nested as
      property values stay as they are. */
  lemma {:induction false} HolesAreSource(styles: seq<Prop>, n: nat)
    requires n <= |styles|
    ensures CountArrows(HolesUpTo(styles, n)) == 0
    decreases styles, n
  {
    if n > 0 {
      HolesAreSource(styles, n - 1);
      PropHolesAreSource(styles[n - 1]);
      assert HolesUpTo(styles, n) == HolesUpTo(styles, n - 1) + PropHoles(styles[n - 1]);
      CountArrowsConcat(HolesUpTo(styles, n - 1), PropHoles(styles[n - 1]));
    }
  }

  /** An argument yields a rewritten arrow exactly when it is one. */
  lemma ArgArrows(arg: Value)
    ensures CountArrows(ArgHoles(arg)) == if IsStyleArrow(arg) then 1 else 0
  {
    if arg.Obj? {
      HolesAreSource(arg.props, |arg.props|);
    } else {
      var e := ArgExpr(arg);
      assert [e][..0] == [];
      assert CountArrows([e]) == CountArrows([]) + (if e.CssArrow? then 1 else 0);
    }
  }

  lemma {:induction false} ArgsArrows(args: seq<Value>, n: nat)
    requires n <= |args|
    ensures CountArrows(ArgsHolesUpTo(args, n)) == ImportsUpTo(args, n)
  {
    if n > 0 {
      ArgsArrows(args, n - 1);
      ArgArrows(args[n - 1]);
      CountArrowsConcat(ArgsHolesUpTo(args, n - 1), ArgHoles(args[n - 1]));
    }
  }


  /** One import request per rewritten arrow in the result, and no other. */
  lemma ImportsMatchArrows(args: seq<Value>, pre: Option<Expr>)
    ensures CountArrows(CssLiteral(args, pre).exprs) == ImportsUpTo(args, |args|)
  {
    CssLiteralCounts(args, pre);
    ArgsArrows(args, |args|);
  }

  // ---------------------------------------------------------------------
  // The counts above, on concrete calls.

  /** `css(x)`: one fragment and one expression, so the printed template has
      no fragment after `x`. */
  lemma LoneExpressionUnbalanced(id: NodeId)
    ensures CssLiteral([Opaque(id)], None) == Template(["\n"], [Source(Opaque(id))], None)
  {
    assert ArgsUpTo([Opaque(id)], 1, Start) == ArgStep(Opaque(id), Start);
    assert ArgExpr(Opaque(id)) == Source(Opaque(id));
    assert "" + "\n" == "\n";
  }

  /** Two object arguments: two fragments and no expression. */
  lemma TwoObjectsUnbalanced()
    ensures CssLiteral([Obj([]), Obj([])], None) == Template(["\n", ";\n"], [], None)
  {
    var one := ArgsUpTo([Obj([]), Obj([])], 1, Start);
    assert one == ArgStep(Obj([]), Start);
    assert Serialize([], 1, Start) == Start;
    assert "" + "\n" == "\n";
    assert Serialize([], 1, one) == one;
    assert one == Acc(";", ["\n"], []);
    assert ";" + "\n" == ";\n";
  }

  // ---------------------------------------------------------------------
  // A loop that keeps one more fragment than expressions.

  /** The text the arguments contribute, in order: a `";"` before every
      argument but the first, then an object's document and a line break,
      or a line break and the interpolated argument. */
  function ArgDoc(arg: Value): seq<Tok>
  {
    if arg.Obj? then StreamUpTo(arg.props, |arg.props|, 1) + Chars("\n")
    else Chars("\n") + [Hole(ArgExpr(arg))]
  }

  function ArgsDocUpTo(args: seq<Value>, n: nat): seq<Tok>
    requires n <= |args|
  {
    if n == 0 then []
    else ArgsDocUpTo(args, n - 1) + (if n > 1 then Chars(";") else []) + ArgDoc(args[n - 1])
  }

  /** The argument step with the separator written before an argument and
      no fragment closed without an expression. */
  function BalancedArgStep(arg: Value, i: nat, acc: Acc): Acc
  {
    var sep := if i > 0 then Append(acc, ";") else acc;
    if arg.Obj? then Append(Serialize(arg.props, 1, sep), "\n")
    else Finalize(Append(sep, "\n"), ArgExpr(arg), "")
  }

  function BalancedArgsUpTo(args: seq<Value>, n: nat): Acc
    requires n <= |args|
  {
    if n == 0 then Start
    else BalancedArgStep(args[n - 1], n - 1, BalancedArgsUpTo(args, n - 1))
  }

  /** One corrected step reads as the separator, then the argument's text. */
  lemma BalancedStepRenders(arg: Value, i: nat, acc: Acc)
    requires Balanced(acc)
    ensures RendersAs(BalancedArgStep(arg, i, acc), acc, (if i > 0 then Chars(";") else []) + ArgDoc(arg))
  {
    var sep := if i > 0 then Append(acc, ";") else acc;
    var gap: seq<Tok> := if i > 0 then Chars(";") else [];
    RenderedAppend(acc, ";");
    assert RendersAs(sep, acc, gap);
    if arg.Obj? {
      var walked := Serialize(arg.props, 1, sep);
      SerializeRenders(arg.props, 1, sep);
      RenderedAppend(walked, "\n");
      RendersChain(sep, walked, Append(walked, "\n"), StreamUpTo(arg.props, |arg.props|, 1), Chars("\n"));
      RendersChain(acc, sep, Append(walked, "\n"), gap, ArgDoc(arg));
    } else {
      var line := Append(sep, "\n");
      RenderedAppend(sep, "\n");
      RenderedFinalize(line, ArgExpr(arg), "");
      assert [Hole(ArgExpr(arg))] + Chars("") == [Hole(ArgExpr(arg))];
      RendersChain(sep, line, Finalize(line, ArgExpr(arg), ""), Chars("\n"), [Hole(ArgExpr(arg))]);
      RendersChain(acc, sep, Finalize(line, ArgExpr(arg), ""), gap, ArgDoc(arg));
    }
  }

  lemma {:induction false} BalancedRenders(args: seq<Value>, n: nat)
    requires n <= |args|
    ensures RendersAs(BalancedArgsUpTo(args, n), Start, ArgsDocUpTo(args, n))
  {
    if n == 0 {
      assert Rendered(Start) == [];
    } else {
      BalancedRenders(args, n - 1);
      var prev := BalancedArgsUpTo(args, n - 1);
      var step := (if n > 1 then Chars(";") else []) + ArgDoc(args[n - 1]);
      BalancedStepRenders(args[n - 1], n - 1, prev);
      RendersChain(Start, prev, BalancedArgStep(args[n - 1], n - 1, prev), ArgsDocUpTo(args, n - 1), step);
      assert ArgsDocUpTo(args, n) == ArgsDocUpTo(args, n - 1) + step;
    }
  }

  /** The loop with the separator moved before each argument and the final
      buffer closed: always one more fragment than expressions, and the
      printed template reads as the arguments' text in order. */
  function BalancedCssLiteral(args: seq<Value>, pre: Option<Expr>): (r: Template)
    ensures |r.quasis| == |r.exprs| + 1
    ensures TemplateStream(r) == ArgsDocUpTo(args, |args|)
    ensures r.tag == pre
  {
    var done := BalancedArgsUpTo(args, |args|);
    BalancedRenders(args, |args|);
    assert Rendered(Start) == [];
    assert Rendered(done) == ArgsDocUpTo(args, |args|);
    ClosedTemplate(done, "", pre);
    assert done.text + "" == done.text;
    assert ArgsDocUpTo(args, |args|) + Chars("") == ArgsDocUpTo(args, |args|);
    Template(done.quasis + [done.text], done.exprs, pre)
  }

  lemma {:induction false} BalancedPushes(args: seq<Value>, n: nat)
    requires n <= |args|
    ensures BalancedArgsUpTo(args, n).exprs == ArgsHolesUpTo(args, n)
  {
    if n > 0 {
      BalancedPushes(args, n - 1);
      var prev := BalancedArgsUpTo(args, n - 1);
      var arg := args[n - 1];
      var sep := if n - 1 > 0 then Append(prev, ";") else prev;
      if arg.Obj? {
        UpToPushes(arg.props, |arg.props|, 1, sep);
      }
    }
  }

  /** The two loops interpolate the same expressions in the same order and
      their fragments, joined, are the same text: they differ only in where
      the fragments are cut, that is, in which text each expression is
      printed after. */
  lemma LoopsAgreeOnText(args: seq<Value>, pre: Option<Expr>)
    ensures CssLiteral(args, pre).exprs == BalancedCssLiteral(args, pre).exprs
    ensures Concat(CssLiteral(args, pre).quasis) == Concat(BalancedCssLiteral(args, pre).quasis)
  {
    CssLiteralCounts(args, pre);
    BalancedPushes(args, |args|);
    CssLiteralText(args, pre);
    var done := BalancedArgsUpTo(args, |args|);
    BalancedRenders(args, |args|);
    PlainRendered(done);
    assert Rendered(Start) == [];
    ConcatSnoc(done.quasis, done.text);
  }

  /** An object then an expression, as in `styled.div({}, x)`: the source's
      template has the right shape but prints `x` before the `";\n"` that
      was written ahead of it; the balanced loop prints it after. */
  lemma ObjectThenExpression(id: NodeId)
    ensures CssLiteral([Obj([]), Opaque(id)], None) == Template(["\n", ";\n"], [Source(Opaque(id))], None)
    ensures BalancedCssLiteral([Obj([]), Opaque(id)], None) == Template(["\n;\n", ""], [Source(Opaque(id))], None)
  {
    var args := [Obj([]), Opaque(id)];
    assert args[0] == Obj([]) && args[1] == Opaque(id);
    assert ArgExpr(Opaque(id)) == Source(Opaque(id));
    var one := ArgsUpTo(args, 1, Start);
    assert ArgsUpTo(args, 0, Start) == Start;
    assert one == ArgStep(Obj([]), Start);
    assert Serialize([], 1, Start) == Start;
    assert "" + "\n" == "\n";
    assert one == Acc(";", ["\n"], []);
    assert ";" + "\n" == ";\n";
    assert ArgsUpTo(args, 2, Start) == ArgStep(Opaque(id), one);
    assert ArgStep(Opaque(id), one) == Acc(";", ["\n", ";\n"], [Source(Opaque(id))]);
    var b1 := BalancedArgsUpTo(args, 1);
    assert BalancedArgsUpTo(args, 0) == Start;
    assert b1 == BalancedArgStep(Obj([]), 0, Start);
    assert b1 == Acc("\n", [], []);
    assert "\n" + ";" + "\n" == "\n;\n";
    assert BalancedArgsUpTo(args, 2) == BalancedArgStep(Opaque(id), 1, b1);
  }

  /** On a lone object argument, the only shape the nested call for an
      arrow's body has, the two loops give the same template. */
  lemma BalancedAgreesOnLoneObject(props: seq<Prop>, pre: Option<Expr>)
    ensures BalancedCssLiteral([Obj(props)], pre) == CssLiteral([Obj(props)], pre)
  {
    assert ArgsUpTo([Obj(props)], 1, Start) == ArgStep(Obj(props), Start);
    assert BalancedArgsUpTo([Obj(props)], 1) == BalancedArgStep(Obj(props), 0, Start);
  }
}
