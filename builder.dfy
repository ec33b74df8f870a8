/** `toCssLiteral` as the source runs it: a builder holding the open text
    buffer and the two lists that `finalize`, the property walk and the
    argument loop push onto in place. */
module Builder {
  import opened Ast
  import opened Names
  import opened Serializer
  import opened Assemble

  class TemplateBuilder {
    var text: string
    var quasis: seq<string>
    var exprs: seq<Expr>

    function State(): Acc
      reads this
    {
      Acc(text, quasis, exprs)
    }

    constructor ()
      ensures State() == Start
    {
      text := "";
      quasis := [];
      exprs := [];
    }

    /** Close the buffer as a fragment paired with `expr`; reopen it with `str`. */
    method Finalize(expr: Expr, str: string)
      modifies this
      ensures State() == Serializer.Finalize(old(State()), expr, str)
    {
      quasis := quasis + [text];
      exprs := exprs + [expr];
      text := str;
    }

    /** Walk `styles` at nesting depth `level`, writing into the buffer and
        closing a fragment for every interpolated key or value. */
    method Serialize(styles: seq<Prop>, level: nat)
      modifies this
      decreases styles, 1
      ensures State() == Serializer.Serialize(styles, level, old(State()))
    {
      for i := 0 to |styles|
        invariant State() == SerializeUpTo(styles, i, level, old(State()))
      {
        SerializeProp(styles[i], i, level);
      }
    }

    /** The loop body for the property at position `i`. */
    method SerializeProp(prop: Prop, i: nat, level: nat)
      modifies this
      decreases prop, 0
      ensures State() == Serializer.SerializeProp(prop, i, level, old(State()))
    {
      var indent := Indent(level);
      if prop.value.Obj? {
        if i != 0 {
          text := text + "\n";
        }
        if prop.key.Computed? {
          text := text + ("\n" + indent);
          Finalize(Source(prop.key.expr), " {");
        } else {
          text := text + ("\n" + indent + StaticName(prop.key) + " {");
        }
        Serialize(prop.value.props, level + 1);
        text := text + ("\n" + indent + "}");
      } else {
        var key: Option<string> := None;
        if prop.key.Computed? {
          text := text + ("\n" + indent);
          Finalize(Source(prop.key.expr), ": ");
        } else {
          key := Some(StaticName(prop.key));
          text := text + ("\n" + indent + Dashify(key.value) + ": ");
        }
        if prop.value.StrLit? || prop.value.NumLit? {
          var value := if prop.value.StrLit? then prop.value.value else prop.value.digits;
          if prop.value.NumLit? && key.Some? && key.value != "" && !IsUnitless(key.value) {
            value := value + "px";
          }
          text := text + (value + ";");
        } else {
          Finalize(Source(prop.value), ";");
        }
      }
    }
  }

  /** Build the template for a call's arguments, left to right, and count
      the import requests made for rewritten arrows. */
  method ToCssLiteral(args: seq<Value>, pre: Option<Expr>) returns (r: Template, importRequests: nat)
    ensures r == CssLiteral(args, pre)
    ensures importRequests == ImportsUpTo(args, |args|)
    decreases Nesting(args)
  {
    var b := new TemplateBuilder();
    importRequests := 0;
    for i := 0 to |args|
      invariant b.State() == ArgsUpTo(args, i, Start)
      invariant importRequests == ImportsUpTo(args, i)
    {
      var arg := args[i];
      ghost var before := b.State();
      if arg.Obj? {
        b.Serialize(arg.props, 1);
        b.quasis := b.quasis + [b.text + "\n"];
        b.text := ";";
        assert b.State() == ArgStep(arg, before);
      } else if arg.Arrow? && arg.concise && arg.body.Obj? {
        importRequests := importRequests + 1;
        b.quasis := b.quasis + [b.text + "\n"];
        var body, _ := ToCssLiteral([arg.body], Some(CssTag));
        b.exprs := b.exprs + [CssArrow(arg.params, body)];
        b.text := ";";
        assert b.State() == ArgStep(arg, before);
      } else {
        b.quasis := b.quasis + [b.text + "\n"];
        b.exprs := b.exprs + [Source(arg)];
        b.text := ";";
        assert b.State() == ArgStep(arg, before);
      }
    }
    if pre.None? {
      r := Template(b.quasis, b.exprs, None);
    } else {
      r := Template(b.quasis, b.exprs, pre);
    }
  }
}
