/** The printer of the four-kind expression tree: every node but a literal
    is written as a parenthesised, prefix list of its operator (or `group`)
    and its operands. `Render` says what text a tree prints as; the methods
    build it as the source does, with a string builder appended to in a
    loop. Numbers print through the host's number formatting, which is a
    parameter here. */
module AstPrinting {
  import opened Tokens
  import opened LegacyAst

  /** `value.ToString()` of a literal's boxed value, "nil" for null.
      Booleans print as the host prints them. */
  function ValueText(v: Value, numberText: real -> string): string
  {
    match v
    case Nil => "nil"
    case Bool(b) => if b then "True" else "False"
    case Num(n) => numberText(n)
    case Str(s) => s
    case TokenTypeValue(t) => TokenTypeName(t)
  }

  /** Each part preceded by one space, in order. */
  function Spaced(parts: seq<string>): string
  {
    if |parts| == 0 then "" else Spaced(parts[..|parts| - 1]) + " " + parts[|parts| - 1]
  }

  /** What `parenthesize(name, ...)` returns for operands printed as
      `parts`. */
  function Parens(name: string, parts: seq<string>): string
  {
    "(" + name + Spaced(parts) + ")"
  }

  /** The text a tree prints as. */
  function Render(e: Expr, numberText: real -> string): string
  {
    match e
    case Binary(left, op, right) => Parens(op.lexeme, [Render(left, numberText), Render(right, numberText)])
    case Grouping(inner) => Parens("group", [Render(inner, numberText)])
    case Literal(value) => ValueText(value, numberText)
    case Unary(op, right) => Parens(op.lexeme, [Render(right, numberText)])
  }

  /** The texts of several trees, in order. */
  function RenderAll(exprs: seq<Expr>, numberText: real -> string): (r: seq<string>)
    ensures |r| == |exprs| && forall k :: 0 <= k < |exprs| ==> r[k] == Render(exprs[k], numberText)
  {
    seq(|exprs|, k requires 0 <= k < |exprs| => Render(exprs[k], numberText))
  }

  lemma RenderAllPrefix(exprs: seq<Expr>, i: nat, numberText: real -> string)
    requires i < |exprs|
    ensures RenderAll(exprs[..i + 1], numberText) == RenderAll(exprs[..i], numberText) + [Render(exprs[i], numberText)]
  {
  }

  /** `print(expr)`: `expr.accept(this)`, each `visit*Expr` inlined. */
  method Print(e: Expr, numberText: real -> string) returns (s: string)
    ensures s == Render(e, numberText)
    decreases e, 1
  {
    match e
    case Binary(left, op, right) =>
      s := Parenthesize(op.lexeme, [left, right], numberText, e);
      assert RenderAll([left, right], numberText) == [Render(left, numberText), Render(right, numberText)];
    case Grouping(inner) =>
      s := Parenthesize("group", [inner], numberText, e);
      assert RenderAll([inner], numberText) == [Render(inner, numberText)];
    case Literal(value) =>
      s := ValueText(value, numberText);
    case Unary(op, right) =>
      s := Parenthesize(op.lexeme, [right], numberText, e);
      assert RenderAll([right], numberText) == [Render(right, numberText)];
  }

  /** `parenthesize(name, exprs)`; `parent` is the node whose operands
      `exprs` are. */
  method Parenthesize(name: string, exprs: seq<Expr>, numberText: real -> string, ghost parent: Expr) returns (s: string)
    requires forall x <- exprs :: x < parent
    ensures s == Parens(name, RenderAll(exprs, numberText))
    decreases parent, 0
  {
    var builder := "(" + name;
    ghost var parts: seq<string> := [];
    for i := 0 to |exprs|
      invariant parts == RenderAll(exprs[..i], numberText)
      invariant builder == "(" + name + Spaced(parts)
    {
      assert exprs[i] in exprs;
      var text := Print(exprs[i], numberText);
      SpacedSnoc(parts, text);
      Regroup("(" + name, Spaced(parts) + " ", text);
      Regroup("(" + name, Spaced(parts), " ");
      builder := builder + " " + text;
      RenderAllPrefix(exprs, i, numberText);
      parts := parts + [text];
    }
    assert exprs[..|exprs|] == exprs;
    s := builder + ")";
  }

  lemma SpacedSnoc(parts: seq<string>, a: string)
    ensures Spaced(parts + [a]) == Spaced(parts) + " " + a
  {
    assert (parts + [a])[..|parts|] == parts;
  }

  lemma SpacedOne(a: string)
    ensures Spaced([a]) == " " + a
  {
    assert [a][..0] == [];
  }

  lemma SpacedTwo(a: string, b: string)
    ensures Spaced([a, b]) == " " + a + " " + b
  {
    assert [a, b][..1] == [a];
    SpacedOne(a);
  }

  lemma Regroup(x: string, y: string, z: string)
    ensures x + (y + z) == x + y + z
  {
  }

  lemma ParensOne(name: string, a: string)
    ensures Parens(name, [a]) == "(" + name + " " + a + ")"
  {
    SpacedOne(a);
    Regroup("(" + name, " ", a);
  }

  lemma ParensTwo(name: string, a: string, b: string)
    ensures Parens(name, [a, b]) == "(" + name + " " + a + " " + b + ")"
  {
    var open := "(" + name;
    SpacedTwo(a, b);
    Regroup(open, " " + a + " ", b);
    Regroup(open, " " + a, " ");
    Regroup(open, " ", a);
  }

  /** A binary node prints as its operator and its two operands, spaced
      and parenthesised. */
  lemma BinaryRendered(left: Expr, op: Token, right: Expr, numberText: real -> string)
    ensures Render(Binary(left, op, right), numberText)
      == "(" + op.lexeme + " " + Render(left, numberText) + " " + Render(right, numberText) + ")"
  {
    ParensTwo(op.lexeme, Render(left, numberText), Render(right, numberText));
  }

  /** A grouping prints as `group` and its expression, parenthesised. */
  lemma GroupingRendered(inner: Expr, numberText: real -> string)
    ensures Render(Grouping(inner), numberText) == "(group " + Render(inner, numberText) + ")"
  {
    ParensOne("group", Render(inner, numberText));
  }

  /** A unary node prints as its operator and its operand, parenthesised. */
  lemma UnaryRendered(op: Token, right: Expr, numberText: real -> string)
    ensures Render(Unary(op, right), numberText) == "(" + op.lexeme + " " + Render(right, numberText) + ")"
  {
    ParensOne(op.lexeme, Render(right, numberText));
  }

  /** A literal prints as the text of its value, and nil as "nil". */
  lemma LiteralRendered(v: Value, numberText: real -> string)
    ensures Render(Literal(v), numberText) == ValueText(v, numberText)
    ensures v == Nil ==> Render(Literal(v), numberText) == "nil"
  {
  }

  /** Every node but a literal prints between a '(' and a ')'. */
  lemma ParenthesisedUnlessLiteral(e: Expr, numberText: real -> string)
    requires !e.Literal?
    ensures var s := Render(e, numberText); |s| >= 2 && s[0] == '(' && s[|s| - 1] == ')'
  {
  }

  // ---------------------------------------------------------------------
  // Balanced parentheses.

  function Delta(c: char): int
  {
    if c == '(' then 1 else if c == ')' then -1 else 0
  }

  /** Opening minus closing parentheses. */
  function Depth(s: string): int
  {
    if |s| == 0 then 0 else Depth(s[..|s| - 1]) + Delta(s[|s| - 1])
  }

  /** Every ')' closes an earlier '(', and every '(' is closed. */
  predicate Balanced(s: string)
  {
    Depth(s) == 0 && forall k :: 0 <= k <= |s| ==> Depth(s[..k]) >= 0
  }

  predicate ParenFree(s: string)
  {
    forall k :: 0 <= k < |s| ==> s[k] != '(' && s[k] != ')'
  }

  lemma {:induction false} DepthAppend(a: string, b: string)
    ensures Depth(a + b) == Depth(a) + Depth(b)
    decreases |b|
  {
    if |b| > 0 {
      var b' := b[..|b| - 1];
      assert (a + b)[..|a + b| - 1] == a + b';
      assert (a + b)[|a + b| - 1] == b[|b| - 1];
      DepthAppend(a, b');
    } else {
      assert a + b == a;
    }
  }

  lemma {:induction false} ParenFreeBalanced(s: string)
    requires ParenFree(s)
    ensures Depth(s) == 0 && Balanced(s)
    decreases |s|
  {
    if |s| > 0 {
      assert ParenFree(s[..|s| - 1]);
      ParenFreeBalanced(s[..|s| - 1]);
    }
    forall k | 0 <= k <= |s|
      ensures Depth(s[..k]) >= 0
    {
      if k < |s| {
        assert ParenFree(s[..k]);
        ParenFreeBalanced(s[..k]);
      } else {
        assert s[..k] == s;
      }
    }
  }

  lemma BalancedAppend(a: string, b: string)
    requires Balanced(a) && Balanced(b)
    ensures Balanced(a + b)
  {
    DepthAppend(a, b);
    forall k | 0 <= k <= |a + b|
      ensures Depth((a + b)[..k]) >= 0
    {
      if k <= |a| {
        assert (a + b)[..k] == a[..k];
      } else {
        assert (a + b)[..k] == a + b[..k - |a|];
        DepthAppend(a, b[..k - |a|]);
      }
    }
  }

  lemma Wrapped(s: string)
    requires Balanced(s)
    ensures Balanced("(" + s + ")")
  {
    var w := "(" + s + ")";
    DepthAppend("(", s);
    DepthAppend("(" + s, ")");
    forall k | 0 <= k <= |w|
      ensures Depth(w[..k]) >= 0
    {
      if 0 < k <= |s| + 1 {
        assert w[..k] == "(" + s[..k - 1];
        DepthAppend("(", s[..k - 1]);
      } else if k == |w| {
        assert w[..k] == w;
      }
    }
  }

  lemma {:induction false} SpacedBalanced(parts: seq<string>)
    requires forall k :: 0 <= k < |parts| ==> Balanced(parts[k])
    ensures Balanced(Spaced(parts))
    decreases |parts|
  {
    if |parts| == 0 {
      ParenFreeBalanced("");
    } else {
      SpacedBalanced(parts[..|parts| - 1]);
      ParenFreeBalanced(" ");
      BalancedAppend(Spaced(parts[..|parts| - 1]), " ");
      BalancedAppend(Spaced(parts[..|parts| - 1]) + " ", parts[|parts| - 1]);
    }
  }

  /** Every operator lexeme and every literal's text in the tree is free
      of parentheses. */
  predicate PlainText(e: Expr, numberText: real -> string)
  {
    match e
    case Binary(left, op, right) => ParenFree(op.lexeme) && PlainText(left, numberText) && PlainText(right, numberText)
    case Grouping(inner) => PlainText(inner, numberText)
    case Literal(value) => ParenFree(ValueText(value, numberText))
    case Unary(op, right) => ParenFree(op.lexeme) && PlainText(right, numberText)
  }

  lemma ParensBalanced(name: string, parts: seq<string>)
    requires ParenFree(name) && forall k :: 0 <= k < |parts| ==> Balanced(parts[k])
    ensures Balanced(Parens(name, parts))
  {
    ParenFreeBalanced(name);
    SpacedBalanced(parts);
    BalancedAppend(name, Spaced(parts));
    Wrapped(name + Spaced(parts));
    assert Parens(name, parts) == "(" + (name + Spaced(parts)) + ")";
  }

  /** The printed text's parentheses are balanced when no lexeme and no
      literal text has one of its own. */
  lemma {:induction false} RenderBalanced(e: Expr, numberText: real -> string)
    requires PlainText(e, numberText)
    ensures Balanced(Render(e, numberText))
  {
    match e
    case Binary(left, op, right) =>
      RenderBalanced(left, numberText);
      RenderBalanced(right, numberText);
      ParensBalanced(op.lexeme, [Render(left, numberText), Render(right, numberText)]);
    case Grouping(inner) =>
      RenderBalanced(inner, numberText);
      assert ParenFree("group");
      ParensBalanced("group", [Render(inner, numberText)]);
    case Literal(value) =>
      ParenFreeBalanced(ValueText(value, numberText));
    case Unary(op, right) =>
      RenderBalanced(right, numberText);
      ParensBalanced(op.lexeme, [Render(right, numberText)]);
  }
}
