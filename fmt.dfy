/** The part of Go's `fmt.Sprintf` the core uses: a format whose only verb is
    `%s`, filled with string operands in order. */
module Fmt {

  /** `fmt.Sprintf(format, args...)` with string operands. Each `%s` takes the
      next operand; a `%s` with no operand left prints `%!s(MISSING)`; operands
      left over at the end are listed after the text as
      `%!(EXTRA string=a, string=b)`. Any other character is copied. */
  function Sprintf(format: string, args: seq<string>): string
    decreases |format|
  {
    if format == [] then
      (if args == [] then "" else "%!(EXTRA " + Extra(args) + ")")
    else if format[0] == '%' && |format| >= 2 && format[1] == 's' then
      (if args == [] then "%!s(MISSING)" + Sprintf(format[2..], [])
       else args[0] + Sprintf(format[2..], args[1..]))
    else
      [format[0]] + Sprintf(format[1..], args)
  }

  function Extra(args: seq<string>): string
  {
    if args == [] then ""
    else if |args| == 1 then "string=" + args[0]
    else "string=" + args[0] + ", " + Extra(args[1..])
  }

  /** Text free of '%' is copied unchanged in front of what follows. */
  lemma {:induction false} LiteralPrefix(lit: string, rest: string, args: seq<string>)
    requires '%' !in lit
    ensures Sprintf(lit + rest, args) == lit + Sprintf(rest, args)
    decreases |lit|
  {
    if lit != [] {
      assert lit[0] != '%' by { assert lit[0] in lit; }
      assert (lit + rest)[0] == lit[0];
      assert (lit + rest)[1..] == lit[1..] + rest;
      LiteralPrefix(lit[1..], rest, args);
      assert lit == [lit[0]] + lit[1..];
    } else {
      assert lit + rest == rest;
    }
  }

  /** A `%s` at the front is replaced by the first operand. */
  lemma VerbPrefix(rest: string, x: string, args: seq<string>)
    ensures Sprintf("%s" + rest, [x] + args) == x + Sprintf(rest, args)
  {
    assert ("%s" + rest)[2..] == rest;
    assert ([x] + args)[1..] == args;
  }

  /** '%'-free text and then a `%s`: the text, then the first operand. */
  lemma VerbAfterLiteral(lit: string, rest: string, x: string, args: seq<string>)
    requires '%' !in lit
    ensures Sprintf(lit + ("%s" + rest), [x] + args) == lit + (x + Sprintf(rest, args))
  {
    LiteralPrefix(lit, "%s" + rest, [x] + args);
    VerbPrefix(rest, x, args);
  }

  /** A format with three `%s` verbs between '%'-free text, given exactly three
      operands, is the text with the operands put in place of the verbs. */
  lemma ThreeOperands(a: string, b: string, c: string, d: string, x: string, y: string, z: string)
    requires '%' !in a && '%' !in b && '%' !in c && '%' !in d
    ensures Sprintf(a + ("%s" + (b + ("%s" + (c + ("%s" + d))))), [x, y, z])
         == a + (x + (b + (y + (c + (z + d)))))
  {
    var tail2 := c + ("%s" + d);
    var tail1 := b + ("%s" + tail2);
    assert [x, y, z] == [x] + [y, z];
    VerbAfterLiteral(a, tail1, x, [y, z]);
    assert [y, z] == [y] + [z];
    VerbAfterLiteral(b, tail2, y, [z]);
    assert [z] == [z] + [];
    VerbAfterLiteral(c, d, z, []);
    LiteralPrefix(d, "", []);
    assert d + "" == d;
  }
}
