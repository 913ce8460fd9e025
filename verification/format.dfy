/** `FormatException` (code 17): an expression for a formatter is invalid,
    optionally quoting the expression and naming the formatter. */
module Format {
  import opened Wrappers
  import Text
  import Kinds
  import BaseException
  import Construction

  /** `FormatExceptionInit`: `cause`, `formatExpression` and `formatter`. */
  datatype Init = Init(cause: Option<BaseException.Cause>, formatExpression: Option<string>,
                       formatter: Option<string>)

  const DefaultMessage := "An" + " expression for " + "a formatter" + " is invalid" + "."

  /** `msgFromInit`: the first case of the three whose fields all count. Each
      template is written as its pieces. */
  function Message(init: Init): string
  {
    var quoted, hasFormatter := Text.Present(init.formatExpression), Text.Present(init.formatter);
    var expr := if init.formatExpression.Some? then init.formatExpression.value else "";
    var fmt := if init.formatter.Some? then init.formatter.value else "";
    if quoted && hasFormatter then
      "The" + " expression for " + ("the formatter \"" + fmt + "\"") + " is invalid" + (": \"" + expr + "\"") + "."
    else if quoted then
      "The" + " expression for " + "a formatter" + " is invalid" + (": \"" + expr + "\"") + "."
    else if hasFormatter then
      "An" + " expression for " + ("the formatter \"" + fmt + "\"") + " is invalid" + "."
    else
      DefaultMessage
  }

  // ---------------------------------------------------------------------
  // The same sentence, assembled from its parts.

  /** The expression is "the" one when it is quoted at the end. */
  function Determiner(init: Init): string
  {
    if Text.Present(init.formatExpression) then "The" else "An"
  }

  function FormatterPart(init: Init): string
  {
    if Text.Present(init.formatter) then "the formatter " + Text.Quote(init.formatter.value) else "a formatter"
  }

  function ExpressionPart(init: Init): string
  {
    if Text.Present(init.formatExpression) then ": " + Text.Quote(init.formatExpression.value) else ""
  }

  function Sentence(init: Init): string
  {
    Determiner(init) + " expression for " + FormatterPart(init) + " is invalid" + ExpressionPart(init) + "."
  }

  /** The cascade picks exactly the sentence assembled from its parts. */
  lemma MessageIsSentence(init: Init)
    ensures Message(init) == Sentence(init)
  {
    var expr := if init.formatExpression.Some? then init.formatExpression.value else "";
    var fmt := if init.formatter.Some? then init.formatter.value else "";
    Pieces(expr, fmt);
    DefaultPieces();
  }

  lemma Pieces(expr: string, fmt: string)
    ensures "the formatter \"" + fmt + "\"" == "the formatter " + Text.Quote(fmt)
    ensures ": \"" + expr + "\"" == ": " + Text.Quote(expr)
  {
  }

  lemma DefaultPieces()
    ensures DefaultMessage == "An" + " expression for " + "a formatter" + " is invalid" + "" + "."
  {
  }

  // ---------------------------------------------------------------------
  // Construction.

  /** The `init` object as the base exception keeps it. */
  function ToInit(init: Init): (r: BaseException.Init)
    ensures r.cause == init.cause
    ensures "formatExpression" in r.fields <==> init.formatExpression.Some?
    ensures "formatter" in r.fields <==> init.formatter.Some?
  {
    BaseException.Init(init.cause,
      Construction.Entry("formatExpression", init.formatExpression.Map(s => BaseException.Str(s)))
      + Construction.Entry("formatter", init.formatter.Map(s => BaseException.Str(s))))
  }

  /** `new FormatException(...)`. */
  function Create(args: Construction.Args<Init>): (e: BaseException.Exc)
    ensures e.kind == Kinds.Format && BaseException.Code(e) == 17
    ensures args.NoArgs? ==> e.message == "An" + " expression for " + "a formatter" + " is invalid" + "." && e.init.None?
    ensures args.FromInit? ==> e.message == Sentence(args.init)
    ensures args.FromMessage? ==> e.message == args.message
  {
    var e := Construction.Construct(Kinds.Format, DefaultMessage, Message, ToInit, args);
    if args.FromInit? then MessageIsSentence(args.init); e else e
  }

  // ---------------------------------------------------------------------
  // Properties of the derivation.

  /** The message ends in a quoted expression exactly when a non-empty
      expression is given. */
  lemma QuotesExpressionIff(init: Init)
    ensures Message(init)[|Message(init)| - 2] == '"' <==> Text.Present(init.formatExpression)
  {
    MessageIsSentence(init);
    var m := Message(init);
    var head := Determiner(init) + " expression for " + FormatterPart(init);
    if Text.Present(init.formatExpression) {
      assert m == head + " is invalid" + ": " + Text.Quote(init.formatExpression.value) + ".";
      assert m[|m| - 2] == Text.Quote(init.formatExpression.value)[|Text.Quote(init.formatExpression.value)| - 1];
    } else {
      assert m == head + " is invalid" + ".";
      assert m[|m| - 2] == 'd';
    }
  }

  /** An empty expression and an empty formatter each count as absent. */
  lemma EmptyFieldsIgnored(init: Init)
    ensures Message(init.(formatExpression := Some(""))) == Message(init.(formatExpression := None))
    ensures Message(init.(formatter := Some(""))) == Message(init.(formatter := None))
  {
  }
}
