/** `ParseException` (code 18): a parser was unable to parse content,
    optionally naming the parser. */
module Parse {
  import opened Wrappers
  import Text
  import Kinds
  import BaseException
  import Construction

  /** `ParseExceptionInit`: `cause` and `parser`. */
  datatype Init = Init(cause: Option<BaseException.Cause>, parser: Option<string>)

  const DefaultMessage := "A parser" + " was unable to parse content."

  /** The object both predicates end with. */
  const Content := " content."

  /** The predicate the default message ends with. */
  const Predicate := " was unable to parse" + Content

  /** The predicate the named template ends with, word for word as the
      source writes it ("parser" where the default says "parse"). */
  const WrittenPredicate := " was unable to parser" + Content

  /** `msgFromInit` as written: the parser by name when it has a non-empty
      one, otherwise the default. */
  function Message(init: Init): string
  {
    if Text.Present(init.parser) then
      "The parser \"" + init.parser.value + "\"" + WrittenPredicate
    else
      DefaultMessage
  }

  /** The parser, by name when it has a non-empty one. */
  function Subject(init: Init): string
  {
    if Text.Present(init.parser) then "The parser " + Text.Quote(init.parser.value) else "A parser"
  }

  /** The named branch ends with a predicate that differs from the default's
      ("parser" where the default says "parse"); without a parser the message
      is the default, the unnamed subject followed by the default's
      predicate. */
  lemma {:induction false} WrittenPredicateDiffers(init: Init)
    ensures Text.Present(init.parser) ==>
      Message(init) == Subject(init) + WrittenPredicate && WrittenPredicate != Predicate
    ensures !Text.Present(init.parser) ==> Message(init) == Subject(init) + Predicate
  {
    if Text.Present(init.parser) {
      Pieces(init.parser.value);
      assert WrittenPredicate[20] != Predicate[20];
    }
  }

  /** The concrete case `{ parser: "JSON" }`, word for word. */
  lemma JsonExample()
    ensures Message(Init(None, Some("JSON"))) == "The parser \"JSON\"" + " was unable to parser content."
    ensures Message(Init(None, Some("JSON"))) != "The parser \"JSON\"" + Predicate
  {
    var init := Init(None, Some("JSON"));
    WrittenPredicateDiffers(init);
    assert |"The parser \"JSON\"" + WrittenPredicate| != |"The parser \"JSON\"" + Predicate|;
  }

  /** Every message, named or not, ends with " content.". */
  lemma EndsWithContent(init: Init)
    ensures |Message(init)| > |Content| && Message(init)[|Message(init)| - |Content|..] == Content
  {
    WrittenPredicateDiffers(init);
    var verb := if Text.Present(init.parser) then " was unable to parser" else " was unable to parse";
    assert Message(init) == Subject(init) + (verb + Content);
    Associate(Subject(init), verb, Content);
    Ends(Subject(init) + verb, Content);
  }

  /** A named message opens with `The parser "` followed by the name. */
  lemma NamedOpening(init: Init)
    requires Text.Present(init.parser)
    ensures |Message(init)| > 12 + |init.parser.value|
    ensures Message(init)[..12] == "The parser \""
    ensures Message(init)[12..12 + |init.parser.value|] == init.parser.value
  {
    var opening, name := "The parser \"", init.parser.value;
    var close := "\"" + WrittenPredicate;
    Associate(opening, name, close);
    Starts(opening, name + close);
    Starts(name, close);
    assert (opening + (name + close))[12..] == name + close;
  }

  lemma Associate(a: string, b: string, c: string)
    ensures a + b + c == a + (b + c)
  {
  }

  lemma Ends(a: string, b: string)
    requires |a| > 0
    ensures |a + b| > |b| && (a + b)[|a + b| - |b|..] == b
  {
  }

  lemma Starts(a: string, b: string)
    ensures (a + b)[..|a|] == a
  {
  }

  lemma Pieces(name: string)
    ensures "The parser \"" + name + "\"" == "The parser " + Text.Quote(name)
  {
  }

  // ---------------------------------------------------------------------
  // Construction.

  /** The `init` object as the base exception keeps it. */
  function ToInit(init: Init): (r: BaseException.Init)
    ensures r.cause == init.cause
    ensures "parser" in r.fields <==> init.parser.Some?
  {
    BaseException.Init(init.cause,
      Construction.Entry("parser", init.parser.Map(s => BaseException.Str(s))))
  }

  /** `new ParseException(...)`. */
  function Create(args: Construction.Args<Init>): (e: BaseException.Exc)
    ensures e.kind == Kinds.Parse && BaseException.Code(e) == 18
    ensures args.NoArgs? ==> e.message == "A parser" + " was unable to parse content." && e.init.None?
    ensures args.FromInit? && Text.Present(args.init.parser) ==>
      e.message == Subject(args.init) + " was unable to parser content."
    ensures args.FromInit? && !Text.Present(args.init.parser) ==> e.message == "A parser" + " was unable to parse content."
    ensures args.FromMessage? ==> e.message == args.message
  {
    var e := Construction.Construct(Kinds.Parse, DefaultMessage, Message, ToInit, args);
    if args.FromInit? then WrittenPredicateDiffers(args.init); e else e
  }

  /** An empty parser name counts as absent. */
  lemma EmptyParserIgnored(init: Init)
    ensures Message(init.(parser := Some(""))) == Message(init.(parser := None))
  {
  }
}
