/** `DecoratorException` (code 10): a decorator failed to apply, optionally
    naming the decorator and its type. */
module Decorator {
  import opened Wrappers
  import Text
  import Kinds
  import BaseException
  import Construction

  /** `DecoratorExceptionInit`: `cause`, `decoratorName` and `decoratorType`. */
  datatype Init = Init(cause: Option<BaseException.Cause>, decoratorName: Option<string>,
                       decoratorType: Option<string>)

  const DefaultMessage := "A" + " decorator" + " failed to apply."

  /** `msgFromInit`: the first case of the three whose fields all count. The
      article before a type alone is "An" when the type starts with one of
      the lower-case letters a, e, i, o, u. Each template is written as its
      pieces. */
  function Message(init: Init): string
  {
    var named, typed := Text.Present(init.decoratorName), Text.Present(init.decoratorType);
    var name := if init.decoratorName.Some? then init.decoratorName.value else "";
    var ty := if init.decoratorType.Some? then init.decoratorType.value else "";
    var a := if typed && ty[0] in "aeiou" then "An" else "A";
    if named && typed then
      "The" + (" " + ty) + " decorator" + (" \"" + name + "\"") + " failed to apply."
    else if typed then
      a + (" " + ty) + " decorator" + " failed to apply."
    else if named then
      "The" + " decorator" + (" \"" + name + "\"") + " failed to apply."
    else
      DefaultMessage
  }

  // ---------------------------------------------------------------------
  // The same sentence, assembled from its parts.

  /** The type as written, or nothing. */
  function TypeWord(init: Init): string
  {
    if Text.Present(init.decoratorType) then init.decoratorType.value else ""
  }

  /** "The" for a named decorator; otherwise the article of the type, and
      "A" when there is no type. */
  function Determiner(init: Init): string
  {
    if Text.Present(init.decoratorName) then "The" else Text.Article(TypeWord(init))
  }

  function TypePart(init: Init): string
  {
    if Text.Present(init.decoratorType) then " " + init.decoratorType.value else ""
  }

  function NamePart(init: Init): string
  {
    if Text.Present(init.decoratorName) then " " + Text.Quote(init.decoratorName.value) else ""
  }

  function Sentence(init: Init): string
  {
    Determiner(init) + TypePart(init) + " decorator" + NamePart(init) + " failed to apply."
  }

  /** The cascade picks exactly the sentence assembled from its parts: the
      name and the type each contribute their part independently, and the
      name decides between the definite and the indefinite article. */
  lemma MessageIsSentence(init: Init)
    ensures Message(init) == Sentence(init)
  {
    var name := if init.decoratorName.Some? then init.decoratorName.value else "";
    Pieces(name);
    DefaultPieces();
  }

  lemma Pieces(name: string)
    ensures " \"" + name + "\"" == " " + Text.Quote(name)
  {
  }

  lemma DefaultPieces()
    ensures DefaultMessage == "A" + "" + " decorator" + "" + " failed to apply."
  {
  }

  // ---------------------------------------------------------------------
  // Construction.

  /** The `init` object as the base exception keeps it. */
  function ToInit(init: Init): (r: BaseException.Init)
    ensures r.cause == init.cause
    ensures "decoratorName" in r.fields <==> init.decoratorName.Some?
    ensures "decoratorType" in r.fields <==> init.decoratorType.Some?
  {
    BaseException.Init(init.cause,
      Construction.Entry("decoratorName", init.decoratorName.Map(s => BaseException.Str(s)))
      + Construction.Entry("decoratorType", init.decoratorType.Map(s => BaseException.Str(s))))
  }

  /** `new DecoratorException(...)`. */
  function Create(args: Construction.Args<Init>): (e: BaseException.Exc)
    ensures e.kind == Kinds.Decorator && BaseException.Code(e) == 10
    ensures args.NoArgs? ==> e.message == "A" + " decorator" + " failed to apply." && e.init.None?
    ensures args.FromInit? ==> e.message == Sentence(args.init)
    ensures args.FromMessage? ==> e.message == args.message
  {
    var e := Construction.Construct(Kinds.Decorator, DefaultMessage, Message, ToInit, args);
    if args.FromInit? then MessageIsSentence(args.init); e else e
  }

  // ---------------------------------------------------------------------
  // Properties of the derivation.

  /** A message starts with "The " exactly when the decorator has a
      non-empty name. */
  lemma DefiniteIffNamed(init: Init)
    ensures Message(init)[..4] == "The " <==> Text.Present(init.decoratorName)
  {
    MessageIsSentence(init);
    SentenceOpening(init);
  }

  lemma SentenceOpening(init: Init)
    ensures |Sentence(init)| >= 4 && (Sentence(init)[..4] == "The " <==> Text.Present(init.decoratorName))
  {
    var d, t, n := Determiner(init), TypePart(init), NamePart(init);
    var tail := " decorator" + n + " failed to apply.";
    assert tail[0] == ' ';
    LeadingSpace(t, tail);
    Regroup(d, t, " decorator", n, " failed to apply.");
    Text.Opening(d, t + tail);
  }

  lemma LeadingSpace(a: string, b: string)
    requires a == "" || a[0] == ' '
    requires |b| >= 3 && b[0] == ' '
    ensures |a + b| >= 3 && (a + b)[0] == ' '
  {
  }

  lemma Regroup(d: string, t: string, x: string, n: string, f: string)
    ensures d + t + x + n + f == d + (t + (x + n + f))
  {
  }

  /** For a type without a name the article is "An" exactly when the type
      starts with a lower-case vowel: "An" + " async decorator" but
      "A" + " Entity decorator". */
  lemma ArticleFollowsType(init: Init)
    requires !Text.Present(init.decoratorName) && Text.Present(init.decoratorType)
    ensures Message(init)[..2] == "An" <==> init.decoratorType.value[0] in "aeiou"
  {
    MessageIsSentence(init);
    var d, t, n := Determiner(init), TypePart(init), NamePart(init);
    var tail := " decorator" + n + " failed to apply.";
    assert tail[0] == ' ';
    LeadingSpace(t, tail);
    Regroup(d, t, " decorator", n, " failed to apply.");
    Text.IndefiniteOpening(d, t + tail);
  }

  /** An empty name and an empty type each count as absent. */
  lemma EmptyFieldsIgnored(init: Init)
    ensures Message(init.(decoratorName := Some(""))) == Message(init.(decoratorName := None))
    ensures Message(init.(decoratorType := Some(""))) == Message(init.(decoratorType := None))
  {
  }
}
