/** `AbortedException` (code 9): an operation was aborted prematurely,
    optionally naming the operation and its type. */
module Aborted {
  import opened Wrappers
  import Text
  import Kinds
  import BaseException
  import Construction

  /** `AbortedExceptionInit`: `cause`, `operationName` and `operationType`. */
  datatype Init = Init(cause: Option<BaseException.Cause>, operationName: Option<string>,
                       operationType: Option<string>)

  const DefaultMessage := "An" + " " + "operation" + " was aborted prematurely."

  /** `msgFromInit`: the first case of the three whose fields all count. The
      article before a type alone is "An" when the type starts with one of
      the lower-case letters a, e, i, o, u. Each template is written as its
      pieces. */
  function Message(init: Init): string
  {
    var named, typed := Text.Present(init.operationName), Text.Present(init.operationType);
    var name := if init.operationName.Some? then init.operationName.value else "";
    var ty := if init.operationType.Some? then init.operationType.value else "";
    var a := if typed && ty[0] in "aeiou" then "An" else "A";
    if named && typed then
      "The" + (" " + ty) + (" \"" + name + "\"") + " was aborted prematurely."
    else if typed then
      a + (" " + ty) + " was aborted prematurely."
    else if named then
      "The" + " operation" + (" \"" + name + "\"") + " was aborted prematurely."
    else
      DefaultMessage
  }

  // ---------------------------------------------------------------------
  // The same sentence, assembled from its parts.

  /** What was aborted: the type when it is non-empty, else "operation". */
  function Noun(init: Init): string
  {
    if Text.Present(init.operationType) then init.operationType.value else "operation"
  }

  /** "The" for a named operation; otherwise the indefinite article that
      suits the noun. */
  function Determiner(init: Init): string
  {
    if Text.Present(init.operationName) then "The" else Text.Article(Noun(init))
  }

  function NamePart(init: Init): string
  {
    if Text.Present(init.operationName) then " " + Text.Quote(init.operationName.value) else ""
  }

  function Sentence(init: Init): string
  {
    Determiner(init) + " " + Noun(init) + NamePart(init) + " was aborted prematurely."
  }

  /** The cascade picks exactly the sentence assembled from its parts; the
      default message is the case of the noun "operation" without a name. */
  lemma MessageIsSentence(init: Init)
    ensures Message(init) == Sentence(init)
  {
    var name := if init.operationName.Some? then init.operationName.value else "";
    Pieces(name);
    DefaultPieces();
    var named, typed := Text.Present(init.operationName), Text.Present(init.operationType);
    if named && typed {
      assert Message(init) == "The" + (" " + Noun(init)) + NamePart(init) + " was aborted prematurely.";
    } else if typed {
      assert Message(init) == Determiner(init) + (" " + Noun(init)) + " was aborted prematurely.";
    } else if named {
      assert Message(init) == "The" + " operation" + NamePart(init) + " was aborted prematurely.";
    }
  }

  lemma Pieces(name: string)
    ensures " \"" + name + "\"" == " " + Text.Quote(name)
    ensures Text.Article("operation") == "An"
  {
  }

  lemma DefaultPieces()
    ensures DefaultMessage == "An" + " " + "operation" + "" + " was aborted prematurely."
  {
  }

  // ---------------------------------------------------------------------
  // Construction.

  /** The `init` object as the base exception keeps it. */
  function ToInit(init: Init): (r: BaseException.Init)
    ensures r.cause == init.cause
    ensures "operationName" in r.fields <==> init.operationName.Some?
    ensures "operationType" in r.fields <==> init.operationType.Some?
  {
    BaseException.Init(init.cause,
      Construction.Entry("operationName", init.operationName.Map(s => BaseException.Str(s)))
      + Construction.Entry("operationType", init.operationType.Map(s => BaseException.Str(s))))
  }

  /** `new AbortedException(...)`. */
  function Create(args: Construction.Args<Init>): (e: BaseException.Exc)
    ensures e.kind == Kinds.Aborted && BaseException.Code(e) == 9
    ensures args.NoArgs? ==> e.message == "An" + " " + "operation" + " was aborted prematurely." && e.init.None?
    ensures args.FromInit? ==> e.message == Sentence(args.init)
    ensures args.FromMessage? ==> e.message == args.message
  {
    var e := Construction.Construct(Kinds.Aborted, DefaultMessage, Message, ToInit, args);
    if args.FromInit? then MessageIsSentence(args.init); e else e
  }

  // ---------------------------------------------------------------------
  // Properties of the derivation.

  /** Every message derived from an init ends the way the default does. */
  lemma SameEnding(init: Init)
    ensures |Message(init)| >= 25
    ensures Message(init)[|Message(init)| - 25..] == " was aborted prematurely."
  {
    MessageIsSentence(init);
    var head := Determiner(init) + " " + Noun(init) + NamePart(init);
    assert Message(init) == head + " was aborted prematurely.";
  }

  /** A message starts with "The " exactly when the operation has a
      non-empty name. */
  lemma DefiniteIffNamed(init: Init)
    ensures Message(init)[..4] == "The " <==> Text.Present(init.operationName)
  {
    MessageIsSentence(init);
    var d, rest := Determiner(init), " " + Noun(init) + NamePart(init) + " was aborted prematurely.";
    Regroup(d, Noun(init), NamePart(init));
    Text.Opening(d, rest);
  }

  /** For a type without a name the article is "An" exactly when the type
      starts with a lower-case vowel: "An" + " upload" but "A" + " Upload". */
  lemma ArticleFollowsType(init: Init)
    requires !Text.Present(init.operationName) && Text.Present(init.operationType)
    ensures Message(init)[..2] == "An" <==> init.operationType.value[0] in "aeiou"
  {
    MessageIsSentence(init);
    var d, rest := Determiner(init), " " + Noun(init) + NamePart(init) + " was aborted prematurely.";
    Regroup(d, Noun(init), NamePart(init));
    Text.IndefiniteOpening(d, rest);
  }

  lemma Regroup(d: string, noun: string, name: string)
    ensures d + " " + noun + name + " was aborted prematurely."
            == d + (" " + noun + name + " was aborted prematurely.")
  {
  }

  /** An empty name and an empty type each count as absent. */
  lemma EmptyFieldsIgnored(init: Init)
    ensures Message(init.(operationName := Some(""))) == Message(init.(operationName := None))
    ensures Message(init.(operationType := Some(""))) == Message(init.(operationType := None))
  {
  }
}
