/** `ExternalException` (code 1): an external codebase raised an exception,
    optionally naming it and its type. */
module External {
  import opened Wrappers
  import Text
  import Kinds
  import BaseException
  import Construction

  /** `ExternalExceptionInit`: `cause`, `externalName` and `externalType`. */
  datatype Init = Init(cause: Option<BaseException.Cause>, externalName: Option<string>,
                       externalType: Option<string>)

  const DefaultMessage := "An" + " external " + "codebase" + " raised an exception."

  /** `msgFromInit`: the first case of the three whose fields all count. Each
      template is written as its pieces. */
  function Message(init: Init): string
  {
    var named, typed := Text.Present(init.externalName), Text.Present(init.externalType);
    var name := if init.externalName.Some? then init.externalName.value else "";
    var ty := if init.externalType.Some? then init.externalType.value else "";
    if named && typed then
      "The" + " external " + ty + (" \"" + name + "\"") + " raised an exception."
    else if named then
      "The" + " external " + "codebase" + (" \"" + name + "\"") + " raised an exception."
    else if typed then
      "An" + " external " + ty + " raised an exception."
    else
      DefaultMessage
  }

  // ---------------------------------------------------------------------
  // The same sentence, assembled from its parts.

  /** What raised the exception: the type when it is non-empty, else
      "codebase". */
  function Noun(init: Init): string
  {
    if Text.Present(init.externalType) then init.externalType.value else "codebase"
  }

  /** "The" for a named codebase, "An" (before "external") otherwise. */
  function Determiner(init: Init): string
  {
    if Text.Present(init.externalName) then "The" else "An"
  }

  function NamePart(init: Init): string
  {
    if Text.Present(init.externalName) then " " + Text.Quote(init.externalName.value) else ""
  }

  function Sentence(init: Init): string
  {
    Determiner(init) + " external " + Noun(init) + NamePart(init) + " raised an exception."
  }

  /** The cascade picks exactly the sentence assembled from its parts. */
  lemma MessageIsSentence(init: Init)
    ensures Message(init) == Sentence(init)
  {
    var name := if init.externalName.Some? then init.externalName.value else "";
    Pieces(name);
    DefaultPieces();
  }

  lemma Pieces(name: string)
    ensures " \"" + name + "\"" == " " + Text.Quote(name)
  {
  }

  lemma DefaultPieces()
    ensures DefaultMessage == "An" + " external " + "codebase" + "" + " raised an exception."
  {
  }

  // ---------------------------------------------------------------------
  // Construction.

  /** The `init` object as the base exception keeps it. */
  function ToInit(init: Init): (r: BaseException.Init)
    ensures r.cause == init.cause
    ensures "externalName" in r.fields <==> init.externalName.Some?
    ensures "externalType" in r.fields <==> init.externalType.Some?
  {
    BaseException.Init(init.cause,
      Construction.Entry("externalName", init.externalName.Map(s => BaseException.Str(s)))
      + Construction.Entry("externalType", init.externalType.Map(s => BaseException.Str(s))))
  }

  /** `new ExternalException(...)`. */
  function Create(args: Construction.Args<Init>): (e: BaseException.Exc)
    ensures e.kind == Kinds.External && BaseException.Code(e) == 1
    ensures args.NoArgs? ==> e.message == "An" + " external " + "codebase" + " raised an exception." && e.init.None?
    ensures args.FromInit? ==> e.message == Sentence(args.init)
    ensures args.FromMessage? ==> e.message == args.message
  {
    var e := Construction.Construct(Kinds.External, DefaultMessage, Message, ToInit, args);
    if args.FromInit? then MessageIsSentence(args.init); e else e
  }

  // ---------------------------------------------------------------------
  // Properties of the derivation.

  /** A name without a type is called a codebase, exactly as in the default
      message. */
  lemma NamedDefaultsToCodebase(init: Init)
    requires Text.Present(init.externalName) && !Text.Present(init.externalType)
    ensures Message(init) == "The external codebase " + Text.Quote(init.externalName.value) + " raised an exception."
  {
    MessageIsSentence(init);
    CodebasePiece(Text.Quote(init.externalName.value));
  }

  lemma CodebasePiece(q: string)
    ensures "The" + " external " + "codebase" + " " + q + " raised an exception."
            == "The external codebase " + q + " raised an exception."
  {
  }

  /** An empty name and an empty type each count as absent. */
  lemma EmptyFieldsIgnored(init: Init)
    ensures Message(init.(externalName := Some(""))) == Message(init.(externalName := None))
    ensures Message(init.(externalType := Some(""))) == Message(init.(externalType := None))
  {
  }
}
