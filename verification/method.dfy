/** `MethodException` (code 8): a method cannot be found on an object,
    optionally listing the methods that are valid. */
module Method {
  import opened Wrappers
  import Text
  import Kinds
  import BaseException
  import Construction

  /** `MethodExceptionInit`: `cause`, `valueName`, `methodName` and
      `validMethods`. */
  datatype Init = Init(cause: Option<BaseException.Cause>, valueName: Option<string>,
                       methodName: Option<string>, validMethods: Option<seq<string>>)

  const DefaultMessage := "Unable to locate " + "a method" + " on " + "an object" + "."

  /** The separator `validMethods` is joined with: a quote, a comma, a space
      and a quote. */
  const Separator := "\", \""

  /** `toCsv`: the valid methods joined, when the list counts. */
  function ValidMethods(init: Init): Option<string>
  {
    Text.ListText(init.validMethods, Separator)
  }

  /** `msgFromInit`: the first case of the seven whose fields all count.
      Each template is written as its pieces. */
  function Message(init: Init): string
  {
    var named, hasMethod, toCsv := Text.Present(init.valueName), Text.Present(init.methodName), ValidMethods(init);
    var name := if init.valueName.Some? then init.valueName.value else "";
    var methodName := if init.methodName.Some? then init.methodName.value else "";
    var csv := if toCsv.Some? then toCsv.value else "";
    var theMethod, aMethod := "the method \"" + methodName + "\"", "a method";
    var theObject, anObject := "the object \"" + name + "\"", "an object";
    var valid := ". Valid methods include: " + ("\"" + csv + "\"");
    if named && hasMethod && toCsv.Some? then
      "Unable to locate " + theMethod + " on " + theObject + valid + "."
    else if hasMethod && toCsv.Some? then
      "Unable to locate " + theMethod + " on " + anObject + valid + "."
    else if named && toCsv.Some? then
      "Unable to locate " + aMethod + " on " + theObject + valid + "."
    else if named && hasMethod then
      "Unable to locate " + theMethod + " on " + theObject + "."
    else if toCsv.Some? then
      "Unable to locate " + aMethod + " on " + anObject + valid + "."
    else if hasMethod then
      "Unable to locate " + theMethod + " on " + anObject + "."
    else if named then
      "Unable to locate " + aMethod + " on " + theObject + "."
    else
      DefaultMessage
  }

  // ---------------------------------------------------------------------
  // The same sentence, assembled from its parts.

  /** The method, by name when it is non-empty. */
  function MethodPart(init: Init): string
  {
    if Text.Present(init.methodName) then "the method " + Text.Quote(init.methodName.value) else "a method"
  }

  /** The object, by name when it is non-empty. */
  function ObjectPart(init: Init): string
  {
    if Text.Present(init.valueName) then "the object " + Text.Quote(init.valueName.value)
    else "an object"
  }

  /** The valid methods, each in its own quotes and separated by ", ", when the
      list counts. */
  function ValidPart(init: Init): string
  {
    if ValidMethods(init).Some? then ". Valid methods include: " + Text.Join(Text.QuoteAll(init.validMethods.value), ", ")
    else ""
  }

  function Sentence(init: Init): string
  {
    "Unable to locate " + MethodPart(init) + " on " + ObjectPart(init) + ValidPart(init) + "."
  }

  /** The cascade picks exactly the sentence assembled from its parts: the
      object, the method and the list each contribute their part independently,
      and every valid method is quoted on its own. */
  lemma MessageIsSentence(init: Init)
    ensures Message(init) == Sentence(init)
  {
    var name := if init.valueName.Some? then init.valueName.value else "";
    var methodName := if init.methodName.Some? then init.methodName.value else "";
    Pieces(name, methodName);
    DefaultPieces();
    if ValidMethods(init).Some? {
      Text.QuotedJoin(init.validMethods.value);
    }
  }

  lemma Pieces(name: string, methodName: string)
    ensures "the method \"" + methodName + "\"" == "the method " + Text.Quote(methodName)
    ensures "the object \"" + name + "\"" == "the object " + Text.Quote(name)
  {
  }

  lemma DefaultPieces()
    ensures DefaultMessage == "Unable to locate " + "a method" + " on " + "an object" + "" + "."
  {
  }

  // ---------------------------------------------------------------------
  // Construction.

  /** The `init` object as the base exception keeps it. */
  function ToInit(init: Init): (r: BaseException.Init)
    ensures r.cause == init.cause
    ensures "valueName" in r.fields <==> init.valueName.Some?
    ensures "methodName" in r.fields <==> init.methodName.Some?
    ensures "validMethods" in r.fields <==> init.validMethods.Some?
  {
    BaseException.Init(init.cause,
      Construction.Entry("valueName", init.valueName.Map(s => BaseException.Str(s)))
      + Construction.Entry("methodName", init.methodName.Map(s => BaseException.Str(s)))
      + Construction.Entry("validMethods", init.validMethods.Map(l => BaseException.Strs(l))))
  }

  /** `new MethodException(...)`. */
  function Create(args: Construction.Args<Init>): (e: BaseException.Exc)
    ensures e.kind == Kinds.Method && BaseException.Code(e) == 8
    ensures args.NoArgs? ==> e.message == "Unable to locate " + "a method" + " on " + "an object" + "." && e.init.None?
    ensures args.FromInit? ==> e.message == Sentence(args.init)
    ensures args.FromMessage? ==> e.message == args.message
  {
    var e := Construction.Construct(Kinds.Method, DefaultMessage, Message, ToInit, args);
    if args.FromInit? then MessageIsSentence(args.init); e else e
  }

  // ---------------------------------------------------------------------
  // Properties of the derivation.

  /** An empty object name, an empty method name and an empty list each count as absent. */
  lemma EmptyFieldsIgnored(init: Init)
    ensures Message(init.(valueName := Some(""))) == Message(init.(valueName := None))
    ensures Message(init.(methodName := Some(""))) == Message(init.(methodName := None))
    ensures Message(init.(validMethods := Some([]))) == Message(init.(validMethods := None))
  {
  }
}
