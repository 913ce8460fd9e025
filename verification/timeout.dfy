/** `TimeoutException` (code 3): an operation timed out, optionally after a
    given number of seconds. */
module Timeout {
  import opened Wrappers
  import Text
  import Kinds
  import BaseException
  import Construction

  /** `TimeoutExceptionInit`: `cause`, `operationName` and
      `operationTimeout`. */
  datatype Init = Init(cause: Option<BaseException.Cause>, operationName: Option<string>,
                       operationTimeout: Option<int>)

  const DefaultMessage := "An operation" + " timed out" + "."

  /** `msgFromInit`: the first case of the three whose fields all count. The
      name counts when non-empty, the timeout whenever it is present (0
      included). Each template is written as its pieces. */
  function Message(init: Init): string
  {
    var named := Text.Present(init.operationName);
    var timed := init.operationTimeout.Some?;
    var name := if init.operationName.Some? then init.operationName.value else "";
    var n := if timed then Text.Decimal(init.operationTimeout.value) else "";
    var s := if timed && init.operationTimeout.value != 1 then "s" else "";
    if named && timed then
      "The operation \"" + name + "\"" + " timed out" + (" after " + n + " second" + s) + "."
    else if named then
      "The operation \"" + name + "\"" + " timed out" + "."
    else if timed then
      "An operation" + " timed out" + (" after " + n + " second" + s) + "."
    else
      DefaultMessage
  }

  // ---------------------------------------------------------------------
  // The same sentence, assembled from its parts.

  /** The operation, by name when it has a non-empty one. */
  function Subject(init: Init): string
  {
    if Text.Present(init.operationName) then "The operation " + Text.Quote(init.operationName.value)
    else "An operation"
  }

  /** How long the operation ran, when the timeout is given. */
  function Duration(init: Init): string
  {
    if init.operationTimeout.Some? then
      " after " + Text.Decimal(init.operationTimeout.value) + " " + Text.Plural("second", init.operationTimeout.value)
    else ""
  }

  function Sentence(init: Init): string
  {
    Subject(init) + " timed out" + Duration(init) + "."
  }

  /** The cascade picks exactly the sentence assembled from its parts: the
      name and the timeout each contribute their part independently, so a
      name without a timeout never mentions seconds. */
  lemma MessageIsSentence(init: Init)
    ensures Message(init) == Sentence(init)
  {
    var name := if init.operationName.Some? then init.operationName.value else "";
    var n := if init.operationTimeout.Some? then Text.Decimal(init.operationTimeout.value) else "";
    var s := if init.operationTimeout.Some? && init.operationTimeout.value != 1 then "s" else "";
    Pieces(name, n, s);
    DefaultPieces();
  }

  lemma Pieces(name: string, n: string, s: string)
    ensures "The operation \"" + name + "\"" == "The operation " + Text.Quote(name)
    ensures " after " + n + " second" + s == " after " + n + " " + ("second" + s)
  {
  }

  lemma DefaultPieces()
    ensures DefaultMessage == "An operation" + " timed out" + "" + "."
  {
  }

  // ---------------------------------------------------------------------
  // Construction.

  /** The `init` object as the base exception keeps it. */
  function ToInit(init: Init): (r: BaseException.Init)
    ensures r.cause == init.cause
    ensures "operationName" in r.fields <==> init.operationName.Some?
    ensures "operationTimeout" in r.fields <==> init.operationTimeout.Some?
  {
    BaseException.Init(init.cause,
      Construction.Entry("operationName", init.operationName.Map(s => BaseException.Str(s)))
      + Construction.Entry("operationTimeout", init.operationTimeout.Map(n => BaseException.Num(n))))
  }

  /** `new TimeoutException(...)`. */
  function Create(args: Construction.Args<Init>): (e: BaseException.Exc)
    ensures e.kind == Kinds.Timeout && BaseException.Code(e) == 3
    ensures args.NoArgs? ==> e.message == "An operation" + " timed out" + "." && e.init.None?
    ensures args.FromInit? ==> e.message == Sentence(args.init)
    ensures args.FromMessage? ==> e.message == args.message
  {
    var e := Construction.Construct(Kinds.Timeout, DefaultMessage, Message, ToInit, args);
    if args.FromInit? then MessageIsSentence(args.init); e else e
  }

  // ---------------------------------------------------------------------
  // Properties of the derivation.

  /** A timeout of 0 counts as given; and the word before the period is
      "seconds" exactly when the timeout is not 1. */
  lemma SecondsPlural(init: Init)
    requires init.operationTimeout.Some?
    ensures Duration(init) == " after " + Text.Decimal(init.operationTimeout.value)
                              + " " + Text.Plural("second", init.operationTimeout.value)
    ensures Message(init)[|Message(init)| - 2] == 's' <==> init.operationTimeout.value != 1
  {
    MessageIsSentence(init);
    var n := init.operationTimeout.value;
    var a := Subject(init) + " timed out";
    var d, w := Text.Decimal(n), Text.Plural("second", n);
    assert Sentence(init) == a + Duration(init) + ".";
    Regroup(a, d, w);
    Text.PluralBeforePeriod(a + (" after " + d + " "), "second", n);
  }

  lemma Regroup(a: string, d: string, w: string)
    ensures a + (" after " + d + " " + w) + "." == (a + (" after " + d + " ")) + w + "."
  {
  }
}
