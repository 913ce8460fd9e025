/** `ArgumentException` (code 11): an argument has the correct type but an invalid
    value, optionally with the constraints the value breaks. */
module Argument {
  import opened Wrappers
  import Text
  import Kinds
  import BaseException
  import Construction

  /** `ArgumentExceptionInit`: `cause`, `argumentName` and `argumentConstraints`. */
  datatype Init = Init(cause: Option<BaseException.Cause>, argumentName: Option<string>,
                       argumentConstraints: Option<seq<string>>)

  const DefaultMessage := "An argument has the correct type, " + "but an invalid value."

  /** The constraints joined by ", ", when they count. */
  function Constraints(init: Init): Option<string>
  {
    Text.ListText(init.argumentConstraints, ", ")
  }

  /** `msgFromInit`: the first case of the cascade whose fields all count.
      The result is the sentence assembled from its parts. */
  function Message(init: Init): string
  {
    var name, toCsv := init.argumentName, Constraints(init);
    if Text.Present(name) && toCsv.Some? then
      "The argument \"" + name.value + "\" has the correct type, " + "but an invalid value."
      + (" It has the following constraints: " + toCsv.value + ".")
    else if toCsv.Some? then
      "An argument has the correct type, " + "but an invalid value."
      + (" It has the following constraints: " + toCsv.value + ".")
    else if Text.Present(name) then
      "The argument \"" + name.value + "\" has the correct type, " + "but an invalid value."
    else
      DefaultMessage
  }

  /** The message built part by part: the argument is named when its name is
      non-empty, and a second sentence lists the constraints when they
      count. */
  function Sentence(init: Init): string
  {
    (if Text.Present(init.argumentName) then "The argument " + Text.Quote(init.argumentName.value) else "An argument")
    + " has the correct type, " + "but an invalid value."
    + (match Constraints(init)
       case Some(csv) => " It has the following constraints: " + csv + "."
       case None => "")
  }

  /** The cascade picks exactly the sentence assembled from its parts: the
      name and the constraints each contribute their part independently. */
  lemma MessageIsSentence(init: Init)
    ensures Message(init) == Sentence(init)
  {
    var name, toCsv := init.argumentName, Constraints(init);
    if Text.Present(name) && toCsv.Some? {
      NamedSentence(name.value, " It has the following constraints: " + toCsv.value + ".");
    } else if toCsv.Some? {
      UnnamedSentence(" It has the following constraints: " + toCsv.value + ".");
    } else if Text.Present(name) {
      NamedSentence(name.value, "");
    } else {
      UnnamedSentence("");
    }
  }

  lemma NamedSentence(n: string, rest: string)
    ensures "The argument \"" + n + "\" has the correct type, " + "but an invalid value." + rest
         == "The argument " + Text.Quote(n) + " has the correct type, " + "but an invalid value." + rest
  {
  }

  lemma UnnamedSentence(rest: string)
    ensures "An argument has the correct type, " + "but an invalid value." + rest
         == "An argument" + " has the correct type, " + "but an invalid value." + rest
  {
  }

  /** The `init` object as the base exception keeps it. */
  function ToInit(init: Init): (r: BaseException.Init)
    ensures r.cause == init.cause
    ensures r.fields.Keys == (if init.argumentName.Some? then {"argumentName"} else {})
                           + (if init.argumentConstraints.Some? then {"argumentConstraints"} else {})
  {
    BaseException.Init(init.cause,
      Construction.Entry("argumentName", init.argumentName.Map(s => BaseException.Str(s)))
      + Construction.Entry("argumentConstraints", init.argumentConstraints.Map(l => BaseException.Strs(l))))
  }

  /** `new ArgumentException(...)`. */
  function Create(args: Construction.Args<Init>): (e: BaseException.Exc)
    ensures e.kind == Kinds.Argument && BaseException.Code(e) == 11
    ensures args.NoArgs? ==> e.message == "An argument has the correct type, " + "but an invalid value." && e.init.None?
    ensures args.FromInit? ==> e.message == Sentence(args.init) && BaseException.CauseOf(e) == args.init.cause
    ensures args.FromMessage? ==> e.message == args.message
  {
    var e := Construction.Construct(Kinds.Argument, DefaultMessage, Message, ToInit, args);
    if args.FromInit? then MessageIsSentence(args.init); e else e
  }

  /** An empty constraint list, or one holding only the empty string, counts
      as no list at all. */
  lemma EmptyConstraintsIgnored(init: Init)
    requires init.argumentConstraints == Some([]) || init.argumentConstraints == Some([""])
    ensures Message(init) == Message(init.(argumentConstraints := None))
  {
  }
}
