/** `NotImplementedException` (code 15): a method is not
    implemented, optionally naming it. */
module NotImplemented {
  import opened Wrappers
  import Text
  import Kinds
  import BaseException
  import Construction

  /** `NotImplementedExceptionInit`: `cause` and `methodName`. */
  datatype Init = Init(cause: Option<BaseException.Cause>, methodName: Option<string>)

  const DefaultMessage := "This method is not implemented."

  /** `msgFromInit`: the method by name when it has a non-empty one,
      otherwise the default. */
  function Message(init: Init): string
  {
    if Text.Present(init.methodName) then
      "The method \"" + init.methodName.value + "\"" + " is not implemented."
    else
      DefaultMessage
  }

  /** The method, by name when it has a non-empty one. */
  function Subject(init: Init): string
  {
    if Text.Present(init.methodName) then "The method " + Text.Quote(init.methodName.value) else "This method"
  }

  function Sentence(init: Init): string
  {
    Subject(init) + " is not implemented."
  }

  /** The two branches are one sentence whose subject is either the named
      method or "This method". */
  lemma MessageIsSentence(init: Init)
    ensures Message(init) == Sentence(init)
  {
    if Text.Present(init.methodName) {
      Pieces(init.methodName.value);
    } else {
      assert DefaultMessage == "This method" + " is not implemented.";
    }
  }

  lemma Pieces(name: string)
    ensures "The method \"" + name + "\"" == "The method " + Text.Quote(name)
  {
  }

  /** The `init` object as the base exception keeps it. */
  function ToInit(init: Init): (r: BaseException.Init)
    ensures r.cause == init.cause
    ensures "methodName" in r.fields <==> init.methodName.Some?
  {
    BaseException.Init(init.cause,
      Construction.Entry("methodName", init.methodName.Map(s => BaseException.Str(s))))
  }

  /** `new NotImplementedException(...)`. */
  function Create(args: Construction.Args<Init>): (e: BaseException.Exc)
    ensures e.kind == Kinds.NotImplemented && BaseException.Code(e) == 15
    ensures args.NoArgs? ==> e.message == "This method is not implemented." && e.init.None?
    ensures args.FromInit? ==> e.message == Sentence(args.init)
    ensures args.FromMessage? ==> e.message == args.message
  {
    var e := Construction.Construct(Kinds.NotImplemented, DefaultMessage, Message, ToInit, args);
    if args.FromInit? then MessageIsSentence(args.init); e else e
  }

  /** A named message carries the name verbatim between the quotes that
      follow "The method ", so the name can be read back from it. */
  lemma {:induction false} NameReadsBack(init: Init)
    requires Text.Present(init.methodName)
    ensures var m, n := Message(init), init.methodName.value;
            |m| > 12 + |n| && m[..12] == "The method \"" && m[12..12 + |n|] == n && m[12 + |n|] == '"'
  {
    var n := init.methodName.value;
    var m := Message(init);
    assert m == "The method \"" + n + ("\"" + " is not implemented.");
  }

  /** An empty name counts as absent. */
  lemma EmptyNameIgnored(init: Init)
    ensures Message(init.(methodName := Some(""))) == Message(init.(methodName := None))
  {
  }
}
