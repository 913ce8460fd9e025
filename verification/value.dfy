/** `ValueException` (code 5): a symbol has the correct type but an invalid
    value, optionally with the constraints the value breaks. */
module Value {
  import opened Wrappers
  import Text
  import Kinds
  import BaseException
  import Construction

  /** `ValueExceptionInit`: `cause`, `valueName` and `valueConstraints`. */
  datatype Init = Init(cause: Option<BaseException.Cause>, valueName: Option<string>,
                       valueConstraints: Option<seq<string>>)

  const DefaultMessage := "A symbol has the correct type, " + "but an invalid value."

  /** The constraints joined by ", ", when they count. */
  function Constraints(init: Init): Option<string>
  {
    Text.ListText(init.valueConstraints, ", ")
  }

  /** `msgFromInit`: the first case of the cascade whose fields all count.
      The result is the sentence assembled from its parts. */
  function Message(init: Init): string
  {
    var name, toCsv := init.valueName, Constraints(init);
    if Text.Present(name) && toCsv.Some? then
      "The symbol \"" + name.value + "\" has the correct type, " + "but an invalid value."
      + (" It has the following constraints: " + toCsv.value + ".")
    else if toCsv.Some? then
      "A symbol has the correct type, " + "but an invalid value."
      + (" It has the following constraints: " + toCsv.value + ".")
    else if Text.Present(name) then
      "The symbol \"" + name.value + "\" has the correct type, " + "but an invalid value."
    else
      DefaultMessage
  }

  /** The message built part by part: the symbol is named when its name is
      non-empty, and a second sentence lists the constraints when they
      count. */
  function Sentence(init: Init): string
  {
    (if Text.Present(init.valueName) then "The symbol " + Text.Quote(init.valueName.value) else "A symbol")
    + " has the correct type, " + "but an invalid value."
    + (match Constraints(init)
       case Some(csv) => " It has the following constraints: " + csv + "."
       case None => "")
  }

  /** The cascade picks exactly the sentence assembled from its parts: the
      name and the constraints each contribute their part independently. */
  lemma MessageIsSentence(init: Init)
    ensures Message(init) == Sentence(init)
  {
    var name, toCsv := init.valueName, Constraints(init);
    if Text.Present(name) && toCsv.Some? {
      NamedSentence(name.value, " It has the following constraints: " + toCsv.value + ".");
    } else if toCsv.Some? {
      UnnamedSentence(" It has the following constraints: " + toCsv.value + ".");
    } else if Text.Present(name) {
      NamedSentence(name.value, "");
    } else {
      UnnamedSentence("");
    }
  }

  lemma NamedSentence(n: string, rest: string)
    ensures "The symbol \"" + n + "\" has the correct type, " + "but an invalid value." + rest
         == "The symbol " + Text.Quote(n) + " has the correct type, " + "but an invalid value." + rest
  {
  }

  lemma UnnamedSentence(rest: string)
    ensures "A symbol has the correct type, " + "but an invalid value." + rest
         == "A symbol" + " has the correct type, " + "but an invalid value." + rest
  {
  }

  /** The `init` object as the base exception keeps it. */
  function ToInit(init: Init): (r: BaseException.Init)
    ensures r.cause == init.cause
    ensures r.fields.Keys == (if init.valueName.Some? then {"valueName"} else {})
                           + (if init.valueConstraints.Some? then {"valueConstraints"} else {})
  {
    BaseException.Init(init.cause,
      Construction.Entry("valueName", init.valueName.Map(s => BaseException.Str(s)))
      + Construction.Entry("valueConstraints", init.valueConstraints.Map(l => BaseException.Strs(l))))
  }

  /** `new ValueException(...)`. */
  function Create(args: Construction.Args<Init>): (e: BaseException.Exc)
    ensures e.kind == Kinds.Value && BaseException.Code(e) == 5
    ensures args.NoArgs? ==> e.message == "A symbol has the correct type, " + "but an invalid value." && e.init.None?
    ensures args.FromInit? ==> e.message == Sentence(args.init) && BaseException.CauseOf(e) == args.init.cause
    ensures args.FromMessage? ==> e.message == args.message
  {
    var e := Construction.Construct(Kinds.Value, DefaultMessage, Message, ToInit, args);
    if args.FromInit? then MessageIsSentence(args.init); e else e
  }

  /** A name and two constraints give both sentences, the constraints
      joined by ", ". */
  lemma NamedWithConstraints()
    ensures Message(Init(None, Some("x"), Some(["number", "between 1 and 20"]))) ==
      "The symbol \"" + "x" + "\" has the correct type, " + "but an invalid value."
      + (" It has the following constraints: " + "number, between 1 and 20" + ".")
  {
    var init := Init(None, Some("x"), Some(["number", "between 1 and 20"]));
    assert ["number", "between 1 and 20"][1..] == ["between 1 and 20"];
    assert Text.Join(["number", "between 1 and 20"], ", ") == "number" + ", " + "between 1 and 20";
    assert "number" + ", " + "between 1 and 20" == "number, between 1 and 20";
    assert Constraints(init) == Some("number, between 1 and 20");
  }

  /** An empty constraint list, or one holding only the empty string, counts
      as no list at all. */
  lemma EmptyConstraintsIgnored(init: Init)
    requires init.valueConstraints == Some([]) || init.valueConstraints == Some([""])
    ensures Message(init) == Message(init.(valueConstraints := None))
  {
  }
}
