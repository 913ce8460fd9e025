/** The legacy `ArgumentKeyException` (code 13). Its `init` interface declares
    the object's name as `valueName`, but the message is derived from a
    property called `argumentName`, which the interface does not declare and
    which only an untyped extra property can supply. The sentences are those
    of the current `ArgumentKeyException`. This models the legacy source as
    written; the legacy tree does not load as written (see README). */
module LegacyArgumentKey {
  import opened Wrappers
  import Text
  import Kinds
  import BaseException
  import Construction
  import ArgumentKey

  /** `ArgumentKeyExceptionInit` as declared (`cause`, `key`, `validKeys`,
      `valueName`), plus the undeclared `argumentName` the derivation reads. */
  datatype Init = Init(cause: Option<BaseException.Cause>, key: Option<string>,
                       validKeys: Option<seq<string>>, valueName: Option<string>,
                       argumentName: Option<string>)

  /** The fields `msgFromInit` destructures, as written: `argumentName`,
      `key` and `validKeys`. */
  function AsRead(init: Init): (r: ArgumentKey.Init)
    ensures r.argumentName == init.argumentName && r.key == init.key && r.validKeys == init.validKeys
  {
    ArgumentKey.Init(init.cause, init.argumentName, init.key, init.validKeys)
  }

  /** The fields as the interface declares them: the object's name is
      `valueName`. */
  function AsDeclared(init: Init): (r: ArgumentKey.Init)
    ensures r.argumentName == init.valueName && r.key == init.key && r.validKeys == init.validKeys
  {
    ArgumentKey.Init(init.cause, init.valueName, init.key, init.validKeys)
  }

  /** `msgFromInit` as written. */
  function Message(init: Init): string
  {
    ArgumentKey.Message(AsRead(init))
  }

  /** The message a derivation reading the declared `valueName` would give:
      the reference the written derivation is compared with. */
  function DeclaredMessage(init: Init): string
  {
    ArgumentKey.Message(AsDeclared(init))
  }

  /** As written, the declared `valueName` never reaches the message. */
  lemma ValueNameIgnored(init: Init, other: Option<string>)
    ensures Message(init.(valueName := other)) == Message(init)
  {
  }

  /** The concrete case `{ valueName: "options" }`: the written derivation
      yields the default message, while a reading of the declared field would
      name the argument. */
  lemma DeclaredNameDropped()
    ensures Message(Init(None, None, None, Some("options"), None)) == ArgumentKey.DefaultMessage
    ensures DeclaredMessage(Init(None, None, None, Some("options"), None))
            == "Unable to locate " + "a property key" + " on "
               + ("the object or record argument " + Text.Quote("options")) + "" + "."
  {
    var init := Init(None, None, None, Some("options"), None);
    ArgumentKey.MessageIsSentence(AsDeclared(init));
  }

  /** Read through the declared field, a non-empty `valueName` is quoted in
      the message, and a name supplied only through the undeclared property
      is not. */
  lemma DeclaredReadingNamesObject(init: Init)
    ensures DeclaredMessage(init) == ArgumentKey.Sentence(AsDeclared(init))
    ensures Text.Present(init.valueName) ==>
      ArgumentKey.ObjectPart(AsDeclared(init)) == "the object or record argument " + Text.Quote(init.valueName.value)
    ensures DeclaredMessage(init.(argumentName := None)) == DeclaredMessage(init)
  {
    ArgumentKey.MessageIsSentence(AsDeclared(init));
  }

  /** The two derivations agree when the undeclared and the declared name
      count the same way and, when they count, are equal. */
  lemma AgreeWhenNamesAgree(init: Init)
    requires Text.Present(init.argumentName) == Text.Present(init.valueName)
    requires Text.Present(init.argumentName) ==> init.argumentName == init.valueName
    ensures Message(init) == DeclaredMessage(init)
  {
    ArgumentKey.MessageIsSentence(AsRead(init));
    ArgumentKey.MessageIsSentence(AsDeclared(init));
  }

  /** The `init` object as the base exception keeps it: every property
      given, declared or not. */
  function ToInit(init: Init): (r: BaseException.Init)
    ensures r.cause == init.cause
    ensures "valueName" in r.fields <==> init.valueName.Some?
    ensures "argumentName" in r.fields <==> init.argumentName.Some?
    ensures "key" in r.fields <==> init.key.Some?
    ensures "validKeys" in r.fields <==> init.validKeys.Some?
  {
    BaseException.Init(init.cause,
      Construction.Entry("key", init.key.Map(s => BaseException.Str(s)))
      + Construction.Entry("validKeys", init.validKeys.Map(l => BaseException.Strs(l)))
      + Construction.Entry("valueName", init.valueName.Map(s => BaseException.Str(s)))
      + Construction.Entry("argumentName", init.argumentName.Map(s => BaseException.Str(s))))
  }

  /** The legacy `new ArgumentKeyException(...)`, as written. */
  function Create(args: Construction.Args<Init>): (e: BaseException.Exc)
    ensures e.kind == Kinds.ArgumentKey && BaseException.Code(e) == 13
    ensures args.NoArgs? ==> e.message == ArgumentKey.DefaultMessage && e.init.None?
    ensures args.FromInit? ==> e.message == ArgumentKey.Sentence(AsRead(args.init))
    ensures args.FromMessage? ==> e.message == args.message
  {
    var e := Construction.Construct(Kinds.ArgumentKey, ArgumentKey.DefaultMessage, Message, ToInit, args);
    if args.FromInit? then ArgumentKey.MessageIsSentence(AsRead(args.init)); e else e
  }
}
