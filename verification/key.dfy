/** `KeyException` (code 7): a property key cannot be found on an object or
    record, optionally listing the keys that are valid. */
module Key {
  import opened Wrappers
  import Text
  import Kinds
  import BaseException
  import Construction

  /** `KeyExceptionInit`: `cause`, `valueName`, `key` and `validKeys`. */
  datatype Init = Init(cause: Option<BaseException.Cause>, valueName: Option<string>,
                       key: Option<string>, validKeys: Option<seq<string>>)

  const DefaultMessage := "Unable to locate " + "a property key" + " on " + "an object or record" + "."

  /** The separator `validKeys` is joined with: a quote, a comma, a space
      and a quote. */
  const Separator := "\", \""

  /** `toCsv`: the valid keys joined, when the list counts. */
  function ValidKeys(init: Init): Option<string>
  {
    Text.ListText(init.validKeys, Separator)
  }

  /** `msgFromInit`: the first case of the seven whose fields all count.
      Each template is written as its pieces. */
  function Message(init: Init): string
  {
    var named, keyed, toCsv := Text.Present(init.valueName), Text.Present(init.key), ValidKeys(init);
    var name := if init.valueName.Some? then init.valueName.value else "";
    var key := if init.key.Some? then init.key.value else "";
    var csv := if toCsv.Some? then toCsv.value else "";
    var theKey, aKey := "the property key \"" + key + "\"", "a property key";
    var theObject, anObject := "the object or record \"" + name + "\"", "an object or record";
    var valid := ". Valid property keys include: " + ("\"" + csv + "\"");
    if named && keyed && toCsv.Some? then
      "Unable to locate " + theKey + " on " + theObject + valid + "."
    else if keyed && toCsv.Some? then
      "Unable to locate " + theKey + " on " + anObject + valid + "."
    else if named && toCsv.Some? then
      "Unable to locate " + aKey + " on " + theObject + valid + "."
    else if named && keyed then
      "Unable to locate " + theKey + " on " + theObject + "."
    else if toCsv.Some? then
      "Unable to locate " + aKey + " on " + anObject + valid + "."
    else if keyed then
      "Unable to locate " + theKey + " on " + anObject + "."
    else if named then
      "Unable to locate " + aKey + " on " + theObject + "."
    else
      DefaultMessage
  }

  // ---------------------------------------------------------------------
  // The same sentence, assembled from its parts.

  /** The key, by name when it is non-empty. */
  function KeyPart(init: Init): string
  {
    if Text.Present(init.key) then "the property key " + Text.Quote(init.key.value) else "a property key"
  }

  /** The object or record, by name when it is non-empty. */
  function ObjectPart(init: Init): string
  {
    if Text.Present(init.valueName) then "the object or record " + Text.Quote(init.valueName.value)
    else "an object or record"
  }

  /** The valid keys, each in its own quotes and separated by ", ", when the
      list counts. */
  function ValidPart(init: Init): string
  {
    if ValidKeys(init).Some? then ". Valid property keys include: " + Text.Join(Text.QuoteAll(init.validKeys.value), ", ")
    else ""
  }

  function Sentence(init: Init): string
  {
    "Unable to locate " + KeyPart(init) + " on " + ObjectPart(init) + ValidPart(init) + "."
  }

  /** The cascade picks exactly the sentence assembled from its parts: the
      object, the key and the list each contribute their part independently,
      and every valid key is quoted on its own. */
  lemma MessageIsSentence(init: Init)
    ensures Message(init) == Sentence(init)
  {
    var name := if init.valueName.Some? then init.valueName.value else "";
    var key := if init.key.Some? then init.key.value else "";
    Pieces(name, key);
    DefaultPieces();
    if ValidKeys(init).Some? {
      Text.QuotedJoin(init.validKeys.value);
    }
  }

  lemma Pieces(name: string, key: string)
    ensures "the property key \"" + key + "\"" == "the property key " + Text.Quote(key)
    ensures "the object or record \"" + name + "\"" == "the object or record " + Text.Quote(name)
  {
  }

  lemma DefaultPieces()
    ensures DefaultMessage == "Unable to locate " + "a property key" + " on " + "an object or record" + "" + "."
  {
  }

  // ---------------------------------------------------------------------
  // Construction.

  /** The `init` object as the base exception keeps it. */
  function ToInit(init: Init): (r: BaseException.Init)
    ensures r.cause == init.cause
    ensures "valueName" in r.fields <==> init.valueName.Some?
    ensures "key" in r.fields <==> init.key.Some?
    ensures "validKeys" in r.fields <==> init.validKeys.Some?
  {
    BaseException.Init(init.cause,
      Construction.Entry("valueName", init.valueName.Map(s => BaseException.Str(s)))
      + Construction.Entry("key", init.key.Map(s => BaseException.Str(s)))
      + Construction.Entry("validKeys", init.validKeys.Map(l => BaseException.Strs(l))))
  }

  /** `new KeyException(...)`. */
  function Create(args: Construction.Args<Init>): (e: BaseException.Exc)
    ensures e.kind == Kinds.Key && BaseException.Code(e) == 7
    ensures args.NoArgs? ==> e.message == "Unable to locate " + "a property key" + " on " + "an object or record" + "." && e.init.None?
    ensures args.FromInit? ==> e.message == Sentence(args.init)
    ensures args.FromMessage? ==> e.message == args.message
  {
    var e := Construction.Construct(Kinds.Key, DefaultMessage, Message, ToInit, args);
    if args.FromInit? then MessageIsSentence(args.init); e else e
  }

  // ---------------------------------------------------------------------
  // Properties of the derivation.

  /** An empty name, an empty key and an empty list each count as absent. */
  lemma EmptyFieldsIgnored(init: Init)
    ensures Message(init.(valueName := Some(""))) == Message(init.(valueName := None))
    ensures Message(init.(key := Some(""))) == Message(init.(key := None))
    ensures Message(init.(validKeys := Some([]))) == Message(init.(validKeys := None))
  {
  }
}
