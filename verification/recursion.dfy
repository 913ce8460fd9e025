/** `RecursionException` (code 4): an operation exceeded the maximum
    recursion depth, optionally by repeating the same recursion values. */
module Recursion {
  import opened Wrappers
  import Text
  import Kinds
  import BaseException
  import Construction

  /** `RecursionExceptionInit`: `cause`, `operationName`, `recursionLimit`
      and `consecutiveRepeatingValues`. */
  datatype Init = Init(cause: Option<BaseException.Cause>, operationName: Option<string>,
                       recursionLimit: Option<int>, consecutiveRepeatingValues: Option<bool>)

  const DefaultMessage := "An operation" + " exceeded the maximum recursion depth" + "."

  /** `msgFromInit`: the first case of the seven whose fields all count. The
      name counts when non-empty, the limit whenever it is present (0
      included), and the repetition flag only when it is `true`. Each
      template is written as its pieces. */
  function Message(init: Init): string
  {
    var named := Text.Present(init.operationName);
    var repeating := Text.IsTrue(init.consecutiveRepeatingValues);
    var limited := init.recursionLimit.Some?;
    var name := if init.operationName.Some? then init.operationName.value else "";
    var n := if limited then Text.Decimal(init.recursionLimit.value) else "";
    var s := if limited && init.recursionLimit.value != 1 then "s" else "";
    var theOperation, anOperation := "The operation \"" + name + "\"", "An operation";
    var exceeded := " exceeded the maximum recursion depth";
    var byRepeating := " by handling consecutive repeating" + " recursion values";
    if named && repeating && limited then
      theOperation + exceeded + byRepeating + (" " + n + " time" + s) + "."
    else if repeating && limited then
      anOperation + exceeded + byRepeating + (" " + n + " time" + s) + "."
    else if named && repeating then
      theOperation + exceeded + byRepeating + "."
    else if named && limited then
      theOperation + exceeded + (" of " + n) + "."
    else if repeating then
      anOperation + exceeded + byRepeating + "."
    else if limited then
      anOperation + exceeded + (" of " + n) + "."
    else if named then
      theOperation + exceeded + "."
    else
      DefaultMessage
  }

  // ---------------------------------------------------------------------
  // The same sentence, assembled from its parts.

  /** The operation, by name when it has a non-empty one. */
  function Subject(init: Init): string
  {
    if Text.Present(init.operationName) then "The operation " + Text.Quote(init.operationName.value)
    else "An operation"
  }

  /** What the depth was exceeded by: repeating values (with the count when
      there is a limit) when the flag is `true`; otherwise the limit itself,
      when there is one. */
  function Detail(init: Init): string
  {
    if Text.IsTrue(init.consecutiveRepeatingValues) then
      " by handling consecutive repeating" + " recursion values"
      + (if init.recursionLimit.Some?
         then " " + Text.Decimal(init.recursionLimit.value) + " " + Text.Plural("time", init.recursionLimit.value)
         else "")
    else if init.recursionLimit.Some? then " of " + Text.Decimal(init.recursionLimit.value)
    else ""
  }

  function Sentence(init: Init): string
  {
    Subject(init) + " exceeded the maximum recursion depth" + Detail(init) + "."
  }

  /** The cascade picks exactly the sentence assembled from its parts. */
  lemma MessageIsSentence(init: Init)
    ensures Message(init) == Sentence(init)
  {
    var repeating := Text.IsTrue(init.consecutiveRepeatingValues);
    if repeating && init.recursionLimit.Some? {
      CountedIsSentence(init);
    } else if repeating {
      RepeatingIsSentence(init);
    } else if init.recursionLimit.Some? {
      LimitIsSentence(init);
    } else {
      var name := if init.operationName.Some? then init.operationName.value else "";
      Pieces(name, "", "");
      DefaultPieces();
    }
  }

  lemma CountedIsSentence(init: Init)
    requires Text.IsTrue(init.consecutiveRepeatingValues) && init.recursionLimit.Some?
    ensures Message(init) == Sentence(init)
  {
    var name := if init.operationName.Some? then init.operationName.value else "";
    var v := init.recursionLimit.value;
    var byRepeating := " by handling consecutive repeating" + " recursion values";
    var count := " " + Text.Decimal(v) + " time" + (if v != 1 then "s" else "");
    var head := Subject(init) + " exceeded the maximum recursion depth";
    Pieces(name, Text.Decimal(v), if v != 1 then "s" else "");
    assert Message(init) == head + byRepeating + count + ".";
    CountedDetail(init);
    Associate(head, byRepeating, count);
  }

  lemma Associate(a: string, b: string, c: string)
    ensures a + b + c == a + (b + c)
  {
  }

  lemma RepeatingIsSentence(init: Init)
    requires Text.IsTrue(init.consecutiveRepeatingValues) && init.recursionLimit.None?
    ensures Message(init) == Sentence(init)
  {
    var name := if init.operationName.Some? then init.operationName.value else "";
    Pieces(name, "", "");
    assert Detail(init) == " by handling consecutive repeating" + " recursion values" + "";
  }

  lemma LimitIsSentence(init: Init)
    requires !Text.IsTrue(init.consecutiveRepeatingValues) && init.recursionLimit.Some?
    ensures Message(init) == Sentence(init)
  {
    var name := if init.operationName.Some? then init.operationName.value else "";
    Pieces(name, "", "");
  }

  lemma CountedDetail(init: Init)
    requires Text.IsTrue(init.consecutiveRepeatingValues) && init.recursionLimit.Some?
    ensures var v := init.recursionLimit.value;
            Detail(init) == " by handling consecutive repeating" + " recursion values"
                            + (" " + Text.Decimal(v) + " time" + (if v != 1 then "s" else ""))
  {
    var v := init.recursionLimit.value;
    Pieces("", Text.Decimal(v), if v != 1 then "s" else "");
  }

  lemma Pieces(name: string, n: string, s: string)
    ensures "The operation \"" + name + "\"" == "The operation " + Text.Quote(name)
    ensures " " + n + " time" + s == " " + n + " " + ("time" + s)
  {
  }

  lemma DefaultPieces()
    ensures DefaultMessage == "An operation" + " exceeded the maximum recursion depth" + "" + "."
  {
  }

  // ---------------------------------------------------------------------
  // Construction.

  /** The `init` object as the base exception keeps it. */
  function ToInit(init: Init): (r: BaseException.Init)
    ensures r.cause == init.cause
    ensures "operationName" in r.fields <==> init.operationName.Some?
    ensures "recursionLimit" in r.fields <==> init.recursionLimit.Some?
    ensures "consecutiveRepeatingValues" in r.fields <==> init.consecutiveRepeatingValues.Some?
  {
    BaseException.Init(init.cause,
      Construction.Entry("operationName", init.operationName.Map(s => BaseException.Str(s)))
      + Construction.Entry("recursionLimit", init.recursionLimit.Map(n => BaseException.Num(n)))
      + Construction.Entry("consecutiveRepeatingValues", init.consecutiveRepeatingValues.Map(b => BaseException.Bool(b))))
  }

  /** `new RecursionException(...)`. */
  function Create(args: Construction.Args<Init>): (e: BaseException.Exc)
    ensures e.kind == Kinds.Recursion && BaseException.Code(e) == 4
    ensures args.NoArgs? ==> e.message == "An operation" + " exceeded the maximum recursion depth" + "." && e.init.None?
    ensures args.FromInit? ==> e.message == Sentence(args.init)
    ensures args.FromMessage? ==> e.message == args.message
  {
    var e := Construction.Construct(Kinds.Recursion, DefaultMessage, Message, ToInit, args);
    if args.FromInit? then MessageIsSentence(args.init); e else e
  }

  // ---------------------------------------------------------------------
  // Properties of the derivation.

  /** `consecutiveRepeatingValues: false` gives the same message as leaving
      the flag out. */
  lemma FalseFlagIsAbsent(init: Init)
    ensures Message(init.(consecutiveRepeatingValues := Some(false))) ==
            Message(init.(consecutiveRepeatingValues := None))
  {
    MessageIsSentence(init.(consecutiveRepeatingValues := Some(false)));
    MessageIsSentence(init.(consecutiveRepeatingValues := None));
  }

  /** With the flag set and a limit given, the sentence counts the
      repetitions (whether or not the operation is named), and the word
      before the period is "times" exactly when the limit is not 1. */
  lemma RepetitionCount(init: Init)
    requires Text.IsTrue(init.consecutiveRepeatingValues) && init.recursionLimit.Some?
    ensures Detail(init) ==
      " by handling consecutive repeating" + " recursion values"
      + (" " + Text.Decimal(init.recursionLimit.value) + " " + Text.Plural("time", init.recursionLimit.value))
    ensures Message(init)[|Message(init)| - 2] == 's' <==> init.recursionLimit.value != 1
  {
    MessageIsSentence(init);
    var n := init.recursionLimit.value;
    var a := Subject(init) + " exceeded the maximum recursion depth";
    var r := " by handling consecutive repeating" + " recursion values";
    var d, w := Text.Decimal(n), Text.Plural("time", n);
    assert Sentence(init) == a + Detail(init) + ".";
    Regroup(a, r, d, w);
    Text.PluralBeforePeriod(a + (r + " " + d + " "), "time", n);
  }

  lemma Regroup(a: string, r: string, d: string, w: string)
    ensures a + (r + (" " + d + " " + w)) + "." == (a + (r + " " + d + " ")) + w + "."
  {
  }

  /** The sentence opens with "The operation" exactly when the name counts,
      and with "An operation" otherwise. */
  lemma SubjectIff(init: Init)
    ensures Message(init)[0] == 'T' <==> Text.Present(init.operationName)
    ensures Message(init)[0] == 'A' <==> !Text.Present(init.operationName)
  {
    MessageIsSentence(init);
  }
}
