/** `IndexException` (code 6): an index is outside the bounds of an array.
    Deriving the message also validates the bounds, and throws a
    `ValueException` when the upper bound does not exceed the lower one. */
module Index {
  import opened Wrappers
  import Text
  import Kinds
  import BaseException
  import Construction
  import Value

  /** `IndexExceptionInit`: `cause`, `valueName`, and the numbers `index`,
      `lowerBound` and `upperBound`. */
  datatype Init = Init(cause: Option<BaseException.Cause>, valueName: Option<string>,
                       index: Option<int>, lowerBound: Option<int>, upperBound: Option<int>)

  const DefaultMessage := "An index" + " is outside the bounds of " + "an array" + "."

  /** The `init` of the `ValueException` that `validateBoundaries` throws. */
  const BoundsInit := Value.Init(None, Some("init.upperBound"), Some(["positive integer", "greater than init.lowerBound"]))

  /** The `ValueException` that `validateBoundaries` throws. */
  function BoundsFailure(): (e: BaseException.Exc)
    ensures e.kind == Kinds.Value && e.init.Some?
  {
    Value.Create(Construction.FromInit(BoundsInit))
  }

  /** Its message names `init.upperBound` and lists both constraints. */
  lemma BoundsFailureMessage()
    ensures BoundsFailure().message ==
      "The symbol \"" + "init.upperBound" + "\" has the correct type, " + "but an invalid value."
      + (" It has the following constraints: " + ("positive integer" + ", " + "greater than init.lowerBound") + ".")
  {
    var list := ["positive integer", "greater than init.lowerBound"];
    assert list[1..] == ["greater than init.lowerBound"];
    assert Text.Join(list, ", ") == "positive integer" + ", " + "greater than init.lowerBound";
    assert Value.Constraints(BoundsInit) == Some("positive integer" + ", " + "greater than init.lowerBound");
    Value.MessageIsSentence(BoundsInit);
  }

  /** `validateBoundaries(lower, upper)`, then the sentence it guards. */
  function Validate(lower: int, upper: int, message: string): Result<string, BaseException.Exc>
  {
    if upper <= lower then Failure(BoundsFailure()) else Success(message)
  }

  /** `msgFromInit`: the first case of the fourteen whose fields all count. A
      name counts when it is non-empty; a number counts whenever it is
      present, zero included. Each template is written as its pieces. */
  function Derive(init: Init): Result<string, BaseException.Exc>
  {
    var named := Text.Present(init.valueName);
    var name := if init.valueName.Some? then init.valueName.value else "";
    var i := if init.index.Some? then Text.Decimal(init.index.value) else "";
    var lo := if init.lowerBound.Some? then Text.Decimal(init.lowerBound.value) else "";
    var up := if init.upperBound.Some? then Text.Decimal(init.upperBound.value) else "";
    var theIndex, anIndex := "The index " + i, "An index";
    var outside := " is outside the bounds of ";
    var theArray, anArray := "the array \"" + name + "\"", "an array";
    var between := ". The index must be " + lo + " or " + up + ", or between them";
    var fromZero := ". The index must be 0 or " + up + ", or between them";
    var orGreater := ". The index must be " + lo + " or greater";
    if named && init.index.Some? && init.lowerBound.Some? && init.upperBound.Some? then
      Validate(init.lowerBound.value, init.upperBound.value, theIndex + outside + theArray + between + ".")
    else if named && init.lowerBound.Some? && init.upperBound.Some? then
      Validate(init.lowerBound.value, init.upperBound.value, anIndex + outside + theArray + between + ".")
    else if named && init.index.Some? && init.upperBound.Some? then
      Validate(0, init.upperBound.value, theIndex + outside + theArray + fromZero + ".")
    else if named && init.index.Some? && init.lowerBound.Some? then
      Success(theIndex + outside + theArray + orGreater + ".")
    else if init.lowerBound.Some? && init.upperBound.Some? then
      Validate(init.lowerBound.value, init.upperBound.value, anIndex + outside + anArray + between + ".")
    else if init.index.Some? && init.upperBound.Some? then
      Validate(0, init.upperBound.value, theIndex + outside + anArray + fromZero + ".")
    else if init.index.Some? && init.lowerBound.Some? then
      Success(theIndex + outside + anArray + orGreater + ".")
    else if named && init.upperBound.Some? then
      Validate(0, init.upperBound.value, anIndex + outside + theArray + fromZero + ".")
    else if named && init.lowerBound.Some? then
      Success(anIndex + outside + theArray + orGreater + ".")
    else if named && init.index.Some? then
      Success(theIndex + outside + theArray + ".")
    else if init.upperBound.Some? then
      Validate(0, init.upperBound.value, anIndex + outside + anArray + fromZero + ".")
    else if init.lowerBound.Some? then
      Success(anIndex + outside + anArray + orGreater + ".")
    else if init.index.Some? then
      Success(theIndex + outside + anArray + ".")
    else if named then
      Success(anIndex + outside + theArray + ".")
    else
      Success(DefaultMessage)
  }

  // ---------------------------------------------------------------------
  // The same sentence, assembled from its parts.

  /** The bounds are inverted: an upper bound that does not exceed the lower
      bound, or 0 when there is no lower bound. */
  predicate Inverted(init: Init)
  {
    init.upperBound.Some? && init.upperBound.value <= (if init.lowerBound.Some? then init.lowerBound.value else 0)
  }

  /** The subject names the index when there is one, except when the array
      is unnamed and both bounds are given: that case of the cascade comes
      before the ones that mention the index. */
  function Subject(init: Init): string
  {
    if init.index.Some? && !(!Text.Present(init.valueName) && init.lowerBound.Some? && init.upperBound.Some?)
    then "The index " + Text.Decimal(init.index.value)
    else "An index"
  }

  /** The array, by name when it has a non-empty one. */
  function ArrayPart(init: Init): string
  {
    if Text.Present(init.valueName) then "the array " + Text.Quote(init.valueName.value) else "an array"
  }

  /** The range the index must lie in: both bounds (the lower one defaulting
      to 0) when there is an upper bound, else the lower bound alone, else
      nothing. */
  function RangePart(init: Init): string
  {
    if init.upperBound.Some? then
      ". The index must be " + (if init.lowerBound.Some? then Text.Decimal(init.lowerBound.value) else "0")
      + " or " + Text.Decimal(init.upperBound.value) + ", or between them"
    else if init.lowerBound.Some? then
      ". The index must be " + Text.Decimal(init.lowerBound.value) + " or greater"
    else ""
  }

  function Sentence(init: Init): string
  {
    Subject(init) + " is outside the bounds of " + ArrayPart(init) + RangePart(init) + "."
  }

  /** Derivation fails exactly when the bounds are inverted, with the
      `ValueException` of `validateBoundaries`; otherwise it gives the
      sentence assembled from the subject, the array and the range. */
  lemma DeriveIsSentence(init: Init)
    ensures Derive(init).Failure? <==>
      init.upperBound.Some? && init.upperBound.value <= (if init.lowerBound.Some? then init.lowerBound.value else 0)
    ensures Derive(init).Failure? ==> Derive(init).error == BoundsFailure()
    ensures Derive(init).Success? ==> Derive(init).value == Sentence(init)
  {
    if init.upperBound.Some? {
      BoundedIsSentence(init);
    } else {
      UnboundedIsSentence(init);
    }
  }

  /** With an upper bound every case of the cascade validates the bounds:
      against the lower bound when there is one, against 0 otherwise. */
  lemma BoundedIsSentence(init: Init)
    requires init.upperBound.Some?
    ensures Derive(init).Failure? <==> Inverted(init)
    ensures Derive(init).Failure? ==> Derive(init).error == BoundsFailure()
    ensures Derive(init).Success? ==> Derive(init).value == Sentence(init)
  {
    var name := if init.valueName.Some? then init.valueName.value else "";
    if init.lowerBound.Some? {
      BothBoundsIsSentence(init, name);
    } else {
      UpperBoundIsSentence(init, name);
    }
  }

  lemma UpperBoundIsSentence(init: Init, name: string)
    requires init.upperBound.Some? && init.lowerBound.None?
    requires name == if init.valueName.Some? then init.valueName.value else ""
    ensures Derive(init).Failure? <==> Inverted(init)
    ensures Derive(init).Failure? ==> Derive(init).error == BoundsFailure()
    ensures Derive(init).Success? ==> Derive(init).value == Sentence(init)
  {
    Pieces(name, Text.Decimal(init.upperBound.value));
    if init.index.Some? {
      IndexedUpperBound(init, name);
    }
  }

  lemma IndexedUpperBound(init: Init, name: string)
    requires init.upperBound.Some? && init.lowerBound.None? && init.index.Some?
    requires name == if init.valueName.Some? then init.valueName.value else ""
    ensures Derive(init).Failure? <==> Inverted(init)
    ensures Derive(init).Failure? ==> Derive(init).error == BoundsFailure()
    ensures Derive(init).Success? ==> Derive(init).value == Sentence(init)
  {
    Pieces(name, Text.Decimal(init.upperBound.value));
  }

  lemma BothBoundsIsSentence(init: Init, name: string)
    requires init.upperBound.Some? && init.lowerBound.Some?
    requires name == if init.valueName.Some? then init.valueName.value else ""
    ensures Derive(init).Failure? <==> Inverted(init)
    ensures Derive(init).Failure? ==> Derive(init).error == BoundsFailure()
    ensures Derive(init).Success? ==> Derive(init).value == Sentence(init)
  {
    Pieces(name, Text.Decimal(init.upperBound.value));
  }

  /** Without an upper bound no case of the cascade validates anything. */
  lemma UnboundedIsSentence(init: Init)
    requires init.upperBound.None?
    ensures Derive(init).Success? && Derive(init).value == Sentence(init)
  {
    var name := if init.valueName.Some? then init.valueName.value else "";
    if init.lowerBound.Some? {
      LowerBoundIsSentence(init, name);
    } else {
      NoBoundIsSentence(init, name);
    }
  }

  lemma LowerBoundIsSentence(init: Init, name: string)
    requires init.upperBound.None? && init.lowerBound.Some?
    requires name == if init.valueName.Some? then init.valueName.value else ""
    ensures Derive(init).Success? && Derive(init).value == Sentence(init)
  {
    Pieces(name, "");
  }

  lemma NoBoundIsSentence(init: Init, name: string)
    requires init.upperBound.None? && init.lowerBound.None?
    requires name == if init.valueName.Some? then init.valueName.value else ""
    ensures Derive(init).Success? && Derive(init).value == Sentence(init)
  {
    Pieces(name, "");
    DefaultPieces();
  }

  lemma Pieces(name: string, up: string)
    ensures "the array \"" + name + "\"" == "the array " + Text.Quote(name)
    ensures ". The index must be 0 or " + up + ", or between them"
         == ". The index must be " + "0" + " or " + up + ", or between them"
  {
  }

  lemma DefaultPieces()
    ensures DefaultMessage == "An index" + " is outside the bounds of " + "an array" + "" + "."
  {
  }

  // ---------------------------------------------------------------------
  // Construction.

  /** The `init` object as the base exception keeps it. */
  function ToInit(init: Init): (r: BaseException.Init)
    ensures r.cause == init.cause
    ensures "valueName" in r.fields <==> init.valueName.Some?
    ensures "index" in r.fields <==> init.index.Some?
    ensures "lowerBound" in r.fields <==> init.lowerBound.Some?
    ensures "upperBound" in r.fields <==> init.upperBound.Some?
  {
    BaseException.Init(init.cause,
      Construction.Entry("valueName", init.valueName.Map(s => BaseException.Str(s)))
      + Construction.Entry("index", init.index.Map(n => BaseException.Num(n)))
      + Construction.Entry("lowerBound", init.lowerBound.Map(n => BaseException.Num(n)))
      + Construction.Entry("upperBound", init.upperBound.Map(n => BaseException.Num(n))))
  }

  /** `new IndexException(...)`, which throws when deriving the message from
      an `init` object with inverted bounds. A message string is kept as given
      and no bound is checked, whatever the `init` that follows it holds. */
  function TryCreate(args: Construction.Args<Init>): (r: Result<BaseException.Exc, BaseException.Exc>)
    ensures r.Failure? ==> args.FromInit?
    ensures r.Success? ==> r.value.kind == Kinds.Index && BaseException.Code(r.value) == 6
    ensures args.NoArgs? ==> (r.Success? && r.value.init.None? &&
                              r.value.message == "An index" + " is outside the bounds of " + "an array" + ".")
    ensures args.FromMessage? ==> r.Success? && r.value.message == args.message
  {
    Construction.TryConstruct(Kinds.Index, DefaultMessage, Derive, ToInit, args)
  }

  /** From an `init` object the constructor throws exactly when the bounds
      are inverted, with the `ValueException` of `validateBoundaries`, and
      otherwise carries the sentence assembled from the parts. */
  lemma CreateFromInit(init: Init)
    ensures var r := TryCreate(Construction.FromInit(init));
            && (r.Failure? <==> Inverted(init))
            && (r.Failure? ==> r.error == BoundsFailure())
            && (r.Success? ==> r.value.message == Sentence(init))
  {
    DeriveIsSentence(init);
  }

  // ---------------------------------------------------------------------
  // Properties of the derivation.

  /** Without an upper bound nothing is validated, so derivation never
      fails. */
  lemma NoUpperBoundNeverFails(init: Init)
    requires init.upperBound.None?
    ensures Derive(init).Success?
  {
    DeriveIsSentence(init);
  }

  /** With an upper bound but no lower bound, the implicit lower bound is 0:
      derivation fails exactly when the upper bound is not positive, and the
      sentence gives 0 as the lower end of the range. */
  lemma ImplicitLowerBoundIsZero(init: Init)
    requires init.upperBound.Some? && init.lowerBound.None?
    ensures Derive(init).Failure? <==> init.upperBound.value <= 0
    ensures RangePart(init) == ". The index must be " + "0" + " or " + Text.Decimal(init.upperBound.value) + ", or between them"
  {
    DeriveIsSentence(init);
  }

  /** When the array is unnamed and both bounds are given, the index itself
      is left out of the sentence: the fifth case of the cascade, which does
      not mention it, is reached before the cases that do. */
  lemma UnnamedBoundedDropsIndex(init: Init)
    requires !Text.Present(init.valueName) && init.index.Some?
    requires init.lowerBound.Some? && init.upperBound.Some?
    ensures Derive(init) == Derive(init.(index := None))
  {
    DeriveIsSentence(init);
    DeriveIsSentence(init.(index := None));
  }

  /** An empty name counts as no name at all. */
  lemma EmptyNameIgnored(init: Init)
    requires init.valueName == Some("")
    ensures Derive(init) == Derive(init.(valueName := None))
  {
    DeriveIsSentence(init);
    DeriveIsSentence(init.(valueName := None));
  }
}
