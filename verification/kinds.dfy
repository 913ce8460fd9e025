/** The exception kinds, each with the numeric code it declares as
    `public readonly code` and the class name the runtime reports as `name`. */
module Kinds {
  import opened Wrappers

  /** The base class and its seventeen subclasses. */
  datatype Kind =
    | Exception
    | External
    | Assertion
    | Timeout
    | Recursion
    | Value
    | Index
    | Key
    | Method
    | Aborted
    | Decorator
    | Argument
    | ArgumentIndex
    | ArgumentKey
    | NotSupported
    | NotImplemented
    | Format
    | Parse

  /** The code each kind declares. 16 is not used by any kind. */
  function Code(k: Kind): nat
  {
    match k
    case Exception => 0
    case External => 1
    case Assertion => 2
    case Timeout => 3
    case Recursion => 4
    case Value => 5
    case Index => 6
    case Key => 7
    case Method => 8
    case Aborted => 9
    case Decorator => 10
    case Argument => 11
    case ArgumentIndex => 12
    case ArgumentKey => 13
    case NotSupported => 14
    case NotImplemented => 15
    case Format => 17
    case Parse => 18
  }

  /** The class name, which `this.constructor.name` yields at run time: a
      stem followed by "Exception". */
  function Name(k: Kind): string
  {
    Stem(k) + Suffix
  }

  const Suffix := "Exception"

  /** The part of the class name before "Exception"; empty for the base
      class. */
  function Stem(k: Kind): string
  {
    match k
    case Exception => ""
    case External => "External"
    case Assertion => "Assertion"
    case Timeout => "Timeout"
    case Recursion => "Recursion"
    case Value => "Value"
    case Index => "Index"
    case Key => "Key"
    case Method => "Method"
    case Aborted => "Aborted"
    case Decorator => "Decorator"
    case Argument => "Argument"
    case ArgumentIndex => "ArgumentIndex"
    case ArgumentKey => "ArgumentKey"
    case NotSupported => "NotSupported"
    case NotImplemented => "NotImplemented"
    case Format => "Format"
    case Parse => "Parse"
  }

  /** The kind that declares a code, if any kind does. */
  function KindOfCode(n: int): (r: Option<Kind>)
    ensures r.Some? ==> Code(r.value) == n
    ensures r.None? <==> n < 0 || n == 16 || n > 18
  {
    match n
    case 0 => Some(Exception)
    case 1 => Some(External)
    case 2 => Some(Assertion)
    case 3 => Some(Timeout)
    case 4 => Some(Recursion)
    case 5 => Some(Value)
    case 6 => Some(Index)
    case 7 => Some(Key)
    case 8 => Some(Method)
    case 9 => Some(Aborted)
    case 10 => Some(Decorator)
    case 11 => Some(Argument)
    case 12 => Some(ArgumentIndex)
    case 13 => Some(ArgumentKey)
    case 14 => Some(NotSupported)
    case 15 => Some(NotImplemented)
    case 17 => Some(Format)
    case 18 => Some(Parse)
    case _ => None
  }

  /** A code names exactly the kind that declares it. */
  lemma CodeIdentifiesKind(k: Kind)
    ensures KindOfCode(Code(k)) == Some(k)
  {
  }

  /** No two kinds share a code. */
  lemma CodesDistinct(k: Kind, k': Kind)
    requires Code(k) == Code(k')
    ensures k == k'
  {
    CodeIdentifiesKind(k);
    CodeIdentifiesKind(k');
  }

  /** The codes in use are 0 to 18 without 16. */
  lemma CodesInUse(n: int)
    ensures (exists k :: Code(k) == n) <==> 0 <= n <= 18 && n != 16
  {
    if 0 <= n <= 18 && n != 16 {
      assert Code(KindOfCode(n).value) == n;
    }
  }

  /** A class name contains no space, so it ends where the first space of a
      `toString()` rendering is. */
  lemma NameHasNoSpace(k: Kind)
    ensures |Name(k)| > 0 && ' ' !in Name(k)
  {
    assert ' ' !in Suffix;
    assert ' ' !in Stem(k);
    assert forall i :: 0 <= i < |Name(k)| ==> Name(k)[i] in Stem(k) || Name(k)[i] in Suffix;
  }

  /** The kind whose stem this is, if any. */
  function KindOfStem(stem: string): (r: Option<Kind>)
    ensures r.Some? ==> Stem(r.value) == stem
  {
    if stem == "" then Some(Exception)
    else if stem == "External" then Some(External)
    else if stem == "Assertion" then Some(Assertion)
    else if stem == "Timeout" then Some(Timeout)
    else if stem == "Recursion" then Some(Recursion)
    else if stem == "Value" then Some(Value)
    else if stem == "Index" then Some(Index)
    else if stem == "Key" then Some(Key)
    else if stem == "Method" then Some(Method)
    else if stem == "Aborted" then Some(Aborted)
    else if stem == "Decorator" then Some(Decorator)
    else if stem == "Argument" then Some(Argument)
    else if stem == "ArgumentIndex" then Some(ArgumentIndex)
    else if stem == "ArgumentKey" then Some(ArgumentKey)
    else if stem == "NotSupported" then Some(NotSupported)
    else if stem == "NotImplemented" then Some(NotImplemented)
    else if stem == "Format" then Some(Format)
    else if stem == "Parse" then Some(Parse)
    else None
  }

  /** The kind a class name belongs to, if any: the name must end with
      "Exception" and the rest must be a stem. */
  function KindOfName(name: string): (r: Option<Kind>)
    ensures r.Some? ==> Name(r.value) == name
  {
    if |name| < |Suffix| || name[|name| - |Suffix|..] != Suffix then None
    else
      var r := KindOfStem(name[..|name| - |Suffix|]);
      if r.Some? then
        assert name == name[..|name| - |Suffix|] + Suffix;
        r
      else r
  }

  /** Class names are distinct: a name identifies its kind. */
  lemma NameIdentifiesKind(k: Kind)
    ensures KindOfName(Name(k)) == Some(k)
  {
    var n := Name(k);
    assert n[|n| - |Suffix|..] == Suffix;
    assert n[..|n| - |Suffix|] == Stem(k);
    StemIdentifiesKind(k);
  }

  lemma StemIdentifiesKind(k: Kind)
    ensures KindOfStem(Stem(k)) == Some(k)
  {
  }
}
