/** The constructor shared by every exception kind that derives its message
    from an `init` object:

      constructor(msgOrInit = DEFAULT_MSG, maybeInit?) {
        if msgOrInit is not a string: init := msgOrInit; message := msgFromInit(init)
        super(message, init)
      }

    so there are three ways to call it. */
module Construction {
  import opened Wrappers
  import Kinds
  import BaseException

  /** The three call forms: no argument; an `init` object; a message string,
      optionally followed by an `init` object. */
  datatype Args<I> = NoArgs | FromInit(init: I) | FromMessage(message: string, maybeInit: Option<I>)

  /** The `init` object the call passes, if any. */
  function InitOf<I>(args: Args<I>): (r: Option<I>)
    ensures r.None? <==> args.NoArgs? || (args.FromMessage? && args.maybeInit.None?)
  {
    match args
    case NoArgs => None
    case FromInit(init) => Some(init)
    case FromMessage(_, init) => init
  }

  /** Runs the constructor of a kind whose message derivation cannot fail:
      no argument gives the default message and no `init`; an `init` object
      gives the derived message; a string is kept verbatim and nothing is
      derived from the `init` that may follow it. Either way the `init` object
      is retained as given. */
  function Construct<I>(kind: Kinds.Kind, default: string, derive: I -> string,
                        toInit: I -> BaseException.Init, args: Args<I>): (e: BaseException.Exc)
    ensures e.kind == kind
    ensures e.init == InitOf(args).Map(toInit)
    ensures args.NoArgs? ==> e.message == default
    ensures args.FromInit? ==> e.message == derive(args.init)
    ensures args.FromMessage? ==> e.message == args.message
  {
    match args
    case NoArgs => BaseException.Exc(kind, default, None)
    case FromInit(init) => BaseException.Exc(kind, derive(init), Some(toInit(init)))
    case FromMessage(message, init) => BaseException.Exc(kind, message, init.Map(toInit))
  }

  /** Runs the constructor of a kind whose message derivation can throw
      (`IndexException` and `ArgumentIndexException`): the derivation's error
      propagates out of the constructor, and only the `init` form derives
      anything, so the other two forms always succeed. */
  function TryConstruct<I>(kind: Kinds.Kind, default: string, derive: I -> Result<string, BaseException.Exc>,
                           toInit: I -> BaseException.Init, args: Args<I>): (r: Result<BaseException.Exc, BaseException.Exc>)
    ensures r.Failure? <==> args.FromInit? && derive(args.init).Failure?
    ensures r.Failure? ==> r.error == derive(args.init).error
    ensures r.Success? ==> r.value.kind == kind && r.value.init == InitOf(args).Map(toInit)
    ensures r.Success? && args.NoArgs? ==> r.value.message == default
    ensures r.Success? && args.FromInit? ==> r.value.message == derive(args.init).value
    ensures args.FromMessage? ==> r.Success? && r.value.message == args.message
  {
    match args
    case NoArgs => Success(BaseException.Exc(kind, default, None))
    case FromInit(init) =>
      (match derive(init)
       case Failure(error) => Failure(error)
       case Success(message) => Success(BaseException.Exc(kind, message, Some(toInit(init)))))
    case FromMessage(message, init) => Success(BaseException.Exc(kind, message, init.Map(toInit)))
  }

  /** The entry of an `init` property in the `data` map: present exactly when
      the property is. A property given as `undefined` is modelled as not
      given (see README). */
  function Entry(key: string, value: Option<BaseException.Value>): (m: map<string, BaseException.Value>)
    ensures key in m <==> value.Some?
    ensures m.Keys <= {key}
    ensures value.Some? ==> m[key] == value.value
  {
    match value
    case None => map[]
    case Some(v) => map[key := v]
  }
}
