/** `AssertionException` (code 2): an assertion failed. The message is always
    supplied by the caller and never derived from the `init` properties. */
module Assertion {
  import opened Wrappers
  import Text
  import Kinds
  import BaseException
  import UriComponent

  /** `new AssertionException(message, init?)`: the message and the optional
      `init` are kept as given. */
  function Create(message: string, init: Option<BaseException.Init>): (e: BaseException.Exc)
    ensures e.kind == Kinds.Assertion && BaseException.Code(e) == 2
    ensures e.message == message && e.init == init
    ensures BaseException.Name(e) == "AssertionException"
  {
    BaseException.Exc(Kinds.Assertion, message, init)
  }

  /** Rendered with `toString()`, an assertion reads back as its name, code 2
      and the message given. */
  lemma RendersCodeTwo(message: string, init: Option<BaseException.Init>)
    ensures BaseException.ToString(Create(message, init)) == "AssertionException" + " [0x" + "2" + "]: " + message
    ensures BaseException.ReadToString(BaseException.ToString(Create(message, init)))
            == Some(("AssertionException", 2, message))
  {
    var e := Create(message, init);
    TwoInHex();
    BaseException.ToStringReadsBack(e);
  }

  /** Without `init`, the help URL carries the message alone. */
  lemma MessageOnlyHelpUrl(cfg: BaseException.Config, message: string)
    ensures BaseException.HelpUrl(cfg, Create(message, None))
            == cfg.knowledgeBase + "/0x2?message=" + UriComponent.Encode(message)
  {
    var e := Create(message, None);
    BaseException.MessageOnlyHelpUrl(cfg, e);
    TwoInHex();
    UrlPieces(cfg.knowledgeBase, UriComponent.Encode(message));
  }

  lemma TwoInHex()
    ensures Text.LowerHex(2) == "2"
  {
  }

  lemma UrlPieces(kb: string, query: string)
    ensures kb + "/0x" + "2" + "?message=" + query == kb + "/0x2?message=" + query
  {
  }
}
