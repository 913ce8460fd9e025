/** The base `Exception` record that every kind extends: the stored message,
    the retained `init` object, and the views derived from them (`cause`,
    `data`, `toString()`, `valueOf()` and `helpUrl`).

    `helpUrl` depends on two collaborators outside this model: the
    knowledge-base base URL (built by a foreign call from the module version)
    and `JSON.stringify`. Both are carried by `Config`, so every property
    below holds whatever base URL and serializer are used. */
module BaseException {
  import opened Wrappers
  import Kinds
  import Text
  import UriComponent

  /** A value of an `init` property other than `cause`. Numbers are
      integer-valued. */
  datatype Value = Str(s: string) | Num(n: int) | Bool(b: bool) | Strs(items: seq<string>)

  /** The `init` object: its `cause` property, and every other property by
      name. The JavaScript object `{ cause, ...rest }` is the pair
      `Init(cause, rest)`, so `fields` never holds the `cause` property. */
  datatype Init = Init(cause: Option<Cause>, fields: map<string, Value>)

  /** A cause: a plain `Error` (its `name` and `message`), or another
      exception, which may in turn carry a cause. */
  datatype Cause = PlainError(name: string, message: string) | Nested(exception: Exc)

  /** An exception: its kind, the message fixed at construction, and the
      `init` object it keeps. */
  datatype Exc = Exc(kind: Kinds.Kind, message: string, init: Option<Init>)

  /** `new Exception(message, init?)`: the base class keeps both as given. */
  function Create(message: string, init: Option<Init>): (e: Exc)
    ensures e.kind == Kinds.Exception && e.message == message && e.init == init
  {
    Exc(Kinds.Exception, message, init)
  }

  /** `code` */
  function Code(e: Exc): nat
  {
    Kinds.Code(e.kind)
  }

  /** `name` */
  function Name(e: Exc): string
  {
    Kinds.Name(e.kind)
  }

  /** `cause`: `init?.cause`. */
  function CauseOf(e: Exc): (r: Option<Cause>)
    ensures r.Some? ==> e.init.Some? && e.init.value.cause == r
    ensures e.init.Some? ==> r == e.init.value.cause
  {
    match e.init
    case None => None
    case Some(init) => init.cause
  }

  /** `data`: the `init` properties other than `cause`, or nothing when there
      is no `init` or it holds no other property. */
  function Data(e: Exc): (r: Option<map<string, Value>>)
    ensures r.Some? <==> e.init.Some? && e.init.value.fields != map[]
    ensures r.Some? ==> r.value == e.init.value.fields
  {
    match e.init
    case None => None
    case Some(init) => if |init.fields| == 0 then None else Some(init.fields)
  }

  /** `toString()`: `name [0x<code in lowercase hexadecimal>]: message`. */
  function ToString(e: Exc): string
  {
    Name(e) + " [0x" + Text.LowerHex(Code(e)) + "]: " + e.message
  }

  /** `valueOf()`: the code, so exceptions compare and sort by code. */
  function ValueOf(e: Exc): (r: nat)
    ensures Kinds.KindOfCode(r) == Some(e.kind)
  {
    Kinds.CodeIdentifiesKind(e.kind);
    Code(e)
  }

  // ---------------------------------------------------------------------
  // The help URL.

  /** What `JSON.stringify` is applied to: the `data` object, or the
      `{ name, message, url }` summary of a cause. */
  datatype Payload =
    | DataPayload(fields: map<string, Value>)
    | CausePayload(name: string, message: string, url: string)

  /** The knowledge-base base URL and the JSON serializer. */
  datatype Config = Config(knowledgeBase: string, stringify: Payload -> string)

  /** The query parameter names. */
  const MessageKey := "message"
  const DataKey := "data"
  const CauseKey := "cause"

  /** One query parameter, its value URL-encoded. */
  function Param(key: string, value: string): string
  {
    key + "=" + UriComponent.Encode(value)
  }

  /** `helpUrl`: the knowledge-base URL for the code, then the query. */
  function HelpUrl(cfg: Config, e: Exc): string
    decreases e, 3
  {
    cfg.knowledgeBase + "/0x" + Text.LowerHex(Code(e)) + "?" + Query(cfg, e)
  }

  /** The query of `helpUrl`: the message, then the data part, then the cause
      part. */
  function Query(cfg: Config, e: Exc): string
    decreases e, 2
  {
    Param(MessageKey, e.message) + DataParam(cfg, e) + CauseParam(cfg, e)
  }

  /** `_getUrlEncodedData()`: `&data=<encoded JSON of data>`, or nothing. */
  function DataParam(cfg: Config, e: Exc): string
  {
    Optional(DataEntry(cfg, e))
  }

  /** `_getUrlEncodedCauses()`: `&cause=<encoded JSON of the cause summary>`,
      or nothing. */
  function CauseParam(cfg: Config, e: Exc): string
    decreases e, 1
  {
    Optional(CauseEntry(cfg, e))
  }

  /** An optional parameter, preceded by `&` when present. */
  function Optional(entry: Option<(string, string)>): string
  {
    match entry
    case None => ""
    case Some(p) => "&" + Param(p.0, p.1)
  }

  /** The `data` parameter before encoding, present exactly when `data` is. */
  function DataEntry(cfg: Config, e: Exc): (r: Option<(string, string)>)
    ensures r.Some? <==> Data(e).Some?
    ensures r.Some? ==> r.value == (DataKey, cfg.stringify(DataPayload(Data(e).value)))
  {
    Data(e).Map(data => (DataKey, cfg.stringify(DataPayload(data))))
  }

  /** The `cause` parameter before encoding, present exactly when `cause` is. */
  function CauseEntry(cfg: Config, e: Exc): (r: Option<(string, string)>)
    ensures r.Some? <==> CauseOf(e).Some?
    ensures r.Some? ==> r.value == (CauseKey, cfg.stringify(Summary(cfg, CauseOf(e).value)))
    decreases e, 0
  {
    match CauseOf(e)
    case None => None
    case Some(cause) => Some((CauseKey, cfg.stringify(Summary(cfg, cause))))
  }

  /** The `{ name, message, url }` object describing a cause. */
  function Summary(cfg: Config, cause: Cause): Payload
    decreases cause, 5
  {
    match cause
    case PlainError(name, message) => CausePayload(name, message, "")
    case Nested(inner) => CausePayload(Name(inner), inner.message, CauseUrl(cfg, cause))
  }

  /** The `url` of a cause summary: the cause's own `helpUrl` when it is an
      exception, and the empty string for a plain error. */
  function CauseUrl(cfg: Config, cause: Cause): string
    decreases cause, 4
  {
    match cause
    case PlainError(_, _) => ""
    case Nested(inner) => HelpUrl(cfg, inner)
  }

  // ---------------------------------------------------------------------
  // Reading the help URL back.

  /** The decoded query parameters `helpUrl` promises, in order: the message;
      the serialized data when there is data; the serialized cause summary
      when there is a cause. Absent parts have no parameter at all. */
  function Parameters(cfg: Config, e: Exc): (ps: seq<(string, string)>)
    ensures 1 <= |ps| <= 3 && ps[0] == (MessageKey, e.message)
    ensures |ps| == 1 + (if Data(e).Some? then 1 else 0) + (if CauseOf(e).Some? then 1 else 0)
    ensures Data(e).Some? <==> ps[1..] != [] && ps[1].0 == DataKey
    ensures Data(e).Some? ==> ps[1] == (DataKey, cfg.stringify(DataPayload(Data(e).value)))
    ensures CauseOf(e).Some? <==> ps[|ps| - 1].0 == CauseKey
    ensures CauseOf(e).Some? ==> ps[|ps| - 1] == (CauseKey, cfg.stringify(Summary(cfg, CauseOf(e).value)))
  {
    [(MessageKey, e.message)] + AsSeq(DataEntry(cfg, e)) + AsSeq(CauseEntry(cfg, e))
  }

  /** The zero or one elements of an option. */
  function AsSeq<T>(o: Option<T>): (r: seq<T>)
    ensures |r| <= 1 && (r == [] <==> o.None?)
    ensures o.Some? ==> r == [o.value]
  {
    match o
    case None => []
    case Some(x) => [x]
  }

  /** Parameters joined by `&`, each as `key=<encoded value>`. */
  function QueryString(ps: seq<(string, string)>): string
  {
    if |ps| == 0 then ""
    else if |ps| == 1 then Param(ps[0].0, ps[0].1)
    else Param(ps[0].0, ps[0].1) + "&" + QueryString(ps[1..])
  }

  /** Reads one `key=<encoded value>` parameter. */
  function ReadParam(segment: string): Option<(string, string)>
  {
    match Text.IndexOf(segment, '=')
    case None => None
    case Some(i) =>
      match UriComponent.Decode(segment[i + 1..])
      case None => None
      case Some(value) => Some((segment[..i], value))
  }

  /** Reads every parameter of a list of `&`-separated segments. */
  function ReadParams(segments: seq<string>): Option<seq<(string, string)>>
  {
    if |segments| == 0 then Some([])
    else
      match ReadParam(segments[0])
      case None => None
      case Some(p) =>
        match ReadParams(segments[1..])
        case None => None
        case Some(ps) => Some([p] + ps)
  }

  /** Reads a query string into its decoded parameters, as `URLSearchParams`
      does for the strings built here. */
  function ReadQuery(q: string): Option<seq<(string, string)>>
  {
    ReadParams(Text.Split(q, '&'))
  }

  /** A parameter name fit for a query: no `&` and no `=`. */
  predicate PlainKey(key: string)
  {
    '&' !in key && '=' !in key
  }

  lemma ParamHasNoAmpersand(key: string, value: string)
    requires PlainKey(key)
    ensures '&' !in Param(key, value)
  {
    var enc := UriComponent.Encode(value);
    assert Param(key, value) == key + "=" + enc;
    forall i | 0 <= i < |enc|
      ensures enc[i] != '&'
    {
      assert UriComponent.EncodedChar(enc[i]);
    }
  }

  lemma ReadParamOf(key: string, value: string)
    requires PlainKey(key)
    ensures ReadParam(Param(key, value)) == Some((key, value))
  {
    var enc := UriComponent.Encode(value);
    Text.IndexOfAfter(key, '=', enc);
    assert Param(key, value) == key + ['='] + enc;
    UriComponent.DecodeEncode(value);
    assert Param(key, value)[|key| + 1..] == enc;
    assert Param(key, value)[..|key|] == key;
  }

  lemma ReadSingleParam(key: string, value: string)
    requires PlainKey(key)
    ensures ReadQuery(Param(key, value)) == Some([(key, value)])
  {
    var seg := Param(key, value);
    ParamHasNoAmpersand(key, value);
    ReadParamOf(key, value);
    Text.SplitNone(seg, '&');
    assert ReadQuery(seg) == ReadParams([seg]);
    assert ReadParam([seg][0]) == Some((key, value));
    assert ReadParams([seg][1..]) == Some([]);
    assert [(key, value)] + [] == [(key, value)];
  }

  lemma ReadParamsCons(segment: string, segments: seq<string>, p: (string, string), ps: seq<(string, string)>)
    requires ReadParam(segment) == Some(p) && ReadParams(segments) == Some(ps)
    ensures ReadParams([segment] + segments) == Some([p] + ps)
  {
    assert ([segment] + segments)[1..] == segments;
  }

  lemma ReadQueryCons(key: string, value: string, rest: string, ps: seq<(string, string)>)
    requires PlainKey(key) && ReadQuery(rest) == Some(ps)
    ensures ReadQuery(Param(key, value) + "&" + rest) == Some([(key, value)] + ps)
  {
    var first := Param(key, value);
    ParamHasNoAmpersand(key, value);
    ReadParamOf(key, value);
    assert first + "&" + rest == first + ['&'] + rest;
    Text.SplitAfter(first, '&', rest);
    ReadParamsCons(first, Text.Split(rest, '&'), (key, value), ps);
  }

  /** Any non-empty list of parameters with plain names reads back from its
      query string. */
  lemma {:induction false} QueryStringReadsBack(ps: seq<(string, string)>)
    requires |ps| >= 1
    requires forall i :: 0 <= i < |ps| ==> PlainKey(ps[i].0)
    ensures ReadQuery(QueryString(ps)) == Some(ps)
  {
    if |ps| == 1 {
      ReadSingleParam(ps[0].0, ps[0].1);
      assert QueryString(ps) == Param(ps[0].0, ps[0].1);
      assert [(ps[0].0, ps[0].1)] == ps;
    } else {
      var tail := ps[1..];
      assert forall i :: 0 <= i < |tail| ==> PlainKey(tail[i].0) by {
        forall i | 0 <= i < |tail| ensures PlainKey(tail[i].0) {
          assert tail[i] == ps[i + 1];
        }
      }
      QueryStringReadsBack(tail);
      var rest := QueryString(tail);
      assert PlainKey(ps[0].0);
      ReadQueryCons(ps[0].0, ps[0].1, rest, tail);
      assert QueryString(ps) == Param(ps[0].0, ps[0].1) + "&" + rest;
      assert [(ps[0].0, ps[0].1)] + tail == ps;
    }
  }

  lemma QueryStringCons(p: (string, string), ps: seq<(string, string)>)
    requires |ps| >= 1
    ensures QueryString([p] + ps) == Param(p.0, p.1) + "&" + QueryString(ps)
  {
    assert ([p] + ps)[1..] == ps;
  }

  lemma {:induction false} QueryStringSnoc(ps: seq<(string, string)>, x: (string, string))
    requires |ps| >= 1
    ensures QueryString(ps + [x]) == QueryString(ps) + "&" + Param(x.0, x.1)
  {
    var px := Param(x.0, x.1);
    var p0 := Param(ps[0].0, ps[0].1);
    if |ps| == 1 {
      QueryStringCons(ps[0], [x]);
      assert [ps[0]] + [x] == ps + [x];
    } else {
      QueryStringSnoc(ps[1..], x);
      QueryStringCons(ps[0], ps[1..] + [x]);
      QueryStringCons(ps[0], ps[1..]);
      assert [ps[0]] + (ps[1..] + [x]) == ps + [x];
      assert [ps[0]] + ps[1..] == ps;
      var mid := QueryString(ps[1..]);
      Associate(p0 + "&", mid + "&", px);
      Associate(p0 + "&", mid, "&");
    }
  }

  lemma QueryStringOptional(ps: seq<(string, string)>, o: Option<(string, string)>)
    requires |ps| >= 1
    ensures QueryString(ps + AsSeq(o)) == QueryString(ps) + Optional(o)
  {
    if o.Some? {
      assert AsSeq(o) == [o.value];
      QueryStringSnoc(ps, o.value);
      Associate(QueryString(ps), "&", Param(o.value.0, o.value.1));
    } else {
      assert ps + AsSeq(o) == ps;
    }
  }

  lemma QueryStringOfEntries(first: (string, string), o1: Option<(string, string)>, o2: Option<(string, string)>)
    ensures QueryString([first] + AsSeq(o1) + AsSeq(o2)) == Param(first.0, first.1) + Optional(o1) + Optional(o2)
  {
    QueryStringOptional([first], o1);
    QueryStringOptional([first] + AsSeq(o1), o2);
  }

  /** The query `helpUrl` builds is the parameter list, joined. */
  lemma QueryIsParameters(cfg: Config, e: Exc)
    ensures Query(cfg, e) == QueryString(Parameters(cfg, e))
  {
    QueryStringOfEntries((MessageKey, e.message), DataEntry(cfg, e), CauseEntry(cfg, e));
  }

  /** The query of `helpUrl` reads back to exactly the promised parameters:
      the message is recovered verbatim, the data and cause parts carry the
      serialized payloads, they come in the order message, data, cause, and
      an absent part leaves no parameter behind. */
  lemma HelpUrlReadsBack(cfg: Config, e: Exc)
    ensures HelpUrl(cfg, e) == cfg.knowledgeBase + "/0x" + Text.LowerHex(Code(e)) + "?" + Query(cfg, e)
    ensures '?' !in Query(cfg, e)
    ensures ReadQuery(Query(cfg, e)) == Some(Parameters(cfg, e))
  {
    var ps := Parameters(cfg, e);
    ParameterKeys(cfg, e);
    QueryIsParameters(cfg, e);
    QueryStringReadsBack(ps);
    QueryHasNoQuestionMark(ps);
  }

  /** Every parameter name `helpUrl` uses is plain and has no `?`. */
  lemma ParameterKeys(cfg: Config, e: Exc)
    ensures forall i :: 0 <= i < |Parameters(cfg, e)| ==>
      PlainKey(Parameters(cfg, e)[i].0) && '?' !in Parameters(cfg, e)[i].0
  {
    var ps := Parameters(cfg, e);
    KeysArePlain();
    forall i | 0 <= i < |ps|
      ensures ps[i].0 == MessageKey || ps[i].0 == DataKey || ps[i].0 == CauseKey
    {
      if i > 0 && !(CauseOf(e).Some? && i == |ps| - 1) {
        assert Data(e).Some? && i == 1;
      }
    }
  }

  lemma KeysArePlain()
    ensures PlainKey(MessageKey) && '?' !in MessageKey
    ensures PlainKey(DataKey) && '?' !in DataKey
    ensures PlainKey(CauseKey) && '?' !in CauseKey
  {
  }

  lemma {:induction false} QueryHasNoQuestionMark(ps: seq<(string, string)>)
    requires forall i :: 0 <= i < |ps| ==> '?' !in ps[i].0
    ensures '?' !in QueryString(ps)
  {
    if |ps| >= 1 {
      var enc := UriComponent.Encode(ps[0].1);
      assert forall i :: 0 <= i < |enc| ==> UriComponent.EncodedChar(enc[i]);
      assert '?' !in enc;
      if |ps| >= 2 {
        QueryHasNoQuestionMark(ps[1..]);
      }
    }
  }

  /** An exception made from a message alone has no cause and no data, and
      its help URL carries only the message parameter. */
  lemma MessageOnlyHelpUrl(cfg: Config, e: Exc)
    requires e.init.None?
    ensures CauseOf(e).None? && Data(e).None?
    ensures HelpUrl(cfg, e) ==
      cfg.knowledgeBase + "/0x" + Text.LowerHex(Code(e)) + "?message=" + UriComponent.Encode(e.message)
  {
    assert DataParam(cfg, e) == "" && CauseParam(cfg, e) == "";
    assert Query(cfg, e) == Param(MessageKey, e.message);
    MessageParam(cfg.knowledgeBase + "/0x" + Text.LowerHex(Code(e)), UriComponent.Encode(e.message));
  }

  lemma MessageParam(prefix: string, encoded: string)
    ensures prefix + "?" + (MessageKey + "=" + encoded) == prefix + "?message=" + encoded
  {
  }

  /** The exceptions reached by following `cause` from `e`, starting with `e`
      and stopping at a plain error or at an exception without a cause. */
  function CauseChain(e: Exc): (chain: seq<Exc>)
    ensures |chain| >= 1 && chain[0] == e
    decreases e
  {
    match CauseOf(e)
    case Some(Nested(inner)) => [e] + CauseChain(inner)
    case _ => [e]
  }

  /** Down a cause chain of any depth, each help URL's last parameter is the
      cause summary of the next exception, whose `url` is that exception's
      own help URL. */
  lemma {:induction false} CauseChainEmbedsUrls(cfg: Config, e: Exc)
    ensures forall i :: 0 <= i < |CauseChain(e)| - 1 ==>
      var here, next := CauseChain(e)[i], CauseChain(e)[i + 1];
      CauseOf(here) == Some(Nested(next)) &&
      Parameters(cfg, here)[|Parameters(cfg, here)| - 1] ==
        (CauseKey, cfg.stringify(CausePayload(Name(next), next.message, HelpUrl(cfg, next))))
    decreases e
  {
    var chain := CauseChain(e);
    if |chain| > 1 {
      var inner := CauseOf(e).value.exception;
      CauseChainEmbedsUrls(cfg, inner);
      assert chain == [e] + CauseChain(inner);
      forall i | 0 <= i < |chain| - 1
        ensures CauseOf(chain[i]) == Some(Nested(chain[i + 1]))
        ensures Parameters(cfg, chain[i])[|Parameters(cfg, chain[i])| - 1] ==
          (CauseKey, cfg.stringify(CausePayload(Name(chain[i + 1]), chain[i + 1].message, HelpUrl(cfg, chain[i + 1]))))
      {
        if i == 0 {
          assert chain[1] == inner;
          assert Summary(cfg, Nested(inner)) == CausePayload(Name(inner), inner.message, HelpUrl(cfg, inner));
        } else {
          assert chain[i] == CauseChain(inner)[i - 1];
          assert chain[i + 1] == CauseChain(inner)[i];
        }
      }
    }
  }

  // ---------------------------------------------------------------------
  // Reading `toString()` back.

  /** Splits a `name [0x<hex>]: message` rendering into its three parts. */
  function ReadToString(s: string): Option<(string, nat, string)>
  {
    match Text.IndexOf(s, ' ')
    case None => None
    case Some(i) =>
      var rest := s[i..];
      if |rest| < 4 || rest[..4] != " [0x" then None
      else
        match Text.IndexOf(rest[4..], ']')
        case None => None
        case Some(j) =>
          var tail := rest[4 + j..];
          if |tail| < 3 || tail[..3] != "]: " then None
          else
            match Text.ParseLowerHex(rest[4..4 + j])
            case None => None
            case Some(code) => Some((s[..i], code, tail[3..]))
  }

  lemma ReadRendering(name: string, hex: string, message: string)
    requires ' ' !in name && ']' !in hex
    ensures var s := name + " [0x" + hex + "]: " + message;
            match Text.ParseLowerHex(hex)
            case None => ReadToString(s) == None
            case Some(code) => ReadToString(s) == Some((name, code, message))
  {
    RenderingParts(name, hex, message);
  }

  /** Where `ReadToString` finds each part of a rendering. */
  lemma RenderingParts(name: string, hex: string, message: string)
    requires ' ' !in name && ']' !in hex
    ensures var s := name + " [0x" + hex + "]: " + message;
            Text.IndexOf(s, ' ') == Some(|name|) && s[..|name|] == name
            && BracketParts(s[|name|..], hex, message)
  {
    var rest := " [0x" + hex + "]: " + message;
    Associate(name, " [0x" + hex + "]: ", message);
    Associate(name, " [0x" + hex, "]: ");
    Associate(name, " [0x", hex);
    SplitName(name, rest);
    RestParts(hex, message);
  }

  /** The rendering from its first space on: the `[0x` opener, the hex code
      up to the first `]`, then `]: ` and the message. */
  ghost predicate BracketParts(rest: string, hex: string, message: string)
  {
    |rest| >= 4 && rest[..4] == " [0x" && Text.IndexOf(rest[4..], ']') == Some(|hex|)
    && |rest| >= 4 + |hex| && rest[4..4 + |hex|] == hex
    && var tail := rest[4 + |hex|..];
       |tail| >= 3 && tail[..3] == "]: " && tail[3..] == message
  }

  lemma RestParts(hex: string, message: string)
    requires ']' !in hex
    ensures BracketParts(" [0x" + hex + "]: " + message, hex, message)
  {
    var tail := "]: " + message;
    var rest := " [0x" + hex + tail;
    Associate(" [0x" + hex, "]: ", message);
    Opener(hex + tail);
    Associate(" [0x", hex, tail);
    assert tail == [']'] + (": " + message);
    Associate(hex, [']'], ": " + message);
    Text.IndexOfAfter(hex, ']', ": " + message);
    DropTake(hex, tail);
    Closer(message);
  }

  lemma Associate(a: string, b: string, c: string)
    ensures a + (b + c) == a + b + c
  {
  }

  /** The first space of `name + rest`, when `rest` starts with one, is the
      one after the name. */
  lemma SplitName(name: string, rest: string)
    requires ' ' !in name && |rest| > 0 && rest[0] == ' '
    ensures Text.IndexOf(name + rest, ' ') == Some(|name|)
    ensures (name + rest)[..|name|] == name && (name + rest)[|name|..] == rest
  {
    assert rest == [' '] + rest[1..];
    Associate(name, [' '], rest[1..]);
    Text.IndexOfAfter(name, ' ', rest[1..]);
    DropTake(name, rest);
  }

  lemma Opener(x: string)
    ensures |" [0x" + x| >= 4 && (" [0x" + x)[..4] == " [0x" && (" [0x" + x)[4..] == x
  {
  }

  lemma DropTake(a: string, b: string)
    ensures (a + b)[..|a|] == a && (a + b)[|a|..] == b
  {
  }

  lemma Closer(message: string)
    ensures |"]: " + message| >= 3 && ("]: " + message)[..3] == "]: " && ("]: " + message)[3..] == message
  {
  }

  /** `toString()` gives back the kind's name, its code and the message. */
  lemma ToStringReadsBack(e: Exc)
    ensures ReadToString(ToString(e)) == Some((Name(e), Code(e), e.message))
  {
    var hex := Text.LowerHex(Code(e));
    Kinds.NameHasNoSpace(e.kind);
    assert forall i :: 0 <= i < |hex| ==> hex[i] in Text.LowerHexDigits;
    assert ']' !in hex;
    Text.LowerHexRoundTrip(Code(e));
    ReadRendering(Name(e), hex, e.message);
  }

  /** Two exceptions render alike under `toString()` only when they have the
      same kind and the same message. */
  lemma ToStringIdentifies(e: Exc, e': Exc)
    requires ToString(e) == ToString(e')
    ensures e.kind == e'.kind && e.message == e'.message
  {
    ToStringReadsBack(e);
    ToStringReadsBack(e');
    Kinds.NameIdentifiesKind(e.kind);
    Kinds.NameIdentifiesKind(e'.kind);
  }
}
