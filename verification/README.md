# Exception kinds of partic11e/_exceptions, in Dafny

This project models the core of the partic11e `_exceptions` library. The
library is a set of exception classes that share one base `Exception`
class. Each class has a fixed numeric code. Each class can build a
readable message from an `init` object of optional properties.

The model covers the following:

- **Kinds and codes** (`Kinds`). There are seventeen exception kinds and
  the base kind. Each has a fixed code and a class name. The codes are
  pairwise distinct. The code 16 is unused.
- **Construction** (`Construction`). Every constructor dispatches the same
  way on its arguments:
  - no argument gives the default message;
  - an `init` object gives the message derived from it;
  - a message, with an optional `init`, keeps that message.

  The two index kinds may throw instead of constructing. That path is a
  `Result`.
- **The base record** (`BaseException`):
  - `cause` and `data`;
  - `valueOf` (the code);
  - `toString` (`Name [0xcode]: message`);
  - the `helpUrl` query string, with the nested URL-encoded `cause` chain.

  Each of these comes with a reading-back function. Proofs show that
  nothing is lost: `toString` reads back to name, code and message, and
  the query string reads back to its parameters.
- **`encodeURIComponent`** (`UriComponent`). It works over Unicode scalar
  values: UTF-8, then upper-case percent escapes, with the unreserved
  marks left as they are. A decoder is proved to invert it.
- **Message derivations**, one module per kind that derives a message:
  `Aborted`, `Argument`, `ArgumentIndex`, `ArgumentKey`, `Decorator`,
  `External`, `Format`, `Index`, `Key`, `Method`, `NotImplemented`,
  `NotSupported`, `Parse`, `Recursion`, `Timeout` and `Value`.
  `AssertionException` derives nothing: its message and `init` are kept as
  given. Its module, `Assertion`, models only construction and rendering.

  Most kinds derive the message with a `switch (true)` cascade. Three kinds
  use a single ternary on their one property instead: `NotImplemented` and
  `NotSupported` (`methodName ? … : DEFAULT_MSG`) and `Parse`
  (`parser ? … : DEFAULT_MSG`). Each `Message` follows its source case by
  case. JavaScript truthiness is modelled as follows:
  - a string counts when it is present and non-empty (`Text.Present`);
  - a number counts whenever it is present, zero included;
  - a boolean counts only when it is `true` (`Text.IsTrue`);
  - a list counts when its joined text is non-empty (`Text.ListText`).

  Each derivation module except `Parse` also has a `Sentence`. A `Sentence`
  builds the same message from independent parts: a determiner, a subject
  and optional clauses. The lemma `MessageIsSentence` (or `DeriveIsSentence`
  for the two index kinds) proves that the derivation always picks exactly
  that sentence. `Parse` keeps its two wordings, which do not share one
  template. Its partner is `Parse.WrittenPredicateDiffers`, which states
  that each message is `Parse.Subject` followed by the predicate its branch
  uses.
- **The legacy tree.** The repository keeps an older copy of the classes
  under `src/`. As written, it does not load. Its base class
  (src/Exception.ts:2-5) imports `I11N_EXC_KB` from `./_constants.ts`, and
  that file exports only `P11_EXC_KB` and `ExceptionSerializationData`.
  That import fails to link, and every legacy class extends that base
  class, so no legacy exception can be constructed.
  - For every kind it has, the legacy tree's message templates and default
    messages are the same text as the current classes under
    `src/exceptions/`.
  - The "(legacy …)" citations in the "states" column below point to that
    identical text. They describe what the legacy code says, not behaviour
    anyone can observe.
  - The one place where the text differs is the legacy
    `ArgumentKeyException`. It has its own module, `LegacyArgumentKey`,
    which models that source as written:
    - its interface declares `valueName`;
    - its derivation reads an undeclared `argumentName`.
- **The `ParseException` wording.** The named template says "was unable to
  parser content". The default says "was unable to parse content". The
  model keeps the text as written; the repository's tests expect the same
  text. `Parse.WrittenPredicateDiffers` states the difference.

Two parts of the environment are parameters of the model. They are
collected in `BaseException.Config`:

- the knowledge-base URL (`P11_EXC_KB`, computed by a helper outside the
  core);
- `JSON.stringify`, applied to a small payload datatype.

## Model

| member | source | states |
|---|---|---|
| Kinds.KindOfCode | src/exceptions/Exception.ts:79 | maps a code back to the kind that owns it; a code has no kind exactly when it is negative, 16, or above 18 |
| Kinds.CodeIdentifiesKind | test/ExceptionCode.test.ts:60-75 | every kind's code maps back to that kind, so no two kinds share a code |
| Kinds.CodesDistinct | test/ExceptionCode.test.ts:60-75 | two kinds with the same code are the same kind |
| Kinds.CodesInUse | test/ExceptionCode.test.ts:60-75 | the codes in use are exactly 0..18 without 16 |
| Kinds.NameHasNoSpace | src/exceptions/Exception.ts:117 | every class name is non-empty and has no space, so `toString` can split at the first space |
| Kinds.KindOfName | src/exceptions/Exception.ts:117 | a class name read back gives a kind that has that name |
| Kinds.NameIdentifiesKind | src/exceptions/Exception.ts:117 | the class name identifies the kind |
| Kinds.KindOfStem | src/exceptions/Exception.ts:117 | a name stem read back gives a kind with that stem |
| Kinds.StemIdentifiesKind | src/exceptions/Exception.ts:117 | the stem identifies the kind |
| Construction.InitOf | src/exceptions/AbortedException.ts:109-119 | an `init` is kept exactly when the constructor received one, as the object or beside a message |
| Construction.Construct | src/exceptions/AbortedException.ts:109-119 | the three call forms: no argument gives the default message, an `init` gives the derived message, a message is kept; the kept `init` is the given one; the same dispatch is in every kind's constructor, legacy ones included (e.g. src/DecoratorException.ts:82-94) |
| Construction.TryConstruct | src/exceptions/IndexException.ts:173-183 | construction fails exactly when an `init` is given and the derivation throws, with the thrown exception; a message given explicitly never fails |
| Construction.Entry | src/exceptions/Exception.ts:88-98 | a property appears in the kept `init` exactly when it was given, with its value |
| BaseException.Create | src/exceptions/Exception.ts:57-59 | `new Exception(message, init)` keeps message and `init` as given (legacy src/Exception.ts:29-31) |
| BaseException.CauseOf | src/exceptions/Exception.ts:70-74 | `cause` is the `init`'s cause, and absent without an `init` (legacy src/Exception.ts:52-56) |
| BaseException.Data | src/exceptions/Exception.ts:88-98 | `data` is present exactly when the `init` has a property other than `cause`, and then is exactly those properties (legacy src/Exception.ts:65-75) |
| BaseException.ValueOf | src/exceptions/Exception.ts:151-153 | `valueOf` is the code, which identifies the kind (legacy src/Exception.ts:102-104) |
| BaseException.ToStringReadsBack | src/exceptions/Exception.ts:138-142 | reading `Name [0xhex]: message` back yields the name, the code and the message unchanged (legacy src/Exception.ts:114-118) |
| BaseException.ToStringIdentifies | src/exceptions/Exception.ts:138-142 | two exceptions that render alike are of the same kind with the same message |
| BaseException.DataEntry | src/exceptions/Exception.ts:206-212 | the `data` query parameter is present exactly when `data` is, carrying the stringified data (legacy src/Exception.ts:132-138) |
| BaseException.CauseEntry | src/exceptions/Exception.ts:183-195 | the `cause` query parameter is present exactly when a cause is, carrying the stringified `{ name, message, url }` summary (legacy src/Exception.ts:149-164) |
| BaseException.Parameters | src/exceptions/Exception.ts:103-112 | the query has the message first, then `data` exactly when there is data, then `cause` exactly when there is a cause, and nothing else |
| BaseException.AsSeq | src/exceptions/Exception.ts:103-112 | an optional parameter contributes one entry when present and none when absent |
| BaseException.QueryIsParameters | src/exceptions/Exception.ts:103-112 | the query string `helpUrl` writes is the `&`-joined list of those parameters |
| BaseException.QueryStringReadsBack | src/exceptions/Exception.ts:109-111 | splitting a query string at `&` and at the first `=` of each part, and percent-decoding the values, gives back the parameter list it was built from |
| BaseException.HelpUrlReadsBack | src/exceptions/Exception.ts:103-112 | `helpUrl` is the knowledge-base URL, `/0x`, the hex code, `?`, then a query without `?` that reads back to exactly the parameters (legacy src/Exception.ts:80-89) |
| BaseException.ParameterKeys | src/_internals/_constants.ts:37-43 | every parameter key is a plain word, free of `=`, `&` and `?` |
| BaseException.MessageOnlyHelpUrl | src/exceptions/Exception.ts:103-112 | without an `init` there is neither cause nor data, and the URL carries the encoded message alone |
| BaseException.CauseChain | src/exceptions/Exception.ts:70-74 | the chain of causes starts at the exception itself |
| BaseException.CauseChainEmbedsUrls | src/exceptions/Exception.ts:183-195 | along a chain of nested exceptions, each URL's last parameter is the next exception's name, message and own help URL, so a URL encodes the whole chain |
| UriComponent.Encode | src/exceptions/Exception.ts:105 | the encoding consists only of unreserved characters and `%XX` escapes, and is no shorter than its input |
| UriComponent.DecodeEncode | src/exceptions/Exception.ts:105 | percent-decoding the encoding gives back the original string |
| UriComponent.EncodeInjective | src/exceptions/Exception.ts:105 | different messages have different encodings |
| UriComponent.Utf8Decodes | src/exceptions/Exception.ts:105 | the UTF-8 bytes of every scalar value decode back to it, with the length their first byte announces |
| Text.ListText | src/exceptions/ArgumentException.ts:36-37 | a list counts exactly when its join is non-empty, and then its text is that join |
| Text.ListTextPresentIff | src/exceptions/KeyException.ts:36 | a list counts exactly when it has two or more items, or one non-empty item |
| Text.JoinEmptyIff | src/exceptions/ArgumentException.ts:36-37 | a join with a non-empty separator is empty exactly for no items or one empty item |
| Text.QuotedJoin | src/exceptions/KeyException.ts:36-48 | quoting the `", "`-joined keys is the same as joining the individually quoted keys with `, ` |
| Text.Article | src/exceptions/DecoratorException.ts:37-39 | the article is "An" exactly when the word starts with a lower-case a, e, i, o or u, and "A" otherwise |
| Text.Plural | src/exceptions/TimeoutException.ts:38-40 | the unit takes an `s` exactly when the count is not 1 |
| Text.IndexOf | src/exceptions/Exception.ts:141 | the first position of a character, or none exactly when it does not occur |
| Text.LowerHexRoundTrip | src/exceptions/Exception.ts:141 | `code.toString(16)` reads back to the code |
| Text.DecimalRoundTrip | src/exceptions/TimeoutException.ts:38-40 | a number written into a template reads back to itself, sign included |
| Aborted.MessageIsSentence | src/exceptions/AbortedException.ts:35-51 | the cascade is the sentence: "The" when named else the article of the noun, the type or "operation", the quoted name when present, "was aborted prematurely." |
| Aborted.Create | src/exceptions/AbortedException.ts:109-119 | kind Aborted, code 9; default, derived or given message by call form |
| Aborted.DefiniteIffNamed | src/exceptions/AbortedException.ts:35-51 | the message opens with "The " exactly when the operation has a non-empty name |
| Aborted.ArticleFollowsType | src/exceptions/AbortedException.ts:37-45 | for a type without a name the message opens "An" exactly when the type starts with a lower-case vowel |
| Aborted.SameEnding | src/exceptions/AbortedException.ts:35-51 | every derived message ends with " was aborted prematurely." |
| Aborted.EmptyFieldsIgnored | src/exceptions/AbortedException.ts:35-51 | an empty name or type gives the same message as an absent one |
| Argument.MessageIsSentence | src/exceptions/ArgumentException.ts:34-49 | the cascade is the sentence: "The argument" with the quoted name or "An argument", the fixed clause, the constraints clause when the list counts (legacy src/ArgumentException.ts:21-36) |
| Argument.Create | src/exceptions/ArgumentException.ts:107-117 | kind Argument, code 11; the derived message with the `init`'s cause kept (legacy src/ArgumentException.ts:89-99) |
| Argument.EmptyConstraintsIgnored | src/exceptions/ArgumentException.ts:36-37 | an empty constraint list, or one empty constraint, gives the same message as no list |
| ArgumentIndex.DeriveIsSentence | src/exceptions/ArgumentIndexException.ts:54-115 | the derivation throws exactly when an upper bound is at most the lower bound (0 when absent), with the bounds `ValueException`; otherwise it yields the sentence from subject, array and range parts (legacy src/ArgumentIndexException.ts:38-99) |
| ArgumentIndex.TryCreate | src/exceptions/ArgumentIndexException.ts:183-193 | kind ArgumentIndex, code 12; only an `init` can fail; default and given messages as called (legacy src/ArgumentIndexException.ts:162-172) |
| ArgumentIndex.CreateFromInit | src/exceptions/ArgumentIndexException.ts:183-193 | from an `init`, construction fails exactly for inverted bounds, and otherwise carries the sentence |
| ArgumentIndex.NoUpperBoundNeverFails | src/exceptions/ArgumentIndexException.ts:38-45 | without an upper bound the bounds are never checked |
| ArgumentIndex.ImplicitLowerBoundIsZero | src/exceptions/ArgumentIndexException.ts:70-75 | an upper bound alone is checked against 0 and the sentence names 0 as the lower bound |
| ArgumentIndex.UnnamedBoundedDropsIndex | src/exceptions/ArgumentIndexException.ts:79-83 | with both bounds and no name the index is not mentioned |
| ArgumentIndex.EmptyNameIgnored | src/exceptions/ArgumentIndexException.ts:54-115 | an empty argument name derives like an absent one |
| ArgumentKey.MessageIsSentence | src/exceptions/ArgumentKeyException.ts:35-57 | the cascade is the sentence: the quoted key or "a property key", the quoted argument name or "an object or record argument", the quoted valid keys when the list counts |
| ArgumentKey.Create | src/exceptions/ArgumentKeyException.ts:120-130 | kind ArgumentKey, code 13; default, derived or given message by call form |
| ArgumentKey.EmptyFieldsIgnored | src/exceptions/ArgumentKeyException.ts:35-57 | an empty name, an empty key or an empty list gives the same message as an absent one |
| Assertion.Create | src/exceptions/AssertionException.ts:54-56 | kind Assertion, code 2, named "AssertionException"; message and `init` kept as given (legacy src/AssertionException.ts:37-39) |
| Assertion.RendersCodeTwo | src/exceptions/AssertionException.ts:63 | an assertion renders as `AssertionException [0x2]: message` and reads back to code 2 |
| Assertion.MessageOnlyHelpUrl | src/exceptions/AssertionException.ts:54-56 | without `init`, the help URL is the knowledge base, `/0x2?message=` and the encoded message |
| Decorator.MessageIsSentence | src/exceptions/DecoratorException.ts:35-51 | the cascade is the sentence: "The" when named else the article of the type, the type when present, "decorator", the quoted name when present (legacy src/DecoratorException.ts:16-32) |
| Decorator.Create | src/exceptions/DecoratorException.ts:110-120 | kind Decorator, code 10; default, derived or given message by call form (legacy src/DecoratorException.ts:82-94) |
| Decorator.DefiniteIffNamed | src/exceptions/DecoratorException.ts:35-51 | the message opens with "The " exactly when the decorator has a non-empty name |
| Decorator.ArticleFollowsType | src/exceptions/DecoratorException.ts:37-45 | for a type without a name the message opens "An" exactly when the type starts with a lower-case vowel |
| Decorator.EmptyFieldsIgnored | src/exceptions/DecoratorException.ts:35-51 | an empty name or type gives the same message as an absent one |
| External.MessageIsSentence | src/exceptions/ExternalException.ts:35-48 | the cascade is the sentence: "The" when named else "An", "external", the type or "codebase", the quoted name when present |
| External.Create | src/exceptions/ExternalException.ts:105-115 | kind External, code 1; default, derived or given message by call form |
| External.NamedDefaultsToCodebase | src/exceptions/ExternalException.ts:41-42 | a name without a type is called "the external codebase" |
| External.EmptyFieldsIgnored | src/exceptions/ExternalException.ts:35-48 | an empty name or type gives the same message as an absent one |
| Format.MessageIsSentence | src/exceptions/FormatException.ts:35-48 | the cascade is the sentence: "The" exactly when the expression is quoted at the end, the quoted formatter or "a formatter" (legacy src/FormatException.ts:17-30) |
| Format.Create | src/exceptions/FormatException.ts:106-116 | kind Format, code 17; default, derived or given message by call form (legacy src/FormatException.ts:80-92) |
| Format.QuotesExpressionIff | src/exceptions/FormatException.ts:35-48 | the message ends in a quoted expression exactly when a non-empty expression is given |
| Format.EmptyFieldsIgnored | src/exceptions/FormatException.ts:35-48 | an empty expression or formatter gives the same message as an absent one |
| Index.DeriveIsSentence | src/exceptions/IndexException.ts:44-105 | the derivation throws exactly when an upper bound is at most the lower bound (0 when absent), with the bounds `ValueException`; otherwise it yields the sentence from subject, array and range parts (legacy src/IndexException.ts:31-92) |
| Index.BoundsFailure | src/exceptions/IndexException.ts:28-35 | the bounds check throws a `ValueException` with an `init` |
| Index.BoundsFailureMessage | src/exceptions/IndexException.ts:28-35 | that exception names the symbol "init.upperBound" and its two constraints |
| Index.TryCreate | src/exceptions/IndexException.ts:173-183 | kind Index, code 6; only an `init` can fail; default and given messages as called (legacy src/IndexException.ts:155-165) |
| Index.CreateFromInit | src/exceptions/IndexException.ts:173-183 | from an `init`, construction fails exactly for inverted bounds, and otherwise carries the sentence |
| Index.NoUpperBoundNeverFails | src/exceptions/IndexException.ts:28-35 | without an upper bound the bounds are never checked |
| Index.ImplicitLowerBoundIsZero | src/exceptions/IndexException.ts:60-65 | an upper bound alone is checked against 0 and the sentence names 0 as the lower bound |
| Index.UnnamedBoundedDropsIndex | src/exceptions/IndexException.ts:69-73 | with both bounds and no name the index is not mentioned |
| Index.EmptyNameIgnored | src/exceptions/IndexException.ts:44-105 | an empty array name derives like an absent one |
| Key.MessageIsSentence | src/exceptions/KeyException.ts:34-56 | the cascade is the sentence: the quoted key or "a property key", the quoted object name or "an object or record", the quoted valid keys when the list counts (legacy src/KeyException.ts:21-43) |
| Key.Create | src/exceptions/KeyException.ts:119-129 | kind Key, code 7; default, derived or given message by call form (legacy src/KeyException.ts:101-111) |
| Key.EmptyFieldsIgnored | src/exceptions/KeyException.ts:34-56 | an empty name, an empty key or an empty list gives the same message as an absent one |
| LegacyArgumentKey.AsRead | src/ArgumentKeyException.ts:22-24 | the derivation reads `argumentName`, `key` and `validKeys` |
| LegacyArgumentKey.AsDeclared | src/ArgumentKeyException.ts:61-64 | the interface names the object `valueName` |
| LegacyArgumentKey.ValueNameIgnored | src/ArgumentKeyException.ts:22-44 | the declared `valueName` never changes the derived message |
| LegacyArgumentKey.DeclaredNameDropped | src/ArgumentKeyException.ts:22-44 | `{ valueName: "options" }` yields the default message, where reading the declared field would name the argument |
| LegacyArgumentKey.DeclaredReadingNamesObject | src/ArgumentKeyException.ts:64 | a derivation reading the declared field would quote a non-empty `valueName` and ignore `argumentName` |
| LegacyArgumentKey.AgreeWhenNamesAgree | src/ArgumentKeyException.ts:22-44 | the written and the declared readings agree when the two names count alike and are equal |
| LegacyArgumentKey.ToInit | src/Exception.ts:65-75 | the kept `init` holds every property given, declared or not |
| LegacyArgumentKey.Create | src/ArgumentKeyException.ts:102-112 | kind ArgumentKey, code 13; an `init` yields the sentence built from `argumentName` |
| Method.MessageIsSentence | src/exceptions/MethodException.ts:34-57 | the cascade is the sentence: the quoted method or "a method", the quoted object or "an object", the quoted valid methods when the list counts (legacy src/MethodException.ts:21-44) |
| Method.Create | src/exceptions/MethodException.ts:120-130 | kind Method, code 8; default, derived or given message by call form (legacy src/MethodException.ts:101-111) |
| Method.EmptyFieldsIgnored | src/exceptions/MethodException.ts:34-57 | an empty object name, method name or list gives the same message as an absent one |
| NotImplemented.MessageIsSentence | src/exceptions/NotImplementedException.ts:34-40 | the message is "The method" with the quoted name when it is non-empty, else "This method", then "is not implemented." (legacy src/NotImplementedException.ts:16-22) |
| NotImplemented.Create | src/exceptions/NotImplementedException.ts:93-103 | kind NotImplemented, code 15; default, derived or given message by call form (legacy src/NotImplementedException.ts:66-78) |
| NotImplemented.NameReadsBack | src/exceptions/NotImplementedException.ts:34-40 | the method name can be read back from between the quotes |
| NotImplemented.EmptyNameIgnored | src/exceptions/NotImplementedException.ts:34-40 | an empty name gives the default message |
| NotSupported.MessageIsSentence | src/exceptions/NotSupportedException.ts:34-40 | the message is "The method" with the quoted name when it is non-empty, else "This method", then "is not supported." (legacy src/NotSupportedException.ts:23-29) |
| NotSupported.Create | src/exceptions/NotSupportedException.ts:93-103 | kind NotSupported, code 14; default, derived or given message by call form (legacy src/NotSupportedException.ts:75-85) |
| NotSupported.NameReadsBack | src/exceptions/NotSupportedException.ts:34-40 | the method name can be read back from between the quotes |
| NotSupported.EmptyNameIgnored | src/exceptions/NotSupportedException.ts:34-40 | an empty name gives the default message |
| Parse.WrittenPredicateDiffers | src/exceptions/ParseException.ts:35-41 | a named parser gets the predicate "was unable to parser content.", which differs from the default's "was unable to parse content."; an unnamed one gets the default (legacy src/ParseException.ts:17-23) |
| Parse.JsonExample | src/exceptions/ParseException.ts:39 | the parser "JSON" yields `The parser "JSON" was unable to parser content.` |
| Parse.EndsWithContent | src/exceptions/ParseException.ts:35-41 | both wordings end with " content." |
| Parse.NamedOpening | src/exceptions/ParseException.ts:39 | a named message opens `The parser "` followed by the name |
| Parse.Create | src/exceptions/ParseException.ts:94-104 | kind Parse, code 18; the default, the named wording as written, or the given message (legacy src/ParseException.ts:68-80) |
| Parse.EmptyParserIgnored | src/exceptions/ParseException.ts:35-41 | an empty parser name gives the default message |
| Recursion.MessageIsSentence | src/exceptions/RecursionException.ts:34-60 | the cascade is the sentence: the quoted operation or "An operation", the fixed predicate, "by handling consecutive repeating recursion values" only for a `true` flag, the pluralised limit when present (legacy src/RecursionException.ts:21-47) |
| Recursion.Create | src/exceptions/RecursionException.ts:123-133 | kind Recursion, code 4; default, derived or given message by call form (legacy src/RecursionException.ts:105-115) |
| Recursion.FalseFlagIsAbsent | src/exceptions/RecursionException.ts:34-60 | a `false` repetition flag gives the same message as no flag |
| Recursion.RepetitionCount | src/exceptions/RecursionException.ts:38-46 | with the flag and a limit the detail counts the limit in "time(s)", with the `s` exactly when the limit is not 1 |
| Recursion.SubjectIff | src/exceptions/RecursionException.ts:34-60 | the message opens with "The" exactly when the operation has a non-empty name |
| Timeout.MessageIsSentence | src/exceptions/TimeoutException.ts:34-51 | the cascade is the sentence: the quoted operation or "An operation", "timed out", "after N second(s)" whenever a timeout is present (legacy src/TimeoutException.ts:21-38) |
| Timeout.Create | src/exceptions/TimeoutException.ts:109-119 | kind Timeout, code 3; default, derived or given message by call form (legacy src/TimeoutException.ts:90-100) |
| Timeout.SecondsPlural | src/exceptions/TimeoutException.ts:38-40 | a timeout, zero included, is written in seconds, with the `s` exactly when it is not 1 |
| Value.MessageIsSentence | src/exceptions/ValueException.ts:34-49 | the cascade is the sentence: "The symbol" with the quoted name or "A symbol", the fixed clause, the constraints clause when the list counts (legacy src/ValueException.ts:15-30) |
| Value.Create | src/exceptions/ValueException.ts:107-117 | kind Value, code 5; the derived message with the `init`'s cause kept (legacy src/ValueException.ts:81-93) |
| Value.NamedWithConstraints | src/exceptions/ValueException.ts:40-41 | name "x" with constraints "number" and "between 1 and 20" yields the full two-sentence message |
| Value.EmptyConstraintsIgnored | src/exceptions/ValueException.ts:36-37 | an empty constraint list, or one empty constraint, gives the same message as no list |

## Left out

- The knowledge-base URL is the parameter `Config.knowledgeBase`. `P11_EXC_KB` is computed by a version helper outside the core (src/_internals/_constants.ts:32).
- The legacy tree does not load: src/Exception.ts imports `I11N_EXC_KB` (line 4, used at line 86), but src/_constants.ts exports only `P11_EXC_KB` (line 13) and `ExceptionSerializationData`. The model does not represent this load failure. Its legacy citations describe the legacy text, and where that text uses the knowledge base the model uses `Config.knowledgeBase`.
- Construction.Entry: a property passed explicitly as `undefined` (for example `{ valueName: maybeName }` with no name) is treated as never passed. The source's `Object.keys` counts such a property, so it would give a `data` object and a `&data=` URL parameter where the model gives neither (`BaseException.Data`, `BaseException.DataEntry`). The message derivations are not affected: in them `undefined` and an absent property are equally falsy.
- UriComponent.Decode: accepts malformed UTF-8 that `decodeURIComponent` rejects, such as overlong forms and bad continuation bytes. It is only a reference inverse for `Encode`, and `DecodeEncode` is the property proved about it.
- `JSON.stringify` is the parameter `Config.stringify`, applied to the `Payload` datatype. The model does not fix its text or its escaping.
- Object property order is not modelled: the `data` payload is a map.
- Numbers are integers. `NaN`, fractions, infinities and `-0` in index, bound, limit and timeout properties are not modelled.
- `Text.Decimal` writes integers the way `${n}` does for safe integers. Exponent notation for very large numbers is not modelled.
- `UriComponent.Encode` works on Unicode scalar values. A lone surrogate, which makes `encodeURIComponent` throw, cannot occur in a Dafny string.
- The `Error` machinery is not modelled: `stack`, `captureStackTrace`, prototype setup and `instanceof`. Only `name`, `message`, `code`, `cause`, `data`, `helpUrl`, `toString` and `valueOf` are modelled.
- Exceptions are immutable values, so a cause chain is finite. Mutating an exception after construction, or building a cyclic cause, is not modelled.
- The TypeScript type declarations, the module entry files and the generic `init` typing are not modelled. A kind's `init` is a datatype whose fields are the properties it declares.
- Property values of the wrong type (for example a number given for a name) are not modelled. Each field has the type its interface declares.
- The test harness and fixtures are not modelled. Their expected strings are restated as lemmas where they pin behaviour (`Parse.JsonExample`, `Value.NamedWithConstraints`).
- Index.TryCreate: the contract covers the no-argument and message forms. The `init` form is stated by `Index.CreateFromInit`.
- ArgumentIndex.TryCreate: the contract covers the no-argument and message forms. The `init` form is stated by `ArgumentIndex.CreateFromInit`.
- Index.BoundsFailure: the contract states the kind and that an `init` is kept. The message is stated by `Index.BoundsFailureMessage`.
