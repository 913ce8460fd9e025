/** String helpers shared by the message templates and the renderings of an
    exception: JavaScript truthiness of optional fields, `Array.prototype.join`,
    the rendering of integers in base 10 and base 16, and the "A"/"An" article. */
module Text {
  import opened Wrappers

  /** An optional string field counts in a `switch (true)` cascade only when it
      is present and non-empty (`!!s` in JavaScript). */
  predicate Present(s: Option<string>)
  {
    s.Some? && s.value != ""
  }

  /** An optional boolean field counts only when it is present and `true`. */
  predicate IsTrue(b: Option<bool>)
  {
    b == Some(true)
  }

  /** A string wrapped in one pair of double quotes. */
  function Quote(s: string): string
  {
    "\"" + s + "\""
  }

  /** `xs.join(sep)`: the elements in order, separated by `sep`. */
  function Join(xs: seq<string>, sep: string): (r: string)
    ensures |xs| == 1 ==> r == xs[0]
  {
    if |xs| == 0 then ""
    else if |xs| == 1 then xs[0]
    else xs[0] + sep + Join(xs[1..], sep)
  }

  /** A joined list is empty exactly when there is nothing to show: no
      elements, or one empty element (given a non-empty separator). */
  lemma {:induction false} JoinEmptyIff(xs: seq<string>, sep: string)
    requires sep != ""
    ensures Join(xs, sep) == "" <==> |xs| == 0 || (|xs| == 1 && xs[0] == "")
  {
    if |xs| >= 2 {
      assert |Join(xs, sep)| >= |sep|;
    }
  }

  /** The length of a join: every element plus one separator between each
      neighbouring pair. */
  lemma {:induction false} JoinLength(xs: seq<string>, sep: string)
    ensures |xs| >= 1 ==> |Join(xs, sep)| == TotalLength(xs) + (|xs| - 1) * |sep|
  {
    if |xs| >= 2 {
      JoinLength(xs[1..], sep);
      assert TotalLength(xs) == |xs[0]| + TotalLength(xs[1..]);
    }
  }

  /** The sum of the lengths of the strings in `xs`. */
  function TotalLength(xs: seq<string>): nat
  {
    if |xs| == 0 then 0 else |xs[0]| + TotalLength(xs[1..])
  }

  /** The `toCsv` value of the list-carrying exception kinds:
      `list && list.length && list.join(sep)`, which is truthy only when the
      list is present, non-empty and joins to a non-empty string. */
  function ListText(list: Option<seq<string>>, sep: string): (r: Option<string>)
    ensures r.Some? ==> r.value != "" && list.Some? && r.value == Join(list.value, sep)
    ensures list.Some? && Join(list.value, sep) != "" ==> r.Some?
  {
    if list.Some? && |list.value| > 0 && Join(list.value, sep) != "" then Some(Join(list.value, sep))
    else None
  }

  /** With a non-empty separator, a list counts exactly when it has at least
      two elements or a single non-empty one; an empty list, or a list holding
      only the empty string, counts as absent. */
  lemma ListTextPresentIff(list: Option<seq<string>>, sep: string)
    requires sep != ""
    ensures ListText(list, sep).Some? <==>
      list.Some? && (|list.value| >= 2 || (|list.value| == 1 && list.value[0] != ""))
  {
    if list.Some? {
      JoinEmptyIff(list.value, sep);
    }
  }

  /** Every string of `xs` wrapped in its own pair of double quotes. */
  function QuoteAll(xs: seq<string>): (r: seq<string>)
    ensures |r| == |xs|
    ensures forall i :: 0 <= i < |xs| ==> r[i] == Quote(xs[i])
  {
    if |xs| == 0 then [] else [Quote(xs[0])] + QuoteAll(xs[1..])
  }

  /** Joining with `", "` (a quote, a comma, a space, a quote) and wrapping
      the whole in one pair of quotes quotes every element on its own: the
      result lists each element in quotes, separated by ", ". */
  lemma {:induction false} QuotedJoin(xs: seq<string>)
    requires |xs| >= 1
    ensures Quote(Join(xs, "\", \"")) == Join(QuoteAll(xs), ", ")
  {
    if |xs| >= 2 {
      QuotedJoin(xs[1..]);
      var rest := Join(xs[1..], "\", \"");
      assert QuoteAll(xs)[1..] == QuoteAll(xs[1..]);
      assert Join(xs, "\", \"") == xs[0] + "\", \"" + rest;
      assert Join(QuoteAll(xs), ", ") == Quote(xs[0]) + ", " + Join(QuoteAll(xs[1..]), ", ");
      assert "\"" + (xs[0] + "\", \"" + rest) + "\"" == Quote(xs[0]) + ", " + Quote(rest);
    }
  }

  /** The article before a noun, as the "aeiou".includes(noun.charAt(0))
      test chooses it: "An" when the noun starts with a lowercase vowel. */
  function Article(noun: string): (r: string)
    ensures r == "An" <==> |noun| > 0 && noun[0] in "aeiou"
    ensures r == "A" || r == "An"
  {
    if |noun| > 0 && noun[0] in "aeiou" then "An" else "A"
  }

  /** Of the three determiners, only "The" opens with "The ". */
  lemma Opening(d: string, rest: string)
    requires d == "The" || d == "A" || d == "An"
    requires |rest| >= 3 && rest[0] == ' '
    ensures |d + rest| >= 4 && ((d + rest)[..4] == "The " <==> d == "The")
  {
    if d == "The" {
      assert (d + rest)[..4] == d + [rest[0]];
    } else {
      assert (d + rest)[..4][0] == 'A';
      assert "The "[0] == 'T';
    }
  }

  /** Of the two indefinite articles, only "An" opens with "An". */
  lemma IndefiniteOpening(d: string, rest: string)
    requires d == "A" || d == "An"
    requires |rest| >= 1 && rest[0] == ' '
    ensures |d + rest| >= 2 && ((d + rest)[..2] == "An" <==> d == "An")
  {
    if d == "A" {
      assert (d + rest)[1] == ' ';
    } else {
      assert (d + rest)[..2] == d;
    }
  }

  /** `word` followed by "s" unless the count is exactly one, as in
      `time${n !== 1 ? "s" : ""}`. */
  function Plural(word: string, count: int): (r: string)
    ensures r == word + "s" <==> count != 1
    ensures r == word <==> count == 1
  {
    if count != 1 then word + "s" else word
  }

  /** In a sentence that ends with a counted word and a period, the
      character before the period is 's' exactly when the count is not 1
      (for a word that does not itself end in 's'). */
  lemma PluralBeforePeriod(head: string, word: string, count: int)
    requires |word| > 0 && word[|word| - 1] != 's'
    ensures var m := head + Plural(word, count) + ".";
            |m| >= 2 && (m[|m| - 2] == 's' <==> count != 1)
  {
    var w := Plural(word, count);
    var m := head + w + ".";
    assert m[|m| - 2] == w[|w| - 1];
  }

  // ---------------------------------------------------------------------
  // Positional numerals.

  /** No character occurs twice in `s`. */
  predicate Distinct(s: string)
  {
    forall i, j :: 0 <= i < j < |s| ==> s[i] != s[j]
  }

  /** The position of the first occurrence of `c` in `s`, if any. */
  function IndexOf(s: string, c: char): (r: Option<nat>)
    ensures r.Some? ==> r.value < |s| && s[r.value] == c && c !in s[..r.value]
    ensures r.None? <==> c !in s
  {
    if |s| == 0 then None
    else if s[0] == c then Some(0)
    else IndexOf(s[1..], c).Map(i => i + 1)
  }

  /** In a string without repeated characters, the position of `s[i]` is `i`. */
  lemma IndexOfDistinct(s: string, i: nat)
    requires Distinct(s) && i < |s|
    ensures IndexOf(s, s[i]) == Some(i)
  {
    assert s[i] in s;
  }

  /** Integer division by a base at least 2 shrinks a number that is at
      least the base, and splits it into quotient and digit. */
  lemma DivideByBase(n: nat, b: nat)
    requires 2 <= b <= n
    ensures 0 < n / b < n
    ensures 0 <= n % b < b
    ensures (n / b) * b + n % b == n
  {
    var q, d := n / b, n % b;
    assert q * b + d == n;
    assert q * b >= q * 2 by {
      MultiplyMonotone(q, 2, b);
    }
  }

  lemma MultiplyMonotone(q: nat, x: nat, y: nat)
    requires x <= y
    ensures q * x <= q * y
  {
  }

  /** The first `c` of `a + [c] + b` is the one after `a` when `a` holds none. */
  lemma IndexOfAfter(a: string, c: char, b: string)
    requires c !in a
    ensures IndexOf(a + [c] + b, c) == Some(|a|)
  {
    var s := a + [c] + b;
    assert s[|a|] == c;
  }

  /** `s.split(sep)` for a one-character separator: the pieces between
      consecutive separators, in order. */
  function Split(s: string, sep: char): (r: seq<string>)
    ensures |r| >= 1
    decreases |s|
  {
    match IndexOf(s, sep)
    case None => [s]
    case Some(i) => [s[..i]] + Split(s[i + 1..], sep)
  }

  /** Splitting after a piece free of the separator yields that piece first. */
  lemma SplitAfter(a: string, sep: char, b: string)
    requires sep !in a
    ensures Split(a + [sep] + b, sep) == [a] + Split(b, sep)
  {
    var s := a + [sep] + b;
    IndexOfAfter(a, sep, b);
    assert s[..|a|] == a;
    assert s[|a| + 1..] == b;
  }

  /** A string free of the separator splits into itself alone. */
  lemma SplitNone(a: string, sep: char)
    requires sep !in a
    ensures Split(a, sep) == [a]
  {
  }

  /** `n` written in base `b`, most significant digit first, with the digits
      taken from `alphabet` and no leading zeros. */
  function ToBase(n: nat, b: nat, alphabet: string): (r: string)
    requires 2 <= b <= |alphabet|
    ensures |r| >= 1
    ensures forall i :: 0 <= i < |r| ==> r[i] in alphabet[..b]
    decreases n
  {
    if n < b then [alphabet[n]]
    else
      DivideByBase(n, b);
      ToBase(n / b, b, alphabet) + [alphabet[n % b]]
  }

  /** The value of a numeral in base `b` over `alphabet`; `None` when it is
      empty or holds a character that is not one of the first `b` digits. */
  function FromBase(s: string, b: nat, alphabet: string): (r: Option<nat>)
    requires 2 <= b <= |alphabet|
    decreases |s|
  {
    if |s| == 0 then None
    else
      match IndexOf(alphabet, s[|s| - 1])
      case None => None
      case Some(d) =>
        if d >= b then None
        else if |s| == 1 then Some(d)
        else FromBase(s[..|s| - 1], b, alphabet).Map(high => high * b + d)
  }

  /** Reading a numeral back gives the number it was written from. */
  lemma {:induction false} FromBaseToBase(n: nat, b: nat, alphabet: string)
    requires 2 <= b <= |alphabet| && Distinct(alphabet)
    ensures FromBase(ToBase(n, b, alphabet), b, alphabet) == Some(n)
    decreases n
  {
    var s := ToBase(n, b, alphabet);
    if n < b {
      IndexOfDistinct(alphabet, n);
    } else {
      DivideByBase(n, b);
      FromBaseToBase(n / b, b, alphabet);
      IndexOfDistinct(alphabet, n % b);
      assert s[..|s| - 1] == ToBase(n / b, b, alphabet);
      assert s[|s| - 1] == alphabet[n % b];
    }
  }

  const DecimalDigits := "0123456789"
  const LowerHexDigits := "0123456789abcdef"

  lemma DecimalDigitsDistinct()
    ensures Distinct(DecimalDigits)
  {
  }

  lemma LowerHexDigitsDistinct()
    ensures Distinct(LowerHexDigits)
  {
  }

  /** `code.toString(16)`: a non-negative integer in lowercase hexadecimal. */
  function LowerHex(n: nat): (r: string)
    ensures forall i :: 0 <= i < |r| ==> r[i] in LowerHexDigits
  {
    ToBase(n, 16, LowerHexDigits)
  }

  /** Reads a lowercase hexadecimal numeral. */
  function ParseLowerHex(s: string): Option<nat>
  {
    FromBase(s, 16, LowerHexDigits)
  }

  /** Lowercase hexadecimal rendering loses nothing. */
  lemma LowerHexRoundTrip(n: nat)
    ensures ParseLowerHex(LowerHex(n)) == Some(n)
  {
    LowerHexDigitsDistinct();
    FromBaseToBase(n, 16, LowerHexDigits);
  }

  /** `${n}` for an integer-valued JavaScript number: base 10, with a leading
      minus sign for negative values. */
  function Decimal(n: int): (r: string)
    ensures |r| >= 1
    ensures r[0] == '-' <==> n < 0
  {
    if n < 0 then "-" + ToBase(-n, 10, DecimalDigits) else ToBase(n, 10, DecimalDigits)
  }

  /** Reads an optionally negative decimal numeral. */
  function ParseDecimal(s: string): Option<int>
  {
    if |s| > 0 && s[0] == '-' then FromBase(s[1..], 10, DecimalDigits).Map<int>((m: nat) => -(m as int))
    else FromBase(s, 10, DecimalDigits).Map(m => m as int)
  }

  /** Decimal rendering loses nothing, so distinct numbers render differently. */
  lemma DecimalRoundTrip(n: int)
    ensures ParseDecimal(Decimal(n)) == Some(n)
  {
    DecimalDigitsDistinct();
    var m: nat := if n < 0 then -n else n;
    var digits := ToBase(m, 10, DecimalDigits);
    FromBaseToBase(m, 10, DecimalDigits);
    assert FromBase(digits, 10, DecimalDigits) == Some(m);
    if n < 0 {
      assert Decimal(n) == "-" + digits;
      assert ("-" + digits)[1..] == digits;
    } else {
      assert Decimal(n) == digits;
      assert digits[0] in DecimalDigits[..10];
      assert digits[0] != '-';
    }
  }
}
