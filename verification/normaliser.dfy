/**
 * The input normaliser (`coerce_input`): a comma-separated note list is
 * split, each token trimmed and upper-cased, two-character tokens get
 * their second character lowered, and the whole input is rejected unless
 * every resulting token is a name of the note table.
 */
module Normaliser {
  import opened Wrappers
  import opened Text
  import opened Notes

  /** The only error the normaliser raises (a Python `ValueError`). */
  datatype NoteError = ValueError(message: string)

  const UsageMessage: string :=
    "Some input not recognized. Valid examples: `c, g, Ab`, `G, F, bb`"

  /** The recasing of an upper-cased token: a two-character token gets
      its second character lowered, any other is kept. Only the case of
      letters changes. */
  function Recase(x: string): (r: string)
    ensures |r| == |x| && Upper(r) == Upper(x)
  {
    if |x| == 2 then
      LowerUpperChar(x[1]);
      [x[0], LowerChar(x[1])]
    else x
  }

  /** The canonical casing of one token: trimmed, upper-cased, recased. */
  function Canon(token: string): (r: string)
    ensures |r| == |Strip(token)|
  {
    Recase(Upper(Strip(token)))
  }

  /** The canonical tokens of a whole input, in token order. */
  function CanonAll(tokens: seq<string>): (r: seq<string>)
    ensures |r| == |tokens|
    ensures forall k :: 0 <= k < |tokens| ==> r[k] == Canon(tokens[k])
  {
    seq(|tokens|, k requires 0 <= k < |tokens| => Canon(tokens[k]))
  }

  /** `coerce_input`: the canonical tokens when every one is a table name,
      otherwise the usage error. Order, count and duplicates of the
      comma-separated tokens are kept. */
  function CoerceInput(input: string): (r: Result<seq<string>, NoteError>)
    ensures r.Success? <==> forall k :: 0 <= k < |Split(input, ',')| ==>
                              IsNoteName(Canon(Split(input, ',')[k]))
    ensures r.Success? ==> |r.value| == Count(input, ',') + 1
    ensures r.Success? ==> forall k :: 0 <= k < |r.value| ==>
                              r.value[k] == Canon(Split(input, ',')[k])
    ensures r.Failure? ==> r.error == ValueError(UsageMessage)
  {
    var normed := CanonAll(Split(input, ','));
    if forall k :: 0 <= k < |normed| ==> IsNoteName(normed[k]) then Success(normed)
    else Failure(ValueError(UsageMessage))
  }

  /** `x` and `y` spell the same letters, ignoring ASCII case. */
  predicate SameIgnoringCase(x: string, y: string)
  {
    |x| == |y| && forall k :: 0 <= k < |x| ==> UpperChar(x[k]) == UpperChar(y[k])
  }

  /** A token canonicalises to a given table name exactly when, once
      trimmed, it spells that name in any mix of cases. */
  lemma CanonSpellsName(token: string, name: string)
    requires IsNoteName(name)
    ensures Canon(token) == name <==> SameIgnoringCase(Strip(token), name)
  {
    RecaseSpellsName(Strip(token), name);
  }

  /** Upper-casing and recasing `s` gives a table name exactly when `s`
      spells that name in some mix of cases. */
  lemma RecaseSpellsName(s: string, name: string)
    requires IsNoteName(name)
    ensures Recase(Upper(s)) == name <==> SameIgnoringCase(s, name)
  {
    NameShape(name);
    var x := Upper(s);
    if |s| == 2 {
      LowerUpperChar(s[1]);
      if SameIgnoringCase(s, name) {
        assert UpperChar(s[1]) == 'B';
        assert Recase(x) == name;
      }
      if Recase(x) == name {
        assert LowerChar(x[1]) == 'b';
        assert UpperChar(s[1]) == UpperChar(name[1]);
      }
    } else if |s| == 1 && |name| == 1 {
      if SameIgnoringCase(s, name) {
        assert x == [UpperChar(s[0])] == name;
      }
    }
  }

  /** Canonical names are fixed points of the normaliser. */
  lemma CanonFixesNames(name: string)
    requires IsNoteName(name)
    ensures Canon(name) == name
  {
    NameShape(name);
    StripFixed(name);
    CanonSpellsName(name, name);
  }

  /** `ab`, `AB` and `aB` all canonicalise to `Ab`. */
  lemma CanonCaseVariants(token: string)
    requires token in {"ab", "AB", "aB"}
    ensures Canon(token) == "Ab"
  {
    NumberIs("Ab", 1);
    CanonUnpadded(token, "Ab");
  }

  /** Surrounding whitespace does not matter: padding a token that has
      none of its own with whitespace on either side leaves its canonical
      form unchanged. */
  lemma CanonIgnoresPadding(pre: string, token: string, post: string)
    requires forall k :: 0 <= k < |pre| ==> IsSpace(pre[k])
    requires forall k :: 0 <= k < |post| ==> IsSpace(post[k])
    requires |token| > 0 && Unpadded(token)
    ensures Canon(pre + token + post) == Canon(token)
  {
    StripPadding(pre, token, post);
    StripFixed(token);
  }

  /** A token without surrounding whitespace that spells a name in some
      mix of cases canonicalises to that name. */
  lemma CanonUnpadded(token: string, name: string)
    requires IsNoteName(name)
    requires |token| > 0 && Unpadded(token)
    requires SameIgnoringCase(token, name)
    ensures Canon(token) == name
  {
    StripFixed(token);
    CanonSpellsName(token, name);
  }

  /** Normalising twice is normalising once. */
  lemma CanonIdempotent(token: string)
    ensures Canon(Canon(token)) == Canon(token)
  {
    var s := Strip(token);
    var c := Canon(token);
    CanonIsUnpadded(token);
    StripFixed(c);
    UpperIdempotent(s);
    assert Upper(c) == Upper(s);
  }

  /** A canonical token neither starts nor ends with whitespace. */
  lemma CanonIsUnpadded(token: string)
    ensures Unpadded(Canon(token))
  {
    var s := Strip(token);
    var c := Canon(token);
    if |s| > 0 {
      assert !IsSpace(s[0]) && !IsSpace(s[|s| - 1]);
      assert !IsSpace(c[0]) && !IsSpace(c[|c| - 1]);
    }
  }

  /** A token that is longer than two characters once trimmed, or empty,
      is never a table name. */
  lemma LongOrEmptyTokenRejected(token: string)
    requires |Strip(token)| > 2 || |Strip(token)| == 0
    ensures !IsNoteName(Canon(token))
  {
    if IsNoteName(Canon(token)) {
      NameShape(Canon(token));
    }
  }

  /** A non-empty list of table names, comma-joined, normalises back to
      itself. */
  lemma CoerceNames(ns: seq<string>)
    requires |ns| > 0
    requires forall k :: 0 <= k < |ns| ==> IsNoteName(ns[k])
    ensures CoerceInput(Join(ns, ',')) == Success(ns)
  {
    forall k | 0 <= k < |ns|
      ensures ',' !in ns[k]
    {
      NameShape(ns[k]);
    }
    SplitJoin(ns, ',');
    forall k | 0 <= k < |ns|
      ensures Canon(ns[k]) == ns[k]
    {
      CanonFixesNames(ns[k]);
    }
    AcceptedAs(Join(ns, ','), ns);
  }

  /** An input whose tokens canonicalise one by one to the table names
      `ns` is accepted as `ns`. */
  lemma AcceptedAs(input: string, ns: seq<string>)
    requires |Split(input, ',')| == |ns|
    requires forall k :: 0 <= k < |ns| ==> Canon(Split(input, ',')[k]) == ns[k]
    requires forall k :: 0 <= k < |ns| ==> IsNoteName(ns[k])
    ensures CoerceInput(input) == Success(ns)
  {
    assert CanonAll(Split(input, ',')) == ns;
  }

  /** Re-normalising the comma-joined output of a successful
      normalisation gives the same list. */
  lemma CoerceIdempotent(input: string)
    requires CoerceInput(input).Success?
    ensures CoerceInput(Join(CoerceInput(input).value, ',')) == CoerceInput(input)
  {
    CoerceNames(CoerceInput(input).value);
  }

  /** Splitting the comma-join of comma-free pieces, for the examples below. */
  lemma SplitsAs(input: string, parts: seq<string>)
    requires |parts| > 0
    requires forall k :: 0 <= k < |parts| ==> ',' !in parts[k]
    requires Join(parts, ',') == input
    ensures Split(input, ',') == parts
  {
    SplitJoin(parts, ',');
  }

  /** The empty input is rejected. */
  lemma RejectsEmptyInput()
    ensures CoerceInput("") == Failure(ValueError(UsageMessage))
  {
    SplitsAs("", [""]);
    LongOrEmptyTokenRejected("");
  }

  /** An empty token between two commas is rejected. */
  lemma RejectsEmptyToken()
    ensures CoerceInput("C,,E") == Failure(ValueError(UsageMessage))
  {
    SplitsAs("C,,E", ["C", "", "E"]);
    LongOrEmptyTokenRejected("");
  }

  /** A sharp spelling is rejected. */
  lemma RejectsSharp()
    ensures CoerceInput("F#") == Failure(ValueError(UsageMessage))
  {
    SplitsAs("F#", ["F#"]);
    StripFixed("F#");
  }
}
