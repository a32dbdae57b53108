/**
 * The route contract shared by the client and the server of the trading app:
 * the validation of the JSON body of `POST /api/trade`, and `buildUrl`, which
 * fills the `:name` placeholders of a route path from a parameter object.
 */
module SharedRoutes {

  datatype Option<T> = None | Some(value: T)

  /**
   * A JSON value as delivered by the body parser. Numbers are exact reals;
   * a literal too large for a double, which the parser turns into
   * `Infinity`, has no counterpart here.
   */
  datatype Json =
    | JNull
    | JBool(b: bool)
    | JNumber(n: real)
    | JString(s: string)
    | JArray(items: seq<Json>)
    | JObject(fields: map<string, Json>)

  /** The two values of the `type` field of a trade request. */
  datatype Side = Buy | Sell

  /** A share count that passed `z.number().int().positive()`. */
  type Quantity = n: int | n > 0 witness 1

  /** A validated trade request; `symbol` is any string, the empty one included. */
  datatype TradeRequest = TradeRequest(symbol: string, side: Side, quantity: Quantity)

  /** `Number.isInteger` on a finite number. */
  predicate IsInteger(x: real) {
    x.Floor as real == x
  }

  /** The three keys the trade schema knows; any other key is stripped. */
  predicate IsSchemaKey(k: string) {
    k == "symbol" || k == "type" || k == "quantity"
  }

  /** The value under key `k` of an object body; absent keys read as `undefined`. */
  function Field(body: Json, k: string): Option<Json> {
    if body.JObject? && k in body.fields then Some(body.fields[k]) else None
  }

  /** `z.string()` */
  function ParseSymbol(v: Option<Json>): Option<string> {
    match v
    case Some(JString(s)) => Some(s)
    case _ => None
  }

  /** `z.enum(['buy', 'sell'])` */
  function ParseSide(v: Option<Json>): Option<Side> {
    match v
    case Some(JString(s)) =>
      if s == "buy" then Some(Buy) else if s == "sell" then Some(Sell) else None
    case _ => None
  }

  /** `z.number().int().positive()` */
  function ParseQuantity(v: Option<Json>): Option<Quantity> {
    match v
    case Some(JNumber(n)) =>
      if IsInteger(n) && n > 0.0 then Some(n.Floor) else None
    case _ => None
  }

  /**
   * `api.trade.execute.input.parse(body)`: the body must be an object whose
   * `symbol` is a string, whose `type` is exactly "buy" or "sell" and whose
   * `quantity` is an integral number greater than 0; every other key is ignored.
   */
  function ParseTradeRequest(body: Json): (r: Option<TradeRequest>)
    ensures r.Some? <==>
      && body.JObject?
      && "symbol" in body.fields && body.fields["symbol"].JString?
      && "type" in body.fields
      && (body.fields["type"] == JString("buy") || body.fields["type"] == JString("sell"))
      && "quantity" in body.fields && body.fields["quantity"].JNumber?
      && IsInteger(body.fields["quantity"].n) && body.fields["quantity"].n > 0.0
    ensures r.Some? ==>
      && JString(r.value.symbol) == body.fields["symbol"]
      && (r.value.side == Buy <==> body.fields["type"] == JString("buy"))
      && r.value.quantity as real == body.fields["quantity"].n
  {
    if !body.JObject? then None
    else
      match (ParseSymbol(Field(body, "symbol")), ParseSide(Field(body, "type")), ParseQuantity(Field(body, "quantity")))
      case (Some(symbol), Some(side), Some(quantity)) => Some(TradeRequest(symbol, side, quantity))
      case _ => None
  }

  /** The body the client sends for a trade request: `JSON.stringify(data)`. */
  function EncodeTradeRequest(req: TradeRequest): (r: Json)
    ensures r.JObject? && forall k :: k in r.fields <==> IsSchemaKey(k)
  {
    JObject(map[
      "symbol" := JString(req.symbol),
      "type" := JString(if req.side == Buy then "buy" else "sell"),
      "quantity" := JNumber(req.quantity as real)])
  }

  /** Every request the client can form passes the server's validation unchanged. */
  lemma ParseEncodeRoundTrip(req: TradeRequest)
    ensures ParseTradeRequest(EncodeTradeRequest(req)) == Some(req)
  {
    var body := EncodeTradeRequest(req);
    assert body.fields["quantity"].n.Floor == req.quantity;
  }

  /** A body that validates is the encoding of its request, up to keys the schema strips. */
  lemma ParsedBodyIsEncoding(body: Json)
    requires ParseTradeRequest(body).Some?
    ensures forall k :: IsSchemaKey(k) ==>
      Field(body, k) == Field(EncodeTradeRequest(ParseTradeRequest(body).value), k)
  {
    var req := ParseTradeRequest(body).value;
    var enc := EncodeTradeRequest(req);
    assert Field(body, "type") == Field(enc, "type") by {
      if req.side == Buy {
        assert body.fields["type"] == JString("buy");
      } else {
        assert body.fields["type"] == JString("sell");
      }
    }
  }

  /** Keys outside the schema never change the outcome of validation. */
  lemma UnknownKeysIgnored(fields: map<string, Json>, k: string, v: Json)
    requires !IsSchemaKey(k)
    ensures ParseTradeRequest(JObject(fields[k := v])) == ParseTradeRequest(JObject(fields))
  {
    var b, b' := JObject(fields[k := v]), JObject(fields);
    assert Field(b, "symbol") == Field(b', "symbol");
    assert Field(b, "type") == Field(b', "type");
    assert Field(b, "quantity") == Field(b', "quantity");
  }

  // ---------------------------------------------------------------------------
  // buildUrl
  // ---------------------------------------------------------------------------

  /**
   * An integer below 10^21 in magnitude: the range in which JS's `String`
   * prints a number as plain decimal digits rather than in exponent form.
   */
  type PlainInteger = n: int | -1_000_000_000_000_000_000_000 < n < 1_000_000_000_000_000_000_000

  /** A value of the parameter object: a string, or a number (integers printed in plain decimal only here). */
  datatype ParamValue = Text(s: string) | Number(n: PlainInteger)

  function DigitChar(d: nat): char
    requires d < 10
  {
    (48 + d) as char
  }

  predicate IsDigit(c: char) {
    48 <= c as int <= 57
  }

  /** The decimal numeral of `n`, most significant digit first. */
  function DecimalDigits(n: nat): (s: string)
    ensures |s| > 0 && forall i :: 0 <= i < |s| ==> IsDigit(s[i])
  {
    if n < 10 then [DigitChar(n)] else DecimalDigits(n / 10) + [DigitChar(n % 10)]
  }

  function DigitValue(c: char): nat
    requires IsDigit(c)
  {
    c as int - 48
  }

  /** The number a string of decimal digits denotes. */
  function DecimalValue(s: string): nat
    requires forall i :: 0 <= i < |s| ==> IsDigit(s[i])
  {
    if s == [] then 0 else 10 * DecimalValue(s[..|s| - 1]) + DigitValue(s[|s| - 1])
  }

  lemma {:induction false} DecimalRoundTrip(n: nat)
    ensures DecimalValue(DecimalDigits(n)) == n
  {
    var s := DecimalDigits(n);
    if n >= 10 {
      DecimalRoundTrip(n / 10);
      assert s[..|s| - 1] == DecimalDigits(n / 10);
    }
  }

  /** `String(value)` */
  function Stringify(v: ParamValue): (r: string)
    ensures v.Text? ==> r == v.s
    ensures v.Number? ==> |r| > 0 && (r[0] == '-' <==> v.n < 0)
    ensures v.Number? ==> forall i :: (if v.n < 0 then 1 else 0) <= i < |r| ==> IsDigit(r[i])
  {
    match v
    case Text(s) => s
    case Number(n) => if n < 0 then "-" + DecimalDigits(-n) else DecimalDigits(n)
  }

  /** `String(value)` of a number is read back as the same number. */
  lemma StringifyNumberRoundTrip(n: PlainInteger)
    ensures var s := Stringify(Number(n));
      if n < 0 then s[0] == '-' && n == -(DecimalValue(s[1..]) as int) else DecimalValue(s) == n
  {
    if n < 0 {
      var d := DecimalDigits(-n);
      assert Stringify(Number(n)) == "-" + d;
      assert ("-" + d)[1..] == d;
      DecimalRoundTrip(-n);
    } else {
      DecimalRoundTrip(n);
    }
  }

  /** A number never prints a `$`, so numeric parameters are substituted verbatim even as written. */
  lemma NumberHasNoDollar(n: PlainInteger)
    ensures '$' !in Stringify(Number(n))
  {
    var d := DecimalDigits(if n < 0 then -n else n);
    assert forall i :: 0 <= i < |d| ==> d[i] != '$';
    if n < 0 {
      assert Stringify(Number(n)) == "-" + d;
    }
  }

  /** `pat` occurs in `s` starting at index `j`. */
  predicate OccursAt(s: string, pat: string, j: int) {
    0 <= j && j + |pat| <= |s| && s[j..j + |pat|] == pat
  }

  /** `s.indexOf(pat, from)`: the first index at or after `from` where `pat` occurs. */
  function IndexOf(s: string, pat: string, from: nat): (r: Option<nat>)
    ensures r.Some? ==> from <= r.value && OccursAt(s, pat, r.value)
    ensures forall j :: from <= j && (r.None? || j < r.value) ==> !OccursAt(s, pat, j)
    decreases |s| - from
  {
    if from + |pat| > |s| then None
    else if s[from..from + |pat|] == pat then Some(from)
    else IndexOf(s, pat, from + 1)
  }

  /** `s.includes(pat)`: whether `pat` occurs anywhere in `s`. */
  function Includes(s: string, pat: string): (b: bool)
    ensures b <==> exists j :: OccursAt(s, pat, j)
  {
    IndexOf(s, pat, 0).Some?
  }

  /**
   * The replacement template of `String.prototype.replace` expanded as
   * GetSubstitution of ECMA-262 does when the pattern is a string (no capture
   * groups): `$$` is `$`, `$&` the matched text, `` $` `` the text before the
   * match, `$'` the text after it; every other `$` stands for itself.
   */
  function Expand(template: string, matched: string, before: string, after: string): (r: string)
    ensures forall c :: c in r ==> c in template || c in matched || c in before || c in after
    decreases |template|
  {
    if template == [] then ""
    else if template[0] == '$' && |template| >= 2 && template[1] == '$' then
      "$" + Expand(template[2..], matched, before, after)
    else if template[0] == '$' && |template| >= 2 && template[1] == '&' then
      matched + Expand(template[2..], matched, before, after)
    else if template[0] == '$' && |template| >= 2 && template[1] == '`' then
      before + Expand(template[2..], matched, before, after)
    else if template[0] == '$' && |template| >= 2 && template[1] == '\'' then
      after + Expand(template[2..], matched, before, after)
    else
      [template[0]] + Expand(template[1..], matched, before, after)
  }

  /** A template without `$` expands to itself. */
  lemma {:induction false} ExpandWithoutDollar(template: string, matched: string, before: string, after: string)
    ensures '$' !in template ==> Expand(template, matched, before, after) == template
  {
    if template != [] && '$' !in template {
      assert template[0] != '$';
      assert '$' !in template[1..];
      ExpandWithoutDollar(template[1..], matched, before, after);
    }
  }

  /** `s.replace(pat, replacement)` with a string pattern and a string replacement. */
  function JsReplace(s: string, pat: string, replacement: string): (r: string)
    ensures IndexOf(s, pat, 0).None? ==> r == s
    ensures '$' !in replacement ==> r == ReplaceFirst(s, pat, replacement)
  {
    match IndexOf(s, pat, 0)
    case None => s
    case Some(i) =>
      ExpandWithoutDollar(replacement, pat, s[..i], s[i + |pat|..]);
      s[..i] + Expand(replacement, pat, s[..i], s[i + |pat|..]) + s[i + |pat|..]
  }

  /** The replacement that buildUrl evidently intends: the first occurrence of `pat` becomes `replacement`, verbatim. */
  function ReplaceFirst(s: string, pat: string, replacement: string): string {
    match IndexOf(s, pat, 0)
    case None => s
    case Some(i) => s[..i] + replacement + s[i + |pat|..]
  }

  /** One step of buildUrl's `forEach`, as written. */
  function SubstituteAsWritten(url: string, entry: (string, ParamValue)): (r: string)
    ensures !Includes(url, ":" + entry.0) ==> r == url
    ensures '$' !in Stringify(entry.1) ==> r == Substitute(url, entry)
  {
    var placeholder := ":" + entry.0;
    if Includes(url, placeholder) then JsReplace(url, placeholder, Stringify(entry.1)) else url
  }

  /** One step of buildUrl's `forEach`, with the value inserted verbatim. */
  function Substitute(url: string, entry: (string, ParamValue)): string {
    var placeholder := ":" + entry.0;
    if Includes(url, placeholder) then ReplaceFirst(url, placeholder, Stringify(entry.1)) else url
  }

  /** The url after the `forEach` has processed `entries` in order, as written. */
  function ApplyParamsAsWritten(path: string, entries: seq<(string, ParamValue)>): (r: string)
    ensures (forall i :: 0 <= i < |entries| ==> !Includes(path, ":" + entries[i].0)) ==> r == path
  {
    if entries == [] then path
    else SubstituteAsWritten(ApplyParamsAsWritten(path, entries[..|entries| - 1]), entries[|entries| - 1])
  }

  /** The url after the `forEach` has processed `entries` in order, values inserted verbatim. */
  function ApplyParams(path: string, entries: seq<(string, ParamValue)>): string {
    if entries == [] then path
    else Substitute(ApplyParams(path, entries[..|entries| - 1]), entries[|entries| - 1])
  }

  /**
   * `buildUrl(path, params)`: without params the path is returned as is;
   * otherwise each entry, in `Object.entries` order, replaces the first
   * `:key` of the url built so far, if there is one.
   */
  method BuildUrl(path: string, params: Option<seq<(string, ParamValue)>>) returns (url: string)
    ensures params.None? ==> url == path
    ensures params.Some? ==> url == ApplyParamsAsWritten(path, params.value)
    ensures params.Some? && (forall i :: 0 <= i < |params.value| ==> '$' !in Stringify(params.value[i].1)) ==>
      url == ApplyParams(path, params.value)
  {
    url := path;
    if params.Some? {
      var entries := params.value;
      var i := 0;
      while i < |entries|
        invariant 0 <= i <= |entries|
        invariant url == ApplyParamsAsWritten(path, entries[..i])
      {
        var (key, value) := entries[i];
        if Includes(url, ":" + key) {
          url := JsReplace(url, ":" + key, Stringify(value));
        }
        assert entries[..i + 1][..i] == entries[..i];
        i := i + 1;
      }
      assert entries[..|entries|] == entries;
      if forall i :: 0 <= i < |entries| ==> '$' !in Stringify(entries[i].1) {
        AsWrittenAgreesWithoutDollar(path, entries);
      }
    }
  }

  /** A parameter whose placeholder is absent leaves the url unchanged. */
  lemma AbsentPlaceholderKeepsUrl(url: string, entry: (string, ParamValue))
    requires !Includes(url, ":" + entry.0)
    ensures SubstituteAsWritten(url, entry) == url && Substitute(url, entry) == url
  {
  }

  /**
   * A present placeholder: only its first occurrence is replaced and the
   * text before and after it is kept. Verbatim, it is replaced by
   * `String(value)`; as written, by `String(value)` expanded as a
   * replacement template, which is `String(value)` itself when it has no `$`.
   */
  lemma FirstPlaceholderReplaced(url: string, entry: (string, ParamValue), i: nat)
    requires OccursAt(url, ":" + entry.0, i)
    requires forall j :: 0 <= j < i ==> !OccursAt(url, ":" + entry.0, j)
    ensures Substitute(url, entry) == url[..i] + Stringify(entry.1) + url[i + |":" + entry.0|..]
    ensures SubstituteAsWritten(url, entry)
         == url[..i] + Expand(Stringify(entry.1), ":" + entry.0, url[..i], url[i + |":" + entry.0|..]) + url[i + |":" + entry.0|..]
    ensures '$' !in Stringify(entry.1) ==>
      SubstituteAsWritten(url, entry) == url[..i] + Stringify(entry.1) + url[i + |":" + entry.0|..]
  {
  }

  /** Entries are applied one after another, each on the result of the previous ones. */
  lemma {:induction false} ApplyParamsSequential(path: string, a: seq<(string, ParamValue)>, b: seq<(string, ParamValue)>)
    ensures ApplyParamsAsWritten(path, a + b) == ApplyParamsAsWritten(ApplyParamsAsWritten(path, a), b)
    decreases |b|
  {
    if b == [] {
      assert a + b == a;
    } else {
      ApplyParamsSequential(path, a, b[..|b| - 1]);
      assert (a + b)[..|a + b| - 1] == a + b[..|b| - 1];
    }
  }

  /** The as-written and the verbatim substitution agree on every value without `$`. */
  lemma {:induction false} AsWrittenAgreesWithoutDollar(path: string, entries: seq<(string, ParamValue)>)
    requires forall i :: 0 <= i < |entries| ==> '$' !in Stringify(entries[i].1)
    ensures ApplyParamsAsWritten(path, entries) == ApplyParams(path, entries)
  {
    if entries != [] {
      var init, last := entries[..|entries| - 1], entries[|entries| - 1];
      AsWrittenAgreesWithoutDollar(path, init);
    }
  }

  /** A single entry is one substitution step. */
  lemma ApplySingle(path: string, e: (string, ParamValue))
    ensures ApplyParams(path, [e]) == Substitute(path, e)
    ensures ApplyParamsAsWritten(path, [e]) == SubstituteAsWritten(path, e)
  {
    var es: seq<(string, ParamValue)> := [e];
    assert es[..0] == [];
  }

  /** In `pre + pat + post`, with no `:` in `pre`, the first placeholder `pat` is the one after `pre`. */
  lemma PlaceholderAfterPrefix(pre: string, pat: string, post: string)
    requires ':' !in pre && |pat| > 0 && pat[0] == ':'
    ensures IndexOf(pre + pat + post, pat, 0) == Some(|pre|)
  {
    var s := pre + pat + post;
    assert s[|pre|..|pre| + |pat|] == pat;
    assert OccursAt(s, pat, |pre|);
  }

  /**
   * A path with exactly one leading placeholder before its first `:`: the
   * verbatim substitution puts `String(value)` in its place, the as-written
   * one the expansion of `String(value)` as a replacement template.
   */
  lemma SubstituteSingle(pre: string, key: string, post: string, v: ParamValue)
    requires ':' !in pre
    ensures ApplyParams(pre + (":" + key) + post, [(key, v)]) == pre + Stringify(v) + post
    ensures ApplyParamsAsWritten(pre + (":" + key) + post, [(key, v)])
         == pre + Expand(Stringify(v), ":" + key, pre, post) + post
  {
    var pat := ":" + key;
    var s := pre + pat + post;
    ApplySingle(s, (key, v));
    PlaceholderAfterPrefix(pre, pat, post);
    assert s[..|pre|] == pre;
    assert s[|pre| + |pat|..] == post;
  }

  const HistoryPath := "/api/stocks/:symbol/history"

  /** The history path is a prefix without `:`, the placeholder `:symbol` and a suffix. */
  lemma HistoryPathParts()
    ensures HistoryPath == "/api/stocks/" + (":" + "symbol") + "/history"
    ensures ':' !in "/api/stocks/"
  {
  }

  /** The client's history url: `{symbol}` substituted into `/api/stocks/:symbol/history`. */
  lemma HistoryUrl(symbol: string)
    ensures ApplyParams(HistoryPath, [("symbol", Text(symbol))]) == "/api/stocks/" + symbol + "/history"
  {
    HistoryPathParts();
    SubstituteSingle("/api/stocks/", "symbol", "/history", Text(symbol));
  }

  /** As written, the history url is the intended one for every symbol without `$`. */
  lemma HistoryUrlAsWritten(symbol: string)
    requires '$' !in symbol
    ensures ApplyParamsAsWritten(HistoryPath, [("symbol", Text(symbol))]) == "/api/stocks/" + symbol + "/history"
  {
    AsWrittenAgreesWithoutDollar(HistoryPath, [("symbol", Text(symbol))]);
    HistoryUrl(symbol);
  }

  /** The template `$&` expands to the matched text. */
  lemma ExpandMatched(matched: string, before: string, after: string)
    ensures Expand("$&", matched, before, after) == matched
  {
    var t := "$&";
    assert t[0] == '$' && t[1] == '&' && t[2..] == [];
    assert Expand(t[2..], matched, before, after) == [];
  }

  /** The template `$$` expands to a single `$`. */
  lemma ExpandEscapedDollar(matched: string, before: string, after: string)
    ensures Expand("$$", matched, before, after) == "$"
  {
    var t := "$$";
    assert t[0] == '$' && t[1] == '$' && t[2..] == [];
    assert Expand(t[2..], matched, before, after) == [];
  }

  /** The template `` $` `` expands to the text before the match. */
  lemma ExpandBefore(matched: string, before: string, after: string)
    ensures Expand("$`", matched, before, after) == before
  {
    var t := "$`";
    assert t[0] == '$' && t[1] == '`' && t[2..] == [];
    assert Expand(t[2..], matched, before, after) == [];
  }

  /** The template `$'` expands to the text after the match. */
  lemma ExpandAfter(matched: string, before: string, after: string)
    ensures Expand("$'", matched, before, after) == after
  {
    var t := "$'";
    assert t[0] == '$' && t[1] == '\'' && t[2..] == [];
    assert Expand(t[2..], matched, before, after) == [];
  }

  /** A `$` followed by any other character, or by nothing, stands for itself. */
  lemma ExpandLoneDollar(c: char, matched: string, before: string, after: string)
    requires c != '$' && c != '&' && c != '`' && c != '\''
    ensures Expand("$", matched, before, after) == "$"
    ensures Expand(['$', c], matched, before, after) == ['$', c]
  {
    var t := ['$', c];
    assert t[1..] == [c] && [c][1..] == [];
    assert Expand([c], matched, before, after) == [c] + Expand([c][1..], matched, before, after);
    assert "$"[1..] == [];
  }

  /** As written, the symbol `$&` puts the placeholder itself back instead of the symbol. */
  lemma DollarSymbolCounterexample()
    ensures ApplyParamsAsWritten(HistoryPath, [("symbol", Text("$&"))]) == HistoryPath
    ensures ApplyParams(HistoryPath, [("symbol", Text("$&"))]) == "/api/stocks/" + "$&" + "/history"
  {
    HistoryPathParts();
    SubstituteSingle("/api/stocks/", "symbol", "/history", Text("$&"));
    ExpandMatched(":" + "symbol", "/api/stocks/", "/history");
  }
}
