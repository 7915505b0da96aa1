/** normalize_host_json: removing the trailing commas of the cabinet's JSON-like
    configuration before the JSON parser sees it. */
module HostJson {
  import opened Basics

  /** std::isspace in the C locale. */
  predicate IsSpace(c: char) {
    c == ' ' || c == '\t' || c == '\n' || c == '\r' || c == (11 as char) || c == (12 as char)
  }

  predicate IsCloser(c: char) {
    c == '}' || c == ']'
  }

  function SkipSpace(s: string): (r: string)
    ensures r != "" ==> !IsSpace(r[0])
  {
    if s != "" && IsSpace(s[0]) then SkipSpace(s[1..]) else s
  }

  /** The text continues, after white space, with a closing bracket. */
  predicate ClosesNext(s: string) {
    var t := SkipSpace(s);
    t != "" && IsCloser(t[0])
  }

  /** Only blanks, tabs, new lines, carriage returns, vertical tabs and form feeds lie between here
      and a closing brace or bracket. */
  predicate IsWhite(c: char) {
    c as int == 32 || 9 <= c as int <= 13
  }

  lemma {:induction false} ClosesNextIff(s: string)
    ensures ClosesNext(s) <==>
            exists n :: 0 <= n < |s| && (s[n] == '}' || s[n] == ']') && forall k | 0 <= k < n :: IsWhite(s[k])
  {
    if s != "" && IsSpace(s[0]) {
      ClosesNextIff(s[1..]);
      forall n | 0 <= n < |s| && (s[n] == '}' || s[n] == ']') && forall k | 0 <= k < n :: IsWhite(s[k])
        ensures ClosesNext(s[1..])
      {
        assert s[1..][n - 1] == s[n];
        assert forall k | 0 <= k < n - 1 :: s[1..][k] == s[k + 1];
      }
      if ClosesNext(s[1..]) {
        var n :| 0 <= n < |s[1..]| && (s[1..][n] == '}' || s[1..][n] == ']') &&
          forall k | 0 <= k < n :: IsWhite(s[1..][k]);
        assert s[n + 1] == s[1..][n];
        assert forall k | 0 < k < n + 1 :: s[k] == s[1..][k - 1];
      }
    } else if s != "" && IsCloser(s[0]) {
      assert 0 <= 0 < |s|;
    }
  }

  /** The normalised form of a text read outside string literals. */
  function Outside(s: string): string {
    if s == "" then ""
    else if s[0] == '\"' then "\"" + Inside(s[1..], false)
    else if s[0] == ',' && ClosesNext(s[1..]) then Outside(s[1..])
    else [s[0]] + Outside(s[1..])
  }

  /** ... and inside one; escaped tells whether a backslash precedes. */
  function Inside(s: string, escaped: bool): string {
    if s == "" then ""
    else if !escaped && s[0] == '\"' then "\"" + Outside(s[1..])
    else [s[0]] + Inside(s[1..], !escaped && s[0] == '\\')
  }

  function From(s: string, inString: bool, escaped: bool): string {
    if inString then Inside(s, escaped) else Outside(s)
  }

  /** One character of the scan. */
  lemma FromStep(s: string, inString: bool, escaped: bool)
    requires s != ""
    ensures inString && escaped ==> From(s, inString, escaped) == [s[0]] + From(s[1..], true, false)
    ensures inString && !escaped && s[0] == '\\' ==>
      From(s, inString, escaped) == [s[0]] + From(s[1..], true, true)
    ensures inString && !escaped && s[0] == '\"' ==>
      From(s, inString, escaped) == [s[0]] + From(s[1..], false, false)
    ensures inString && !escaped && s[0] != '\"' && s[0] != '\\' ==>
      From(s, inString, escaped) == [s[0]] + From(s[1..], true, false)
    ensures !inString && s[0] == '\"' ==> From(s, inString, escaped) == [s[0]] + From(s[1..], true, false)
    ensures !inString && s[0] == ',' && ClosesNext(s[1..]) ==>
      From(s, inString, escaped) == From(s[1..], false, false)
    ensures !inString && s[0] != '\"' && !(s[0] == ',' && ClosesNext(s[1..])) ==>
      From(s, inString, escaped) == [s[0]] + From(s[1..], false, false)
  {
  }

  /** The look-ahead loop behind a comma. */
  method LookAhead(input: string, index: nat) returns (closes: bool)
    requires index <= |input|
    ensures closes == ClosesNext(input[index..])
  {
    var next := index;
    while next < |input| && IsSpace(input[next])
      invariant index <= next <= |input|
      invariant SkipSpace(input[next..]) == SkipSpace(input[index..])
    {
      assert input[next..][1..] == input[next + 1..];
      next := next + 1;
    }
    assert SkipSpace(input[next..]) == input[next..];
    return next < |input| && IsCloser(input[next]);
  }

  /** The scan with its two flags. */
  method NormalizeHostJson(input: string) returns (output: string)
    ensures output == Outside(input)
  {
    output := "";
    var inString, escaped := false, false;
    var index := 0;
    assert input[0..] == input;
    while index < |input|
      invariant 0 <= index <= |input|
      invariant output + From(input[index..], inString, escaped) == Outside(input)
      invariant !inString ==> !escaped
    {
      hide From, Outside, ClosesNext;
      var value := input[index];
      ghost var rest := input[index + 1..];
      assert input[index..][1..] == rest;
      FromStep(input[index..], inString, escaped);
      Assoc(output, [value], From(rest, true, true));
      Assoc(output, [value], From(rest, true, false));
      Assoc(output, [value], From(rest, false, false));
      index := index + 1;
      if inString {
        output := output + [value];
        if escaped {
          escaped := false;
        } else if value == '\\' {
          escaped := true;
        } else if value == '\"' {
          inString := false;
        }
        continue;
      }
      if value == '\"' {
        inString := true;
        output := output + [value];
        continue;
      }
      if value == ',' {
        var closes := LookAhead(input, index);
        if closes {
          continue;
        }
      }
      output := output + [value];
    }
    assert input[|input|..] == "";
    assert output + "" == output;
  }

  // ------------------------------------------------- JSON texts (RFC 8259)

  /** RFC 8259 section 2: insignificant white space. */
  predicate IsBlank(s: string) {
    forall k | 0 <= k < |s| :: s[k] == ' ' || s[k] == '\t' || s[k] == '\n' || s[k] == '\r'
  }

  predicate IsDigit(c: char) {
    '0' <= c <= '9'
  }

  predicate AreDigits(s: string) {
    s != "" && forall k | 0 <= k < |s| :: IsDigit(s[k])
  }

  predicate IsHex(c: char) {
    IsDigit(c) || 'a' <= c <= 'f' || 'A' <= c <= 'F'
  }

  /** Section 7: one character of a string literal. */
  datatype Character =
    | Unescaped(c: char)
    | Escape(c: char)
    | Unicode(a: char, b: char, c: char, d: char)

  predicate IsCharacter(x: Character) {
    match x
    case Unescaped(c) => ' ' <= c && c != '\"' && c != '\\'
    case Escape(c) => c in "\"\\/bfnrt"
    case Unicode(a, b, c, d) => IsHex(a) && IsHex(b) && IsHex(c) && IsHex(d)
  }

  function CharacterText(x: Character): string {
    match x
    case Unescaped(c) => [c]
    case Escape(c) => ['\\', c]
    case Unicode(a, b, c, d) => ['\\', 'u', a, b, c, d]
  }

  type Literal = seq<Character>

  predicate IsLiteral(l: Literal) {
    forall k | 0 <= k < |l| :: IsCharacter(l[k])
  }

  function LiteralBody(l: Literal): string {
    if l == [] then "" else CharacterText(l[0]) + LiteralBody(l[1..])
  }

  function LiteralText(l: Literal): string {
    "\"" + (LiteralBody(l) + "\"")
  }

  /** Section 6: [minus] int [frac] [exp]. */
  datatype Exponent = Exponent(marker: char, sign: string, digits: string)
  datatype Number = Number(negative: bool, integer: string, fraction: Option<string>, exponent: Option<Exponent>)

  predicate IsNumber(n: Number) {
    && AreDigits(n.integer) && (n.integer[0] == '0' ==> |n.integer| == 1)
    && (n.fraction.Some? ==> AreDigits(n.fraction.value))
    && (n.exponent.Some? ==>
      && (n.exponent.value.marker == 'e' || n.exponent.value.marker == 'E')
      && (n.exponent.value.sign == "" || n.exponent.value.sign == "+" || n.exponent.value.sign == "-")
      && AreDigits(n.exponent.value.digits))
  }

  function NumberText(n: Number): string {
    (if n.negative then "-" else "") + n.integer
    + (match n.fraction case None => "" case Some(f) => "." + f)
    + (match n.exponent case None => "" case Some(e) => [e.marker] + e.sign + e.digits)
  }

  /** Concrete syntax trees: values with all their white space.  A non-empty body may
      carry a trailing comma and the white space after it. */
  datatype Value =
    | True | False | Null
    | Numeric(number: Number)
    | Text(literal: Literal)
    | Array(elements: Body)
    | Object(members: Body)
  datatype Body = Blank(space: string) | Items(items: Items)
  datatype Items =
    | Last(item: Item, trailing: Option<string>)
    | More(item: Item, rest: Items)
  /** One element, or one member when it has a key: the space between key and colon
      belongs to the key. */
  datatype Item = Item(before: string, key: Option<Key>, value: Value, after: string)
  datatype Key = Key(name: Literal, space: string, gap: string)

  function ValueText(v: Value): string {
    match v
    case True => "true"
    case False => "false"
    case Null => "null"
    case Numeric(n) => NumberText(n)
    case Text(l) => LiteralText(l)
    case Array(b) => "[" + (BodyText(b) + "]")
    case Object(b) => "{" + (BodyText(b) + "}")
  }

  function BodyText(b: Body): string {
    match b
    case Blank(space) => space
    case Items(items) => ItemsText(items)
  }

  function ItemsText(items: Items): string {
    match items
    case Last(item, None) => ItemText(item)
    case Last(item, Some(space)) => ItemText(item) + ("," + space)
    case More(item, rest) => ItemText(item) + ("," + ItemsText(rest))
  }

  function KeyText(key: Option<Key>): string {
    match key
    case None => ""
    case Some(k) => LiteralText(k.name) + (k.space + ":" + k.gap)
  }

  function ItemText(item: Item): string {
    item.before + (KeyText(item.key) + (ValueText(item.value) + item.after))
  }

  /** RFC 8259 sections 2 to 7, plus the optional trailing commas. */
  predicate IsValue(v: Value) {
    match v
    case Numeric(n) => IsNumber(n)
    case Text(l) => IsLiteral(l)
    case Array(b) => IsBody(b, false)
    case Object(b) => IsBody(b, true)
    case _ => true
  }

  predicate IsBody(b: Body, keyed: bool) {
    match b
    case Blank(space) => IsBlank(space)
    case Items(items) => AreItems(items, keyed)
  }

  predicate AreItems(items: Items, keyed: bool) {
    match items
    case Last(item, trailing) => IsItem(item, keyed) && (trailing.Some? ==> IsBlank(trailing.value))
    case More(item, rest) => IsItem(item, keyed) && AreItems(rest, keyed)
  }

  predicate IsItem(item: Item, keyed: bool) {
    && IsBlank(item.before) && IsBlank(item.after)
    && item.key.Some? == keyed
    && (keyed ==>
      IsLiteral(item.key.value.name) && IsBlank(item.key.value.space) && IsBlank(item.key.value.gap))
    && IsValue(item.value)
  }

  /** The same tree without its trailing commas; the space after one stays. */
  function Strip(v: Value): Value {
    match v
    case Array(b) => Array(StripBody(b))
    case Object(b) => Object(StripBody(b))
    case _ => v
  }

  function StripBody(b: Body): Body {
    match b
    case Blank(_) => b
    case Items(items) => Items(StripItems(items))
  }

  function StripItems(items: Items): Items {
    match items
    case Last(item, None) => Last(StripItem(item), None)
    case Last(item, Some(space)) =>
      var stripped := StripItem(item);
      Last(stripped.(after := stripped.after + space), None)
    case More(item, rest) => More(StripItem(item), StripItems(rest))
  }

  function StripItem(item: Item): Item {
    item.(value := Strip(item.value))
  }

  /** Strict JSON: no trailing comma anywhere. */
  predicate IsStrict(v: Value) {
    match v
    case Array(b) => IsStrictBody(b)
    case Object(b) => IsStrictBody(b)
    case _ => true
  }

  predicate IsStrictBody(b: Body) {
    b.Items? ==> AreStrict(b.items)
  }

  predicate AreStrict(items: Items) {
    match items
    case Last(item, trailing) => IsStrict(item.value) && trailing.None?
    case More(item, rest) => IsStrict(item.value) && AreStrict(rest)
  }

  /** What a JSON text denotes: the tree without white space. */
  datatype Json =
    | JTrue | JFalse | JNull | JNumber(number: Number) | JText(literal: Literal)
    | JArray(elements: JItems) | JObject(members: JItems)
  datatype JItems = JEnd | JItem(key: Option<Literal>, value: Json, rest: JItems)

  function Meaning(v: Value): Json {
    match v
    case True => JTrue
    case False => JFalse
    case Null => JNull
    case Numeric(n) => JNumber(n)
    case Text(l) => JText(l)
    case Array(b) => JArray(BodyMeaning(b))
    case Object(b) => JObject(BodyMeaning(b))
  }

  function BodyMeaning(b: Body): JItems {
    match b
    case Blank(_) => JEnd
    case Items(items) => ItemsMeaning(items)
  }

  function ItemsMeaning(items: Items): JItems {
    match items
    case Last(item, _) => JItem(KeyMeaning(item.key), Meaning(item.value), JEnd)
    case More(item, rest) => JItem(KeyMeaning(item.key), Meaning(item.value), ItemsMeaning(rest))
  }

  function KeyMeaning(key: Option<Key>): Option<Literal> {
    match key
    case None => None
    case Some(k) => Some(k.name)
  }
}
