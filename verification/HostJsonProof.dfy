/** normalize_host_json erases exactly the trailing commas of a JSON text. */
module HostJsonProof {
  import opened Basics
  import opened HostJson

  /** Read outside a string, text a comes out as b whatever follows. */
  ghost predicate Maps(a: string, b: string) {
    forall rest: string :: Outside(a + rest) == b + Outside(rest)
  }

  lemma MapsConcat(a: string, b: string, c: string, d: string)
    requires Maps(a, b) && Maps(c, d)
    ensures Maps(a + c, b + d)
  {
    forall rest: string
      ensures Outside((a + c) + rest) == (b + d) + Outside(rest)
    {
      Assoc(a, c, rest);
      Assoc(b, d, Outside(rest));
      assert Outside(a + (c + rest)) == b + Outside(c + rest);
    }
  }

  predicate IsNeutral(c: char) {
    c != '\"' && c != ','
  }

  lemma {:induction false} NeutralMaps(text: string)
    requires forall k | 0 <= k < |text| :: IsNeutral(text[k])
    ensures Maps(text, text)
  {
    if text == "" {
      forall rest: string
        ensures Outside(text + rest) == text + Outside(rest)
      {
        assert text + rest == rest;
        assert text + Outside(rest) == Outside(rest);
      }
    } else {
      var head, tail := [text[0]], text[1..];
      NeutralMaps(tail);
      forall rest: string
        ensures Outside(head + rest) == head + Outside(rest)
      {
        assert (head + rest)[1..] == rest;
      }
      MapsConcat(head, head, tail, tail);
      assert head + tail == text;
    }
  }

  // ------------------------------------------------------------- string literals

  lemma {:induction false} InsidePlain(text: string, rest: string)
    requires forall k | 0 <= k < |text| :: text[k] != '\"' && text[k] != '\\'
    ensures Inside(text + rest, false) == text + Inside(rest, false)
  {
    if text == "" {
      assert text + rest == rest;
      assert text + Inside(rest, false) == Inside(rest, false);
    } else {
      assert (text + rest)[1..] == text[1..] + rest;
      InsidePlain(text[1..], rest);
      Assoc([text[0]], text[1..], Inside(rest, false));
      assert [text[0]] + text[1..] == text;
    }
  }

  lemma InsideEscape(c: char, rest: string)
    ensures Inside(['\\', c] + rest, false) == ['\\', c] + Inside(rest, false)
  {
    var s := ['\\', c] + rest;
    assert s[1..] == [c] + rest && ([c] + rest)[1..] == rest;
    Assoc(['\\'], [c], Inside(rest, false));
    assert ['\\'] + [c] == ['\\', c];
  }

  lemma InsideCharacter(x: Character, rest: string)
    requires IsCharacter(x)
    ensures Inside(CharacterText(x) + rest, false) == CharacterText(x) + Inside(rest, false)
  {
    hide Inside;
    match x
    case Unescaped(c) => InsidePlain([c], rest);
    case Escape(c) => InsideEscape(c, rest);
    case Unicode(a, b, c, d) =>
      var escape, hex := ['\\', 'u'], [a, b, c, d];
      assert CharacterText(x) == escape + hex;
      Assoc(escape, hex, rest);
      InsideEscape('u', hex + rest);
      InsidePlain(hex, rest);
      Assoc(escape, hex, Inside(rest, false));
  }

  lemma {:induction false} InsideBody(l: Literal, rest: string)
    requires IsLiteral(l)
    ensures Inside(LiteralBody(l) + rest, false) == LiteralBody(l) + Inside(rest, false)
  {
    if l == [] {
      assert "" + rest == rest;
      assert "" + Inside(rest, false) == Inside(rest, false);
    } else {
      var tail := LiteralBody(l[1..]);
      Assoc(CharacterText(l[0]), tail, rest);
      InsideCharacter(l[0], tail + rest);
      InsideBody(l[1..], rest);
      Assoc(CharacterText(l[0]), tail, Inside(rest, false));
    }
  }

  lemma LiteralMaps(l: Literal)
    requires IsLiteral(l)
    ensures Maps(LiteralText(l), LiteralText(l))
  {
    forall rest: string
      ensures Outside(LiteralText(l) + rest) == LiteralText(l) + Outside(rest)
    {
      var body := LiteralBody(l);
      var closing := "\"" + rest;
      LiteralEnds(body, rest);
      assert (closing)[1..] == rest;
      InsideBody(l, closing);
      assert Inside(closing, false) == "\"" + Outside(rest);
      LiteralEnds(body, Outside(rest));
      assert ("\"" + (body + closing))[1..] == body + closing;
    }
  }

  lemma LiteralEnds(body: string, rest: string)
    ensures ("\"" + (body + "\"")) + rest == "\"" + (body + ("\"" + rest))
  {
  }

  // -------------------------------------------------------------------- commas

  lemma {:induction false} SkipBlank(space: string, rest: string)
    requires IsBlank(space)
    ensures SkipSpace(space + rest) == SkipSpace(rest)
  {
    if space == "" {
      assert space + rest == rest;
    } else {
      assert (space + rest)[1..] == space[1..] + rest;
      SkipBlank(space[1..], rest);
    }
  }

  /** White space apart, the text begins with something other than a closer. */
  predicate Opens(text: string) {
    var t := SkipSpace(text);
    t != "" && !IsCloser(t[0])
  }

  lemma {:induction false} OpensExtends(text: string, rest: string)
    requires Opens(text)
    ensures !ClosesNext(text + rest)
  {
    if IsSpace(text[0]) {
      assert (text + rest)[1..] == text[1..] + rest;
      OpensExtends(text[1..], rest);
    }
  }

  lemma KeptComma(a: string, b: string)
    requires Maps(a, b) && Opens(a)
    ensures Maps("," + a, "," + b)
  {
    forall rest: string
      ensures Outside(("," + a) + rest) == ("," + b) + Outside(rest)
    {
      Assoc(",", a, rest);
      OpensExtends(a, rest);
      assert ("," + (a + rest))[1..] == a + rest;
      assert Outside(a + rest) == b + Outside(rest);
      Assoc(",", b, Outside(rest));
    }
  }

  lemma BlankMaps(space: string)
    requires IsBlank(space)
    ensures Maps(space, space)
  {
    NeutralMaps(space);
  }

  lemma DroppedComma(space: string, closer: char)
    requires IsBlank(space) && IsCloser(closer)
    ensures Maps("," + (space + [closer]), space + [closer])
  {
    var a := space + [closer];
    NeutralMaps(a);
    forall rest: string
      ensures Outside(("," + a) + rest) == a + Outside(rest)
    {
      Assoc(",", a, rest);
      Assoc(space, [closer], rest);
      SkipBlank(space, [closer] + rest);
      assert ("," + (a + rest))[1..] == a + rest;
      assert Outside(a + rest) == a + Outside(rest);
    }
  }

  // --------------------------------------------------------------- the theorem

  lemma NumberIsNeutral(n: Number)
    requires IsNumber(n)
    ensures NumberText(n) != "" && !IsSpace(NumberText(n)[0]) && !IsCloser(NumberText(n)[0])
    ensures forall k | 0 <= k < |NumberText(n)| :: IsNeutral(NumberText(n)[k])
  {
    var sign := if n.negative then "-" else "";
    var fraction := match n.fraction case None => "" case Some(f) => "." + f;
    var exponent := match n.exponent case None => "" case Some(e) => [e.marker] + e.sign + e.digits;
    assert NumberText(n) == sign + n.integer + fraction + exponent;
    assert forall k | 0 <= k < |fraction| :: IsNeutral(fraction[k]);
    assert forall k | 0 <= k < |exponent| :: IsNeutral(exponent[k]);
    assert IsDigit(n.integer[0]);
    assert NumberText(n)[0] == if n.negative then '-' else n.integer[0];
  }

  lemma ValueOpens(v: Value)
    requires IsValue(v)
    ensures ValueText(v) != "" && !IsSpace(ValueText(v)[0]) && !IsCloser(ValueText(v)[0])
  {
    if v.Numeric? {
      NumberIsNeutral(v.number);
    }
  }

  lemma ItemOpens(item: Item, keyed: bool)
    requires IsItem(item, keyed)
    ensures Opens(ItemText(item))
  {
    ValueOpens(item.value);
    SkipBlank(item.before, KeyText(item.key) + (ValueText(item.value) + item.after));
    var t := KeyText(item.key) + (ValueText(item.value) + item.after);
    assert t[0] == if keyed then '\"' else ValueText(item.value)[0];
  }

  lemma ItemsOpen(items: Items, keyed: bool, rest: string)
    requires AreItems(items, keyed)
    ensures Opens(ItemsText(items) + rest)
  {
    ItemOpens(items.item, keyed);
    var head := ItemText(items.item);
    var tail := match items
      case Last(_, None) => ""
      case Last(_, Some(space)) => "," + space
      case More(_, more) => "," + ItemsText(more);
    assert ItemsText(items) + rest == head + (tail + rest) by {
      assert head + "" == head;
    }
    OpensPrefix(head, tail + rest);
  }

  lemma {:induction false} OpensPrefix(text: string, rest: string)
    requires Opens(text)
    ensures Opens(text + rest)
  {
    if IsSpace(text[0]) {
      assert (text + rest)[1..] == text[1..] + rest;
      OpensPrefix(text[1..], rest);
    }
  }

  lemma {:induction false} ValueMaps(v: Value)
    requires IsValue(v)
    ensures Maps(ValueText(v), ValueText(Strip(v)))
    decreases v
  {
    hide Maps;
    match v
    case Numeric(n) =>
      NumberIsNeutral(n);
      NeutralMaps(NumberText(n));
    case Text(l) => LiteralMaps(l);
    case Array(b) =>
      BodyMaps(b, false, ']');
      NeutralMaps("[");
      MapsConcat("[", "[", BodyText(b) + "]", BodyText(StripBody(b)) + "]");
    case Object(b) =>
      BodyMaps(b, true, '}');
      NeutralMaps("{");
      MapsConcat("{", "{", BodyText(b) + "}", BodyText(StripBody(b)) + "}");
    case _ => NeutralMaps(ValueText(v));
  }

  lemma {:induction false} BodyMaps(b: Body, keyed: bool, closer: char)
    requires IsBody(b, keyed) && IsCloser(closer)
    ensures Maps(BodyText(b) + [closer], BodyText(StripBody(b)) + [closer])
    decreases b
  {
    hide Maps;
    match b
    case Blank(space) => NeutralMaps(space + [closer]);
    case Items(items) => ItemsMap(items, keyed, closer);
  }

  lemma {:induction false} ItemsMap(items: Items, keyed: bool, closer: char)
    requires AreItems(items, keyed) && IsCloser(closer)
    ensures Maps(ItemsText(items) + [closer], ItemsText(StripItems(items)) + [closer])
    decreases items
  {
    hide Maps;
    ItemMaps(items.item, keyed);
    var head, head' := ItemText(items.item), ItemText(StripItem(items.item));
    match items
    case Last(item, None) =>
      NeutralMaps([closer]);
      MapsConcat(head, head', [closer], [closer]);
    case Last(item, Some(space)) =>
      DroppedComma(space, closer);
      MapsConcat(head, head', "," + (space + [closer]), space + [closer]);
      Assoc(head, "," + space, [closer]);
      Assoc(",", space, [closer]);
      LongerAfter(StripItem(item), space);
      Assoc(head', space, [closer]);
    case More(item, rest) =>
      ItemsMap(rest, keyed, closer);
      var tail, tail' := ItemsText(rest), ItemsText(StripItems(rest));
      ItemsOpen(rest, keyed, [closer]);
      KeptComma(tail + [closer], tail' + [closer]);
      MapsConcat(head, head', "," + (tail + [closer]), "," + (tail' + [closer]));
      Assoc(head, "," + tail, [closer]);
      Assoc(",", tail, [closer]);
      Assoc(head', "," + tail', [closer]);
      Assoc(",", tail', [closer]);
  }

  lemma LongerAfter(item: Item, space: string)
    ensures ItemText(item.(after := item.after + space)) == ItemText(item) + space
  {
    var value, key := ValueText(item.value), KeyText(item.key);
    Assoc(value, item.after, space);
    Assoc(key, value + item.after, space);
    Assoc(item.before, key + (value + item.after), space);
  }

  lemma {:induction false} ItemMaps(item: Item, keyed: bool)
    requires IsItem(item, keyed)
    ensures Maps(ItemText(item), ItemText(StripItem(item)))
    decreases item
  {
    hide Maps;
    ValueMaps(item.value);
    BlankMaps(item.after);
    BlankMaps(item.before);
    KeyMaps(item.key);
    var v, v' := ValueText(item.value), ValueText(Strip(item.value));
    MapsConcat(v, v', item.after, item.after);
    MapsConcat(KeyText(item.key), KeyText(item.key), v + item.after, v' + item.after);
    MapsConcat(item.before, item.before, KeyText(item.key) + (v + item.after),
               KeyText(item.key) + (v' + item.after));
  }

  lemma KeyMaps(key: Option<Key>)
    requires key.Some? ==>
      IsLiteral(key.value.name) && IsBlank(key.value.space) && IsBlank(key.value.gap)
    ensures Maps(KeyText(key), KeyText(key))
  {
    match key
    case None => NeutralMaps("");
    case Some(k) =>
      LiteralMaps(k.name);
      var separator := k.space + ":" + k.gap;
      NeutralMaps(separator);
      MapsConcat(LiteralText(k.name), LiteralText(k.name), separator, separator);
  }

  /** For every JSON text, with any white space and any choice of trailing commas, the
      normalised text is the same text without those commas. */
  lemma NormalizeErasesTrailingCommas(before: string, v: Value, after: string)
    requires IsBlank(before) && IsValue(v) && IsBlank(after)
    ensures Outside(before + (ValueText(v) + after)) == before + (ValueText(Strip(v)) + after)
  {
    BlankMaps(before);
    ValueMaps(v);
    BlankMaps(after);
    MapsConcat(ValueText(v), ValueText(Strip(v)), after, after);
    MapsConcat(before, before, ValueText(v) + after, ValueText(Strip(v)) + after);
    var text, text' := before + (ValueText(v) + after), before + (ValueText(Strip(v)) + after);
    assert text + "" == text && text' + Outside("") == text';
    assert Outside(text + "") == text' + Outside("");
  }

  // ---------------------------------------------- what the resulting text is

  lemma {:induction false} StripIsStrict(v: Value)
    requires IsValue(v)
    ensures IsValue(Strip(v)) && IsStrict(Strip(v)) && Meaning(Strip(v)) == Meaning(v)
    decreases v
  {
    match v
    case Array(b) => StripBodyIsStrict(b, false);
    case Object(b) => StripBodyIsStrict(b, true);
    case _ =>
  }

  lemma {:induction false} StripBodyIsStrict(b: Body, keyed: bool)
    requires IsBody(b, keyed)
    ensures IsBody(StripBody(b), keyed) && IsStrictBody(StripBody(b))
    ensures BodyMeaning(StripBody(b)) == BodyMeaning(b)
    decreases b
  {
    if b.Items? {
      StripItemsAreStrict(b.items, keyed);
    }
  }

  lemma {:induction false} StripItemsAreStrict(items: Items, keyed: bool)
    requires AreItems(items, keyed)
    ensures AreItems(StripItems(items), keyed) && AreStrict(StripItems(items))
    ensures ItemsMeaning(StripItems(items)) == ItemsMeaning(items)
    decreases items
  {
    StripIsStrict(items.item.value);
    if items.More? {
      StripItemsAreStrict(items.rest, keyed);
    }
  }

  lemma {:induction false} StrictIsItsOwnStrip(v: Value)
    requires IsStrict(v)
    ensures Strip(v) == v
    decreases v
  {
    match v
    case Array(b) => if b.Items? { StrictItemsAreTheirStrip(b.items); }
    case Object(b) => if b.Items? { StrictItemsAreTheirStrip(b.items); }
    case _ =>
  }

  lemma {:induction false} StrictItemsAreTheirStrip(items: Items)
    requires AreStrict(items)
    ensures StripItems(items) == items
    decreases items
  {
    StrictIsItsOwnStrip(items.item.value);
    if items.More? {
      StrictItemsAreTheirStrip(items.rest);
    }
  }

  /** The parser receives strict JSON with the same meaning. */
  lemma NormalizeYieldsStrictJson(before: string, v: Value, after: string)
    requires IsBlank(before) && IsValue(v) && IsBlank(after)
    ensures exists strict: Value ::
      && IsValue(strict) && IsStrict(strict) && Meaning(strict) == Meaning(v)
      && Outside(before + (ValueText(v) + after)) == before + (ValueText(strict) + after)
  {
    NormalizeErasesTrailingCommas(before, v, after);
    StripIsStrict(v);
  }

  /** Strict JSON passes through unchanged. */
  lemma StrictJsonIsUnchanged(before: string, v: Value, after: string)
    requires IsBlank(before) && IsValue(v) && IsBlank(after) && IsStrict(v)
    ensures Outside(before + (ValueText(v) + after)) == before + (ValueText(v) + after)
  {
    NormalizeErasesTrailingCommas(before, v, after);
    StrictIsItsOwnStrip(v);
  }

  // ------------------------------------------------------- arbitrary input

  function WithoutCommas(s: string): string {
    if s == "" then ""
    else if s[0] == ',' then WithoutCommas(s[1..])
    else [s[0]] + WithoutCommas(s[1..])
  }

  lemma WithoutCommasHead(c: char, s: string)
    ensures WithoutCommas([c] + s) == (if c == ',' then "" else [c]) + WithoutCommas(s)
  {
    assert ([c] + s)[1..] == s;
  }

  /** On any input at all, JSON or not, nothing but commas is ever removed. */
  lemma {:induction false} OnlyCommasAreRemoved(s: string, inString: bool, escaped: bool)
    ensures WithoutCommas(From(s, inString, escaped)) == WithoutCommas(s)
    decreases |s|
  {
    if s != "" {
      if inString {
        var closes := !escaped && s[0] == '\"';
        OnlyCommasAreRemoved(s[1..], !closes, !escaped && s[0] == '\\');
        WithoutCommasHead(s[0], From(s[1..], !closes, !escaped && s[0] == '\\'));
      } else if s[0] == '\"' {
        OnlyCommasAreRemoved(s[1..], true, false);
        WithoutCommasHead('\"', Inside(s[1..], false));
      } else {
        OnlyCommasAreRemoved(s[1..], false, false);
        WithoutCommasHead(s[0], Outside(s[1..]));
      }
    }
  }
}
