/** The top-level entry count: on which bodies it is right, foreign keys and values included. */
module PhpCount {
  import opened Options
  import opened PhpText
  import opened PhpCodec
  import opened PhpWire
  import opened PhpScan

  // ---- Bodies as the scanner sees them ----

  /** A key is a string literal or an integer. */
  datatype Key = TextKey(declared: string, s: string) | NumberKey(text: string)

  /** A value is a string literal, anything that ends at its first semicolon, or anything with
      braces of its own (an array, an object, a custom serialisation). */
  datatype Content = Text(declared: string, s: string) | Opaque(text: string) | Braced(head: string, body: string)

  /** An entry with the blanks in front of its key and in front of its value. */
  datatype Field = Field(keyGap: string, key: Key, valueGap: string, content: Content)

  function RenderKey(k: Key): string {
    match k
    case TextKey(declared, s) => RenderStr(declared, s)
    case NumberKey(text) => "i:" + (text + ";")
  }

  function RenderContent(c: Content): string {
    match c
    case Text(declared, s) => RenderStr(declared, s)
    case Opaque(text) => text + ";"
    case Braced(head, body) => head + ("{" + (body + "}"))
  }

  /** An entry up to its value. */
  function RenderLead(f: Field): string {
    f.keyGap + (RenderKey(f.key) + f.valueGap)
  }

  /** A body: its entries, and the blanks behind the last one. */
  function RenderFields(fields: seq<Field>, trail: string): string {
    if fields == [] then trail
    else RenderLead(fields[0]) + (RenderContent(fields[0].content) + RenderFields(fields[1..], trail))
  }

  predicate Tagged(s: string, tags: string) {
    |s| >= 2 && s[0] in tags && s[1] == ':'
  }

  /** The skip over a key gets past it. */
  ghost predicate KeyOk(k: Key) {
    match k
    case TextKey(declared, s) => GoodLength(declared, s)
    case NumberKey(text) => ';' !in text
  }

  /** The skip over a value gets past it: a good string length, no tag that promises more than
      the text up to the semicolon, or braces the scanner finds. */
  ghost predicate ContentOk(c: Content) {
    match c
    case Text(declared, s) => GoodLength(declared, s)
    case Opaque(text) =>
      ';' !in text && !Tagged(text, "saOC") && (text != [] ==> !IsGap(text[0]) && text[0] != '}')
    case Braced(head, body) =>
      Tagged(head, "aOC") && '{' !in head && Walk(body, 1, false) == Some((1, false))
  }

  /** Blanks the counter skips, none included. */
  predicate Gaps(s: string) {
    forall i :: 0 <= i < |s| ==> IsGap(s[i])
  }

  ghost predicate FieldOk(f: Field) {
    Gaps(f.keyGap) && KeyOk(f.key) && Gaps(f.valueGap) && ContentOk(f.content)
  }

  ghost predicate FieldsOk(fields: seq<Field>) {
    forall i :: 0 <= i < |fields| ==> FieldOk(fields[i])
  }

  /** The body up to the value of its last entry. */
  function Lead(fields: seq<Field>): string {
    if fields == [] then ""
    else if |fields| == 1 then RenderLead(fields[0])
    else RenderLead(fields[0]) + (RenderContent(fields[0].content) + Lead(fields[1..]))
  }

  // ---- Skipping one entry ----

  lemma SemicolonAt(text: string, tail: string)
    requires ';' !in text
    ensures FindChar(text + (";" + tail), ';') == |text|
    ensures SkipPastSemicolon(text + (";" + tail)) == Some(tail)
  {
    FindCharBehind(text, ';', tail);
    assert (text + (";" + tail))[|text| + 1..] == tail;
  }

  lemma SkipRenderString(declared: string, s: string, tail: string)
    requires GoodLength(declared, s)
    ensures SkipString(RenderStr(declared, s) + tail) == Some(tail)
    ensures At2(RenderStr(declared, s) + tail, 's', ':')
  {
    SkipStringAgrees(RenderStr(declared, s) + tail);
    ReadGoodString(declared, s, tail);
  }

  lemma SkipOpaque(text: string, tail: string)
    requires ContentOk(Opaque(text))
    ensures SkipValue(text + (";" + tail)) == Some(tail)
  {
    hide FindBody, SkipString;
    var all := text + (";" + tail);
    SemicolonAt(text, tail);
    if At2(all, 'N', ';') {
      assert |text| == 1;
      assert all[2..] == tail;
    }
    assert |text| >= 2 ==> all[0] == text[0] && all[1] == text[1];
    assert |text| == 1 ==> all[1] == ';';
    assert |text| == 0 ==> all[0] == ';';
  }

  lemma SkipBodyAt(text: string, start: nat, end: nat, tail: string)
    requires Tagged(text, "aOC")
    requires FindBody(text) == Some((start, end)) && text[end + 1..] == tail && !At(tail, ';')
    ensures SkipValue(text) == Some(tail)
  {
    hide FindBody, SkipString, SkipPastSemicolon;
  }

  lemma SkipBraced(head: string, body: string, tail: string)
    requires ContentOk(Braced(head, body)) && !At(tail, ';')
    ensures SkipValue(head + ("{" + (body + "}")) + tail) == Some(tail)
  {
    hide FindBody, Walk, SkipValue;
    var text := head + ("{" + (body + ("}" + tail)));
    RegroupContainer(head, body, tail);
    ContainerSlices(text, head, body, tail);
    FindBodyIff(head, body, tail);
    assert text[0] == head[0] && text[1] == head[1];
    SkipBodyAt(text, |head|, |head| + |body| + 1, tail);
  }

  lemma SkipContent(c: Content, tail: string)
    requires ContentOk(c) && !At(tail, ';')
    ensures SkipValue(RenderContent(c) + tail) == Some(tail)
    ensures RenderContent(c) != [] && !IsGap(RenderContent(c)[0]) && RenderContent(c)[0] != '}'
  {
    hide SkipString, SkipPastSemicolon, FindBody, Walk;
    match c
    case Text(declared, s) => SkipRenderString(declared, s, tail);
    case Opaque(text) =>
      assert text + ";" + tail == text + (";" + tail);
      SkipOpaque(text, tail);
    case Braced(head, body) => SkipBraced(head, body, tail);
  }

  /** An integer key must end within the body; a string key may run past it. */
  lemma SkipKeyAt(k: Key, left: int, tail: string)
    requires KeyOk(k)
    ensures RenderKey(k) != [] && !IsGap(RenderKey(k)[0])
    ensures var r := SkipKey(RenderKey(k) + tail, left);
            r == Some(tail) || (r == None && left <= |RenderKey(k)|)
    ensures left > |RenderKey(k)| ==> SkipKey(RenderKey(k) + tail, left) == Some(tail)
  {
    hide SkipString;
    match k
    case TextKey(declared, s) => SkipRenderString(declared, s, tail);
    case NumberKey(text) =>
      assert "i:" + (text + ";") + tail == "i:" + text + (";" + tail);
      SemicolonAt("i:" + text, tail);
      assert ("i:" + text + (";" + tail))[0] == 'i' && ("i:" + text + (";" + tail))[1] == ':';
  }

  /** Blanks go, as far as the body reaches. */
  lemma {:induction false} SkipGapsOver(gap: string, s: string, left: int)
    requires Gaps(gap) && s != [] && !IsGap(s[0])
    ensures var t := SkipGaps(gap + s, left);
            if left > |gap| then t == s else left - (|gap + s| - |t|) <= 0
    decreases |gap|
  {
    if gap == [] {
      assert gap + s == s;
    } else {
      assert (gap + s)[1..] == gap[1..] + s;
      SkipGapsOver(gap[1..], s, left - 1);
    }
  }

  /** One entry: skipped whole when the body reaches into its value, an error otherwise. */
  lemma SkipEntryAt(s: string, left: int, gap: string, mid: string, after: string)
    requires |after| < |mid| && |gap + mid| < |s| && Gaps(gap) && mid != [] && !IsGap(mid[0])
    requires SkipValue(mid) == Some(after)
    requires SkipKey(s, left) == Some(gap + mid) || (SkipKey(s, left) == None && left <= |s| - |gap + mid|)
    ensures SkipEntry(s, left) == if left > |s| - |mid| then Some((after, left - (|s| - |after|))) else None
  {
    hide SkipValue, SkipKey, SkipGaps;
    SkipGapsOver(gap, mid, left - (|s| - |gap + mid|));
  }

  /** One turn of the count. */
  lemma CountTurn(gap: string, s: string, left: int, count: nat, mid: string, after: string)
    requires Gaps(gap) && s != [] && !IsGap(s[0]) && |after| < |mid| < |s|
    requires var inside := left - |gap|;
             SkipEntry(s, inside) == if inside > |s| - |mid| then Some((after, inside - (|s| - |after|))) else None
    ensures var inside := left - |gap|;
            CountFrom(gap + s, left, count) ==
              if inside <= 0 then Some(count)
              else if inside <= |s| - |mid| then None
              else CountFrom(after, inside - (|s| - |after|), count + 1)
  {
    hide SkipEntry, SkipGaps;
    SkipGapsOver(gap, s, left);
  }

  // ---- The count ----

  /** The entries up to the closing brace, and what follows. */
  function Remaining(fields: seq<Field>, trail: string, tail: string): string {
    RenderFields(fields, trail) + ("}" + tail)
  }

  lemma FirstFieldText(fields: seq<Field>, trail: string, tail: string)
    returns (s: string, mid: string, after: string)
    requires fields != []
    ensures after == Remaining(fields[1..], trail, tail) && mid == RenderContent(fields[0].content) + after
    ensures s == RenderKey(fields[0].key) + (fields[0].valueGap + mid)
    ensures Remaining(fields, trail, tail) == fields[0].keyGap + s
  {
    hide RenderKey, RenderContent;
    var f := fields[0];
    after := Remaining(fields[1..], trail, tail);
    mid := RenderContent(f.content) + after;
    s := RenderKey(f.key) + (f.valueGap + mid);
    Regroup(RenderLead(f), RenderContent(f.content), RenderFields(fields[1..], trail), "}" + tail);
    assert RenderLead(f) + mid == f.keyGap + s;
  }

  lemma StartsWithKey(k: Key, tail: string)
    ensures var s := RenderKey(k) + tail;
            s != [] && !IsGap(s[0]) && s[0] != ';' && s[0] != '}'
  {
    match k
    case TextKey(declared, s) => assert (RenderStr(declared, s) + tail)[0] == 's';
    case NumberKey(text) => assert ("i:" + (text + ";") + tail)[0] == 'i';
  }

  /** Nothing the skip over a value would take for its end stands in front of an entry. */
  lemma StartsWithout(fields: seq<Field>, trail: string, tail: string)
    requires FieldsOk(fields) && Gaps(trail)
    ensures !At(Remaining(fields, trail, tail), ';')
  {
    hide KeyOk, ContentOk, RenderKey, RenderContent;
    if fields == [] {
      assert Remaining(fields, trail, tail)[0] == if trail == [] then '}' else trail[0];
    } else {
      var s, mid, after := FirstFieldText(fields, trail, tail);
      var gap := fields[0].keyGap;
      StartsWithKey(fields[0].key, fields[0].valueGap + mid);
      assert FieldOk(fields[0]);
      assert (gap + s)[0] == if gap == [] then s[0] else gap[0];
    }
  }

  lemma CountTurnFields(fields: seq<Field>, trail: string, tail: string, left: int, count: nat)
    requires fields != [] && FieldsOk(fields) && Gaps(trail)
    ensures var gap, lead := |fields[0].keyGap|, |RenderLead(fields[0])|;
            var one := lead + |RenderContent(fields[0].content)|;
            CountFrom(Remaining(fields, trail, tail), left, count) ==
              if left <= gap then Some(count)
              else if left <= lead then None
              else CountFrom(Remaining(fields[1..], trail, tail), left - one, count + 1)
  {
    hide SkipEntry, SkipValue, SkipKey, SkipGaps, KeyOk, ContentOk, CountFrom, Remaining, RenderKey, RenderContent,
        Gaps;
    var f := fields[0];
    assert FieldOk(f) && FieldsOk(fields[1..]);
    var s, mid, after := FirstFieldText(fields, trail, tail);
    var gap, inside := f.valueGap, left - |f.keyGap|;
    StartsWithKey(f.key, gap + mid);
    StartsWithout(fields[1..], trail, tail);
    SkipContent(f.content, after);
    SkipKeyAt(f.key, inside, gap + mid);
    SkipEntryAt(s, inside, gap, mid, after);
    CountTurn(f.keyGap, s, left, count, mid, after);
  }

  lemma CountNothing(fields: seq<Field>, trail: string, tail: string, left: int, count: nat)
    requires fields == [] && Gaps(trail)
    ensures CountFrom(Remaining(fields, trail, tail), left, count) == if left <= |trail| then Some(count) else None
    ensures |RenderFields(fields, trail)| == |trail|
  {
    hide SkipGaps;
    SkipGapsOver(trail, "}" + tail, left);
  }

  /** Counting is right exactly when the body is taken to end behind the start of its last value
      and not behind its real end. */
  lemma {:induction false} CountFieldsIff(fields: seq<Field>, trail: string, tail: string, left: int, count: nat)
    requires FieldsOk(fields) && Gaps(trail)
    ensures CountFrom(Remaining(fields, trail, tail), left, count) == Some(count + |fields|) <==>
            left <= |RenderFields(fields, trail)| && (fields != [] ==> |Lead(fields)| < left)
    decreases |fields|
  {
    hide *;
    if fields == [] {
      CountNothing(fields, trail, tail, left, count);
    } else {
      var rest, next := fields[1..], count + 1;
      var less := left - (|RenderLead(fields[0])| + |RenderContent(fields[0].content)|);
      RestOk(fields);
      FieldLengths(fields, trail);
      CountTurnFields(fields, trail, tail, left, count);
      CountFieldsIff(rest, trail, tail, less, next);
    }
  }

  lemma RestOk(fields: seq<Field>)
    requires fields != [] && FieldsOk(fields)
    ensures FieldsOk(fields[1..])
  {
  }

  lemma FieldLengths(fields: seq<Field>, trail: string)
    requires fields != []
    ensures var k, v := |RenderLead(fields[0])|, |RenderContent(fields[0].content)|;
            && |fields[0].keyGap| <= k
            && |RenderFields(fields, trail)| == k + v + |RenderFields(fields[1..], trail)|
            && |Lead(fields)| == k + if fields[1..] == [] then 0 else v + |Lead(fields[1..])|
  {
  }

  /** The lead is the beginning of the body, and a value follows it. */
  lemma {:induction false} LeadStarts(fields: seq<Field>, trail: string)
    requires fields != [] && FieldsOk(fields)
    ensures var body := RenderFields(fields, trail);
            |Lead(fields)| < |body| && Lead(fields) == body[..|Lead(fields)|] && body[|Lead(fields)|] != '}'
    decreases fields
  {
    hide KeyOk, ContentOk, Walk;
    var f, rest := fields[0], fields[1..];
    assert FieldOk(f);
    SkipContent(f.content, "");
    if rest == [] {
      LeadOfOne(f, fields, trail);
    } else {
      LeadStarts(rest, trail);
      LeadOfMore(fields, rest, trail);
    }
  }

  lemma LeadOfOne(f: Field, fields: seq<Field>, trail: string)
    requires fields == [f] && RenderContent(f.content) != []
    ensures Lead(fields) == RenderLead(f)
    ensures RenderFields(fields, trail) == RenderLead(f) + (RenderContent(f.content) + trail)
  {
    hide RenderKey, RenderContent;
  }

  lemma LeadOfMore(fields: seq<Field>, rest: seq<Field>, trail: string)
    requires |fields| > 1 && rest == fields[1..]
    requires var body := RenderFields(rest, trail);
             |Lead(rest)| < |body| && Lead(rest) == body[..|Lead(rest)|]
    ensures var body, behind := RenderFields(fields, trail), RenderFields(rest, trail);
            && |Lead(fields)| < |body| && Lead(fields) == body[..|Lead(fields)|]
            && body[|Lead(fields)|] == behind[|Lead(rest)|]
  {
    hide RenderLead, RenderContent;
    var one := RenderLead(fields[0]) + RenderContent(fields[0].content);
    assert RenderFields(fields, trail) == one + RenderFields(rest, trail);
    assert Lead(fields) == one + Lead(rest);
  }

  /** A scan that gets through a text ends behind it, if what follows does not close at once. */
  lemma EndsBehind(s: string, rest: string)
    requires rest != [] && rest[0] != '}'
    ensures var r := ScanBody(s + rest, 1, false);
            r.Some? ==> (|s| < r.value <==> Walk(s, 1, false).Some?)
  {
    hide Walk, ScanBody;
    if Walk(s, 1, false).None? {
      ScanInside(s, rest, 1, false);
    } else {
      var w := Walk(s, 1, false).value;
      ScanAfterWalk(s, rest, 1, false);
      NotAtOnce(rest, w.0, w.1);
    }
  }

  lemma NotAtOnce(rest: string, depth: int, inString: bool)
    requires rest != [] && rest[0] != '}'
    ensures ScanBody(rest, depth, inString) != Some(0)
  {
  }

  /** The text of a session: a header, the entries between braces, and what follows. */
  function Whole(header: string, body: string, tail: string): string {
    header + ("{" + (body + ("}" + tail)))
  }

  lemma CountKeysOf(header: string, inner: string)
    requires '{' !in header
    ensures CountKeys(header + ("{" + inner)) ==
              var r := ScanBody(inner, 1, false);
              if r.None? then None else CountFrom(inner, r.value, 0)
  {
    hide FindBody, ScanBody, CountFrom;
    FindBodyIs(header, inner);
    assert (header + ("{" + inner))[|header| + 1..] == inner;
  }

  /** The number of entries is counted right, foreign keys and values and blanks included, if
      and only if the walk over the body reaches the last value and is not past the body's end:
      it ends level, or inside the last value or the blanks behind it. */
  lemma {:induction false} CountExactIff(header: string, fields: seq<Field>, trail: string, tail: string)
    requires '{' !in header && FieldsOk(fields) && Gaps(trail)
    ensures CountKeys(Whole(header, RenderFields(fields, trail), tail)) == Some(|fields|) <==>
              var end := Walk(RenderFields(fields, trail), 1, false);
              (end.None? || end == Some((1, false))) && Walk(Lead(fields), 1, false).Some?
  {
    hide CountKeys, CountFrom, ScanBody, Walk, Lead, FieldsOk, RenderFields, Gaps;
    var body := RenderFields(fields, trail);
    CountKeysOf(header, body + ("}" + tail));
    ScanEnds(body, tail);
    var r := ScanBody(body + ("}" + tail), 1, false);
    if r.Some? {
      assert Remaining(fields, trail, tail) == body + ("}" + tail);
      CountFieldsIff(fields, trail, tail, r.value, 0);
      if fields == [] {
        WalkNothing(fields, trail);
      } else {
        LeadStarts(fields, trail);
        var cut := |Lead(fields)|;
        var rest := body[cut..] + ("}" + tail);
        assert body + ("}" + tail) == Lead(fields) + rest;
        EndsBehind(Lead(fields), rest);
      }
    }
  }

  lemma WalkNothing(fields: seq<Field>, trail: string)
    requires fields == [] && Gaps(trail)
    ensures Walk(Lead(fields), 1, false) == Walk(RenderFields(fields, trail), 1, false) == Some((1, false))
  {
    hide Walk;
    WalkCalm(trail, 1);
    WalkCalm("", 1);
  }

  // ---- The same on wires ----

  ghost function ContentOf(w: Wire): Content {
    match w
    case WStr(declared, s) => Text(declared, s)
    case WInt(text) => Opaque("i:" + text)
    case WBool(text) => Opaque("b:" + text)
    case WNull => Opaque("N")
    case _ => Braced(Header(w), RenderItems(w.items))
  }

  ghost function FieldsOf(items: seq<Item>): (fields: seq<Field>)
    ensures |fields| == |items|
  {
    if items == [] then []
    else [Field("", TextKey(items[0].declared, items[0].key), "", ContentOf(items[0].value))] + FieldsOf(items[1..])
  }

  lemma ContentRenders(w: Wire)
    ensures RenderContent(ContentOf(w)) == Render(w)
  {
    match w
    case WInt(text) => assert "i:" + text + ";" == "i:" + (text + ";");
    case WBool(text) => assert "b:" + text + ";" == "b:" + (text + ";");
    case WStr(_, _) =>
    case WNull =>
    case _ => RenderSplit(w);
  }

  lemma {:induction false} FieldsRender(items: seq<Item>)
    ensures RenderFields(FieldsOf(items), "") == RenderItems(items)
  {
    if items != [] {
      ContentRenders(items[0].value);
      FieldsRender(items[1..]);
      assert FieldsOf(items)[1..] == FieldsOf(items[1..]);
    }
  }

  lemma HeaderTag(w: Wire)
    requires w.WArr? || w.WObj?
    ensures Tagged(Header(w), "aO") && Tagged(Header(w), "aOC")
  {
  }

  lemma WireContentOk(w: Wire)
    requires Readable(w) && Clear(w)
    ensures ContentOk(ContentOf(w))
  {
    hide Walk, RenderItems, Header;
    if w.WArr? || w.WObj? {
      HeaderTag(w);
    } else {
      match w
      case WInt(text) => assert ("i:" + text)[0] == 'i' && ';' !in "i:" + text;
      case WBool(text) => assert ("b:" + text)[0] == 'b' && ';' !in "b:" + text;
      case _ =>
    }
  }

  lemma {:induction false} WireFieldsOk(items: seq<Item>)
    requires ReadableItems(items) && ClearItems(items)
    ensures FieldsOk(FieldsOf(items))
  {
    hide ContentOk, Clear, Readable, ContentOf;
    if items != [] {
      WireContentOk(items[0].value);
      WireFieldsOk(items[1..]);
      assert FieldsOf(items)[1..] == FieldsOf(items[1..]);
    }
  }

  /** The scanner's skip lands where the reader lands, provided no stray semicolon follows
      a container. */
  lemma {:induction false} SkipRender(w: Wire, tail: string)
    requires Readable(w) && Clear(w) && !At(tail, ';')
    ensures SkipValue(Render(w) + tail) == Some(tail)
  {
    hide SkipValue, ContentOk, Clear, Readable;
    WireContentOk(w);
    ContentRenders(w);
    SkipContent(ContentOf(w), tail);
  }

  /** The count of a readable container whose entries the scanner can follow is right exactly
      when the walk over its entries ends level or inside the last value. */
  lemma {:induction false} CountWireIff(w: Wire, tail: string)
    requires (w.WArr? || w.WObj?) && Readable(w) && '{' !in Header(w) && ClearItems(w.items)
    ensures CountKeys(Render(w) + tail) == Some(|w.items|) <==>
              var end := Walk(RenderItems(w.items), 1, false);
              (end.None? || end == Some((1, false))) && Walk(Lead(FieldsOf(w.items)), 1, false).Some?
  {
    hide CountKeys, Walk, Lead, FieldsOk, RenderFields, RenderItems, Header, Render;
    var header, body := ContainerText(w, tail);
    FieldsRender(w.items);
    WireFieldsOk(w.items);
    CountExactIff(header, FieldsOf(w.items), "", tail);
  }

  /** In particular the scanner's count is the number of entries written, whatever the header
      claims and whatever quotes the payloads hold, when it finds the right braces. */
  lemma {:induction false} CountExact(w: Wire, tail: string)
    requires (w.WArr? || w.WObj?) && Readable(w) && Clear(w)
    ensures CountKeys(Render(w) + tail) == Some(|w.items|)
  {
    hide CountKeys, Lead, RenderItems, Header, Render, ClearItems;
    CountWireIff(w, tail);
    FieldsRender(w.items);
    WireFieldsOk(w.items);
    LeadLevel(FieldsOf(w.items), "");
  }

  /** A walk that gets through the body gets through its beginning. */
  lemma LeadLevel(fields: seq<Field>, trail: string)
    requires FieldsOk(fields) && Gaps(trail) && Walk(RenderFields(fields, trail), 1, false).Some?
    ensures Walk(Lead(fields), 1, false).Some?
  {
    hide Walk, Lead, RenderFields, FieldsOk;
    if fields == [] {
      WalkNothing(fields, trail);
    } else {
      LeadStarts(fields, trail);
      var body, cut := RenderFields(fields, trail), |Lead(fields)|;
      assert body == Lead(fields) + body[cut..];
      WalkBeginning(Lead(fields), body[cut..], 1, false);
    }
  }

  lemma {:induction false} WalkBeginning(s: string, t: string, depth: int, inString: bool)
    requires Walk(s + t, depth, inString).Some?
    ensures Walk(s, depth, inString).Some?
    decreases |s|
  {
    if s != [] {
      assert (s + t)[1..] == s[1..] + t && (s + t)[0] == s[0];
      var c := s[0];
      var depth' := if inString then depth else if c == '{' then depth + 1 else if c == '}' then depth - 1 else depth;
      WalkBeginning(s[1..], t, depth', if c == '"' then !inString else inString);
    }
  }

  // ---- Canonical prints ----

  ghost predicate QuoteFree(v: Value) {
    match v
    case Str(s) => NoQuote(s)
    case Arr(es) => forall i :: 0 <= i < |es| ==> NoQuote(es[i].key) && QuoteFree(es[i].value)
    case _ => true
  }

  lemma {:induction false} CanonPlain(v: Value)
    requires QuoteFree(v)
    ensures Plain(Canon(v))
    decreases v, 0
  {
    match v
    case Int(n) =>
      if n < 0 {
        DigitsCalm(Dec(-n));
      } else {
        DigitsCalm(Dec(n));
      }
    case Arr(es) => CanonItemsPlain(es);
    case _ =>
  }

  lemma {:induction false} CanonItemsPlain(es: seq<Entry>)
    requires forall i :: 0 <= i < |es| ==> NoQuote(es[i].key) && QuoteFree(es[i].value)
    ensures PlainItems(CanonItems(es))
    decreases es
  {
    if es != [] {
      CanonPlain(es[0].value);
      CanonItemsPlain(es[1..]);
      assert CanonItems(es)[1..] == CanonItems(es[1..]);
    }
  }

  /** On a canonical print whose strings hold no quote, the scanner agrees with the reader:
      it finds the outer braces and counts the entries. */
  lemma {:induction false} ScannerAgrees(es: seq<Entry>, tail: string)
    requires WellFormedEntries(es) && QuoteFree(Arr(es))
    ensures CountKeys(Print(Arr(es)) + tail) == Some(|es|)
    ensures FindBody(Print(Arr(es)) + tail) == Some((|"a:" + (Dec(|es|) + ":")|, |Print(Arr(es))| - 1))
  {
    hide FindBody, CountKeys, Render, Walk;
    CanonRenders(Arr(es));
    CanonReadable(Arr(es));
    CanonPlain(Arr(es));
    PlainClear(Canon(Arr(es)));
    CountExact(Canon(Arr(es)), tail);
    FindBodyExact(Canon(Arr(es)), tail);
  }
}
