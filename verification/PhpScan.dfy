/** The brace and string scanner that counts entries without parsing values, and its
    agreement with the reader. */
module PhpScan {
  import opened Options
  import opened PhpText
  import opened PhpCodec
  import opened PhpWire

  // ---- Outer braces ----

  /** Offset of the brace that brings depth back to 0, from the state (depth, inString). */
  function ScanBody(s: string, depth: int, inString: bool): (r: Option<nat>)
    ensures r.Some? ==> r.value < |s|
    decreases |s|
  {
    if s == [] then None
    else
      var c := s[0];
      if !inString && c == '}' && depth - 1 == 0 then Some(0)
      else
        var depth' := if inString then depth else if c == '{' then depth + 1 else if c == '}' then depth - 1 else depth;
        var r := ScanBody(s[1..], depth', if c == '"' then !inString else inString);
        if r.None? then None else Some(r.value + 1)
  }

  /** Indexes of the first opening brace and of the brace that closes it. */
  function FindBody(data: string): (r: Option<(nat, nat)>)
    ensures r.Some? ==> r.value.0 <= r.value.1 < |data|
  {
    var start := FindChar(data, '{');
    if start < 0 then None
    else
      var r := ScanBody(data[start..], 0, false);
      if r.None? then None else Some((start, start + r.value))
  }

  function Shift(r: Option<nat>, n: nat): Option<nat> {
    if r.None? then None else Some(r.value + n)
  }

  /** The scan as the source runs it, one index at a time. */
  method FindBodyLoop(data: string) returns (r: Option<(nat, nat)>)
    ensures r == FindBody(data)
  {
    hide FindChar;
    var start := FindChar(data, '{');
    if start < 0 {
      return None;
    }
    var depth, inString := 0, false;
    ghost var whole := ScanBody(data[start..], 0, false);
    for index := start to |data|
      invariant whole == Shift(ScanBody(data[index..], depth, inString), index - start)
    {
      var c := data[index];
      assert data[index..][1..] == data[index + 1..];
      if inString {
        if c == '"' {
          inString := false;
        }
        continue;
      }
      if c == '"' {
        inString := true;
      } else if c == '{' {
        depth := depth + 1;
      } else if c == '}' {
        depth := depth - 1;
        if depth == 0 {
          return Some((start, index));
        }
      }
    }
    return None;
  }

  // ---- Skipping ----

  /** Rest of the input behind a string literal. */
  function SkipString(s: string): (r: Option<string>)
    ensures r.Some? ==> |r.value| < |s|
  {
    if !At2(s, 's', ':') then None
    else
      var t := s[2..];
      var colon := FindChar(t, ':');
      if colon < 0 || !AllDigits(t[..colon]) then None
      else if !At(t[colon + 1..], '"') then None
      else
        var body, expected := t[colon + 1..][1..], DecVal(t[..colon]);
        if ClosesAt(body, expected) then Some(body[expected + 2..])
        else
          var closing := FindClose(body);
          if closing < 0 then None else Some(body[closing + 2..])
  }

  /** Rest behind the next semicolon. */
  function SkipPastSemicolon(s: string): (r: Option<string>)
    ensures r.Some? ==> |r.value| < |s|
  {
    var end := FindChar(s, ';');
    if end < 0 then None else Some(s[end + 1..])
  }

  function SkipValue(s: string): (r: Option<string>)
    ensures r.Some? ==> |r.value| < |s|
  {
    if At2(s, 's', ':') then SkipString(s)
    else if At2(s, 'i', ':') || At2(s, 'd', ':') || At2(s, 'b', ':') then SkipPastSemicolon(s)
    else if At2(s, 'N', ';') then Some(s[2..])
    else if At2(s, 'a', ':') || At2(s, 'O', ':') || At2(s, 'C', ':') then
      var body := FindBody(s);
      if body.None? then None
      else
        var next := s[body.value.1 + 1..];
        Some(if At(next, ';') then next[1..] else next)
    else SkipPastSemicolon(s)
  }

  predicate IsGap(c: char) { c == ' ' || c == '\t' || c == '\r' || c == '\n' }

  /** Drop leading blanks, at most n characters. */
  function SkipGaps(s: string, n: int): (r: string)
    ensures |r| <= |s|
    decreases |s|
  {
    if n > 0 && s != [] && IsGap(s[0]) then SkipGaps(s[1..], n - 1) else s
  }

  /** Rest behind a key: a string, or an integer that ends within the body. */
  function SkipKey(s: string, left: int): (r: Option<string>)
    ensures r.Some? ==> |r.value| < |s|
  {
    if At2(s, 's', ':') then SkipString(s)
    else if At2(s, 'i', ':') then
      var end := FindChar(s, ';');
      if end < 0 || end > left then None else Some(s[end + 1..])
    else None
  }

  /** One key and its value: the rest and how much of the body is left, from behind the gaps. */
  function SkipEntry(s: string, left: int): (r: Option<(string, int)>)
    ensures r.Some? ==> |r.value.0| < |s|
  {
    var k := SkipKey(s, left);
    if k.None? then None
    else
      var leftK := left - (|s| - |k.value|);
      var t := SkipGaps(k.value, leftK);
      var leftT := leftK - (|k.value| - |t|);
      if leftT <= 0 then None
      else
        var v := SkipValue(t);
        if v.None? then None else Some((v.value, leftT - (|t| - |v.value|)))
  }

  /** Entries counted from s on, when the body ends left characters further. */
  function CountFrom(s: string, left: int, count: nat): Option<nat>
    decreases |s|
  {
    var t := SkipGaps(s, left);
    var leftT := left - (|s| - |t|);
    if leftT <= 0 then Some(count)
    else
      var e := SkipEntry(t, leftT);
      if e.None? then None else CountFrom(e.value.0, e.value.1, count + 1)
  }

  function CountKeys(data: string): Option<nat> {
    var body := FindBody(data);
    if body.None? then None
    else CountFrom(data[body.value.0 + 1..], body.value.1 - body.value.0 - 1, 0)
  }

  /** The count as the source runs it: rest is the data from the current index on. */
  method CountKeysLoop(data: string) returns (r: Option<nat>)
    ensures r == CountKeys(data)
  {
    hide SkipEntry, SkipGaps, FindBody;
    var body := FindBodyLoop(data);
    if body.None? {
      return None;
    }
    var rest, count: nat := data[body.value.0 + 1..], 0;
    var left: int := body.value.1 as int - body.value.0 as int - 1;
    while left > 0
      invariant CountKeys(data) == CountFrom(rest, left, count)
      decreases |rest|
    {
      var t := SkipGaps(rest, left);
      left := left - (|rest| - |t|);
      if left <= 0 {
        return Some(count);
      }
      var e := SkipEntry(t, left);
      if e.None? {
        return None;
      }
      rest, left, count := e.value.0, e.value.1, count + 1;
    }
    return Some(count);
  }

  // ---- Agreement on strings: on every input at all ----

  /** The scanner and the reader agree on every string literal, well formed or not. */
  lemma {:induction false} SkipStringAgrees(s: string)
    ensures SkipString(s) == if ReadString(s).Done? then Some(ReadString(s).rest) else None
  {
    hide FindClose, FindChar, DecVal;
    if At2(s, 's', ':') {
      var t := s[2..];
      var colon := FindChar(t, ':');
      if colon >= 0 && AllDigits(t[..colon]) && At(t[colon + 1..], '"') {
        assert OpenLiteral(s) == Some((DecVal(t[..colon]), t[colon + 1..][1..]));
      }
    }
  }

  // ---- Walking over text ----

  /** State after scanning s from (depth, inString); None when depth 0 is reached inside. */
  function Walk(s: string, depth: int, inString: bool): Option<(int, bool)>
    decreases |s|
  {
    if s == [] then Some((depth, inString))
    else
      var c := s[0];
      if !inString && c == '}' && depth - 1 == 0 then None
      else
        var depth' := if inString then depth else if c == '{' then depth + 1 else if c == '}' then depth - 1 else depth;
        Walk(s[1..], depth', if c == '"' then !inString else inString)
  }

  lemma {:induction false} ScanAfterWalk(s: string, tail: string, depth: int, inString: bool)
    ensures var w := Walk(s, depth, inString);
            w.Some? ==>
              var r := ScanBody(tail, w.value.0, w.value.1);
              ScanBody(s + tail, depth, inString) == if r.None? then None else Some(|s| + r.value)
    decreases |s|
  {
    if s == [] {
      assert s + tail == tail;
    } else {
      assert (s + tail)[1..] == s[1..] + tail;
      var c := s[0];
      var depth' := if inString then depth else if c == '{' then depth + 1 else if c == '}' then depth - 1 else depth;
      ScanAfterWalk(s[1..], tail, depth', if c == '"' then !inString else inString);
    }
  }

  lemma {:induction false} WalkJoin(s: string, t: string, depth: int, inString: bool)
    ensures var w := Walk(s, depth, inString);
            w.Some? ==> Walk(s + t, depth, inString) == Walk(t, w.value.0, w.value.1)
    decreases |s|
  {
    if s == [] {
      assert s + t == t;
    } else {
      assert (s + t)[1..] == s[1..] + t;
      var c := s[0];
      var depth' := if inString then depth else if c == '{' then depth + 1 else if c == '}' then depth - 1 else depth;
      WalkJoin(s[1..], t, depth', if c == '"' then !inString else inString);
    }
  }

  /** No quote, no brace. */
  predicate Calm(s: string) {
    forall i :: 0 <= i < |s| ==> s[i] != '"' && s[i] != '{' && s[i] != '}'
  }

  predicate NoQuote(s: string) {
    forall i :: 0 <= i < |s| ==> s[i] != '"'
  }

  lemma {:induction false} WalkCalm(s: string, depth: int)
    requires Calm(s)
    ensures Walk(s, depth, false) == Some((depth, false))
  {
    if s != [] {
      WalkCalm(s[1..], depth);
    }
  }

  lemma {:induction false} WalkQuoted(s: string, depth: int)
    requires NoQuote(s)
    ensures Walk(s, depth, true) == Some((depth, true))
  {
    if s != [] {
      WalkQuoted(s[1..], depth);
    }
  }

  /** Walking over a and then b ends where it began. */
  ghost predicate Level(s: string, depth: int) {
    Walk(s, depth, false) == Some((depth, false))
  }

  lemma LevelJoin(s: string, t: string, depth: int)
    requires Level(s, depth) && Level(t, depth)
    ensures Level(s + t, depth)
  {
    WalkJoin(s, t, depth, false);
  }

  lemma DigitsCalm(d: string)
    requires AllDigits(d)
    ensures Calm(d)
  {
  }

  /** A quoted text without quotes inside is level, whatever braces it holds. */
  lemma {:induction false} LevelQuoted(s: string, depth: int)
    requires NoQuote(s)
    ensures Level("\"" + (s + "\""), depth)
  {
    WalkQuoted(s, depth);
    WalkJoin(s, "\"", depth, true);
    assert Walk("\"", depth, true) == Walk("\""[1..], depth, false);
    assert ("\"" + (s + "\""))[1..] == s + "\"";
  }

  lemma CalmJoin(s: string, t: string)
    requires Calm(s) && Calm(t)
    ensures Calm(s + t)
  {
  }

  lemma LevelCalm(s: string, depth: int)
    requires Calm(s)
    ensures Level(s, depth)
  {
    WalkCalm(s, depth);
  }

  lemma {:induction false} LevelString(declared: string, s: string, depth: int)
    requires AllDigits(declared) && NoQuote(s)
    ensures Level(RenderStr(declared, s), depth)
  {
    var head := "s:" + (declared + ":");
    DigitsCalm(declared);
    CalmJoin(declared, ":");
    CalmJoin("s:", declared + ":");
    LevelCalm(head, depth);
    LevelQuoted(s, depth);
    LevelCalm(";", depth);
    LevelJoin(head, "\"" + (s + "\""), depth);
    LevelJoin(head + ("\"" + (s + "\"")), ";", depth);
    assert RenderStr(declared, s) == head + ("\"" + (s + "\"")) + ";";
  }

  // ---- Wires the scanner can follow ----

  /** No quote in a payload; no quote or brace in a number, a flag or a class name. */
  ghost predicate Plain(w: Wire) {
    match w
    case WStr(_, s) => NoQuote(s)
    case WInt(text) => Calm(text)
    case WBool(text) => Calm(text)
    case WNull => true
    case WArr(_, items) => PlainItems(items)
    case WObj(_, name, _, items) => Calm(name) && PlainItems(items)
  }

  ghost predicate PlainItems(items: seq<Item>) {
    items != [] ==> NoQuote(items[0].key) && Plain(items[0].value) && PlainItems(items[1..])
  }

  ghost predicate Followable(w: Wire) {
    Readable(w) && Plain(w)
  }

  lemma {:induction false} LevelBraces(s: string, depth: int)
    requires depth >= 1 && Level(s, depth + 1)
    ensures Level("{" + (s + "}"), depth)
  {
    WalkJoin(s, "}", depth + 1, false);
    assert Walk("}", depth + 1, false) == Walk("}"[1..], depth, false);
    assert ("{" + (s + "}"))[1..] == s + "}";
  }

  lemma LevelScalar(tag: string, text: string, depth: int)
    requires Calm(tag) && Calm(text)
    ensures Level(tag + (text + ";"), depth)
  {
    CalmJoin(text, ";");
    CalmJoin(tag, text + ";");
    LevelCalm(tag + (text + ";"), depth);
  }

  /** The text of a container before its opening brace. */
  function Header(w: Wire): string
    requires w.WArr? || w.WObj?
  {
    match w
    case WArr(count, _) => "a:" + (count + ":")
    case WObj(n, name, count, _) => "O:" + (n + ":") + (("\"" + (name + "\"")) + (":" + (count + ":")))
  }

  lemma RenderSplit(w: Wire)
    requires w.WArr? || w.WObj?
    ensures Render(w) == Header(w) + ("{" + (RenderItems(w.items) + "}"))
  {
    if w.WObj? {
      assert Render(w) == Header(w) + ("{" + (RenderItems(w.items) + "}"));
    }
  }

  lemma LevelHeader(w: Wire, depth: int)
    requires (w.WArr? || w.WObj?) && Followable(w)
    ensures Level(Header(w), depth)
    ensures '{' !in Header(w)
  {
    DigitsCalm(w.count);
    CalmJoin(w.count, ":");
    if w.WArr? {
      CalmJoin("a:", w.count + ":");
      LevelCalm(Header(w), depth);
    } else {
      DigitsCalm(w.nameLength);
      CalmJoin(w.nameLength, ":");
      CalmJoin("O:", w.nameLength + ":");
      CalmJoin(":", w.count + ":");
      LevelCalm("O:" + (w.nameLength + ":"), depth);
      LevelQuoted(w.name, depth);
      LevelCalm(":" + (w.count + ":"), depth);
      LevelJoin("\"" + (w.name + "\""), ":" + (w.count + ":"), depth);
      LevelJoin("O:" + (w.nameLength + ":"), ("\"" + (w.name + "\"")) + (":" + (w.count + ":")), depth);
    }
  }

  lemma {:induction false} LevelWire(w: Wire, depth: int)
    requires Followable(w) && depth >= 1
    ensures Level(Render(w), depth)
    decreases w, 0
  {
    match w
    case WStr(declared, s) => LevelString(declared, s, depth);
    case WInt(text) => LevelScalar("i:", text, depth);
    case WBool(text) => LevelScalar("b:", text, depth);
    case WNull => LevelCalm("N;", depth);
    case _ =>
      LevelItems(w.items, depth + 1);
      LevelBraces(RenderItems(w.items), depth);
      LevelHeader(w, depth);
      LevelJoin(Header(w), "{" + (RenderItems(w.items) + "}"), depth);
      RenderSplit(w);
  }

  lemma {:induction false} LevelItems(items: seq<Item>, depth: int)
    requires ReadableItems(items) && PlainItems(items) && depth >= 1
    ensures Level(RenderItems(items), depth)
    decreases items
  {
    if items != [] {
      var i, rest := items[0], items[1..];
      LevelString(i.declared, i.key, depth);
      LevelWire(i.value, depth);
      LevelItems(rest, depth);
      LevelJoin(Render(i.value), RenderItems(rest), depth);
      LevelJoin(RenderStr(i.declared, i.key), Render(i.value) + RenderItems(rest), depth);
    }
  }

  // ---- Where the scan ends ----

  /** The scan closes inside a text exactly when the walk over it does not get through. */
  lemma {:induction false} ScanInside(s: string, tail: string, depth: int, inString: bool)
    ensures Walk(s, depth, inString).None? ==>
              ScanBody(s + tail, depth, inString).Some? && ScanBody(s + tail, depth, inString).value < |s|
    decreases |s|
  {
    if s != [] {
      assert (s + tail)[1..] == s[1..] + tail;
      var c := s[0];
      var depth' := if inString then depth else if c == '{' then depth + 1 else if c == '}' then depth - 1 else depth;
      ScanInside(s[1..], tail, depth', if c == '"' then !inString else inString);
    }
  }

  /** Where a scan that starts inside a body ends: inside it, at its closing brace, or beyond. */
  lemma ScanEnds(body: string, tail: string)
    ensures var r, w := ScanBody(body + ("}" + tail), 1, false), Walk(body, 1, false);
            && (w.None? <==> r.Some? && r.value < |body|)
            && (w == Some((1, false)) <==> r == Some(|body|))
  {
    hide Walk, ScanBody;
    var w := Walk(body, 1, false);
    if w.None? {
      ScanInside(body, "}" + tail, 1, false);
    } else {
      ScanAfterWalk(body, "}" + tail, 1, false);
      CloseAt(w.value.0, w.value.1, tail);
    }
  }

  lemma CloseAt(depth: int, inString: bool, tail: string)
    ensures ScanBody("}" + tail, depth, inString) == Some(0) <==> depth == 1 && !inString
  {
  }

  /** From its opening brace on, the scan is the scan of what follows, one level deep. */
  lemma ScanOpens(inner: string)
    ensures ScanBody("{" + inner, 0, false) == Shift(ScanBody(inner, 1, false), 1)
  {
    assert ("{" + inner)[1..] == inner;
  }

  lemma FindCharBehind(pre: string, c: char, post: string)
    requires c !in pre
    ensures FindChar(pre + ([c] + post), c) == |pre|
  {
    FindCharAt(pre, c, post);
    assert pre + [c] + post == pre + ([c] + post);
  }

  /** What the scanner finds in a text whose first opening brace is known. */
  lemma FindBodyIs(header: string, inner: string)
    requires '{' !in header
    ensures FindBody(header + ("{" + inner)) ==
              var r := ScanBody(inner, 1, false);
              if r.None? then None else Some((|header|, |header| + 1 + r.value))
  {
    var text := header + ("{" + inner);
    FindCharBehind(header, '{', inner);
    ScanOpens(inner);
    assert text[|header|..] == "{" + inner;
  }

  /** The scanner finds the braces around a body exactly when walking over the body, strings
      skipped from quote to quote, ends at its own level and outside a string. */
  lemma {:induction false} FindBodyIff(header: string, body: string, tail: string)
    requires '{' !in header
    ensures FindBody(header + ("{" + (body + ("}" + tail)))) == Some((|header|, |header| + |body| + 1)) <==>
            Walk(body, 1, false) == Some((1, false))
  {
    FindBodyIs(header, body + ("}" + tail));
    ScanEnds(body, tail);
  }

  lemma RegroupContainer(header: string, body: string, tail: string)
    ensures header + ("{" + (body + "}")) + tail == header + ("{" + (body + ("}" + tail)))
    ensures |header + ("{" + (body + "}"))| == |header| + |body| + 2
  {
  }

  /** A container's text in its parts. */
  lemma ContainerText(w: Wire, tail: string) returns (header: string, body: string)
    requires w.WArr? || w.WObj?
    ensures header == Header(w) && body == RenderItems(w.items)
    ensures Render(w) + tail == header + ("{" + (body + ("}" + tail)))
    ensures |Render(w)| == |header| + |body| + 2
  {
    header, body := Header(w), RenderItems(w.items);
    RenderSplit(w);
    RegroupContainer(header, body, tail);
  }

  lemma ContainerSlices(text: string, header: string, body: string, tail: string)
    requires text == header + ("{" + (body + ("}" + tail)))
    ensures |text| == |header| + |body| + 2 + |tail|
    ensures text[|header|] == '{'
    ensures text[|header|..] == "{" + (body + ("}" + tail))
    ensures text[|header| + 1..] == body + ("}" + tail)
    ensures text[|header| + 1..|header| + 1 + |body|] == body
    ensures text[|header| + |body| + 2..] == tail
  {
  }

  /** The scanner finds exactly the outer braces of a container, whatever follows it, if and
      only if no brace opens in the header and the walk over the items ends level. */
  lemma {:induction false} FindBodyExact(w: Wire, tail: string)
    requires w.WArr? || w.WObj?
    ensures FindBody(Render(w) + tail) == Some((|Header(w)|, |Render(w)| - 1)) <==>
            '{' !in Header(w) && Walk(RenderItems(w.items), 1, false) == Some((1, false))
  {
    hide Render, RenderItems, Header, Walk;
    var header, body := ContainerText(w, tail);
    if '{' in header {
      EarlyBrace(header, "{" + (body + ("}" + tail)));
    } else {
      hide FindBody;
      FindBodyIff(header, body, tail);
    }
  }

  lemma EarlyBrace(header: string, rest: string)
    requires '{' in header
    ensures 0 <= FindChar(header + rest, '{') < |header|
  {
    var i :| 0 <= i < |header| && header[i] == '{';
    assert (header + rest)[i] == '{';
  }

  // ---- Texts without braces: only the number of quotes matters ----

  function Quotes(s: string): nat {
    if s == [] then 0 else (if s[0] == '"' then 1 else 0) + Quotes(s[1..])
  }

  predicate NoBrace(s: string) {
    forall i :: 0 <= i < |s| ==> s[i] != '{' && s[i] != '}'
  }

  lemma {:induction false} QuotesJoin(s: string, t: string)
    ensures Quotes(s + t) == Quotes(s) + Quotes(t)
  {
    if s == [] {
      assert s + t == t;
    } else {
      assert (s + t)[1..] == s[1..] + t;
      QuotesJoin(s[1..], t);
    }
  }

  lemma {:induction false} WalkBraceless(s: string, depth: int, inString: bool)
    requires NoBrace(s)
    ensures Walk(s, depth, inString) == Some((depth, (Quotes(s) % 2 == 1) != inString))
    decreases |s|
  {
    if s != [] {
      WalkBraceless(s[1..], depth, if s[0] == '"' then !inString else inString);
    }
  }

  /** The text of a value that is not a container, and the quotes it holds of its own. */
  function LeafQuotes(w: Wire): nat {
    match w
    case WStr(_, s) => Quotes(s)
    case WInt(text) => Quotes(text)
    case WBool(text) => Quotes(text)
    case _ => 0
  }

  /** A flat session: no containers inside, and no brace in a key or a payload. */
  ghost predicate FlatBraceless(items: seq<Item>) {
    forall i :: 0 <= i < |items| ==> LeafBraceless(items[i].value) && NoBrace(items[i].key)
  }

  predicate LeafBraceless(w: Wire) {
    match w
    case WStr(_, s) => NoBrace(s)
    case WInt(text) => NoBrace(text)
    case WBool(text) => NoBrace(text)
    case WNull => true
    case _ => false
  }

  /** All quotes inside keys and payloads. */
  function InnerQuotes(items: seq<Item>): nat {
    if items == [] then 0
    else Quotes(items[0].key) + LeafQuotes(items[0].value) + InnerQuotes(items[1..])
  }

  lemma {:induction false} CalmFacts(s: string)
    requires Calm(s)
    ensures NoBrace(s) && Quotes(s) == 0
  {
    if s != [] {
      CalmFacts(s[1..]);
    }
  }

  lemma BracelessJoin(s: string, t: string)
    requires NoBrace(s) && NoBrace(t)
    ensures NoBrace(s + t)
  {
  }

  lemma StringQuotes(declared: string, s: string)
    requires AllDigits(declared) && NoBrace(s)
    ensures NoBrace(RenderStr(declared, s)) && Quotes(RenderStr(declared, s)) == Quotes(s) + 2
  {
    var head := "s:" + (declared + ":");
    DigitsCalm(declared);
    CalmJoin(declared, ":");
    CalmJoin("s:", declared + ":");
    CalmFacts(head);
    BracelessJoin(head, "\"" + (s + CLOSE));
    assert RenderStr(declared, s) == head + ("\"" + (s + CLOSE));
    QuotesJoin(head, "\"" + (s + CLOSE));
    QuotesJoin("\"", s + CLOSE);
    QuotesJoin(s, CLOSE);
    OneQuote();
  }

  lemma OneQuote()
    ensures Quotes("\"") == 1 && Quotes(CLOSE) == 1
  {
    assert CLOSE[1..] == ";" && ";"[1..] == "" && "\""[1..] == "";
  }

  lemma TaggedQuotes(tag: string, text: string)
    requires Calm(tag) && NoBrace(text)
    ensures NoBrace(tag + (text + ";")) && Quotes(tag + (text + ";")) == Quotes(text)
  {
    CalmFacts(tag);
    CalmFacts(";");
    QuotesJoin(tag, text + ";");
    QuotesJoin(text, ";");
  }

  lemma LeafText(w: Wire)
    requires Readable(w) && LeafBraceless(w)
    ensures NoBrace(Render(w)) && Quotes(Render(w)) == LeafQuotes(w) + if w.WStr? then 2 else 0
  {
    match w
    case WStr(declared, s) => StringQuotes(declared, s);
    case WInt(text) => TaggedQuotes("i:", text);
    case WBool(text) => TaggedQuotes("b:", text);
    case WNull => CalmFacts("N;");
  }

  lemma {:induction false} FlatQuotes(items: seq<Item>)
    requires ReadableItems(items) && FlatBraceless(items)
    ensures NoBrace(RenderItems(items)) && Quotes(RenderItems(items)) % 2 == InnerQuotes(items) % 2
  {
    hide RenderStr, Render, Quotes, NoBrace, LeafQuotes, Readable, AllDigits, DecVal, HasClose;
    if items == [] {
      NoQuotes();
    } else {
      var i, rest := items[0], items[1..];
      var k, v, more := RenderStr(i.declared, i.key), Render(i.value), RenderItems(rest);
      FlatQuotes(rest);
      StringQuotes(i.declared, i.key);
      LeafText(i.value);
      QuotesJoin(v, more);
      QuotesJoin(k, v + more);
      BracelessJoin(v, more);
      BracelessJoin(k, v + more);
      SameParity(Quotes(k), Quotes(i.key), Quotes(v), LeafQuotes(i.value), Quotes(more), InnerQuotes(rest));
    }
  }

  lemma NoQuotes()
    ensures NoBrace("") && Quotes("") == 0
  {
  }

  lemma SameParity(a: nat, x: nat, b: nat, y: nat, c: nat, z: nat)
    requires a % 2 == x % 2 && b % 2 == y % 2 && c % 2 == z % 2
    ensures (a + (b + c)) % 2 == (x + y + z) % 2
  {
  }

  /** On a flat session without braces in its payloads the scanner is right exactly when the
      payloads and keys hold an even number of quotes altogether. */
  lemma {:induction false} FindBodyParity(w: Wire, tail: string)
    requires (w.WArr? || w.WObj?) && Readable(w) && FlatBraceless(w.items) && '{' !in Header(w)
    ensures FindBody(Render(w) + tail) == Some((|Header(w)|, |Render(w)| - 1)) <==> InnerQuotes(w.items) % 2 == 0
  {
    hide FindBody, Render, RenderItems, Header, FlatBraceless;
    FindBodyExact(w, tail);
    FlatQuotes(w.items);
    WalkBraceless(RenderItems(w.items), 1, false);
  }

  // ---- Wires the scanner gets right at every level ----

  /** At every level no brace opens in the header and the walk over the items ends level. */
  ghost predicate Clear(w: Wire) {
    w.WArr? || w.WObj? ==>
      && '{' !in Header(w)
      && Walk(RenderItems(w.items), 1, false) == Some((1, false))
      && ClearItems(w.items)
  }

  ghost predicate ClearItems(items: seq<Item>) {
    items != [] ==> Clear(items[0].value) && ClearItems(items[1..])
  }

  /** Quote-free payloads are enough for that, not necessary. */
  lemma {:induction false} PlainClear(w: Wire)
    requires Followable(w)
    ensures Clear(w)
    decreases w, 0
  {
    if w.WArr? || w.WObj? {
      LevelHeader(w, 0);
      LevelItems(w.items, 1);
      PlainItemsClear(w.items);
    }
  }

  lemma {:induction false} PlainItemsClear(items: seq<Item>)
    requires ReadableItems(items) && PlainItems(items)
    ensures ClearItems(items)
    decreases items
  {
    if items != [] {
      PlainClear(items[0].value);
      PlainItemsClear(items[1..]);
    }
  }

  lemma QuotedPrint()
    ensures Print(Arr([Entry("k", Str("\"}"))])) == "a:1:{s:1:\"k\";s:2:\"\"}\";}"
  {
    var e := Entry("k", Str("\"}"));
    assert PrintEntries([e]) == PrintStr("k") + PrintStr("\"}") + PrintEntries([e][1..]);
  }

  /** A session on the wrong side: its payload ends the walk early, and the scanner closes the
      body inside the payload. */
  lemma QuoteMisleadsScanner()
    ensures var body := "s:1:\"k\";s:2:\"\"}\";";
            && Print(Arr([Entry("k", Str("\"}"))])) == "a:1:" + ("{" + (body + ("}" + "")))
            && Walk(body, 1, false).None?
            && FindBody("a:1:" + ("{" + (body + ("}" + "")))) != Some((4, 22))
  {
    hide Walk, ScanBody, FindBody, RenderStr, Print;
    QuotedPrint();
    var lead, body := "s:1:\"k\";s:2:\"\"", "s:1:\"k\";s:2:\"\"}\";";
    WalkLead();
    assert body == lead + "}\";";
    WalkJoin(lead, "}\";", 1, false);
    ClosesHere();
    FindBodyIff("a:1:", body, "");
  }

  lemma WalkLead()
    ensures Walk("s:1:\"k\";s:2:\"\"", 1, false) == Some((1, false))
  {
    var lead := "s:1:\"k\";s:2:\"\"";
    LevelString("1", "k", 1);
    LevelCalm("s:2:", 1);
    LevelQuoted("", 1);
    LevelJoin("s:2:", "\"" + ("" + "\""), 1);
    LevelJoin(RenderStr("1", "k"), "s:2:" + ("\"" + ("" + "\"")), 1);
    OneK();
    assert lead == RenderStr("1", "k") + ("s:2:" + ("\"" + ("" + "\"")));
  }

  lemma ClosesHere()
    ensures Walk("}\";", 1, false).None?
  {
  }

  lemma OneK()
    ensures RenderStr("1", "k") == "s:1:\"k\";"
  {
  }
}
