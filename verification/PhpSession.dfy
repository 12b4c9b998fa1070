/** Session repair: re-print, forced counts, normalisation, and the sanitizer whose output
    the native client must accept. */
module PhpSession {
  import opened Options
  import opened Text
  import opened PhpText
  import opened PhpCodec
  import opened PhpWire
  import opened PhpScan
  import opened PhpCount

  const REQUIRED: seq<string> := ["session_id", "ip_address", "user_agent", "last_activity"]

  /** The order in which the sanitizer emits fields. */
  const FIELD_ORDER: seq<string> :=
    ["session_id", "ip_address", "user_agent", "last_activity", "device_id"]

  // ---- Strict repair ----

  predicate HasAll(es: seq<Entry>, names: seq<string>) {
    forall i :: 0 <= i < |names| ==> HasKey(es, names[i])
  }

  /** Re-print a session that parses and has the required fields; keep what follows it. */
  function Fix(text: string): Option<string> {
    var r := Parse(text);
    if r.Fail? || !HasAll(r.value.entries, REQUIRED) then None
    else Some(Print(r.value) + r.rest)
  }

  /** The strict repair sends every readable text of a complete session to its canonical print. */
  lemma {:induction false} FixIsCanonical(w: Wire, tail: string)
    requires Readable(w) && (w.WArr? || w.WObj?) && HasAll(Meaning(w).entries, REQUIRED)
    ensures Fix(Render(w) + tail) == Some(Print(Meaning(w)) + tail)
  {
    hide Parse, Print, Render, Meaning, Readable;
    ParseRender(w, tail);
  }

  /** Repairing a repaired session changes nothing. */
  lemma {:induction false} FixIdempotent(text: string)
    requires Fix(text).Some?
    ensures Fix(Fix(text).value) == Fix(text)
  {
    hide Parse, Print;
    ParseWellFormed(text);
    RoundTrip(Parse(text).value.entries, Parse(text).rest);
  }

  // ---- Forced headers ----

  function Slice(s: string, i: nat, j: nat): string
    requires j <= |s|
  {
    if i <= j then s[i..j] else ""
  }

  /** Replace the header by a given count; body and what follows stay as they are. */
  function Reheader(text: string, count: nat): string {
    var b := FindBody(text);
    if b.None? then text
    else "a:" + (Dec(count) + ":" + ("{" + (Slice(text, b.value.0 + 1, b.value.1) + ("}" + text[b.value.1 + 1..]))))
  }

  /** On every text: what stands before the first opening brace is replaced, when the scanner
      finds a closing one. */
  lemma {:induction false} ReheaderIs(text: string, count: nat)
    ensures var b := FindBody(text);
            Reheader(text, count) ==
              if b.None? then text else "a:" + (Dec(count) + ":" + text[b.value.0..])
  {
    hide *;
    if FindBody(text).Some? {
      FoundBraces(text);
      BracesApart(text, FindBody(text).value.0, FindBody(text).value.1);
      ForcedParts(text, count);
    } else {
      ForcedNot(text, count);
    }
  }

  lemma ForcedNot(text: string, count: nat)
    requires FindBody(text).None?
    ensures Reheader(text, count) == text
  {
  }

  lemma ForcedParts(text: string, count: nat)
    requires FindBody(text).Some?
    ensures var b := FindBody(text).value;
            b.1 < |text| &&
            Reheader(text, count) == "a:" + (Dec(count) + ":" +
                ("{" + (Slice(text, b.0 + 1, b.1) + ("}" + text[b.1 + 1..]))))
  {
    hide FindBody, Slice, Dec;
  }

  /** A text that may be a session. */
  predicate Headed(text: string) {
    At2(text, 'a', ':') || At2(text, 'O', ':')
  }

  /** Force a count on an unwrapped text; one that is no session is left as it is. */
  function ForceHeader(text: string, count: nat): string {
    if Headed(text) then Reheader(text, count) else text
  }

  /** On every text: forcing a count replaces what stands before the first opening brace, when
      the text has a session's header and the scanner finds a closing brace, and otherwise
      changes nothing. */
  lemma {:induction false} ForceHeaderIs(text: string, count: nat)
    ensures var b := FindBody(text);
            ForceHeader(text, count) ==
              if !Headed(text) || b.None? then text else "a:" + (Dec(count) + ":" + text[b.value.0..])
  {
    hide FindBody, Reheader, Dec;
    ReheaderIs(text, count);
  }

  lemma ContainerHeaded(w: Wire, tail: string)
    requires w.WArr? || w.WObj?
    ensures Headed(Render(w) + tail)
  {
    hide RenderItems;
    assert Render(w)[..2] == if w.WArr? then "a:" else "O:";
  }

  lemma BracesApart(text: string, i: nat, j: nat)
    requires i < j < |text| && text[i] == '{' && text[j] == '}'
    ensures text[i..] == "{" + (Slice(text, i + 1, j) + ("}" + text[j + 1..]))
  {
    assert text[i..] == [text[i]] + (text[i + 1..j] + ([text[j]] + text[j + 1..]));
  }

  lemma FoundBraces(text: string)
    requires FindBody(text).Some?
    ensures var b := FindBody(text).value;
            b.0 < b.1 < |text| && text[b.0] == '{' && text[b.1] == '}' && b.0 == FindChar(text, '{')
  {
    hide FindChar, ScanBody;
    var start := FindChar(text, '{');
    ScanFinds(text[start..], 0, false);
  }

  lemma {:induction false} ScanFinds(s: string, depth: int, inString: bool)
    ensures var r := ScanBody(s, depth, inString);
            r.Some? ==> r.value < |s| && s[r.value] == '}'
    decreases |s|
  {
    if s != [] {
      var c := s[0];
      var depth' := if inString then depth else if c == '{' then depth + 1 else if c == '}' then depth - 1 else depth;
      ScanFinds(s[1..], depth', if c == '"' then !inString else inString);
    }
  }

  /** So on a container the forced text is the container with another header if and only if no
      brace opens in its header; quotes and braces in payloads do not matter. */
  lemma {:induction false} ForceHeaderExact(w: Wire, tail: string, count: nat)
    requires (w.WArr? || w.WObj?) && FindBody(Render(w) + tail).Some?
    ensures ForceHeader(Render(w) + tail, count) == Render(WArr(Dec(count), w.items)) + tail <==> '{' !in Header(w)
  {
    hide FindBody, Header, RenderItems, Dec, ForceHeader, FindChar, Headed;
    var text := Render(w) + tail;
    var header, body := ContainerText(w, tail);
    ContainerHeaded(w, tail);
    ForceHeaderIs(text, count);
    FoundBraces(text);
    ContainerSlices(text, header, body, tail);
    ForcedText(count, body, tail);
    if '{' in header {
      EarlyBrace(header, "{" + (body + ("}" + tail)));
    } else {
      FindCharBehind(header, '{', body + ("}" + tail));
    }
  }

  lemma ForcedText(count: nat, body: string, tail: string)
    ensures "a:" + (Dec(count) + ":" + ("{" + (body + ("}" + tail)))) ==
            "a:" + (Dec(count) + ":" + ("{" + (body + "}"))) + tail
  {
  }

  /** Forcing a header, with any count at all, never changes what is parsed, on every readable
      container with no brace in its header. */
  lemma {:induction false} ForceHeaderHarmless(w: Wire, tail: string, count: nat)
    requires (w.WArr? || w.WObj?) && Readable(w) && '{' !in Header(w)
    ensures var r := Parse(ForceHeader(Render(w) + tail, count));
            r.Done? && r.value == Meaning(w) && r.rest == tail && r.repaired == NeedsRepair(w)
  {
    hide ForceHeader, Parse, Render, FindBody, Readable;
    ParseRender(w, tail);
    ContainerHeaded(w, tail);
    ForceHeaderIs(Render(w) + tail, count);
    if FindBody(Render(w) + tail).Some? {
      ForceHeaderExact(w, tail, count);
      ForcedReadable(w, count);
      ParseRender(WArr(Dec(count), w.items), tail);
    }
  }

  /** With a brace in a class name it can: here the name loses its object, and what is left of
      the header is taken for what follows. */
  lemma BraceInName(count: nat)
    ensures var w := WObj("2", "{}", "0", []);
            && Readable(w) && '{' in Header(w)
            && Parse(Render(w)) == Done(Arr([]), "", false, true)
            && Parse(ForceHeader(Render(w), count)) == Done(Arr([]), "\":0:{}", false, false)
  {
    hide ForceHeader, Parse, Render, Header, Readable, Dec;
    var w, f := WObj("2", "{}", "0", []), WArr(Dec(count), []);
    BraceReadable(w, f);
    ParseRender(w, "");
    assert Render(w) + "" == Render(w);
    BraceText(w);
    BraceForced(w, f, count);
    ParseRender(f, "\":0:{}");
  }

  lemma BraceReadable(w: Wire, f: Wire)
    requires w == WObj("2", "{}", "0", []) && f.WArr? && AllDigits(f.count) && f.items == []
    ensures Readable(w) && Meaning(w) == Arr([]) && !NeedsRepair(w) && HasObject(w)
    ensures Readable(f) && Meaning(f) == Arr([]) && !NeedsRepair(f) && !HasObject(f)
  {
    OneDigit();
  }

  lemma BraceForced(w: Wire, f: Wire, count: nat)
    requires Render(w) == "O:2:\"" + ("{" + "}\":0:{}") && f == WArr(Dec(count), [])
    ensures ForceHeader(Render(w), count) == Render(f) + "\":0:{}"
  {
    hide ForceHeader, FindBody, Dec, ScanBody;
    FindBodyIs("O:2:\"", "}\":0:{}");
    CloseAt(1, false, "\":0:{}");
    assert "}" + "\":0:{}" == "}\":0:{}";
    ForceHeaderIs(Render(w), count);
    assert Render(w)[5..] == "{" + "}\":0:{}";
  }

  lemma OneDigit()
    ensures AllDigits("2") && DecVal("2") == 2 && AllDigits("0")
  {
    assert "2"[..0] == "";
  }

  lemma BraceText(w: Wire)
    requires w == WObj("2", "{}", "0", [])
    ensures Render(w) == "O:2:\"" + ("{" + "}\":0:{}") && '{' in Header(w)
  {
    assert Header(w)[5] == '{';
  }

  lemma ForcedReadable(w: Wire, count: nat)
    requires (w.WArr? || w.WObj?) && Readable(w)
    ensures var f := WArr(Dec(count), w.items);
            Readable(f) && Meaning(f) == Meaning(w) && NeedsRepair(f) == NeedsRepair(w)
  {
  }

  predicate Contains(s: string, t: string) {
    t <= s || (s != [] && Contains(s[1..], t))
  }

  predicate MentionsAll(body: string, names: seq<string>) {
    forall i :: 0 <= i < |names| ==> Contains(body, "\"" + names[i] + "\"")
  }

  /** The text t stands somewhere in s. */
  ghost predicate Occurs(s: string, t: string) {
    exists pre: string, post: string :: s == pre + (t + post)
  }

  lemma {:induction false} ContainsInside(pre: string, t: string, post: string)
    ensures Contains(pre + (t + post), t)
  {
    if pre == [] {
      assert pre + (t + post) == t + post;
    } else {
      assert (pre + (t + post))[1..] == pre[1..] + (t + post);
      ContainsInside(pre[1..], t, post);
    }
  }

  lemma {:induction false} ContainsWhere(s: string, t: string) returns (pre: string, post: string)
    requires Contains(s, t)
    ensures s == pre + (t + post)
  {
    if t <= s {
      pre, post := "", s[|t|..];
    } else {
      var before, after := ContainsWhere(s[1..], t);
      pre, post := [s[0]] + before, after;
    }
  }

  lemma ContainsIff(s: string, t: string)
    ensures Contains(s, t) <==> Occurs(s, t)
  {
    hide Contains;
    if Contains(s, t) {
      var pre, post := ContainsWhere(s, t);
    }
    if Occurs(s, t) {
      var pre: string, post: string :| s == pre + (t + post);
      ContainsInside(pre, t, post);
    }
  }

  /** Each of the required names stands in the body between quotes. */
  ghost predicate NamesStand(body: string) {
    && Occurs(body, "\"session_id\"") && Occurs(body, "\"ip_address\"")
    && Occurs(body, "\"user_agent\"") && Occurs(body, "\"last_activity\"")
  }

  lemma MentionsIff(body: string)
    ensures MentionsAll(body, REQUIRED) <==> NamesStand(body)
  {
    hide Contains, Occurs;
    forall i | 0 <= i < |REQUIRED|
      ensures Contains(body, "\"" + REQUIRED[i] + "\"") <==> Occurs(body, "\"" + REQUIRED[i] + "\"")
    {
      ContainsIff(body, "\"" + REQUIRED[i] + "\"");
    }
    assert "\"" + REQUIRED[0] + "\"" == "\"session_id\"" && "\"" + REQUIRED[1] + "\"" == "\"ip_address\"";
    assert "\"" + REQUIRED[2] + "\"" == "\"user_agent\"" && "\"" + REQUIRED[3] + "\"" == "\"last_activity\"";
  }

  /** The fallback when a value blocks the parser: the exact count over the original body. */
  function CountFix(text: string): Option<string> {
    var b := FindBody(text);
    if b.None? || !MentionsAll(Slice(text, b.value.0 + 1, b.value.1), REQUIRED) then None
    else
      var actual := CountKeys(text);
      if actual.None? || actual.value < |REQUIRED| then None else Some(Reheader(text, actual.value))
  }

  /** Whatever the fallback counts, it leaves the value of a readable container alone. */
  lemma {:induction false} CountFixHarmless(w: Wire, tail: string)
    requires (w.WArr? || w.WObj?) && Readable(w) && '{' !in Header(w) && CountFix(Render(w) + tail).Some?
    ensures var r := Parse(CountFix(Render(w) + tail).value);
            r.Done? && r.value == Meaning(w) && r.rest == tail && r.repaired == NeedsRepair(w)
  {
    hide FindBody, CountKeys, Reheader, Parse, Render, Meaning, Readable, Header, MentionsAll;
    ContainerHeaded(w, tail);
    ForceHeaderHarmless(w, tail, CountKeys(Render(w) + tail).value);
  }

  /** On any body the scanner can follow, integer keys, foreign values and blanks included, the fallback
      writes the exact number of entries over the unchanged body, provided the required names
      are mentioned and there are at least as many entries. */
  lemma {:induction false} CountFixExact(header: string, fields: seq<Field>, trail: string, tail: string)
    requires '{' !in header && FieldsOk(fields) && Gaps(trail)
    requires Walk(RenderFields(fields, trail), 1, false) == Some((1, false))
    ensures var body := RenderFields(fields, trail);
            CountFix(Whole(header, body, tail)) ==
              if NamesStand(body) && |fields| >= 4 then
                Some(Whole("a:" + (Dec(|fields|) + ":"), body, tail))
              else None
  {
    hide FindBody, CountKeys, Walk, FieldsOk, RenderFields, Lead, MentionsAll, NamesStand, Dec, Reheader,
        Gaps;
    var body := RenderFields(fields, trail);
    var text := Whole(header, body, tail);
    MentionsIff(body);
    FindBodyIff(header, body, tail);
    CountExactIff(header, fields, trail, tail);
    LeadLevel(fields, trail);
    ContainerSlices(text, header, body, tail);
    ReheaderIs(text, |fields|);
    Reheaded(|fields|, body, tail);
  }

  lemma Reheaded(count: nat, body: string, tail: string)
    ensures "a:" + (Dec(count) + ":" + ("{" + (body + ("}" + tail)))) == Whole("a:" + (Dec(count) + ":"), body, tail)
  {
  }

  /** Whatever it was given, the fallback leaves its own output alone. */
  lemma {:induction false} CountFixIdempotent(text: string)
    requires CountFix(text).Some?
    ensures CountFix(CountFix(text).value) == CountFix(text)
  {
    hide *;
    var n := CountFixParts(text);
    var header, start := "a:" + (Dec(n) + ":"), FindBody(text).value.0;
    var out := header + text[start..];
    NumberHeader(n);
    ReheadedSame(text, start, header, out);
    ReheaderIs(out, n);
    RejoinHeader(n, text, start, out);
    CountFixMakes(out, n);
  }

  lemma NumberHeader(n: nat)
    ensures '{' !in "a:" + (Dec(n) + ":")
  {
    DigitsPlain(Dec(n), '{');
  }

  lemma RejoinHeader(n: nat, text: string, start: nat, out: string)
    requires start <= |text| && out == "a:" + (Dec(n) + ":") + text[start..]
    ensures |"a:" + (Dec(n) + ":")| <= |out| && out[|"a:" + (Dec(n) + ":")|..] == text[start..]
    ensures "a:" + (Dec(n) + ":" + text[start..]) == out
  {
  }

  lemma CountFixParts(text: string) returns (n: nat)
    requires CountFix(text).Some?
    ensures FindBody(text).Some? && CountKeys(text) == Some(n) && n >= |REQUIRED|
    ensures var b := FindBody(text).value;
            && b.0 < |text| && text[b.0] == '{' && b.0 == FindChar(text, '{')
            && b.1 <= |text| && MentionsAll(Slice(text, b.0 + 1, b.1), REQUIRED)
            && CountFix(text) == Some("a:" + (Dec(n) + ":") + text[b.0..])
  {
    hide FindBody, CountKeys, Reheader, MentionsAll, Dec, Slice, FindChar;
    n := CountKeys(text).value;
    ReheaderIs(text, n);
    FoundBraces(text);
    RejoinHeader(n, text, FindBody(text).value.0, "a:" + (Dec(n) + ":") + text[FindBody(text).value.0..]);
  }

  lemma CountFixMakes(text: string, n: nat)
    requires FindBody(text).Some? && CountKeys(text) == Some(n) && n >= |REQUIRED|
    requires FindBody(text).value.1 <= |text|
    requires MentionsAll(Slice(text, FindBody(text).value.0 + 1, FindBody(text).value.1), REQUIRED)
    ensures CountFix(text) == Some(Reheader(text, n))
  {
    hide FindBody, CountKeys, Reheader, MentionsAll, Slice;
  }

  /** Another header in front of the same braces: the same body and the same count. */
  lemma ReheadedSame(text: string, start: nat, header: string, out: string)
    requires FindBody(text).Some? && FindBody(text).value.0 == start && start < |text| && text[start] == '{'
    requires start == FindChar(text, '{') && '{' !in header && out == header + text[start..]
    ensures FindBody(out).Some? && CountKeys(out) == CountKeys(text)
    ensures var b, c := FindBody(text).value, FindBody(out).value;
            && c.0 == |header| && c.1 <= |out| && b.1 <= |text|
            && Slice(out, c.0 + 1, c.1) == Slice(text, b.0 + 1, b.1)
  {
    hide *;
    var before, inner := text[..start], text[start + 1..];
    Around(text, start);
    NoEarlier(text, start);
    SameInner(before, inner, text, header, out);
  }

  lemma Around(text: string, start: nat)
    requires start < |text| && text[start] == '{'
    ensures text == text[..start] + ("{" + text[start + 1..]) && text[start..] == "{" + text[start + 1..]
  {
  }

  lemma SameInner(before: string, inner: string, text: string, header: string, out: string)
    requires '{' !in before && '{' !in header && text == before + ("{" + inner) && out == header + ("{" + inner)
    requires FindBody(text).Some?
    ensures FindBody(out).Some? && CountKeys(out) == CountKeys(text)
    ensures var b, c := FindBody(text).value, FindBody(out).value;
            && c.0 == |header| && c.1 <= |out| && b.1 <= |text|
            && Slice(out, c.0 + 1, c.1) == Slice(text, b.0 + 1, b.1)
  {
    hide *;
    FindBodyIs(before, inner);
    FindBodyIs(header, inner);
    CountKeysOf(before, inner);
    CountKeysOf(header, inner);
    var r := ScanBody(inner, 1, false).value;
    BodyText(before, inner, r);
    BodyText(header, inner, r);
  }

  lemma NoEarlier(text: string, start: nat)
    requires start == FindChar(text, '{')
    ensures '{' !in text[..start]
  {
    hide FindChar;
  }

  lemma BodyText(header: string, inner: string, r: nat)
    requires r < |inner|
    ensures var text := header + ("{" + inner);
            Slice(text, |header| + 1, |header| + 1 + r) == inner[..r] && text[|header| + 1..] == inner
  {
  }

  // ---- Normalisation ----

  /** str.replace of a two-character pattern by one character. */
  function ReplacePair(s: string, a: char, b: char, c: char): string {
    if s == [] then []
    else if At2(s, a, b) then [c] + ReplacePair(s[2..], a, b, c)
    else [s[0]] + ReplacePair(s[1..], a, b, c)
  }

  function Unescape(s: string): string {
    ReplacePair(ReplacePair(s, '\\', '"', '"'), '\\', '\\', '\\')
  }

  /** Up to n rounds of unescaping, stopping when nothing changes. */
  function Rounds(s: string, n: nat): seq<string>
    decreases n
  {
    if n == 0 then []
    else
      var r := Unescape(s);
      if r == s then [] else [r] + Rounds(r, n - 1)
  }

  predicate HasEscapedQuote(s: string) {
    exists i :: 0 <= i < |s| - 1 && s[i] == '\\' && s[i + 1] == '"'
  }

  function Candidates(text: string): seq<string> {
    (if HasEscapedQuote(text) then Rounds(text, 3) else []) + [text]
  }

  function Attempt(text: string): Option<string> {
    if Fix(text).Some? then Fix(text) else CountFix(text)
  }

  function FirstFix(candidates: seq<string>, text: string): string {
    if candidates == [] then text
    else if Attempt(candidates[0]).Some? then Attempt(candidates[0]).value
    else FirstFix(candidates[1..], text)
  }

  function Normalize(value: string): string {
    var text := TrimRight(TrimLeft(value));
    if !Headed(text) then text else FirstFix(Candidates(text), text)
  }

  /** What is left after a read is the end of what was read. */
  lemma {:induction false} ReadLast(s: string)
    requires ReadValue(s).Done? && ReadValue(s).rest != []
    ensures ReadValue(s).rest[|ReadValue(s).rest| - 1] == s[|s| - 1]
    decreases |s|, 1
  {
    if At2(s, 'a', ':') {
      ReadArrayLast(s);
    } else if At2(s, 'O', ':') {
      ReadObjectLast(s);
    } else {
      ReadScalarLast(s);
    }
  }

  lemma ReadStringLast(s: string)
    requires ReadString(s).Done? && ReadString(s).rest != []
    ensures ReadString(s).rest[|ReadString(s).rest| - 1] == s[|s| - 1]
  {
    hide FindClose, FindChar, DecVal, AllDigits;
  }

  lemma ReadScalarLast(s: string)
    requires ReadScalar(s).Done? && ReadScalar(s).rest != []
    ensures ReadScalar(s).rest[|ReadScalar(s).rest| - 1] == s[|s| - 1]
  {
    hide ReadString, FindChar, PyInt;
    if At2(s, 's', ':') {
      ReadStringLast(s);
    }
  }

  lemma OpenBodyLast(s: string)
    requires OpenBody(s).Some? && OpenBody(s).value != []
    ensures OpenBody(s).value[|OpenBody(s).value| - 1] == s[|s| - 1]
  {
    hide FindChar, DecVal, AllDigits;
  }

  lemma ReadNameLast(s: string)
    requires ReadName(s).Some? && ReadName(s).value.1 != []
    ensures ReadName(s).value.1[|ReadName(s).value.1| - 1] == s[|s| - 1]
  {
    hide FindChar, DecVal, AllDigits;
  }

  lemma {:induction false} ReadArrayLast(s: string)
    requires ReadArray(s).Done? && ReadArray(s).rest != []
    ensures ReadArray(s).rest[|ReadArray(s).rest| - 1] == s[|s| - 1]
    decreases |s|, 0
  {
    hide OpenBody, ReadEntries;
    var body := OpenBody(s[2..]).value;
    ReadEntriesLast(body, [], 0);
    OpenBodyLast(s[2..]);
  }

  lemma {:induction false} ReadObjectLast(s: string)
    requires ReadObject(s).Done? && ReadObject(s).rest != []
    ensures ReadObject(s).rest[|ReadObject(s).rest| - 1] == s[|s| - 1]
    decreases |s|, 0
  {
    hide OpenBody, ReadName, ReadEntries;
    var name := ReadName(s[2..]).value.1;
    var body := OpenBody(name).value;
    ReadEntriesLast(body, [], 0);
    OpenBodyLast(name);
    ReadNameLast(s[2..]);
  }

  lemma {:induction false} ReadEntriesLast(s: string, es: seq<Entry>, count: nat)
    requires ReadEntries(s, es, count).Done? && ReadEntries(s, es, count).rest != []
    ensures ReadEntries(s, es, count).rest[|ReadEntries(s, es, count).rest| - 1] == s[|s| - 1]
    decreases |s|, 2
  {
    hide ReadValue, ReadString, Put;
    if !At(s, '}') {
      var p := ReadPair(s);
      var put, next := Put(es, p.value.0, p.value.1), count + 1;
      ReadEntriesLast(p.rest, put, next);
      ReadLast(ReadString(s).rest);
      ReadStringLast(s);
    }
  }

  // ---- Normalising twice ----

  predicate EndsPlain(s: string) {
    s != [] && !IsTextBlank(s[|s| - 1])
  }

  lemma {:induction false} ReplaceEnds(s: string, a: char, b: char, c: char)
    requires EndsPlain(s) && !IsTextBlank(c)
    ensures EndsPlain(ReplacePair(s, a, b, c))
    decreases |s|
  {
    if At2(s, a, b) {
      if |s| > 2 {
        ReplaceEnds(s[2..], a, b, c);
      }
    } else if |s| > 1 {
      ReplaceEnds(s[1..], a, b, c);
    }
  }

  lemma {:induction false} RoundsEnd(s: string, n: nat, k: nat)
    requires EndsPlain(s) && k < |Rounds(s, n)|
    ensures EndsPlain(Rounds(s, n)[k])
    decreases n
  {
    hide ReplacePair;
    var r := Unescape(s);
    ReplaceEnds(s, '\\', '"', '"');
    ReplaceEnds(ReplacePair(s, '\\', '"', '"'), '\\', '\\', '\\');
    if k > 0 {
      RoundsEnd(r, n - 1, k - 1);
    }
  }

  /** Unescaping never leaves a blank at the end. */
  lemma CandidatesEnd(text: string, k: nat)
    requires EndsPlain(text) && k < |Candidates(text)|
    ensures EndsPlain(Candidates(text)[k])
  {
    hide Unescape, HasEscapedQuote;
    if k < |Candidates(text)| - 1 {
      RoundsEnd(text, 3, k);
    }
  }

  /** A strict repair starts with a header and does not end in a blank. */
  lemma FixEnds(c: string)
    requires EndsPlain(c) && Fix(c).Some?
    ensures var out := Fix(c).value;
            Headed(out) && EndsPlain(out) && !IsTextBlank(out[0])
  {
    hide ReadArray, ReadObject, PrintEntries, Dec;
    var r := Parse(c);
    if r.rest != [] {
      if At2(c, 'a', ':') {
        ReadArrayLast(c);
      } else {
        ReadObjectLast(c);
      }
    }
  }

  lemma CountFixEnds(c: string)
    requires EndsPlain(c) && CountFix(c).Some?
    ensures var out := CountFix(c).value;
            Headed(out) && EndsPlain(out) && !IsTextBlank(out[0])
  {
    hide FindBody, CountKeys, Dec, Reheader, MentionsAll;
    ReheaderIs(c, CountKeys(c).value);
    FoundBraces(c);
  }

  /** A text with a header, no blank at either end and no escaped quote has itself as its only
      candidate. */
  lemma NormalizeAlone(out: string)
    requires Headed(out) && EndsPlain(out) && !IsTextBlank(out[0]) && !HasEscapedQuote(out)
    ensures Normalize(out) == if Attempt(out).Some? then Attempt(out).value else out
  {
    hide Attempt, HasEscapedQuote, TrimLeft, TrimRight;
    TrimNothing(out);
    assert Candidates(out) == [out];
    FirstFixIs([out], out, if Attempt(out).Some? then 0 else 1);
  }

  lemma {:induction false} FirstFixIs(candidates: seq<string>, text: string, k: nat)
    requires k <= |candidates| && forall j :: 0 <= j < k ==> Attempt(candidates[j]).None?
    requires k < |candidates| ==> Attempt(candidates[k]).Some?
    ensures FirstFix(candidates, text) == if k < |candidates| then Attempt(candidates[k]).value else text
  {
    hide Attempt;
    if k > 0 {
      FirstFixIs(candidates[1..], text, k - 1);
    }
  }

  /** k is the first candidate of the text that can be repaired, or the number of candidates. */
  ghost predicate FirstRepaired(text: string, k: nat) {
    var cs := Candidates(text);
    && k <= |cs|
    && (forall j :: 0 <= j < k ==> Attempt(cs[j]).None?)
    && (k < |cs| ==> Attempt(cs[k]).Some?)
  }

  lemma TrimmedEnds(value: string)
    ensures var text := TrimRight(TrimLeft(value));
            text != [] ==> EndsPlain(text)
  {
    TrimRightEnd(TrimLeft(value));
  }

  /** Normalising is a fixed point on its strict path, escaped input included: when the first
      candidate that can be repaired is repaired strictly and the result holds no escaped quote,
      normalising that result returns it. */
  lemma {:induction false} NormalizeFixedPoint(value: string, k: nat)
    requires var text := TrimRight(TrimLeft(value));
             && Headed(text) && FirstRepaired(text, k) && k < |Candidates(text)|
             && Fix(Candidates(text)[k]).Some? && !HasEscapedQuote(Fix(Candidates(text)[k]).value)
    ensures Normalize(value) == Fix(Candidates(TrimRight(TrimLeft(value)))[k]).value
    ensures Normalize(Normalize(value)) == Normalize(value)
  {
    hide Fix, CountFix, Candidates, HasEscapedQuote, TrimLeft, TrimRight;
    var text := TrimRight(TrimLeft(value));
    var c := Candidates(text)[k];
    TrimmedEnds(value);
    CandidatesEnd(text, k);
    FirstFixIs(Candidates(text), text, k);
    FixEnds(c);
    FixIdempotent(c);
    NormalizeAlone(Fix(c).value);
  }

  /** A session text that nothing can repair is only trimmed, once. */
  lemma {:induction false} NormalizeRefused(value: string)
    requires var text := TrimRight(TrimLeft(value));
             Headed(text) && FirstRepaired(text, |Candidates(text)|)
    ensures Normalize(value) == TrimRight(TrimLeft(value)) && Normalize(Normalize(value)) == Normalize(value)
  {
    hide Attempt, Candidates, TrimLeft, TrimRight, Headed;
    var text := TrimRight(TrimLeft(value));
    TrimTwice(value);
    FirstFixIs(Candidates(text), text, |Candidates(text)|);
  }

  lemma TrimTwice(value: string)
    ensures var text := TrimRight(TrimLeft(value));
            TrimRight(TrimLeft(text)) == text
  {
    var text := TrimRight(TrimLeft(value));
    TrimRightEnd(TrimLeft(value));
    TrimLeftStart(value);
    TrimRightStart(TrimLeft(value));
    if text != [] {
      TrimNothing(text);
    }
  }
}
