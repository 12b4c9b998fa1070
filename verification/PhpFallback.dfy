/** What the count repair is for, and when normalising its result once more changes it. */
module PhpFallback {
  import opened Options
  import opened Text
  import opened PhpText
  import opened PhpCodec
  import opened PhpWire
  import opened PhpScan
  import opened PhpCount
  import opened PhpSession
  import opened PhpEscapes

  // ---- Bodies the strict reader cannot read ----

  /** The reader fails on this field whatever follows: a blank before its key or its value, an
      integer key, a value of a kind it does not know (floats, which it knows, aside), or an
      integer that is not one. */
  predicate Unread(f: Field) {
    || f.keyGap != "" || f.valueGap != "" || f.key.NumberKey? || UnreadContent(f.content)
  }

  predicate UnreadContent(c: Content) {
    || (c.Opaque? && !Tagged(c.text, "sibdaO") && c.text != "N")
    || (c.Opaque? && Tagged(c.text, "i") && PyInt(c.text[2..]).None?)
    || (c.Braced? && Tagged(c.head, "C"))
  }

  /** Text of a field and what follows it. */
  lemma FieldText(f: Field, rest: string) returns (mid: string)
    ensures mid == f.valueGap + (RenderContent(f.content) + rest)
    ensures RenderLead(f) + (RenderContent(f.content) + rest) == f.keyGap + (RenderKey(f.key) + mid)
  {
    hide RenderKey, RenderContent;
    mid := f.valueGap + (RenderContent(f.content) + rest);
  }

  /** The reader fails at the first such field, whatever stands around it. */
  lemma UnreadPair(f: Field, rest: string)
    requires Unread(f) && FieldOk(f)
    ensures var text := RenderLead(f) + (RenderContent(f.content) + rest);
            ReadPair(text).Fail? && !At(text, '}')
  {
    hide FindClose, FindChar, ReadString, ReadValue, RenderLead, RenderContent, GoodLength, ContentOk, UnreadContent;
    var mid := FieldText(f, rest);
    if f.keyGap != "" {
      GapFails(f.keyGap, RenderKey(f.key) + mid);
    } else if f.key.NumberKey? {
      assert "" + (RenderKey(f.key) + mid) == RenderKey(f.key) + mid;
      NumberFails(f.key, mid);
    } else {
      assert "" + (RenderKey(f.key) + mid) == RenderKey(f.key) + mid;
      ReadGoodString(f.key.declared, f.key.s, mid);
      StartsAsString(f.key.declared, f.key.s, mid);
      if f.valueGap != "" {
        GapFails(f.valueGap, RenderContent(f.content) + rest);
      } else {
        assert mid == RenderContent(f.content) + rest;
        UnreadValue(f.content, rest);
      }
    }
  }

  /** A blank is the start of nothing the reader knows. */
  lemma GapFails(gap: string, rest: string)
    requires Gaps(gap) && gap != []
    ensures var text := gap + rest;
            ReadString(text).Fail? && ReadValue(text).Fail? && !At(text, '}')
  {
    hide ReadArray, ReadObject, PyInt, FindChar, FindClose;
    assert (gap + rest)[0] == gap[0];
  }

  lemma NumberFails(k: Key, rest: string)
    requires k.NumberKey?
    ensures var text := RenderKey(k) + rest;
            ReadString(text).Fail? && !At(text, '}')
  {
    hide FindChar, FindClose;
    assert (RenderKey(k) + rest)[0] == 'i';
  }

  lemma UnreadValue(c: Content, rest: string)
    requires ContentOk(c) && UnreadContent(c)
    ensures ReadValue(RenderContent(c) + rest).Fail?
  {
    hide Walk, ReadValue, PyInt;
    var s := RenderContent(c) + rest;
    if c.Braced? {
      assert s[0] == 'C';
      UnknownTag(s);
    } else if Tagged(c.text, "i") {
      BadInteger(c.text, rest);
    } else {
      assert |c.text| >= 2 ==> s[0] == c.text[0] && s[1] == c.text[1];
      assert |c.text| == 1 ==> s[0] == c.text[0] && s[1] == ';';
      assert |c.text| == 0 ==> s[0] == ';';
      UnknownTag(s);
    }
  }

  lemma UnknownTag(s: string)
    requires !Tagged(s, "sibaO") && !At2(s, 'N', ';')
    ensures ReadValue(s).Fail?
  {
    hide ReadArray, ReadObject, ReadString, PyInt, FindChar;
  }

  lemma BadInteger(text: string, rest: string)
    requires Tagged(text, "i") && ';' !in text && PyInt(text[2..]).None?
    ensures ReadValue(text + ";" + rest).Fail?
  {
    hide ReadArray, ReadObject, ReadString, PyInt, ReadUntil;
    assert text == "i:" + text[2..];
    ReadRenderScalar("i:", text[2..], rest);
    assert text + ";" + rest == "i:" + (text[2..] + ";") + rest;
    assert (text + ";" + rest)[0] == 'i' && (text + ";" + rest)[1] == ':';
  }

  /** Entries the strict reader cannot get past, or blanks behind the last one. */
  predicate Blocked(fields: seq<Field>, trail: string) {
    if fields == [] then trail != "" else Unread(fields[0])
  }

  lemma BlockedEntries(fields: seq<Field>, trail: string, tail: string, es: seq<Entry>, count: nat)
    requires Blocked(fields, trail) && FieldsOk(fields) && Gaps(trail)
    ensures ReadEntries(RenderFields(fields, trail) + ("}" + tail), es, count).Fail?
  {
    hide ReadString, ReadValue, Unread, FieldOk, RenderLead, RenderContent;
    var text := RenderFields(fields, trail) + ("}" + tail);
    if fields == [] {
      GapFails(trail, "}" + tail);
    } else {
      Regroup(RenderLead(fields[0]), RenderContent(fields[0].content), RenderFields(fields[1..], trail), "}" + tail);
      hide ReadPair, RenderFields;
      UnreadPair(fields[0], RenderFields(fields[1..], trail) + ("}" + tail));
    }
  }

  /** Some readable items, and then entries that block the reader. */
  function Mixed(items: seq<Item>, fields: seq<Field>, trail: string): string {
    RenderItems(items) + RenderFields(fields, trail)
  }

  lemma MixedFirst(items: seq<Item>, fields: seq<Field>, trail: string, tail: string) returns (after: string)
    requires items != []
    ensures after == Mixed(items[1..], fields, trail) + ("}" + tail)
    ensures Mixed(items, fields, trail) + ("}" + tail) ==
            RenderStr(items[0].declared, items[0].key) + (Render(items[0].value) + after)
  {
    hide Render, RenderStr, RenderFields;
    after := Mixed(items[1..], fields, trail) + ("}" + tail);
    var k, v := RenderStr(items[0].declared, items[0].key), Render(items[0].value);
    assert Mixed(items, fields, trail) == k + (v + Mixed(items[1..], fields, trail));
    Regroup(k, v, Mixed(items[1..], fields, trail), "}" + tail);
  }

  /** A pair that fails stops the entry loop; otherwise the loop fails if its rest does. */
  lemma EntriesFailing(text: string, es: seq<Entry>, count: nat, next: nat)
    requires !At(text, '}') && next == count + 1
    ensures ReadPair(text).Fail? ==> ReadEntries(text, es, count).Fail?
    ensures var p := ReadPair(text);
            p.Done? && (forall put :: ReadEntries(p.rest, put, next).Fail?) ==> ReadEntries(text, es, count).Fail?
  {
    hide ReadPair;
    var p := ReadPair(text);
    if p.Done? {
      var put := Put(es, p.value.0, p.value.1);
    }
  }

  lemma PairRead(text: string, k: Read<string>, v: Read<Value>)
    requires ReadString(text) == k && k.Done? && ReadValue(k.rest) == v && v.Done?
    ensures ReadPair(text).Done? && ReadPair(text).rest == v.rest
  {
  }

  lemma {:induction false} MixedFails(items: seq<Item>, fields: seq<Field>, trail: string, tail: string,
                                      es: seq<Entry>, count: nat)
    requires ReadableItems(items) && Blocked(fields, trail) && FieldsOk(fields) && Gaps(trail)
    ensures ReadEntries(Mixed(items, fields, trail) + ("}" + tail), es, count).Fail?
    decreases |items|
  {
    hide ReadEntries, ReadPair, ReadString, ReadValue, Render, RenderStr, RenderFields, Blocked, FieldsOk, Mixed,
        Readable, GoodLength, Gaps;
    var text, next := Mixed(items, fields, trail) + ("}" + tail), count + 1;
    if items == [] {
      BlockedEntries(fields, trail, tail, es, count);
      MixedNone(items, fields, trail);
    } else {
      var i, more := items[0], items[1..];
      var after := MixedFirst(items, fields, trail, tail);
      var mid := Render(i.value) + after;
      ReadGoodString(i.declared, i.key, mid);
      StartsAsString(i.declared, i.key, mid);
      ReadRender(i.value, after);
      PairRead(text, ReadString(text), ReadValue(mid));
      forall put
        ensures ReadEntries(after, put, next).Fail?
      {
        MixedFails(more, fields, trail, tail, put, next);
      }
      EntriesFailing(text, es, count, next);
    }
  }

  lemma MixedNone(items: seq<Item>, fields: seq<Field>, trail: string)
    requires items == []
    ensures Mixed(items, fields, trail) == RenderFields(fields, trail)
  {
  }

  /** The header of a container that promises entries to the reader. */
  ghost predicate HeaderOk(w: Wire) {
    (w.WArr? || w.WObj?) && w.items == [] && Readable(w) && '{' !in Header(w)
  }

  /** Behind a readable header the reader reads the entries. */
  lemma HeaderReads(w: Wire, inner: string)
    requires HeaderOk(w)
    ensures Parse(Header(w) + ("{" + inner)) == Raise(ReadEntries(inner, [], 0), false, w.WObj?)
  {
    hide ReadEntries, Parse;
    if w.WArr? {
      assert Header(w) + ("{" + inner) == "a:" + (w.count + ":" + ("{" + inner));
      ArrayHeaderReads(w.count, inner);
    } else {
      assert Header(w) + ("{" + inner) == "O:" + ObjectHead(w.nameLength, w.name, w.count, inner);
      ObjectHeaderReads(w, inner);
    }
  }

  lemma ArrayHeaderReads(count: string, inner: string)
    requires AllDigits(count)
    ensures Parse("a:" + (count + ":" + ("{" + inner))) == ReadEntries(inner, [], 0)
  {
    hide ReadEntries, OpenBody, Expect2;
    ExpectToken2('a', ':', count + ":" + ("{" + inner));
    OpenBodyAt(count, inner);
  }

  lemma ObjectHeaderReads(w: Wire, inner: string)
    requires w.WObj? && HeaderOk(w)
    ensures Parse("O:" + ObjectHead(w.nameLength, w.name, w.count, inner)) ==
            Raise(ReadEntries(inner, [], 0), false, true)
  {
    hide ReadEntries, OpenBody, Expect2, ReadName;
    var after, head := w.count + ":" + ("{" + inner), ObjectHead(w.nameLength, w.name, w.count, inner);
    ExpectToken2('O', ':', head);
    ReadNameAt(w.nameLength, w.name, after);
    OpenBodyAt(w.count, inner);
    ReadObjectSteps("O:" + head, head, w.name, after, inner, ReadEntries(inner, [], 0));
  }

  /** What the fallback is for: when the entries hold a blank, an integer key or a foreign value,
      the strict repair refuses, and what is left is exactly the count repair, which then writes
      the number of entries over the unchanged body. */
  lemma {:induction false} FallbackRepairs(w: Wire, items: seq<Item>, fields: seq<Field>, trail: string, tail: string)
    requires HeaderOk(w) && ReadableItems(items) && ClearItems(items)
    requires Blocked(fields, trail) && FieldsOk(fields) && Gaps(trail)
    requires Walk(Mixed(items, fields, trail), 1, false) == Some((1, false))
    ensures var body, n := Mixed(items, fields, trail), |items| + |fields|;
            && Fix(Whole(Header(w), body, tail)).None?
            && Attempt(Whole(Header(w), body, tail)) ==
                 if NamesStand(body) && n >= 4
                     then Some(Whole("a:" + (Dec(n) + ":"), body, tail)) else None
  {
    hide ReadEntries, Parse, CountFix, Walk, Mixed, Blocked, NamesStand, Header, Clear, FieldOk, Gaps;
    var body := Mixed(items, fields, trail);
    MixedFails(items, fields, trail, tail, [], 0);
    HeaderReads(w, body + ("}" + tail));
    WireFieldsOk(items);
    MixedFields(items, fields, trail);
    CountFixExact(Header(w), FieldsOf(items) + fields, trail, tail);
  }

  lemma {:induction false} MixedFields(items: seq<Item>, fields: seq<Field>, trail: string)
    ensures RenderFields(FieldsOf(items) + fields, trail) == Mixed(items, fields, trail)
  {
    FieldsJoin(FieldsOf(items), fields, trail);
    FieldsRender(items);
  }

  lemma {:induction false} FieldsJoin(a: seq<Field>, b: seq<Field>, trail: string)
    ensures RenderFields(a + b, trail) == RenderFields(a, "") + RenderFields(b, trail)
  {
    hide RenderLead, RenderContent;
    if a == [] {
      assert a + b == b;
    } else {
      assert (a + b)[1..] == a[1..] + b;
      FieldsJoin(a[1..], b, trail);
    }
  }

  // ---- Normalising the result once more ----

  /** What follows the first opening brace. */
  function Inside(c: string): string {
    var i := FindChar(c, '{');
    if i < 0 then "" else c[i + 1..]
  }

  /** The reader gets through the entries behind the first opening brace, and none of the
      required ones is missing. */
  predicate Usable(c: string) {
    var r := ReadEntries(Inside(c), [], 0);
    r.Done? && HasAll(r.value.entries, REQUIRED)
  }

  /** What stands before the first opening brace is the header of an array or an object. */
  ghost predicate ReadableHeader(c: string) {
    exists w: Wire :: HeaderOk(w) && c == Header(w) + ("{" + Inside(c))
  }

  /** The entries behind the first opening brace stand there as they would be printed. */
  ghost predicate PrintedAs(c: string, es: seq<Entry>, rest: string) {
    WellFormedEntries(es) && Inside(c) == PrintEntries(es) + ("}" + rest) && CountKeys(c) == Some(|es|)
  }

  ghost predicate CanonicalBody(c: string) {
    exists es: seq<Entry>, rest: string :: PrintedAs(c, es, rest)
  }

  /** A text with a readable header that the strict repair refuses has no usable entries. */
  lemma ReadableRefused(c: string)
    requires ReadableHeader(c) && Fix(c).None?
    ensures !Usable(c)
  {
    hide ReadEntries, Parse, Header, Inside, HasAll, Readable;
    var w: Wire :| HeaderOk(w) && c == Header(w) + ("{" + Inside(c));
    HeaderReads(w, Inside(c));
  }

  /** The result of the count repair: a new header in front of the same entries. */
  lemma CountFixInside(c: string) returns (n: nat)
    requires CountFix(c).Some?
    ensures CountKeys(c) == Some(n) && '\\' !in "a:" + (Dec(n) + ":")
    ensures CountFix(c) == Some("a:" + (Dec(n) + ":") + ("{" + Inside(c)))
    ensures Parse(CountFix(c).value) == ReadEntries(Inside(c), [], 0)
  {
    hide FindBody, FindChar, CountKeys, Reheader, MentionsAll, CountFix, Dec, Parse, ReadEntries;
    n := CountFixParts(c);
    var start := FindBody(c).value.0;
    Around(c, start);
    DigitsPlain(Dec(n), '\\');
    assert "a:" + (Dec(n) + ":") + ("{" + Inside(c)) == "a:" + (Dec(n) + ":" + ("{" + Inside(c)));
    ArrayHeaderReads(Dec(n), Inside(c));
  }

  lemma SameHeader(m: nat, n: nat, s: string, t: string)
    requires "a:" + (Dec(m) + ":") + s == "a:" + (Dec(n) + ":") + t
    ensures m == n && s == t
  {
    hide Dec, ReadDigits;
    var a, b := Dec(m) + ":" + s, Dec(n) + ":" + t;
    assert a == ("a:" + (Dec(m) + ":") + s)[2..];
    assert b == ("a:" + (Dec(n) + ":") + t)[2..];
    ReadDigitsAt(Dec(m), s);
    ReadDigitsAt(Dec(n), t);
  }

  lemma PrintHeader(es: seq<Entry>, rest: string)
    ensures Print(Arr(es)) + rest == "a:" + (Dec(|es|) + ":") + ("{" + (PrintEntries(es) + ("}" + rest)))
  {
    hide PrintEntries, Dec;
  }

  /** The strict repair takes the result exactly when the entries are usable, and then returns it
      exactly when they are printed canonically and counted right. */
  lemma {:induction false} RepairedAgainIff(c: string)
    requires CountFix(c).Some?
    ensures var out := CountFix(c).value;
            && (Fix(out).Some? <==> Usable(c))
            && (Fix(out).Some? ==> (Fix(out).value == out <==> CanonicalBody(c)))
  {
    hide CountFix, CountKeys, Parse, ReadEntries, Inside, HasAll, Print, PrintEntries, Dec, WellFormedEntries;
    var n := CountFixInside(c);
    if Usable(c) {
      var r := ReadEntries(Inside(c), [], 0);
      var es, out := r.value.entries, CountFix(c).value;
      PrintHeader(es, r.rest);
      ParseWellFormed(out);
      if Fix(out).value == out {
        SameHeader(|es|, n, "{" + (PrintEntries(es) + ("}" + r.rest)), "{" + Inside(c));
        Behind(PrintEntries(es) + ("}" + r.rest), Inside(c));
        assert PrintedAs(c, es, r.rest);
      }
      if CanonicalBody(c) {
        var fs: seq<Entry>, rest: string :| PrintedAs(c, fs, rest);
        PrintHeader(fs, rest);
        RoundTrip(fs, rest);
      }
    }
  }

  lemma Behind(s: string, t: string)
    requires "{" + s == "{" + t
    ensures s == t
  {
    assert ("{" + s)[1..] == s && ("{" + t)[1..] == t;
  }

  // ---- Unescaping behind a header ----

  lemma UnescapeBehind(pre: string, rest: string)
    requires '\\' !in pre
    ensures Unescape(pre + rest) == pre + Unescape(rest)
  {
    hide ReplacePair;
    ReplaceSkips(pre, rest, '"', '"');
    ReplaceSkips(pre, ReplacePair(rest, '\\', '"', '"'), '\\', '\\');
  }

  lemma {:induction false} RoundsBehind(pre: string, rest: string, n: nat)
    requires '\\' !in pre
    ensures |Rounds(pre + rest, n)| == |Rounds(rest, n)|
    ensures forall j :: 0 <= j < |Rounds(rest, n)| ==> Rounds(pre + rest, n)[j] == pre + Rounds(rest, n)[j]
    decreases n
  {
    hide Unescape;
    if n > 0 {
      var r := Unescape(rest);
      UnescapeBehind(pre, rest);
      assert (pre + r)[|pre|..] == r && (pre + rest)[|pre|..] == rest;
      RoundsBehind(pre, r, n - 1);
    }
  }

  lemma EscapesBehind(pre: string, rest: string)
    requires '\\' !in pre
    ensures HasEscapedQuote(pre + rest) <==> HasEscapedQuote(rest)
  {
    if HasEscapedQuote(rest) {
      var i :| 0 <= i < |rest| - 1 && rest[i] == '\\' && rest[i + 1] == '"';
      assert (pre + rest)[|pre| + i] == '\\' && (pre + rest)[|pre| + i + 1] == '"';
    }
    if HasEscapedQuote(pre + rest) {
      var i :| 0 <= i < |pre + rest| - 1 && (pre + rest)[i] == '\\' && (pre + rest)[i + 1] == '"';
      assert forall k :: 0 <= k < |pre| ==> (pre + rest)[k] != '\\';
      assert rest[i - |pre|] == '\\' && rest[i - |pre| + 1] == '"';
    }
  }

  /** Escapes in the entries alone decide the candidates. */
  lemma CandidatesBehind(pre: string, rest: string)
    requires '\\' !in pre
    ensures |Candidates(pre + rest)| == |Candidates(rest)|
    ensures forall j :: 0 <= j < |Candidates(rest)| ==> Candidates(pre + rest)[j] == pre + Candidates(rest)[j]
  {
    hide Rounds, HasEscapedQuote;
    RoundsBehind(pre, rest, 3);
    EscapesBehind(pre, rest);
  }

  // ---- When a second normalisation changes nothing ----

  /** None of the unescaped forms of the entries can be repaired behind the right count. */
  ghost predicate FormsRefused(c: string) {
    var n, body := CountKeys(c), "{" + Inside(c);
    n.Some? ==>
      forall j :: 0 <= j < |Candidates(body)| - 1 ==>
        Attempt("a:" + (Dec(n.value) + ":") + Candidates(body)[j]).None?
  }

  /** The result of the count repair is a fixed point if and only if no unescaped form of its
      entries can be repaired and the header was readable, or the entries are unusable, or they
      were canonical already. */
  lemma {:induction false} CountFixFixedIff(c: string)
    requires EndsPlain(c) && Fix(c).None? && CountFix(c).Some?
    ensures var out := CountFix(c).value;
            Normalize(out) == out <==>
              FormsRefused(c) && (ReadableHeader(c) || !Usable(c) || CanonicalBody(c))
  {
    hide Fix, CountFix, CountKeys, Candidates, Normalize, ReadableHeader, Usable, CanonicalBody, Inside, Parse, Dec;
    var out := CountFix(c).value;
    var n := CountFixInside(c);
    CountFixEnds(c);
    CountFixIdempotent(c);
    NormalizeFixedIff(out);
    CandidatesBehind("a:" + (Dec(n) + ":"), "{" + Inside(c));
    RepairedAgainIff(c);
    if ReadableHeader(c) {
      ReadableRefused(c);
    }
  }

  /** So for any input whose first repairable form takes the fallback: normalising it twice is
      normalising it once under that condition on the form, and never otherwise. */
  lemma {:induction false} NormalizeFallbackIff(value: string, k: nat)
    requires var text := TrimRight(TrimLeft(value));
             && Headed(text) && FirstRepaired(text, k) && k < |Candidates(text)| && Fix(Candidates(text)[k]).None?
    ensures var c := Candidates(TrimRight(TrimLeft(value)))[k];
            && CountFix(c) == Some(Normalize(value))
            && (Normalize(Normalize(value)) == Normalize(value) <==>
                  FormsRefused(c) && (ReadableHeader(c) || !Usable(c) || CanonicalBody(c)))
  {
    hide Fix, CountFix, Candidates, FormsRefused, ReadableHeader, Usable, CanonicalBody, TrimLeft, TrimRight;
    var text := TrimRight(TrimLeft(value));
    var c := Candidates(text)[k];
    TrimmedEnds(value);
    CandidatesEnd(text, k);
    FirstFixIs(Candidates(text), text, k);
    CountFixFixedIff(c);
  }

  // ---- Sessions it does change ----

  /** A count that is none. */
  predicate NoCount(count: string) {
    !AllDigits(count) && ':' !in count && '{' !in count && '\\' !in count
  }

  lemma NoCountFails(count: string, rest: string)
    requires NoCount(count)
    ensures var header := "a:" + (count + ":");
            Fix(header + rest).None? && Headed(header + rest) && '{' !in header && '\\' !in header
  {
    hide ReadEntries, FindChar, DecVal, AllDigits;
    var s := count + [':'] + rest;
    assert "a:" + (count + ":") + rest == "a:" + s;
    ExpectToken2('a', ':', s);
    ReadUntilAt(count, ':', rest);
  }

  /** Every key of the items is mentioned in their text. */
  lemma {:induction false} ItemsMention(pre: string, items: seq<Item>, i: nat)
    requires i < |items|
    ensures Contains(pre + RenderItems(items), "\"" + items[i].key + "\"")
    decreases items
  {
    hide Contains, Render;
    var f := items[0];
    var k, v, rest := RenderStr(f.declared, f.key), Render(f.value), RenderItems(items[1..]);
    if i == 0 {
      var before, after := pre + ("s:" + (f.declared + ":")), ";" + (v + rest);
      ContainsInside(before, "\"" + f.key + "\"", after);
      assert pre + RenderItems(items) == before + ("\"" + f.key + "\"" + after);
    } else {
      ItemsMention(pre + (k + v), items[1..], i - 1);
      assert pre + RenderItems(items) == pre + (k + v) + rest;
    }
  }

  lemma {:induction false} PutAllKeys(es: seq<Entry>, items: seq<Item>, key: string) returns (i: int)
    requires HasKey(PutAll(es, items), key)
    ensures HasKey(es, key) || (0 <= i < |items| && items[i].key == key)
    ensures |PutAll(es, items)| <= |es| + |items|
    decreases items
  {
    i := -1;
    if items != [] {
      var put, rest := Put(es, items[0].key, Meaning(items[0].value)), items[1..];
      PutKeys(es, items[0].key, Meaning(items[0].value), key);
      PutGrows(es, items[0].key, Meaning(items[0].value));
      i := PutAllKeys(put, rest, key);
      i := if HasKey(put, key) then 0 else i + 1;
    }
  }

  lemma {:induction false} PutGrows(es: seq<Entry>, key: string, v: Value)
    ensures |Put(es, key, v)| <= |es| + 1
  {
    if es != [] && es[0].key != key {
      PutGrows(es[1..], key, v);
    }
  }

  /** Four required names take four entries. */
  lemma FourNames(es: seq<Entry>)
    requires HasAll(es, REQUIRED)
    ensures |es| >= |REQUIRED|
  {
    FirstLetters();
    assert HasKey(es, REQUIRED[0]) && HasKey(es, REQUIRED[1]) && HasKey(es, REQUIRED[2]) && HasKey(es, REQUIRED[3]);
  }

  /** Complete readable items, some declared length of which is wrong or some key repeated. */
  ghost predicate Stained(items: seq<Item>) {
    && ReadableItems(items) && |items| <= MAX_ENTRIES && ClearItems(items)
    && Walk(RenderItems(items), 1, false) == Some((1, false))
    && HasAll(PutAll([], items), REQUIRED)
    && (ItemsNeedRepair(items) || |PutAll([], items)| != |items|)
  }

  lemma StainedMention(items: seq<Item>)
    requires HasAll(PutAll([], items), REQUIRED)
    ensures NamesStand(RenderItems(items)) && |items| >= |REQUIRED|
  {
    hide Contains, RenderItems, PutAll, Occurs, NamesStand;
    var es := PutAll([], items);
    FourNames(es);
    forall j | 0 <= j < |REQUIRED|
      ensures Contains(RenderItems(items), "\"" + REQUIRED[j] + "\"")
    {
      assert HasKey(es, REQUIRED[j]);
      var i := PutAllKeys([], items, REQUIRED[j]);
      ItemsMention("", items, i);
      assert "" + RenderItems(items) == RenderItems(items);
    }
    var i := PutAllKeys([], items, es[0].key);
    MentionsIff(RenderItems(items));
  }

  /** Behind a count that is none such items are counted first and repaired only when
      normalised again. */
  lemma {:induction false} NormalizedTwice(count: string, items: seq<Item>, tail: string)
    requires var text := Whole("a:" + (count + ":"), RenderItems(items), tail);
             NoCount(count) && Stained(items) && EndsPlain(text) && !HasEscapedQuote(text)
    ensures var text := Whole("a:" + (count + ":"), RenderItems(items), tail);
            && Normalize(text) == Whole("a:" + (Dec(|items|) + ":"), RenderItems(items), tail)
            && Normalize(Normalize(text)) == Print(Arr(PutAll([], items))) + tail != Normalize(text)
  {
    hide NoCount, Walk, RenderItems, ReadableItems, ClearItems, ItemsNeedRepair, PutAll, HasAll, HasEscapedQuote,
        EndsPlain, Fix, CountFix, Normalize, Dec, Print, NamesStand, Headed;
    var header, body, n := "a:" + (count + ":"), RenderItems(items), |items|;
    var text := Whole(header, body, tail);
    var inner, out := "{" + (body + ("}" + tail)), Whole("a:" + (Dec(n) + ":"), body, tail);
    NoCountFails(count, inner);
    WireFieldsOk(items);
    FieldsRender(items);
    StainedMention(items);
    CountFixExact(header, FieldsOf(items), "", tail);
    CountFixEnds(text);
    StartsPlain(text);
    NormalizeAlone(text);
    StainedAgain(items, tail, out);
    EscapesBehind(header, inner);
    DigitsPlain(Dec(n), '\\');
    EscapesBehind("a:" + (Dec(n) + ":"), inner);
    NormalizeAlone(out);
  }

  lemma StartsPlain(text: string)
    requires Headed(text)
    ensures text != [] && !IsTextBlank(text[0])
  {
  }

  /** With the right count in front the strict repair takes them, and changes them. */
  lemma StainedAgain(items: seq<Item>, tail: string, out: string)
    requires Stained(items) && out == Whole("a:" + (Dec(|items|) + ":"), RenderItems(items), tail)
    ensures Fix(out) == Some(Print(Arr(PutAll([], items))) + tail) && Fix(out).value != out
  {
    hide RenderItems, ReadableItems, ClearItems, Walk, ItemsNeedRepair, PutAll, HasAll, Print, Parse, Dec,
        WellFormedEntries;
    var w, es := WArr(Dec(|items|), items), PutAll([], items);
    var header, body := ContainerText(w, tail);
    ParseRender(w, tail);
    ParseWellFormed(out);
    RoundTrip(es, tail);
    if Fix(out).value == out {
      PrintHeader(es, tail);
      SameHeader(|es|, |items|, "{" + (PrintEntries(es) + ("}" + tail)), "{" + (body + ("}" + tail)));
    }
  }

  /** Such a session: its count is no number and its first payload is longer than declared. */
  function StaleItems(): seq<Item> {
    [Item(Dec(10), "session_id", WStr("1", "ab")), Item(Dec(10), "ip_address", WNull),
     Item(Dec(10), "user_agent", WNull), Item(Dec(13), "last_activity", WNull)]
  }

  lemma StaleRest()
    ensures StaleItems()[1..] == CanonItems(NullFields())
    ensures StaleItems() == [StaleItems()[0]] + CanonItems(NullFields())
  {
    hide Dec;
    var es := NullFields();
    assert |es[0].key| == 10 && |es[1].key| == 10 && |es[2].key| == 13;
    assert es[1..][1..][1..] == [];
  }

  lemma StaleFirst()
    ensures GoodLength(Dec(10), "session_id") && GoodLength("1", "ab") && Stale("1", "ab")
  {
    hide Dec;
    assert |"session_id"| == 10 && "1"[..0] == "" && DecVal("1") == 1;
    assert !HasClose("ab");
  }

  lemma StaleReadable()
    ensures ReadableItems(StaleItems()) && PutAll([], StaleItems()) == [Entry("session_id", Str("ab"))] + NullFields()
    ensures ItemsNeedRepair(StaleItems())
  {
    hide Dec, CanonItems, GoodLength, Stale;
    var first := Entry("session_id", Str("ab"));
    StaleRest();
    StaleFirst();
    SessionKeys(Str("ab"));
    RestFormed(first, NullFields());
    CanonItemsReadable(NullFields(), [first]);
    FirstMeans(WArr("4", StaleItems()));
  }

  lemma StalePlain()
    ensures PlainItems(StaleItems())
  {
    hide Dec;
  }

  lemma StaleClean()
    ensures '\\' !in RenderItems(StaleItems())
  {
    hide Dec, PrintEntries, CanonItems, Slashes, RenderItems, StaleItems, NullFields;
    var k, v, rest := RenderStr(Dec(10), "session_id"), RenderStr("1", "ab"), PrintEntries(NullFields());
    StaleRest();
    CanonItemsRender(NullFields());
    NullFieldsClean();
    NoneCounted(rest);
    DigitsPlain(Dec(10), '\\');
    StaleText();
    assert '\\' !in k && '\\' !in v;
  }

  lemma StaleText()
    ensures RenderItems(StaleItems()) ==
            RenderStr(Dec(10), "session_id") + (RenderStr("1", "ab") + RenderItems(StaleItems()[1..]))
  {
    hide Dec, RenderStr;
    assert Render(StaleItems()[0].value) == RenderStr("1", "ab");
  }

  /** Its first normalisation corrects the count, its second the length. */
  lemma StaleSession()
    ensures var text := Whole("a:x:", RenderItems(StaleItems()), "");
            && Normalize(text) == Whole("a:4:", RenderItems(StaleItems()), "")
            && Normalize(Normalize(text)) == Print(Arr([Entry("session_id", Str("ab"))] + NullFields()))
            && Normalize(Normalize(text)) != Normalize(text)
  {
    hide Normalize, RenderItems, StaleItems, Print, HasEscapedQuote, Walk, PutAll, HasAll, ReadableItems, PlainItems,
        NullFields, ItemsNeedRepair, WellFormedEntries;
    var items := StaleItems();
    StaleReadable();
    StalePlain();
    StaleClean();
    LevelItems(items, 1);
    PlainItemsClear(items);
    SessionKeys(Str("ab"));
    StaleCount();
    var text := Whole("a:x:", RenderItems(items), "");
    assert "a:x:" == "a:" + ("x" + ":") && "a:4:" == "a:" + (Dec(4) + ":");
    assert !HasEscapedQuote(text) by {
      NoEscape(text);
    }
    NormalizedTwice("x", items, "");
    assert Print(Arr(PutAll([], items))) + "" == Print(Arr(PutAll([], items)));
  }

  lemma StaleCount()
    ensures |StaleItems()| == 4 && Dec(4) == "4" && NoCount("x")
  {
    assert !IsDigit("x"[0]);
  }

  lemma NoEscape(s: string)
    requires '\\' !in s
    ensures !HasEscapedQuote(s)
  {
  }
}
