/** Every text a session may arrive as, described as a tree; the reader recovers its meaning. */
module PhpWire {
  import opened Options
  import opened PhpText
  import opened PhpCodec

  /** A session text as written: declared lengths and counts are kept as their digits,
      whether or not they are right, and containers may be arrays or objects. */
  datatype Wire =
    | WStr(declared: string, s: string)
    | WInt(text: string)
    | WBool(text: string)
    | WNull
    | WArr(count: string, items: seq<Item>)
    | WObj(nameLength: string, name: string, count: string, items: seq<Item>)

  datatype Item = Item(declared: string, key: string, value: Wire)

  function RenderStr(declared: string, s: string): string {
    "s:" + (declared + ":" + ("\"" + (s + CLOSE)))
  }

  function Render(w: Wire): string {
    match w
    case WStr(declared, s) => RenderStr(declared, s)
    case WInt(text) => "i:" + (text + ";")
    case WBool(text) => "b:" + (text + ";")
    case WNull => "N;"
    case WArr(count, items) => "a:" + (count + ":" + ("{" + (RenderItems(items) + "}")))
    case WObj(n, name, count, items) =>
      "O:" + (n + ":" + ("\"" + (name + ("\":" + (count + ":" + ("{" + (RenderItems(items) + "}")))))))
  }

  function RenderItems(items: seq<Item>): string {
    if items == [] then ""
    else RenderStr(items[0].declared, items[0].key) + (Render(items[0].value) + RenderItems(items[1..]))
  }

  /** A declared length the reader can live with: the right one, or one that is too short, or
      too long by one, for a payload in which the closing token does not occur. */
  ghost predicate GoodLength(declared: string, s: string) {
    && AllDigits(declared)
    && (DecVal(declared) == |s| || ((DecVal(declared) < |s| || DecVal(declared) == |s| + 1) && !HasClose(s)))
  }

  predicate Stale(declared: string, s: string) {
    !AllDigits(declared) || DecVal(declared) != |s|
  }

  ghost predicate Readable(w: Wire) {
    match w
    case WStr(declared, s) => GoodLength(declared, s)
    case WInt(text) => ';' !in text && PyInt(text).Some?
    case WBool(text) => ';' !in text
    case WNull => true
    case WArr(count, items) => AllDigits(count) && ReadableItems(items) && |items| <= MAX_ENTRIES
    case WObj(n, name, count, items) =>
      && AllDigits(n) && DecVal(n) == |name| && AllDigits(count)
      && ReadableItems(items) && |items| <= MAX_ENTRIES
  }

  ghost predicate ReadableItems(items: seq<Item>) {
    items != [] ==>
      GoodLength(items[0].declared, items[0].key) && Readable(items[0].value) && ReadableItems(items[1..])
  }

  /** The value a wire stands for: counts ignored, objects as arrays, a repeated key overwritten. */
  function Meaning(w: Wire): Value
    decreases w
  {
    match w
    case WStr(_, s) => Str(s)
    case WInt(text) => Int(if PyInt(text).Some? then PyInt(text).value else 0)
    case WBool(text) => Bool(text == "1")
    case WNull => Null
    case WArr(_, items) => Arr(PutAll([], items))
    case WObj(_, _, _, items) => Arr(PutAll([], items))
  }

  function PutAll(es: seq<Entry>, items: seq<Item>): seq<Entry>
    decreases items
  {
    if items == [] then es
    else PutAll(Put(es, items[0].key, Meaning(items[0].value)), items[1..])
  }

  /** Some declared string length is wrong. */
  predicate NeedsRepair(w: Wire) {
    match w
    case WStr(declared, s) => Stale(declared, s)
    case WArr(_, items) => ItemsNeedRepair(items)
    case WObj(_, _, _, items) => ItemsNeedRepair(items)
    case _ => false
  }

  predicate ItemsNeedRepair(items: seq<Item>) {
    items != [] &&
      (Stale(items[0].declared, items[0].key) || NeedsRepair(items[0].value) || ItemsNeedRepair(items[1..]))
  }

  predicate HasObject(w: Wire) {
    match w
    case WArr(_, items) => ItemsHaveObject(items)
    case WObj(_, _, _, _) => true
    case _ => false
  }

  predicate ItemsHaveObject(items: seq<Item>) {
    items != [] && (HasObject(items[0].value) || ItemsHaveObject(items[1..]))
  }

  // ---- Strings ----

  /** The reader gets past the header of a literal to its payload. */
  lemma OpenRendered(declared: string, s: string, tail: string)
    requires AllDigits(declared)
    ensures OpenLiteral(RenderStr(declared, s) + tail) == Some((DecVal(declared), s + CLOSE + tail))
  {
    var body := s + CLOSE + tail;
    var t := "\"" + body;
    assert RenderStr(declared, s) + tail == "s:" + (declared + ":" + t);
    ExpectToken2('s', ':', declared + ":" + t);
    ReadDigitsAt(declared, t);
    ExpectToken('"', body);
  }

  lemma ReadStringSteps(text: string, n: nat, body: string, end: int)
    requires OpenLiteral(text) == Some((n, body)) && end == PayloadEnd(body, n) && ClosesAt(body, end)
    ensures ReadString(text) == Done(body[..end], body[end + 2..], !ClosesAt(body, n), false)
  {
  }

  lemma PayloadEndCloses(body: string, n: nat)
    requires FindClose(body) != -1
    ensures ClosesAt(body, PayloadEnd(body, n))
  {
    FindCloseFirst(body);
  }

  lemma ReadStringEnd(declared: string, s: string, tail: string, body: string, n: nat)
    requires AllDigits(declared) && n == DecVal(declared) && body == s + CLOSE + tail
    ensures ClosesAt(body, PayloadEnd(body, n))
    ensures ReadString(RenderStr(declared, s) + tail) ==
            Done(body[..PayloadEnd(body, n)], body[PayloadEnd(body, n) + 2..], !ClosesAt(body, n), false)
  {
    FindCloseAt(s, tail);
    PayloadEndCloses(body, n);
    OpenRendered(declared, s, tail);
    ReadStringSteps(RenderStr(declared, s) + tail, n, body, PayloadEnd(body, n));
  }

  /** A string literal reads back as its payload exactly when its declared length is right,
      or the closing token is neither in the payload nor where the declared length points. */
  lemma {:induction false} ReadStringExact(declared: string, s: string, tail: string)
    requires AllDigits(declared)
    ensures var r, n := ReadString(RenderStr(declared, s) + tail), DecVal(declared);
            && r.Done?
            && (r.value == s && r.rest == tail <==>
                  n == |s| || (!HasClose(s) && !ClosesAt(s + CLOSE + tail, n)))
            && (r.value == s ==> (r.repaired <==> n != |s|))
  {
    var body, n := s + CLOSE + tail, DecVal(declared);
    ReadStringEnd(declared, s, tail, body, n);
    ClosesAtEnd(s, tail);
    FindCloseAt(s, tail);
    var end := PayloadEnd(body, n);
    assert |body[..end]| == end;
    assert body[..|s|] == s && body[|s| + 2..] == tail;
  }

  lemma {:induction false} ReadGoodString(declared: string, s: string, tail: string)
    requires GoodLength(declared, s)
    ensures ReadString(RenderStr(declared, s) + tail) == Done(s, tail, Stale(declared, s), false)
  {
    ReadStringExact(declared, s, tail);
    ReadStringEnd(declared, s, tail, s + CLOSE + tail, DecVal(declared));
    if DecVal(declared) < |s| {
      ClosesInside(s, tail, DecVal(declared));
    } else if DecVal(declared) == |s| + 1 {
      assert (s + CLOSE + tail)[|s| + 1] == ';';
    }
  }

  // ---- The reader recovers the meaning ----

  lemma ReadRenderScalar(tag: string, text: string, tail: string)
    requires |tag| == 2 && ';' !in text
    ensures tag <= tag + (text + ";") + tail
    ensures ReadUntil((tag + (text + ";") + tail)[2..], ';') == Some((text, tail))
  {
    var whole := tag + (text + ";") + tail;
    assert whole == tag + (text + [';'] + tail);
    assert whole[2..] == text + [';'] + tail;
    ReadUntilAt(text, ';', tail);
  }

  lemma ReadRenderLeaf(w: Wire, tail: string)
    requires Readable(w) && !w.WArr? && !w.WObj?
    ensures ReadScalar(Render(w) + tail) == Done(Meaning(w), tail, NeedsRepair(w), HasObject(w))
    ensures ReadValue(Render(w) + tail) == ReadScalar(Render(w) + tail)
  {
    var text := Render(w) + tail;
    match w
    case WStr(declared, s) =>
      ReadGoodString(declared, s, tail);
      assert text[0] == 's' && text[1] == ':';
    case WInt(t) =>
      ReadRenderScalar("i:", t, tail);
      assert text[0] == 'i' && text[1] == ':';
    case WBool(t) =>
      ReadRenderScalar("b:", t, tail);
      assert text[0] == 'b' && text[1] == ':';
    case WNull =>
      assert text[0] == 'N' && text[1] == ';';
      assert text[2..] == tail;
  }

  lemma ReadContainer(text: string)
    ensures At2(text, 'a', ':') ==> ReadValue(text) == ReadArray(text)
    ensures At2(text, 'O', ':') ==> ReadValue(text) == ReadObject(text)
  {
  }

  /** Whatever counts, understated lengths, object wrappers and repeated keys a text has,
      the reader recovers its meaning and leaves exactly what follows it. */
  lemma {:induction false} ReadRender(w: Wire, tail: string)
    requires Readable(w)
    ensures ReadValue(Render(w) + tail) == Done(Meaning(w), tail, NeedsRepair(w), HasObject(w))
    decreases w, 1
  {
    if w.WArr? {
      ReadRenderArray(w, tail);
    } else if w.WObj? {
      ReadRenderObject(w, tail);
    } else {
      ReadRenderLeaf(w, tail);
    }
  }

  lemma OpenBodyAt(count: string, body: string)
    requires AllDigits(count)
    ensures OpenBody(count + ":" + ("{" + body)) == Some(body)
  {
    ReadDigitsAt(count, "{" + body);
    ExpectToken('{', body);
  }

  lemma {:induction false} ReadRenderArray(w: Wire, tail: string)
    requires Readable(w) && w.WArr?
    ensures ReadArray(Render(w) + tail) == Done(Meaning(w), tail, NeedsRepair(w), HasObject(w))
    ensures ReadValue(Render(w) + tail) == ReadArray(Render(w) + tail)
    decreases w, 0
  {
    var body := RenderItems(w.items) + ("}" + tail);
    var head := w.count + ":" + ("{" + body);
    assert Render(w) + tail == "a:" + head;
    ExpectToken2('a', ':', head);
    ReadContainer("a:" + head);
    OpenBodyAt(w.count, body);
    ReadRenderItems(w.items, tail, [], 0);
  }

  lemma ReadNameAt(n: string, name: string, after: string)
    requires AllDigits(n) && DecVal(n) == |name|
    ensures ReadName(n + ":" + ("\"" + (name + ("\":" + after)))) == Some((name, after))
  {
    var named := name + ("\":" + after);
    ReadDigitsAt(n, "\"" + named);
    ExpectToken('"', named);
    assert named[|name|..] == "\":" + after && named[..|name|] == name;
    ExpectToken2('"', ':', after);
  }

  /** The text of an object up to its entries. */
  function ObjectHead(n: string, name: string, count: string, body: string): string {
    n + ":" + ("\"" + (name + ("\":" + (count + ":" + ("{" + body)))))
  }

  lemma RenderObject(w: Wire, tail: string)
    requires w.WObj?
    ensures Render(w) + tail == "O:" + ObjectHead(w.nameLength, w.name, w.count, RenderItems(w.items) + ("}" + tail))
  {
  }

  lemma ReadObjectSteps(text: string, head: string, name: string, after: string, body: string, r: Read<Value>)
    requires Expect2(text, 'O', ':') == Some(head) && ReadName(head) == Some((name, after))
    requires OpenBody(after) == Some(body) && ReadEntries(body, [], 0) == r
    ensures ReadObject(text) == Raise(r, false, true)
  {
  }

  /** The reader gets through an object's header to its entries. */
  lemma ReadObjectAt(w: Wire, tail: string, body: string)
    requires Readable(w) && w.WObj? && body == RenderItems(w.items) + ("}" + tail)
    ensures var text := Render(w) + tail;
            var r := ReadEntries(body, [], 0);
            && ReadValue(text) == ReadObject(text)
            && ReadObject(text) == Raise(r, false, true)
  {
    var after := w.count + ":" + ("{" + body);
    var head := ObjectHead(w.nameLength, w.name, w.count, body);
    RenderObject(w, tail);
    ExpectToken2('O', ':', head);
    ReadContainer("O:" + head);
    ReadNameAt(w.nameLength, w.name, after);
    OpenBodyAt(w.count, body);
    ReadObjectSteps(Render(w) + tail, head, w.name, after, body, ReadEntries(body, [], 0));
  }

  lemma {:induction false} ReadRenderObject(w: Wire, tail: string)
    requires Readable(w) && w.WObj?
    ensures ReadObject(Render(w) + tail) == Done(Meaning(w), tail, NeedsRepair(w), HasObject(w))
    ensures ReadValue(Render(w) + tail) == ReadObject(Render(w) + tail)
    decreases w, 0
  {
    ReadObjectAt(w, tail, RenderItems(w.items) + ("}" + tail));
    ReadRenderItems(w.items, tail, [], 0);
  }

  ghost predicate ReadsItems(items: seq<Item>, tail: string, es: seq<Entry>, count: nat)
  {
    ReadEntries(RenderItems(items) + ("}" + tail), es, count) ==
      Done(Arr(PutAll(es, items)), tail, ItemsNeedRepair(items), ItemsHaveObject(items))
  }

  /** What follows the key of the first item. */
  function AfterKey(items: seq<Item>, tail: string): string
    requires items != []
  {
    Render(items[0].value) + (RenderItems(items[1..]) + ("}" + tail))
  }

  lemma Regroup(a: string, b: string, c: string, d: string)
    ensures a + (b + c) + d == a + (b + (c + d))
  {
  }

  lemma StartsAsString(declared: string, s: string, tail: string)
    ensures !At(RenderStr(declared, s) + tail, '}')
  {
    assert (RenderStr(declared, s) + tail)[0] == 's';
  }

  lemma ReadFirstKey(items: seq<Item>, tail: string)
    requires items != [] && ReadableItems(items)
    ensures var text := RenderItems(items) + ("}" + tail);
            && !At(text, '}')
            && ReadString(text) == Done(items[0].key, AfterKey(items, tail),
                Stale(items[0].declared, items[0].key), false)
  {
    var i := items[0];
    Regroup(RenderStr(i.declared, i.key), Render(i.value), RenderItems(items[1..]), "}" + tail);
    ReadGoodString(i.declared, i.key, AfterKey(items, tail));
    StartsAsString(i.declared, i.key, AfterKey(items, tail));
  }

  /** Items that may be read after count others. */
  ghost predicate Fit(items: seq<Item>, count: nat) {
    ReadableItems(items) && count + |items| <= MAX_ENTRIES
  }

  /** The same after reading the first item. */
  lemma FitStep(items: seq<Item>, es: seq<Entry>, count: nat)
    returns (put: seq<Entry>, read: nat, rest: seq<Item>)
    requires items != [] && Fit(items, count)
    ensures put == Put(es, items[0].key, Meaning(items[0].value)) && read == count + 1 && rest == items[1..]
    ensures Fit(rest, read)
  {
    put, read, rest := Put(es, items[0].key, Meaning(items[0].value)), count + 1, items[1..];
  }

  /** One turn of the entry loop, put together from its parts. */
  lemma ReadEntriesSteps(text: string, k: Read<string>, v: Read<Value>, es: seq<Entry>, count: nat,
                         put: seq<Entry>, r: Read<Value>)
    requires !At(text, '}') && k.Done? && v.Done? && r.Done?
    requires ReadString(text) == k && ReadValue(k.rest) == v
    requires count < MAX_ENTRIES && put == Put(es, k.value, v.value)
    requires ReadEntries(v.rest, put, count + 1) == r
    ensures ReadEntries(text, es, count) == Raise(r, k.repaired || v.repaired, v.objects)
  {
  }

  /** One item in front of items that read. */
  lemma ReadsItemsCons(items: seq<Item>, tail: string, es: seq<Entry>, count: nat,
                       put: seq<Entry>, read: nat, rest: seq<Item>)
    requires items != [] && Fit(items, count) && Fit(rest, read)
    requires put == Put(es, items[0].key, Meaning(items[0].value)) && read == count + 1 && rest == items[1..]
    requires var v := items[0].value;
             ReadValue(AfterKey(items, tail)) ==
               Done(Meaning(v), RenderItems(rest) + ("}" + tail), NeedsRepair(v), HasObject(v))
    requires ReadsItems(rest, tail, put, read)
    ensures ReadsItems(items, tail, es, count)
  {
    ReadFirstKey(items, tail);
    var text := RenderItems(items) + ("}" + tail);
    var k, v := ReadString(text), ReadValue(AfterKey(items, tail));
    ReadEntriesSteps(text, k, v, es, count, put, ReadEntries(v.rest, put, read));
  }

  lemma ReadsNoItems(tail: string, es: seq<Entry>, count: nat)
    ensures ReadsItems([], tail, es, count)
  {
    assert RenderItems([]) + ("}" + tail) == "}" + tail;
    assert ("}" + tail)[1..] == tail;
  }

  lemma {:induction false} ReadRenderItems(items: seq<Item>, tail: string, es: seq<Entry>, count: nat)
    requires Fit(items, count)
    ensures ReadsItems(items, tail, es, count)
    decreases items
  {
    if items == [] {
      ReadsNoItems(tail, es, count);
    } else {
      ReadRender(items[0].value, RenderItems(items[1..]) + ("}" + tail));
      var put, read, rest := FitStep(items, es, count);
      ReadRenderItems(rest, tail, put, read);
      ReadsItemsCons(items, tail, es, count, put, read, rest);
    }
  }

  // ---- The canonical print as a wire ----

  ghost function Canon(v: Value): Wire {
    match v
    case Str(s) => WStr(Dec(|s|), s)
    case Int(n) => WInt(IntText(n))
    case Bool(b) => WBool(if b then "1" else "0")
    case Null => WNull
    case Arr(es) => WArr(Dec(|es|), CanonItems(es))
  }

  ghost function CanonItems(es: seq<Entry>): (items: seq<Item>)
    ensures |items| == |es|
  {
    if es == [] then []
    else [Item(Dec(|es[0].key|), es[0].key, Canon(es[0].value))] + CanonItems(es[1..])
  }

  lemma {:induction false} CanonRenders(v: Value)
    ensures Render(Canon(v)) == Print(v)
    decreases v, 0
  {
    if v.Arr? {
      CanonItemsRender(v.entries);
    }
  }

  lemma {:induction false} CanonItemsRender(es: seq<Entry>)
    ensures RenderItems(CanonItems(es)) == PrintEntries(es)
    decreases es
  {
    if es != [] {
      CanonRenders(es[0].value);
      CanonItemsRender(es[1..]);
      assert CanonItems(es)[1..] == CanonItems(es[1..]);
      assert RenderStr(Dec(|es[0].key|), es[0].key) == PrintStr(es[0].key);
    }
  }

  lemma {:induction false} CanonReadable(v: Value)
    requires WellFormed(v)
    ensures Readable(Canon(v)) && Meaning(Canon(v)) == v
    ensures !NeedsRepair(Canon(v)) && !HasObject(Canon(v))
    decreases v, 0
  {
    match v
    case Int(n) => IntTextReads(n);
    case Arr(es) => CanonItemsReadable(es, []);
    case _ =>
  }

  lemma {:induction false} CanonItemsReadable(es: seq<Entry>, done: seq<Entry>)
    requires DistinctKeys(done + es)
    requires forall i :: 0 <= i < |es| ==> WellFormed(es[i].value)
    ensures ReadableItems(CanonItems(es)) && PutAll(done, CanonItems(es)) == done + es
    ensures !ItemsNeedRepair(CanonItems(es)) && !ItemsHaveObject(CanonItems(es))
    decreases es
  {
    if es == [] {
      assert done + es == done;
    } else {
      var e := es[0];
      CanonReadable(e.value);
      assert CanonItems(es)[1..] == CanonItems(es[1..]);
      assert (done + es)[|done|] == e;
      forall i | 0 <= i < |done|
        ensures done[i].key != e.key
      {
        assert (done + es)[i] == done[i];
      }
      PutNew(done, e.key, e.value);
      assert done + [e] + es[1..] == done + es;
      CanonItemsReadable(es[1..], done + [e]);
    }
  }

  /** Round trip: a canonical print followed by anything reads back as exactly the value
      and what followed, with neither flag set. */
  lemma {:induction false} RoundTrip(es: seq<Entry>, tail: string)
    requires WellFormedEntries(es)
    ensures Parse(Print(Arr(es)) + tail) == Done(Arr(es), tail, false, false)
  {
    CanonRenders(Arr(es));
    CanonReadable(Arr(es));
    ReadRenderArray(Canon(Arr(es)), tail);
    var text := Print(Arr(es)) + tail;
    assert text[0] == 'a' && text[1] == ':';
  }

  /** Canonical prints are unambiguous: different values never print the same. */
  lemma {:induction false} PrintInjective(es: seq<Entry>, fs: seq<Entry>, tail: string, rest: string)
    requires WellFormedEntries(es) && WellFormedEntries(fs)
    requires Print(Arr(es)) + tail == Print(Arr(fs)) + rest
    ensures es == fs && tail == rest
  {
    RoundTrip(es, tail);
    RoundTrip(fs, rest);
  }

  /** Repair: any readable container text is read as its meaning. */
  lemma {:induction false} ParseRender(w: Wire, tail: string)
    requires Readable(w) && (w.WArr? || w.WObj?)
    ensures Parse(Render(w) + tail) == Done(Meaning(w), tail, NeedsRepair(w), HasObject(w))
  {
    var text := Render(w) + tail;
    if w.WArr? {
      ReadRenderArray(w, tail);
      assert text[0] == 'a' && text[1] == ':';
    } else {
      ReadRenderObject(w, tail);
      assert text[0] == 'O' && text[1] == ':';
    }
  }
}
