/** When normalising a session returns it: the part that escapes play. */
module PhpEscapes {
  import opened Options
  import opened Text
  import opened PhpText
  import opened PhpCodec
  import opened PhpWire
  import opened PhpScan
  import opened PhpCount
  import opened PhpSession

  // ---- Counting backslashes ----

  function Slashes(s: string): nat {
    if s == [] then 0 else (if s[0] == '\\' then 1 else 0) + Slashes(s[1..])
  }

  lemma {:induction false} SlashesJoin(s: string, t: string)
    ensures Slashes(s + t) == Slashes(s) + Slashes(t)
  {
    if s == [] {
      assert s + t == t;
    } else {
      assert (s + t)[1..] == s[1..] + t;
      SlashesJoin(s[1..], t);
    }
  }

  lemma SlashesCut(s: string, i: nat, j: nat)
    requires i <= j <= |s|
    ensures Slashes(s[..i]) + Slashes(s[j..]) <= Slashes(s)
  {
    SlashesJoin(s[..i], s[i..]);
    SlashesJoin(s[i..j], s[j..]);
    assert s == s[..i] + s[i..] && s[i..] == s[i..j] + s[j..];
  }

  lemma SlashesRest(s: string, j: nat)
    requires j <= |s|
    ensures Slashes(s[j..]) <= Slashes(s)
  {
    SlashesCut(s, 0, j);
  }

  lemma {:induction false} NoSlashes(s: string)
    requires '\\' !in s
    ensures Slashes(s) == 0
  {
    if s != [] {
      NoSlashes(s[1..]);
    }
  }

  // ---- Printing adds none ----

  lemma SlashesStr(s: string)
    ensures Slashes(PrintStr(s)) == Slashes(s)
  {
    var head := "s:" + Dec(|s|) + ":\"";
    DigitsPlain(Dec(|s|), '\\');
    NoSlashes(head);
    NoSlashes(CLOSE);
    assert PrintStr(s) == head + (s + CLOSE);
    SlashesJoin(head, s + CLOSE);
    SlashesJoin(s, CLOSE);
  }

  lemma SlashesArr(es: seq<Entry>)
    ensures Slashes(Print(Arr(es))) == Slashes(PrintEntries(es))
  {
    var head := "a:" + Dec(|es|) + ":{";
    DigitsPlain(Dec(|es|), '\\');
    NoSlashes(head);
    NoSlashes("}");
    assert Print(Arr(es)) == head + (PrintEntries(es) + "}");
    SlashesJoin(head, PrintEntries(es) + "}");
    SlashesJoin(PrintEntries(es), "}");
  }

  lemma SlashesFirst(es: seq<Entry>)
    requires es != []
    ensures Slashes(PrintEntries(es)) ==
            Slashes(es[0].key) + Slashes(Print(es[0].value)) + Slashes(PrintEntries(es[1..]))
  {
    SlashesStr(es[0].key);
    SlashesJoin(PrintStr(es[0].key), Print(es[0].value));
    SlashesJoin(PrintStr(es[0].key) + Print(es[0].value), PrintEntries(es[1..]));
  }

  lemma {:induction false} SlashesPut(es: seq<Entry>, key: string, v: Value)
    ensures Slashes(PrintEntries(Put(es, key, v))) <= Slashes(PrintEntries(es)) + Slashes(key) + Slashes(Print(v))
  {
    hide Print, PrintEntries, PrintStr;
    var r := Put(es, key, v);
    SlashesFirst(r);
    if es == [] {
      SlashesNone();
      assert r == [Entry(key, v)] && r[1..] == [];
    } else {
      SlashesFirst(es);
      if es[0].key != key {
        SlashesPut(es[1..], key, v);
        assert r[1..] == Put(es[1..], key, v);
      } else {
        assert r[1..] == es[1..];
      }
    }
  }

  lemma SlashesNone()
    ensures Slashes(PrintEntries([])) == 0
  {
  }

  lemma SlashesPlain(v: Value)
    requires !v.Arr? && !v.Str?
    ensures Slashes(Print(v)) == 0
  {
    match v
    case Int(n) =>
      if n < 0 {
        DigitsPlain(Dec(-n), '\\');
      } else {
        DigitsPlain(Dec(n), '\\');
      }
      NoSlashes(Print(v));
    case _ => NoSlashes(Print(v));
  }

  // ---- Reading adds none ----

  lemma ReadStringSlashes(s: string)
    requires ReadString(s).Done?
    ensures Slashes(ReadString(s).value) + Slashes(ReadString(s).rest) <= Slashes(s)
  {
    hide FindClose, FindChar, DecVal, AllDigits, Slashes, ClosesAt;
    var body := OpenLiteral(s).value.1;
    LiteralSlashes(s);
    var end := PayloadEnd(body, OpenLiteral(s).value.0);
    PayloadFits(body, OpenLiteral(s).value.0);
    SlashesCut(body, end, end + 2);
  }

  lemma LiteralSlashes(s: string)
    requires OpenLiteral(s).Some?
    ensures Slashes(OpenLiteral(s).value.1) <= Slashes(s)
  {
    hide FindChar, DecVal, AllDigits, Slashes;
    SlashesRest(s, 2);
    var i := FindChar(s[2..], ':');
    SlashesRest(s[2..], i + 1);
    SlashesRest(s[2..][i + 1..], 1);
  }

  lemma PayloadFits(body: string, n: nat)
    requires PayloadEnd(body, n) >= 0
    ensures PayloadEnd(body, n) + 2 <= |body|
  {
    hide FindClose;
  }

  lemma ReadScalarSlashes(s: string)
    requires ReadScalar(s).Done?
    ensures Slashes(Print(ReadScalar(s).value)) + Slashes(ReadScalar(s).rest) <= Slashes(s)
  {
    hide FindChar, PyInt, Slashes, ReadString, Print;
    var v := ReadScalar(s).value;
    if At2(s, 's', ':') {
      ReadStringSlashes(s);
      StrSlashes(ReadString(s).value);
    } else {
      SlashesPlain(v);
      SlashesRest(s, 2);
      if !At2(s, 'N', ';') || At2(s, 'i', ':') || At2(s, 'b', ':') {
        SlashesRest(s[2..], FindChar(s[2..], ';') + 1);
      }
    }
  }

  lemma StrSlashes(s: string)
    ensures Slashes(Print(Str(s))) == Slashes(s)
  {
    SlashesStr(s);
  }

  lemma OpenBodySlashes(s: string)
    requires OpenBody(s).Some?
    ensures Slashes(OpenBody(s).value) <= Slashes(s)
  {
    hide FindChar, DecVal, AllDigits, Slashes;
    var i := FindChar(s, ':');
    SlashesRest(s, i + 1);
    SlashesRest(s[i + 1..], 1);
  }

  lemma ReadNameSlashes(s: string)
    requires ReadName(s).Some?
    ensures Slashes(ReadName(s).value.1) <= Slashes(s)
  {
    hide FindChar, DecVal, AllDigits, Slashes;
    var i := FindChar(s, ':');
    SlashesRest(s, i + 1);
    var n := ReadDigits(s).value;
    SlashesRest(n.1, 1);
    SlashesRest(n.1[1..], n.0);
    SlashesRest(n.1[1..][n.0..], 2);
  }

  lemma {:induction false} ReadSlashes(s: string)
    requires ReadValue(s).Done?
    ensures Slashes(Print(ReadValue(s).value)) + Slashes(ReadValue(s).rest) <= Slashes(s)
    decreases |s|, 1
  {
    hide Slashes, Print, ReadArray, ReadObject, ReadScalar;
    if At2(s, 'a', ':') {
      ReadArraySlashes(s);
    } else if At2(s, 'O', ':') {
      ReadObjectSlashes(s);
    } else {
      ReadScalarSlashes(s);
    }
  }

  lemma {:induction false} ReadArraySlashes(s: string)
    requires ReadArray(s).Done?
    ensures Slashes(Print(ReadArray(s).value)) + Slashes(ReadArray(s).rest) <= Slashes(s)
    decreases |s|, 0
  {
    hide Slashes, Print, OpenBody, ReadEntries, PrintEntries;
    var body := OpenBody(s[2..]).value;
    SlashesRest(s, 2);
    OpenBodySlashes(s[2..]);
    SlashesNone();
    ReadEntriesSlashes(body, [], 0);
  }

  lemma {:induction false} ReadObjectSlashes(s: string)
    requires ReadObject(s).Done?
    ensures Slashes(Print(ReadObject(s).value)) + Slashes(ReadObject(s).rest) <= Slashes(s)
    decreases |s|, 0
  {
    hide Slashes, Print, OpenBody, ReadName, ReadEntries, PrintEntries;
    var name := ReadName(s[2..]).value.1;
    var body := OpenBody(name).value;
    SlashesRest(s, 2);
    ReadNameSlashes(s[2..]);
    OpenBodySlashes(name);
    SlashesNone();
    ReadEntriesSlashes(body, [], 0);
  }

  lemma {:induction false} ReadEntriesSlashes(s: string, es: seq<Entry>, count: nat)
    requires ReadEntries(s, es, count).Done?
    ensures var r := ReadEntries(s, es, count);
            Slashes(Print(r.value)) + Slashes(r.rest) <= Slashes(PrintEntries(es)) + Slashes(s)
    decreases |s|, 2
  {
    hide Slashes, Print, PrintEntries, ReadValue, ReadString, Put;
    if At(s, '}') {
      SlashesArr(es);
      SlashesRest(s, 1);
    } else {
      var k, v, before, after, put := ReadEntriesTurn(s, es, count);
      var next := count + 1;
      ReadStringSlashes(s);
      ReadSlashes(before);
      SlashesPut(es, k, v);
      ReadEntriesSlashes(after, put, next);
      EntriesTurnRest(s, es, count, put, after, next);
    }
  }

  lemma EntriesTurnRest(s: string, es: seq<Entry>, count: nat, put: seq<Entry>, after: string, next: nat)
    requires ReadEntries(s, es, count).Done? && !At(s, '}') && next == count + 1
    requires ReadString(s).Done? && ReadValue(ReadString(s).rest).Done?
    requires put == Put(es, ReadString(s).value, ReadValue(ReadString(s).rest).value)
    requires after == ReadValue(ReadString(s).rest).rest
    ensures ReadEntries(after, put, next).Done?
    ensures ReadEntries(after, put, next).rest == ReadEntries(s, es, count).rest
  {
    hide ReadString, ReadValue, Put;
  }

  /** A repair never adds a backslash. */
  lemma AttemptSlashes(c: string)
    requires Attempt(c).Some?
    ensures Slashes(Attempt(c).value) <= Slashes(c)
  {
    hide Slashes, Print, ReadArray, ReadObject, CountFix, HasAll;
    if Fix(c).Some? {
      var r := Parse(c);
      SlashesJoin(Print(r.value), r.rest);
      if At2(c, 'a', ':') {
        ReadArraySlashes(c);
      } else {
        ReadObjectSlashes(c);
      }
    } else {
      CountFixSlashes(c);
    }
  }

  lemma CountFixSlashes(c: string)
    requires CountFix(c).Some?
    ensures Slashes(CountFix(c).value) <= Slashes(c)
  {
    hide Slashes, FindBody, FindChar, CountKeys, Reheader, MentionsAll, CountFix;
    var n := CountFixParts(c);
    var start := FindBody(c).value.0;
    DigitsPlain(Dec(n), '\\');
    NoSlashes("a:" + (Dec(n) + ":"));
    SlashesJoin("a:" + (Dec(n) + ":"), c[start..]);
    SlashesRest(c, start);
  }

  // ---- Unescaping takes some away ----

  lemma {:induction false} ReplaceSlashes(s: string, b: char, c: char)
    requires b != '\\' || c == '\\'
    requires c == '\\' ==> b == '\\'
    ensures Slashes(ReplacePair(s, '\\', b, c)) <= Slashes(s)
    decreases |s|
  {
    if s != [] {
      if At2(s, '\\', b) {
        ReplaceSlashes(s[2..], b, c);
        assert s[1..][1..] == s[2..];
        SlashesJoin([c], ReplacePair(s[2..], '\\', b, c));
      } else {
        ReplaceSlashes(s[1..], b, c);
        SlashesJoin([s[0]], ReplacePair(s[1..], '\\', b, c));
      }
    }
  }

  lemma {:induction false} UnquoteSlashes(s: string)
    requires HasEscapedQuote(s)
    ensures Slashes(ReplacePair(s, '\\', '"', '"')) < Slashes(s)
    decreases |s|
  {
    if At2(s, '\\', '"') {
      ReplaceSlashes(s[2..], '"', '"');
      assert s[1..][1..] == s[2..];
    } else {
      var i :| 0 <= i < |s| - 1 && s[i] == '\\' && s[i + 1] == '"';
      assert s[1..][i - 1] == '\\' && s[1..][i] == '"';
      UnquoteSlashes(s[1..]);
    }
  }

  lemma UnescapeSlashes(s: string)
    ensures Slashes(Unescape(s)) <= Slashes(s)
    ensures HasEscapedQuote(s) ==> Slashes(Unescape(s)) < Slashes(s)
  {
    hide Slashes, ReplacePair, HasEscapedQuote;
    ReplaceSlashes(s, '"', '"');
    ReplaceSlashes(ReplacePair(s, '\\', '"', '"'), '\\', '\\');
    if HasEscapedQuote(s) {
      UnquoteSlashes(s);
    }
  }

  lemma {:induction false} RoundsSlashes(s: string, n: nat, k: nat)
    requires k < |Rounds(s, n)|
    ensures Slashes(Rounds(s, n)[k]) <= Slashes(Unescape(s))
    decreases n
  {
    hide Slashes, Unescape;
    if k > 0 {
      var r := Unescape(s);
      RoundsSlashes(r, n - 1, k - 1);
      UnescapeSlashes(r);
    }
  }

  /** Every unescaped form of a text has fewer backslashes than the text. */
  lemma CandidateSlashes(text: string, k: nat)
    requires k < |Candidates(text)| - 1
    ensures Slashes(Candidates(text)[k]) < Slashes(text)
  {
    hide Slashes, Unescape, Rounds, HasEscapedQuote;
    RoundsSlashes(text, 3, k);
    UnescapeSlashes(text);
  }

  // ---- Fixed points ----

  /** A trimmed session text. */
  ghost predicate Trimmed(text: string) {
    Headed(text) && EndsPlain(text) && !IsTextBlank(text[0])
  }

  lemma {:induction false} FirstOf(text: string, n: nat) returns (k: nat)
    requires n <= |Candidates(text)| && forall j :: 0 <= j < n ==> Attempt(Candidates(text)[j]).None?
    ensures FirstRepaired(text, k)
    decreases |Candidates(text)| - n
  {
    hide Candidates, Attempt;
    if n == |Candidates(text)| || Attempt(Candidates(text)[n]).Some? {
      k := n;
    } else {
      k := FirstOf(text, n + 1);
    }
  }

  lemma NormalizeIs(text: string, k: nat)
    requires Trimmed(text) && FirstRepaired(text, k)
    ensures Normalize(text) == if k < |Candidates(text)| then Attempt(Candidates(text)[k]).value else text
  {
    hide Candidates, Attempt, TrimLeft, TrimRight;
    TrimNothing(text);
    FirstFixIs(Candidates(text), text, k);
  }

  lemma LastCandidate(text: string)
    ensures var cs := Candidates(text);
            cs != [] && cs[|cs| - 1] == text
  {
  }

  /** Normalising a session text returns it if and only if none of its unescaped forms can be
      repaired and the text itself is its own repair or beyond repair. */
  lemma {:induction false} NormalizeFixedIff(text: string)
    requires Trimmed(text)
    ensures Normalize(text) == text <==>
              && (forall j :: 0 <= j < |Candidates(text)| - 1 ==> Attempt(Candidates(text)[j]).None?)
              && (Attempt(text).None? || Attempt(text).value == text)
  {
    hide Candidates, Attempt, Normalize, Slashes, Trimmed;
    var k := FirstOf(text, 0);
    LastCandidate(text);
    NormalizeIs(text, k);
    if k < |Candidates(text)| - 1 {
      AttemptSlashes(Candidates(text)[k]);
      CandidateSlashes(text, k);
    }
  }

  /** So a strict repair is a fixed point exactly when none of its unescaped forms can be repaired;
      in particular when it holds no escaped quote. */
  lemma {:induction false} StrictFixedIff(c: string)
    requires EndsPlain(c) && Fix(c).Some?
    ensures var out := Fix(c).value;
            && (Normalize(out) == out <==>
                  forall j :: 0 <= j < |Candidates(out)| - 1 ==> Attempt(Candidates(out)[j]).None?)
            && (!HasEscapedQuote(out) ==> Normalize(out) == out)
  {
    hide Candidates, CountFix, Fix, Normalize;
    var out := Fix(c).value;
    FixEnds(c);
    FixIdempotent(c);
    NormalizeFixedIff(out);
    if !HasEscapedQuote(out) {
      OneCandidate(out);
    }
  }

  lemma OneCandidate(text: string)
    requires !HasEscapedQuote(text)
    ensures Candidates(text) == [text]
  {
  }

  // ---- Sessions that are not fixed points ----

  lemma {:induction false} ReplaceSkips(pre: string, rest: string, b: char, c: char)
    requires '\\' !in pre
    ensures ReplacePair(pre + rest, '\\', b, c) == pre + ReplacePair(rest, '\\', b, c)
  {
    if pre == [] {
      assert pre + rest == rest;
    } else {
      assert (pre + rest)[1..] == pre[1..] + rest;
      ReplaceSkips(pre[1..], rest, b, c);
    }
  }

  lemma ReplaceNothing(s: string, b: char, c: char)
    requires '\\' !in s
    ensures ReplacePair(s, '\\', b, c) == s
  {
    assert s + [] == s;
    ReplaceSkips(s, [], b, c);
  }

  lemma UnescapeOne(pre: string, post: string)
    requires '\\' !in pre && '\\' !in post
    ensures Unescape(pre + ("\\\"" + post)) == pre + ("\"" + post)
  {
    var rest := "\\\"" + post;
    assert rest[2..] == post;
    ReplaceSkips(pre, rest, '"', '"');
    ReplaceNothing(post, '"', '"');
    ReplaceNothing(pre + ("\"" + post), '\\', '\\');
  }

  lemma {:induction false} NoneCounted(s: string)
    requires Slashes(s) == 0
    ensures '\\' !in s
  {
    if s != [] {
      NoneCounted(s[1..]);
      assert s == [s[0]] + s[1..];
    }
  }

  /** A complete session whose first payload is an escaped quote, with no other backslash. */
  ghost predicate OneEscape(key: string, rest: seq<Entry>) {
    var es := [Entry(key, Str("\\\""))] + rest;
    WellFormedEntries(es) && HasAll(es, REQUIRED) && Slashes(key) == 0 && Slashes(PrintEntries(rest)) == 0
  }

  /** The text around the payload. */
  function PayloadFrame(key: string, rest: seq<Entry>): (string, string) {
    ("a:" + (Dec(|rest| + 1) + ":{") + PrintStr(key) + ("s:" + (Dec(2) + ":\"")), CLOSE + (PrintEntries(rest) + "}"))
  }

  lemma FrameClean(key: string, rest: seq<Entry>)
    requires Slashes(key) == 0 && Slashes(PrintEntries(rest)) == 0
    ensures '\\' !in PayloadFrame(key, rest).0 && '\\' !in PayloadFrame(key, rest).1
  {
    hide Dec, PrintStr, PrintEntries;
    DigitsPlain(Dec(|rest| + 1), '\\');
    DigitsPlain(Dec(2), '\\');
    SlashesStr(key);
    NoneCounted(PrintStr(key));
    NoneCounted(PrintEntries(rest));
  }

  lemma EscapedPrint(key: string, rest: seq<Entry>)
    ensures var a := PayloadFrame(key, rest);
            Print(Arr([Entry(key, Str("\\\""))] + rest)) == a.0 + ("\\\"" + a.1)
  {
    hide Dec;
    var es := [Entry(key, Str("\\\""))] + rest;
    assert es[1..] == rest && |"\\\""| == 2;
    var a := PayloadFrame(key, rest);
    var p := PrintStr("\\\"");
    assert p == "s:" + (Dec(2) + ":\"") + ("\\\"" + CLOSE);
    assert PrintEntries(es) == PrintStr(key) + p + PrintEntries(rest);
  }

  /** The same session unescaped: its first payload is one shorter than declared. */
  ghost function Unescaped(key: string, rest: seq<Entry>): Wire {
    WArr(Dec(|rest| + 1), [Item(Dec(|key|), key, WStr(Dec(2), "\""))] + CanonItems(rest))
  }

  lemma UnescapedRenders(key: string, rest: seq<Entry>)
    ensures var a := PayloadFrame(key, rest);
            Render(Unescaped(key, rest)) == a.0 + ("\"" + a.1)
  {
    hide Dec, Canon, CanonItems, PrintEntries, Render, RenderStr, PrintStr;
    var w := Unescaped(key, rest);
    UnescapedItems(key, rest);
    var k, p := PrintStr(key), "s:" + (Dec(2) + ":\"");
    ArrayText(w);
    JoinAround("a:" + (Dec(|rest| + 1) + ":{"), k, p, PrintEntries(rest));
  }

  lemma ArrayText(w: Wire)
    requires w.WArr?
    ensures Render(w) == "a:" + (w.count + ":{") + (RenderItems(w.items) + "}")
  {
  }

  lemma UnescapedItems(key: string, rest: seq<Entry>)
    ensures RenderItems(Unescaped(key, rest).items) ==
              PrintStr(key) + ("s:" + (Dec(2) + ":\"") + ("\"" + CLOSE) + PrintEntries(rest))
  {
    hide Dec, Canon, CanonItems, PrintEntries;
    var items := Unescaped(key, rest).items;
    assert items[1..] == CanonItems(rest);
    CanonItemsRender(rest);
    assert RenderStr(Dec(|key|), key) == PrintStr(key);
    assert RenderStr(Dec(2), "\"") == "s:" + (Dec(2) + ":\"") + ("\"" + CLOSE);
  }

  lemma JoinAround(head: string, k: string, p: string, rest: string)
    ensures head + (k + (p + ("\"" + CLOSE) + rest) + "}") == head + k + p + ("\"" + (CLOSE + (rest + "}")))
  {
  }

  lemma UnescapedReadable(key: string, rest: seq<Entry>)
    requires OneEscape(key, rest)
    ensures Readable(Unescaped(key, rest))
    ensures Meaning(Unescaped(key, rest)) == Arr([Entry(key, Str("\""))] + rest)
  {
    hide Dec, Canon, CanonItems, Readable;
    var w, first := Unescaped(key, rest), [Entry(key, Str("\""))];
    assert w.items[0] == Item(Dec(|key|), key, WStr(Dec(2), "\"")) && w.items[1..] == CanonItems(rest);
    RestReads(key, rest);
    QuoteReads();
    FirstReads(w);
    FirstMeans(w);
  }

  lemma FirstMeans(w: Wire)
    requires w.WArr? && w.items != [] && w.items[0].value.WStr?
    ensures Meaning(w) == Arr(PutAll([Entry(w.items[0].key, Str(w.items[0].value.s))], w.items[1..]))
  {
    var k, v := w.items[0].key, w.items[0].value;
    assert Meaning(w) == Arr(PutAll([], w.items));
    assert PutAll([], w.items) == PutAll(Put([], k, Meaning(v)), w.items[1..]);
    assert Meaning(v) == Str(v.s) && Put([], k, Str(v.s)) == [Entry(k, Str(v.s))];
  }

  lemma RestReads(key: string, rest: seq<Entry>)
    requires OneEscape(key, rest)
    ensures var first := [Entry(key, Str("\""))];
            ReadableItems(CanonItems(rest)) && PutAll(first, CanonItems(rest)) == first + rest
    ensures |rest| + 1 <= MAX_ENTRIES
  {
    hide *;
    var e, d := Entry(key, Str("\\\"")), Entry(key, Str("\""));
    OneEscapeFormed(key, rest);
    RestFormed(e, rest);
    KeysAgree([e] + rest, [d] + rest);
    CanonItemsReadable(rest, [d]);
  }

  lemma OneEscapeFormed(key: string, rest: seq<Entry>)
    requires OneEscape(key, rest)
    ensures WellFormedEntries([Entry(key, Str("\\\""))] + rest)
  {
    hide WellFormedEntries, HasAll, Slashes, PrintEntries;
  }

  lemma RestFormed(e: Entry, rest: seq<Entry>)
    requires WellFormedEntries([e] + rest)
    ensures |rest| + 1 <= MAX_ENTRIES && DistinctKeys([e] + rest)
    ensures forall i :: 0 <= i < |rest| ==> WellFormed(rest[i].value)
  {
    hide WellFormed;
    assert forall i :: 0 <= i < |rest| ==> rest[i] == ([e] + rest)[i + 1];
  }

  lemma KeysAgree(es: seq<Entry>, fs: seq<Entry>)
    requires DistinctKeys(es) && |es| == |fs| && forall i :: 0 <= i < |es| ==> es[i].key == fs[i].key
    ensures DistinctKeys(fs)
  {
  }

  lemma QuoteReads()
    ensures Readable(WStr(Dec(2), "\""))
  {
    assert !HasClose("\"");
  }

  lemma FirstReads(w: Wire)
    requires w.WArr? && w.items != [] && |w.items| <= MAX_ENTRIES && AllDigits(w.count)
    requires w.items[0].declared == Dec(|w.items[0].key|) && Readable(w.items[0].value) && ReadableItems(w.items[1..])
    ensures Readable(w)
  {
  }

  lemma SameKeys(key: string, rest: seq<Entry>)
    requires HasAll([Entry(key, Str("\\\""))] + rest, REQUIRED)
    ensures HasAll([Entry(key, Str("\""))] + rest, REQUIRED)
  {
    var es, fs := [Entry(key, Str("\\\""))] + rest, [Entry(key, Str("\""))] + rest;
    forall i | 0 <= i < |REQUIRED|
      ensures HasKey(fs, REQUIRED[i])
    {
      assert HasKey(es, REQUIRED[i]);
      var j :| 0 <= j < |es| && es[j].key == REQUIRED[i];
      assert fs[j].key == REQUIRED[i];
    }
  }

  /** On all of those the repair is not a fixed point: normalising the canonical session once
      more takes its payload for an escape and repairs the unescaped text instead. */
  lemma {:induction false} EscapeIsTakenOff(key: string, rest: seq<Entry>)
    requires OneEscape(key, rest)
    ensures var out := Print(Arr([Entry(key, Str("\\\""))] + rest));
            Fix(out) == Some(out) && Normalize(out) != out
  {
    hide Print, Render, Readable, Meaning, Unescape, Normalize, PrintEntries, WellFormedEntries, HasAll, Parse,
        PayloadFrame;
    var es := [Entry(key, Str("\\\""))] + rest;
    var out, w, a := Print(Arr(es)), Unescaped(key, rest), PayloadFrame(key, rest);
    RoundTrip(es, "");
    assert out + "" == out;
    assert Fix(out) == Some(out);
    FrameClean(key, rest);
    EscapedPrint(key, rest);
    UnescapedRenders(key, rest);
    UnescapeOne(a.0, a.1);
    UnescapedReadable(key, rest);
    SameKeys(key, rest);
    FixIsCanonical(w, "");
    assert Render(w) + "" == Render(w);
    FirstUnescaped(out, a.0, a.1);
    PrintEnds(es);
    StrictFixedIff(out);
    assert Attempt(Candidates(out)[0]).Some?;
  }

  lemma FirstUnescaped(out: string, pre: string, post: string)
    requires out == pre + ("\\\"" + post) && Unescape(out) == pre + ("\"" + post)
    ensures |Candidates(out)| > 1 && Candidates(out)[0] == Unescape(out)
  {
    hide Unescape;
    assert out[|pre|] == '\\' && out[|pre| + 1] == '"';
    assert |Unescape(out)| < |out|;
  }

  lemma PrintEnds(es: seq<Entry>)
    ensures EndsPlain(Print(Arr(es)))
  {
  }

  /** Such a session. */
  lemma EscapedSession()
    ensures OneEscape("session_id", NullFields())
  {
    hide Slashes, PrintEntries, HasAll, WellFormedEntries, NullFields;
    SessionKeys(Str("\\\""));
    NoSlashes("session_id");
    NullFieldsClean();
  }

  /** The required fields after the first, all empty. */
  function NullFields(): seq<Entry> {
    [Entry("ip_address", Null), Entry("user_agent", Null), Entry("last_activity", Null)]
  }

  lemma NullFieldsClean()
    ensures Slashes(PrintEntries(NullFields())) == 0
  {
    hide Slashes, PrintEntries;
    var a, b, c := Entry("ip_address", Null), Entry("user_agent", Null), Entry("last_activity", Null);
    var es := [a, b, c];
    NoSlashes(a.key);
    NoSlashes(b.key);
    NoSlashes(c.key);
    SlashesPlain(Null);
    assert es[1..] == [b, c] && [b, c][1..] == [c] && [c][1..] == [];
    SlashesFirst(es);
    SlashesFirst([b, c]);
    SlashesFirst([c]);
    SlashesNone();
  }

  lemma SessionKeys(v: Value)
    requires v.Str?
    ensures var es := [Entry("session_id", v)] + NullFields();
            WellFormedEntries(es) && HasAll(es, REQUIRED)
  {
    var es := [Entry("session_id", v)] + NullFields();
    FirstLetters();
    assert |es| == 4;
    assert es[0].key == "session_id" && es[1].key == "ip_address";
    assert es[2].key == "user_agent" && es[3].key == "last_activity";
    assert HasKey(es, REQUIRED[0]) && HasKey(es, REQUIRED[1]) && HasKey(es, REQUIRED[2]) && HasKey(es, REQUIRED[3]);
  }

  lemma FirstLetters()
    ensures "session_id"[0] == 's' && "ip_address"[0] == 'i' && "user_agent"[0] == 'u' && "last_activity"[0] == 'l'
  {
  }
}
