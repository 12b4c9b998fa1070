/** What the sanitizer takes from a session, stated on the text itself: a session that parses, one
    that does not, the hash behind it, and which texts the strict client takes. */
module PhpRescue {
  import opened Options
  import opened Text
  import opened PhpText
  import opened PhpCodec
  import opened PhpWire
  import opened PhpScan
  import opened PhpCount
  import opened PhpSession
  import opened PhpFallback
  import opened PhpSanitize

  // ---- Names in a text ----

  /** A literal of this name stands at i, whatever its declared length. */
  ghost predicate NameAt(s: string, i: int, name: string) {
    0 <= i <= |s| && exists digits: string :: AllDigits(digits) && RenderStr(digits, name) <= s[i..]
  }

  lemma {:induction false} SkipDigitsOver(d: string, t: string)
    requires (forall i :: 0 <= i < |d| ==> IsDigit(d[i])) && t != [] && !IsDigit(t[0])
    ensures SkipDigits(d + t) == t
  {
    if d == [] {
      assert d + t == t;
    } else {
      assert (d + t)[1..] == d[1..] + t;
      SkipDigitsOver(d[1..], t);
    }
  }

  lemma {:induction false} SkipDigitsSplit(s: string) returns (d: string)
    ensures s == d + SkipDigits(s) && forall i :: 0 <= i < |d| ==> IsDigit(d[i])
  {
    if s != [] && IsDigit(s[0]) {
      var e := SkipDigitsSplit(s[1..]);
      d := [s[0]] + e;
      assert s == [s[0]] + s[1..];
    } else {
      d := [];
      assert s == [] + s;
    }
  }

  lemma MatchThere(digits: string, name: string, rest: string)
    requires AllDigits(digits)
    ensures MatchName(RenderStr(digits, name) + rest, name) == Some(rest)
  {
    var close := ":\"" + name + "\";";
    var s := RenderStr(digits, name) + rest;
    assert s == "s:" + (digits + (close + rest));
    SkipDigitsOver(digits, close + rest);
    assert s[2..] == digits + (close + rest);
    assert (close + rest)[|close|..] == rest && close <= close + rest;
  }

  lemma MatchMeans(s: string, name: string)
    requires MatchName(s, name).Some?
    ensures NameAt(s, 0, name)
  {
    var d := SkipDigitsSplit(s[2..]);
    var t, close := SkipDigits(s[2..]), ":\"" + name + "\";";
    assert s == "s:" + s[2..] && t == close + t[|close|..];
    assert RenderStr(d, name) == "s:" + (d + close);
    assert s == RenderStr(d, name) + t[|close|..];
    assert s[0..] == s;
  }

  lemma NameMatches(s: string, name: string)
    requires NameAt(s, 0, name)
    ensures MatchName(s, name).Some?
  {
    var digits: string :| AllDigits(digits) && RenderStr(digits, name) <= s[0..];
    assert s[0..] == s;
    var k := |RenderStr(digits, name)|;
    assert s == RenderStr(digits, name) + s[k..];
    MatchThere(digits, name, s[k..]);
  }

  lemma NameLater(s: string, i: int, name: string)
    requires s != [] && i >= 0
    ensures NameAt(s[1..], i, name) <==> NameAt(s, i + 1, name)
  {
    if i <= |s| - 1 {
      assert s[1..][i..] == s[i + 1..];
    }
  }

  /** The scan passes over whatever does not name the field. */
  lemma {:induction false} ScanSkips(before: string, rest: string, name: string)
    requires forall i :: 0 <= i < |before| ==> !NameAt(before + rest, i, name)
    ensures ScanField(before + rest, name) == ScanField(rest, name)
    decreases |before|
  {
    hide MatchName, NameAt;
    if before == [] {
      assert before + rest == rest;
    } else {
      var s := before + rest;
      assert s[1..] == before[1..] + rest;
      if MatchName(s, name).Some? {
        MatchMeans(s, name);
      }
      forall i | 0 <= i < |before[1..]|
        ensures !NameAt(before[1..] + rest, i, name)
      {
        NameLater(s, i, name);
      }
      ScanSkips(before[1..], rest, name);
    }
  }

  lemma {:induction false} ScanNothing(s: string, name: string)
    requires forall i :: 0 <= i < |s| ==> !NameAt(s, i, name)
    ensures ScanField(s, name).None?
  {
    assert s + [] == s;
    ScanSkips(s, [], name);
  }

  lemma {:induction false} SkipSpaceOver(gap: string, t: string)
    requires Gaps(gap) && t != [] && !IsGap(t[0])
    ensures SkipSpace(gap + t) == t
  {
    if gap == [] {
      assert gap + t == t;
    } else {
      assert (gap + t)[1..] == gap[1..] + t;
      SkipSpaceOver(gap[1..], t);
    }
  }

  /** A string, an integer or a flag, as a session writes it. */
  ghost predicate ScalarText(w: Wire) {
    Readable(w) && (w.WStr? || w.WInt? || w.WBool?)
  }

  /** The text of a named scalar, blanks before its value allowed, and what follows. */
  function Named(declared: string, name: string, gap: string, w: Wire, after: string): string {
    RenderStr(declared, name) + (gap + (Render(w) + after))
  }

  lemma ScanThere(declared: string, name: string, gap: string, w: Wire, after: string)
    requires AllDigits(declared) && Gaps(gap) && ScalarText(w)
    ensures ScanField(Named(declared, name, gap, w, after), name) == Some(Meaning(w))
  {
    hide MatchName, ReadScalar, RenderStr;
    MatchThere(declared, name, gap + (Render(w) + after));
    StartsAsScalar(w, after);
    SkipSpaceOver(gap, Render(w) + after);
    ReadRenderLeaf(w, after);
    assert Named(declared, name, gap, w, after) != [] by {
      NamedNotEmpty(declared, name, gap + (Render(w) + after));
    }
  }

  lemma NamedNotEmpty(declared: string, name: string, rest: string)
    ensures RenderStr(declared, name) + rest != []
  {
  }

  lemma StartsAsScalar(w: Wire, after: string)
    requires ScalarText(w)
    ensures var t := Render(w) + after;
            t != [] && !IsGap(t[0])
  {
  }

  lemma {:induction false} ScanFieldsLookup(data: string, names: seq<string>, k: string)
    requires DistinctNames(names)
    ensures Lookup(ScanFields(data, names), k) == if k in names then ScanField(data, k) else None
    ensures KeysWithin(ScanFields(data, names), names) && DistinctKeys(ScanFields(data, names))
  {
    hide ScanField, Lookup, DistinctNames, DistinctKeys, KeysWithin;
    if names == [] {
      NoFields(k);
    } else {
      var name, rest := names[0], names[1..];
      NamesRest(names);
      ScanFieldsLookup(data, rest, k);
      assert names == [name] + rest;
      OneFieldMore(name, ScanField(data, name), ScanFields(data, rest), rest, k);
    }
  }

  lemma NoFields(k: string)
    ensures Lookup([], k) == None && KeysWithin([], []) && DistinctKeys([])
  {
  }

  lemma NamesRest(names: seq<string>)
    requires DistinctNames(names) && names != []
    ensures DistinctNames(names[1..]) && names[0] !in names[1..]
  {
    var rest := names[1..];
    assert forall i :: 0 <= i < |rest| ==> rest[i] == names[i + 1];
  }

  lemma OneFieldMore(name: string, v: Option<Value>, more: seq<Entry>, rest: seq<string>, k: string)
    requires KeysWithin(more, rest) && DistinctKeys(more) && name !in rest
    ensures var es := (if v.Some? then [Entry(name, v.value)] else []) + more;
            && KeysWithin(es, [name] + rest) && DistinctKeys(es)
            && Lookup(es, k) == if k == name then (if v.Some? then v else Lookup(more, k)) else Lookup(more, k)
    ensures Lookup(more, name) == None
  {
    hide Lookup, KeysWithin, DistinctKeys;
    MoreNames(more, name, rest);
    if v.Some? {
      FieldInFront(Entry(name, v.value), more, [name] + rest, k);
    } else {
      assert [] + more == more;
    }
  }

  lemma MoreNames(more: seq<Entry>, name: string, rest: seq<string>)
    requires KeysWithin(more, rest) && name !in rest
    ensures KeysWithin(more, [name] + rest) && !HasKey(more, name) && Lookup(more, name) == None
    ensures name in [name] + rest
  {
    assert ([name] + rest)[0] == name;
    assert forall n :: n in rest ==> n in [name] + rest;
    LookupHas(more, name);
  }

  lemma FieldInFront(e: Entry, more: seq<Entry>, names: seq<string>, k: string)
    requires KeysWithin(more, names) && DistinctKeys(more) && e.key in names && !HasKey(more, e.key)
    ensures KeysWithin([e] + more, names) && DistinctKeys([e] + more)
    ensures Lookup([e] + more, k) == if k == e.key then Some(e.value) else Lookup(more, k)
  {
    assert ([e] + more)[1..] == more;
  }

  // ---- What a rebuilt session holds ----

  /** The value a field gets when neither the session nor the caller has one. */
  function DefaultOf(k: string, agent: string, now: int): Option<Value> {
    if k == "ip_address" then Some(Str("0.0.0.0"))
    else if k == "user_agent" then Some(Str(agent))
    else if k == "last_activity" then Some(Int(now))
    else None
  }

  lemma MissingLookup(es: seq<Entry>, key: string, v: Value, k: string)
    ensures Lookup(PutMissing(es, key, v), k) == if k == key && Lookup(es, k).None? then Some(v) else Lookup(es, k)
  {
    LookupHas(es, key);
    LookupPut(es, key, v, k);
  }

  lemma DefaultsLookup(es: seq<Entry>, agent: string, now: int, k: string)
    ensures Lookup(FillDefaults(es, agent, now), k) ==
            if Lookup(es, k).Some? then Lookup(es, k) else DefaultOf(k, agent, now)
  {
    hide PutMissing, Lookup;
    var a := PutMissing(es, "ip_address", Str("0.0.0.0"));
    var b := PutMissing(a, "user_agent", Str(agent));
    MissingLookup(es, "ip_address", Str("0.0.0.0"), k);
    MissingLookup(a, "user_agent", Str(agent), k);
    MissingLookup(b, "last_activity", Int(now), k);
    OrderFacts();
    assert "ip_address" != "user_agent" && "ip_address" != "last_activity" && "user_agent" != "last_activity" by {
      assert "ip_address"[0] == 'i' && "user_agent"[0] == 'u' && "last_activity"[0] == 'l';
    }
  }

  /** The first of these that is a scalar. */
  function FirstScalar(own: Option<Value>, given: Option<Value>, default: Option<Value>): Option<Value> {
    if own.Some? && Scalar(own.value) then own
    else if given.Some? && Scalar(given.value) then given
    else default
  }

  lemma RecoveredLookup(value: string, fallback: seq<Entry>, includeDevice: bool, agent: string, now: int, k: string)
    requires Sanitize(value, fallback, includeDevice, agent, now).Rebuilt?
    requires k in Allowed(includeDevice) && DistinctKeys(fallback)
    requires DistinctKeys(Recover(Normalize(value), TrimRight(TrimLeft(value))).0)
    ensures var own := Lookup(Recover(Normalize(value), TrimRight(TrimLeft(value))).0, k);
            Lookup(Sanitize(value, fallback, includeDevice, agent, now).fields, k) ==
              FirstScalar(own, Lookup(fallback, k), DefaultOf(k, agent, now))
  {
    hide RustSafe, Recover, Normalize, Incomplete, FillDefaults, Pick, TrimLeft, TrimRight, Merge, Lookup, Scalar,
        HasSession, DefaultOf, BuildSession, TrailingHash;
    var normalized, text, allowed := Normalize(value), TrimRight(TrimLeft(value)), Allowed(includeDevice);
    var gathered := Gather(normalized, text, fallback, allowed);
    MergeLookup([], fallback, allowed, k);
    MergeLookup(Merge([], fallback, allowed), Recover(normalized, text).0, allowed, k);
    NothingHeld(k);
    DefaultsLookup(gathered, agent, now, k);
    OrderFacts();
    PickSpec(FillDefaults(gathered, agent, now), FIELD_ORDER);
    AllowedOrdered(includeDevice, k);
  }

  lemma NothingHeld(k: string)
    ensures Lookup([], k) == None
  {
  }

  lemma AllowedOrdered(includeDevice: bool, k: string)
    requires k in Allowed(includeDevice)
    ensures k in FIELD_ORDER
  {
    OrderFacts();
  }

  // ---- Sessions that parse ----

  /** The session the sanitizer reads: the normalised one if that parses, else the text itself. */
  function Reading(value: string): Read<Value> {
    if Parse(Normalize(value)).Done? then Parse(Normalize(value)) else Parse(TrimRight(TrimLeft(value)))
  }

  /** Every field of a rebuilt session that parsed: its own scalar, else the caller's, else the
      default. Nothing usable is lost, and nothing else comes in. */
  lemma {:induction false} RebuiltFromParsed(value: string, fallback: seq<Entry>, includeDevice: bool, agent: string,
      now: int, k: string)
    requires Sanitize(value, fallback, includeDevice, agent, now).Rebuilt?
    requires k in Allowed(includeDevice) && DistinctKeys(fallback) && Reading(value).Done?
    ensures Lookup(Sanitize(value, fallback, includeDevice, agent, now).fields, k) ==
            FirstScalar(Lookup(Reading(value).value.entries, k), Lookup(fallback, k), DefaultOf(k, agent, now))
  {
    hide Sanitize, Parse, Normalize, TrimLeft, TrimRight, Lookup, FirstScalar, WellFormed;
    if Parse(Normalize(value)).Done? {
      ParseWellFormed(Normalize(value));
    } else {
      ParseWellFormed(TrimRight(TrimLeft(value)));
    }
    RecoveredLookup(value, fallback, includeDevice, agent, now, k);
  }

  /** Structurally sound, in normal form already, and merely short of required fields. */
  ghost predicate MerelyShort(value: string) {
    var r := Reading(value);
    && r.Done? && Normalize(value) == TrimRight(TrimLeft(value)) && !r.objects
    && (forall i :: 0 <= i < |r.value.entries| ==> !r.value.entries[i].value.Arr?)
    && exists n :: n in REQUIRED && !HasKey(r.value.entries, n)
  }

  /** When a session that parses is rebuilt: it has a header, the strict client does not take its
      normal form, it is not merely short of fields, and it or the caller has a session_id that is
      a string and not empty. Otherwise the normal form is returned. */
  lemma {:induction false} RebuiltIff(value: string, fallback: seq<Entry>, includeDevice: bool, agent: string, now: int)
    requires Reading(value).Done? && DistinctKeys(fallback)
    ensures var o := Sanitize(value, fallback, includeDevice, agent, now);
            var own := Lookup(Reading(value).value.entries, "session_id");
            var id := FirstScalar(own, Lookup(fallback, "session_id"), None);
            && (o.Rebuilt? <==>
                  && Headed(TrimRight(TrimLeft(value))) && !RustSafe(Normalize(value), Allowed(includeDevice))
                  && !MerelyShort(value) && id.Some? && id.value.Str? && id.value.s != "")
            && (o.Kept? ==> o.text == if Headed(TrimRight(TrimLeft(value))) then Normalize(value)
                                      else TrimRight(TrimLeft(value)))
  {
    hide RustSafe, Parse, Normalize, TrimLeft, TrimRight, Headed, Merge, Lookup, BuildSession, Pick, FillDefaults,
        Scalar, TrailingHash, MerelyShort, Incomplete;
    var es, allowed := Reading(value).value.entries, Allowed(includeDevice);
    OrderFacts();
    assert "session_id" == REQUIRED[0];
    ReadingFormed(value);
    ShortIs(value);
    NothingHeld("session_id");
    MergeLookup([], fallback, allowed, "session_id");
    MergeLookup(Merge([], fallback, allowed), es, allowed, "session_id");
  }

  lemma ReadingFormed(value: string)
    requires Reading(value).Done?
    ensures DistinctKeys(Reading(value).value.entries)
  {
    hide Parse, Normalize, TrimLeft, TrimRight;
    if Parse(Normalize(value)).Done? {
      ParseWellFormed(Normalize(value));
    } else {
      ParseWellFormed(TrimRight(TrimLeft(value)));
    }
  }

  lemma ShortIs(value: string)
    ensures Incomplete(Normalize(value), TrimRight(TrimLeft(value))) <==> MerelyShort(value)
  {
    hide Parse, Normalize, TrimLeft, TrimRight, HasKey;
    var r := Reading(value);
    if r.Done? {
      MissingIs(r.value.entries);
    }
  }

  lemma MissingIs(es: seq<Entry>)
    ensures HasAll(es, REQUIRED) <==> !exists n :: n in REQUIRED && !HasKey(es, n)
  {
    hide HasKey;
    if !HasAll(es, REQUIRED) {
      var i :| 0 <= i < |REQUIRED| && !HasKey(es, REQUIRED[i]);
      assert REQUIRED[i] in REQUIRED;
    }
  }

  // ---- Sessions that do not ----

  lemma RescuedLookup(value: string, fallback: seq<Entry>, includeDevice: bool, agent: string, now: int, k: string)
    requires Sanitize(value, fallback, includeDevice, agent, now).Rebuilt?
    requires k in Allowed(includeDevice) && DistinctKeys(fallback) && Reading(value).Fail?
    ensures Lookup(Sanitize(value, fallback, includeDevice, agent, now).fields, k) ==
            FirstScalar(ScanField(TrimRight(TrimLeft(value)), k), Lookup(fallback, k), DefaultOf(k, agent, now))
  {
    hide Sanitize, Parse, Normalize, TrimLeft, TrimRight, Lookup, FirstScalar, ScanField, ScanFields;
    OrderFacts();
    AllowedOrdered(includeDevice, k);
    ScanFieldsLookup(TrimRight(TrimLeft(value)), FIELD_ORDER, k);
    RecoveredLookup(value, fallback, includeDevice, agent, now, k);
  }

  /** A text that does not parse, with a scalar of an allowed name at the first place that names it:
      whatever stands before and after, the rebuilt session has the field with this very value. And
      with a session_id that is not empty it is rebuilt. */
  lemma {:induction false} RescuesField(value: string, fallback: seq<Entry>, includeDevice: bool, agent: string,
      now: int, before: string, declared: string, k: string, gap: string, w: Wire, after: string)
    requires Reading(value).Fail? && k in Allowed(includeDevice) && DistinctKeys(fallback)
    requires TrimRight(TrimLeft(value)) == before + Named(declared, k, gap, w, after)
    requires AllDigits(declared) && Gaps(gap) && ScalarText(w)
    requires forall i :: 0 <= i < |before| ==> !NameAt(before + Named(declared, k, gap, w, after), i, k)
    ensures var o := Sanitize(value, fallback, includeDevice, agent, now);
            && (o.Rebuilt? ==> Lookup(o.fields, k) == Some(Meaning(w)))
            && (Headed(TrimRight(TrimLeft(value))) && k == "session_id" && w.WStr? && w.s != "" ==> o.Rebuilt?)
  {
    hide Sanitize, Parse, Normalize, TrimLeft, TrimRight, Lookup, ScanField, NameAt, Render, RenderStr, Named,
        Readable, Headed, Reading;
    ScanSkips(before, Named(declared, k, gap, w, after), k);
    ScanThere(declared, k, gap, w, after);
    if Sanitize(value, fallback, includeDevice, agent, now).Rebuilt? {
      RescuedLookup(value, fallback, includeDevice, agent, now, k);
    }
    if Headed(TrimRight(TrimLeft(value))) && k == "session_id" && w.WStr? && w.s != "" {
      RescuesSession(value, fallback, includeDevice, agent, now, w.s);
    }
  }

  lemma RescuesSession(value: string, fallback: seq<Entry>, includeDevice: bool, agent: string, now: int, id: string)
    requires Reading(value).Fail? && Headed(TrimRight(TrimLeft(value))) && id != ""
    requires ScanField(TrimRight(TrimLeft(value)), "session_id") == Some(Str(id))
    ensures Sanitize(value, fallback, includeDevice, agent, now).Rebuilt?
  {
    hide Parse, Normalize, TrimLeft, TrimRight, Lookup, ScanField, ScanFields, Headed, Merge, BuildSession, Pick,
        FillDefaults;
    var normalized, text, allowed := Normalize(value), TrimRight(TrimLeft(value)), Allowed(includeDevice);
    OrderFacts();
    assert "session_id" == REQUIRED[0];
    ScanFieldsLookup(text, FIELD_ORDER, "session_id");
    MergeLookup(Merge([], fallback, allowed), ScanFields(text, FIELD_ORDER), allowed, "session_id");
  }

  /** A field that a text which does not parse never names comes from the caller, or else is the
      default. */
  lemma {:induction false} RescuesNoOther(value: string, fallback: seq<Entry>, includeDevice: bool, agent: string,
      now: int, k: string)
    requires Sanitize(value, fallback, includeDevice, agent, now).Rebuilt?
    requires Reading(value).Fail? && k in Allowed(includeDevice) && DistinctKeys(fallback)
    requires forall i :: 0 <= i < |TrimRight(TrimLeft(value))| ==> !NameAt(TrimRight(TrimLeft(value)), i, k)
    ensures Lookup(Sanitize(value, fallback, includeDevice, agent, now).fields, k) ==
            FirstScalar(None, Lookup(fallback, k), DefaultOf(k, agent, now))
  {
    hide Sanitize, TrimLeft, TrimRight, Lookup, ScanField, NameAt, Reading;
    ScanNothing(TrimRight(TrimLeft(value)), k);
    RescuedLookup(value, fallback, includeDevice, agent, now, k);
  }

  // ---- Sessions that a foreign value blocks ----

  /** What the count repair makes of a text whose entries do not read does not read either. */
  lemma BlockedStays(c: string)
    requires '{' in c && ReadEntries(Inside(c), [], 0).Fail? && CountFix(c).Some?
    ensures Parse(CountFix(c).value).Fail?
  {
    hide CountFix, Parse, ReadEntries, Inside;
    var n := CountFixInside(c);
  }

  /** Readable items and then something the strict reader does not know, behind a readable header:
      neither the text nor its normal form parses. */
  lemma BlockedReading(w: Wire, items: seq<Item>, fields: seq<Field>, trail: string, tail: string)
    requires HeaderOk(w) && ReadableItems(items) && Blocked(fields, trail) && FieldsOk(fields) && Gaps(trail)
    requires var text := Whole(Header(w), Mixed(items, fields, trail), tail);
             EndsPlain(text) && !HasEscapedQuote(text)
    ensures var text := Whole(Header(w), Mixed(items, fields, trail), tail);
            TrimRight(TrimLeft(text)) == text && Headed(text) && Reading(text).Fail?
  {
    hide ReadEntries, Parse, CountFix, Fix, Mixed, Header, Readable, ReadableItems, Blocked, FieldsOk, Gaps,
        HasEscapedQuote, TrimLeft, TrimRight, Normalize, Inside, Headed;
    var inner := Mixed(items, fields, trail) + ("}" + tail);
    var text := Whole(Header(w), Mixed(items, fields, trail), tail);
    MixedFails(items, fields, trail, tail, [], 0);
    HeaderPlain(w, inner);
    HeaderReads(w, inner);
    FixFails(text);
    TrimNothing(text);
    NormalizeAlone(text);
    InsideOf(Header(w), inner);
    if CountFix(text).Some? {
      BlockedStays(text);
    }
  }

  lemma FixFails(c: string)
    requires Parse(c).Fail?
    ensures Fix(c).None?
  {
  }

  lemma HeaderPlain(w: Wire, inner: string)
    requires HeaderOk(w)
    ensures w.WArr? || w.WObj?
    ensures var text := Header(w) + ("{" + inner);
            text != [] && Headed(text) && !IsTextBlank(text[0]) && text[|text| - 1] == ("{" + inner)[|inner|]
    ensures '{' !in Header(w)
  {
    var text := Header(w) + ("{" + inner);
    assert text[0] == (if w.WArr? then 'a' else 'O') && text[1] == ':';
  }

  lemma InsideOf(header: string, inner: string)
    requires '{' !in header
    ensures '{' in header + ("{" + inner) && Inside(header + ("{" + inner)) == inner
  {
    var text := header + ("{" + inner);
    FindCharBehind(header, '{', inner);
    assert text[|header|] == '{' && text[|header| + 1..] == inner;
  }

  /** So a foreign value costs a session nothing but itself: every allowed scalar among the items in
      front of it, at the first place that names it, is in the rebuilt session with its own value,
      and a session_id that is not empty is enough for it to be rebuilt. */
  lemma {:induction false} RescuesBlocked(w: Wire, items: seq<Item>, fields: seq<Field>, trail: string, tail: string,
      fallback: seq<Entry>, includeDevice: bool, agent: string, now: int, i: nat)
    requires HeaderOk(w) && ReadableItems(items) && Blocked(fields, trail) && FieldsOk(fields) && Gaps(trail)
    requires var text := Whole(Header(w), Mixed(items, fields, trail), tail);
             && EndsPlain(text) && !HasEscapedQuote(text)
             && i < |items| && ScalarText(items[i].value) && items[i].key in Allowed(includeDevice)
             && DistinctKeys(fallback)
             && forall p :: 0 <= p < |Header(w)| + 1 + |RenderItems(items[..i])| ==> !NameAt(text, p, items[i].key)
    ensures var text := Whole(Header(w), Mixed(items, fields, trail), tail);
            var o, k, v := Sanitize(text, fallback, includeDevice, agent, now), items[i].key, items[i].value;
            && (o.Rebuilt? ==> Lookup(o.fields, k) == Some(Meaning(v)))
            && (k == "session_id" && v.WStr? && v.s != "" ==> o.Rebuilt?)
  {
    hide ReadEntries, Mixed, Header, Blocked, FieldsOk, Gaps, EndsPlain, HasEscapedQuote, TrimLeft, TrimRight,
        Headed, Reading, NameAt, Sanitize, Render, RenderStr, Readable, GoodLength, Lookup, RenderItems, Named;
    var text, f := Whole(Header(w), Mixed(items, fields, trail), tail), items[i];
    BlockedReading(w, items, fields, trail, tail);
    var before, after := CutAt(w, items, fields, trail, tail, i);
    ItemLength(items, i);
    NoGaps();
    RescuesField(text, fallback, includeDevice, agent, now, before, f.declared, f.key, "", f.value, after);
  }

  lemma NoGaps()
    ensures Gaps("")
  {
  }

  lemma {:induction false} ItemLength(items: seq<Item>, i: nat)
    requires i < |items| && ReadableItems(items)
    ensures AllDigits(items[i].declared)
  {
    hide Readable;
    if i > 0 {
      ItemLength(items[1..], i - 1);
    }
  }

  lemma {:induction false} ItemsCut(items: seq<Item>, i: nat)
    requires i < |items|
    ensures RenderItems(items) ==
            RenderItems(items[..i]) + (RenderStr(items[i].declared, items[i].key) +
                (Render(items[i].value) + RenderItems(items[i + 1..])))
  {
    hide Render, RenderStr;
    if i == 0 {
      assert items[..0] == [];
    } else {
      assert items[1..][..i - 1] == items[1..i] && items[1..][i..] == items[i + 1..];
      assert items[..i][1..] == items[1..i] && items[..i][0] == items[0];
      ItemsCut(items[1..], i - 1);
    }
  }

  /** The text around the i-th item. */
  lemma CutAt(w: Wire, items: seq<Item>, fields: seq<Field>, trail: string, tail: string, i: nat)
    returns (before: string, after: string)
    requires (w.WArr? || w.WObj?) && i < |items|
    ensures |before| == |Header(w)| + 1 + |RenderItems(items[..i])|
    ensures Whole(Header(w), Mixed(items, fields, trail), tail) ==
            before + Named(items[i].declared, items[i].key, "", items[i].value, after)
  {
    hide Header, Render, RenderStr, RenderItems, RenderFields;
    ItemsCut(items, i);
    var a, k, v, b := RenderItems(items[..i]), RenderStr(items[i].declared, items[i].key), Render(items[i].value),
        RenderItems(items[i + 1..]);
    before, after := Header(w) + ("{" + a), b + (RenderFields(fields, trail) + ("}" + tail));
    Assemble(Header(w), a, k, v, b, RenderFields(fields, trail), "}" + tail);
  }

  lemma Assemble(h: string, a: string, k: string, v: string, b: string, r: string, t: string)
    ensures h + ("{" + ((a + (k + (v + b)) + r) + t)) == h + ("{" + a) + (k + ("" + (v + (b + (r + t)))))
  {
    assert "" + (v + (b + (r + t))) == v + (b + (r + t));
    assert (a + (k + (v + b)) + r) + t == a + (k + (v + (b + (r + t))));
    assert h + ("{" + (a + (k + (v + (b + (r + t)))))) == h + ("{" + a) + (k + (v + (b + (r + t))));
  }

  // ---- The hash ----

  /** Thirty-two hexadecimal digits. */
  ghost predicate HexText(h: string) {
    |h| == 32 && forall i :: 0 <= i < |h| ==> h[i] in "0123456789abcdefABCDEF"
  }

  lemma HexIs(h: string)
    ensures HexText(h) <==> IsHash(h)
  {
    forall i | 0 <= i < |h|
      ensures h[i] in "0123456789abcdefABCDEF" <==> IsHex(h[i])
    {
      HexDigit(h[i]);
    }
  }

  lemma HexDigit(c: char)
    ensures c in "0123456789abcdefABCDEF" <==> IsHex(c)
  {
    var all := "0123456789abcdefABCDEF";
    if '0' <= c <= '9' {
      assert all[c as int - '0' as int] == c;
    } else if 'a' <= c <= 'f' {
      assert all[10 + c as int - 'a' as int] == c;
    } else if 'A' <= c <= 'F' {
      assert all[16 + c as int - 'A' as int] == c;
    }
  }

  lemma {:induction false} StripLeftSplit(s: string) returns (pre: string)
    ensures s == pre + StripLeft(s) && AllBlanks(pre)
    ensures StripLeft(s) != [] ==> !IsBlank(StripLeft(s)[0])
  {
    if s != [] && IsBlank(s[0]) {
      var rest := StripLeftSplit(s[1..]);
      pre := [s[0]] + rest;
      assert s == [s[0]] + s[1..];
    } else {
      pre := [];
      assert s == [] + s;
    }
  }

  lemma {:induction false} StripRightSplit(s: string) returns (post: string)
    ensures s == StripRight(s) + post && AllBlanks(post)
    ensures StripRight(s) != [] ==> !IsBlank(StripRight(s)[|StripRight(s)| - 1])
  {
    if s != [] && IsBlank(s[|s| - 1]) {
      var rest := StripRightSplit(s[..|s| - 1]);
      post := rest + [s[|s| - 1]];
      assert s == s[..|s| - 1] + [s[|s| - 1]];
    } else {
      post := [];
      assert s == s + [];
    }
  }

  /** The text is a hash with blanks around it. */
  ghost predicate HashAmid(s: string, h: string) {
    HexText(h) && exists pre: string, post: string :: AllBlanks(pre) && AllBlanks(post) && s == pre + (h + post)
  }

  lemma HashPlain(h: string)
    requires IsHash(h)
    ensures h != [] && !IsBlank(h[0]) && !IsBlank(h[|h| - 1])
  {
    assert IsHex(h[0]) && IsHex(h[|h| - 1]);
  }

  /** What follows a session keeps its hash exactly when it is a hash amid blanks. */
  lemma TrailingHashIs(s: string)
    ensures TrailingHash(s) == "" || HashAmid(s, TrailingHash(s))
    ensures forall h :: HashAmid(s, h) ==> TrailingHash(s) == h
  {
    hide IsHash, HexText, StripLeft, StripRight;
    if TrailingHash(s) != "" {
      var h := TrailingHash(s);
      var pre := StripLeftSplit(s);
      var post := StripRightSplit(StripLeft(s));
      HexIs(h);
      assert s == pre + (h + post);
    }
    forall h | HashAmid(s, h)
      ensures TrailingHash(s) == h
    {
      var pre: string, post: string :| AllBlanks(pre) && AllBlanks(post) && s == pre + (h + post);
      HexIs(h);
      HashPlain(h);
      StripLeftOver(pre, h + post);
      StripRightOver(h, post);
    }
  }

  /** A session that parses keeps the hash that follows it, blanks aside, and nothing else of it. */
  lemma {:induction false} ParsedHashKept(value: string, fallback: seq<Entry>, includeDevice: bool, agent: string,
      now: int)
    requires Reading(value).Done?
    ensures var o, rest := Sanitize(value, fallback, includeDevice, agent, now), Reading(value).rest;
            o.Rebuilt? ==>
              && (o.hash == "" || HashAmid(rest, o.hash))
              && forall h :: HashAmid(rest, h) ==> o.hash == h
  {
    hide Sanitize, Parse, Normalize, TrimLeft, TrimRight, HashAmid, TrailingHash, RustSafe;
    RebuiltIsSafe(value, fallback, includeDevice, agent, now);
    TrailingHashIs(Reading(value).rest);
  }

  /** A session that does not parse keeps the hash at its very end, if there is one. */
  lemma {:induction false} RescuedHashKept(value: string, fallback: seq<Entry>, includeDevice: bool, agent: string,
      now: int)
    requires Reading(value).Fail?
    ensures var o, text := Sanitize(value, fallback, includeDevice, agent, now), TrimRight(TrimLeft(value));
            o.Rebuilt? ==>
              o.hash == if |text| >= 32 && HexText(text[|text| - 32..]) then text[|text| - 32..] else ""
  {
    hide Sanitize, Parse, Normalize, TrimLeft, TrimRight, HexText, TrailingHash, RustSafe, IsHash, StripRight;
    var o, text := Sanitize(value, fallback, includeDevice, agent, now), TrimRight(TrimLeft(value));
    RebuiltIsSafe(value, fallback, includeDevice, agent, now);
    TrimmedEnds(value);
    EndStays(text);
    if |text| >= 32 {
      HexIs(text[|text| - 32..]);
    }
    if EndHash(text) != "" {
      StripHash(EndHash(text));
    } else {
      NoHash();
    }
  }

  lemma NoHash()
    ensures TrailingHash("") == ""
  {
  }

  lemma EndStays(text: string)
    requires text != [] ==> EndsPlain(text)
    ensures StripRight(text) == text
  {
  }

  // ---- What the strict client takes ----

  /** Of all readable containers the strict client takes exactly the arrays with a right count and
      right lengths, no object inside, the required fields and none but allowed ones, no array
      among the values, and nothing behind but blanks or a hash amid blanks. So a nested, an
      incomplete or a stale session is refused. */
  lemma {:induction false} RustSafeIff(w: Wire, tail: string, allowed: seq<string>)
    requires Readable(w) && (w.WArr? || w.WObj?)
    ensures RustSafe(Render(w) + tail, allowed) <==>
              var es := Meaning(w).entries;
              && w.WArr? && !HasObject(w) && !NeedsRepair(w) && DecVal(w.count) == |es|
              && HasAll(es, REQUIRED)
              && (forall i :: 0 <= i < |es| ==> es[i].key in allowed && !es[i].value.Arr?)
              && (AllBlanks(tail) || exists h :: HashAmid(tail, h))
  {
    hide Parse, Render, HasAll, Readable, HasObject, NeedsRepair, DecVal, Meaning, AllBlanks, HashAmid, Strip,
        DeclaredCount, TrailingHash;
    ParseRender(w, tail);
    TagOf(w, tail);
    HashIff(tail);
    BlankTail(tail);
  }

  lemma HashIff(tail: string)
    ensures TrailingHash(tail) != "" <==> exists h :: HashAmid(tail, h)
  {
    hide TrailingHash;
    TrailingHashIs(tail);
    forall h | HashAmid(tail, h)
      ensures h != ""
    {
    }
  }

  lemma BlankTail(tail: string)
    ensures Strip(tail) == "" <==> AllBlanks(tail)
  {
    hide StripLeft, StripRight;
    if AllBlanks(tail) {
      assert tail + "" == tail;
      StripLeftOver(tail, "");
      StripRightOver("", "");
      assert "" + "" == "";
    }
    if Strip(tail) == "" {
      var pre := StripLeftSplit(tail);
      var post := StripRightSplit(StripLeft(tail));
      assert tail == pre + ("" + post);
    }
  }

  lemma TagOf(w: Wire, tail: string)
    requires Readable(w) && (w.WArr? || w.WObj?)
    ensures At2(Render(w) + tail, 'a', ':') <==> w.WArr?
    ensures w.WArr? ==> DeclaredCount(Render(w) + tail) == Some(DecVal(w.count))
  {
    var text := Render(w) + tail;
    assert text[0] == (if w.WArr? then 'a' else 'O') && text[1] == ':';
    if w.WArr? {
      var rest := "{" + (RenderItems(w.items) + ("}" + tail));
      assert text == "a:" + (w.count + ":" + rest);
      ReadDigitsAt(w.count, rest);
      assert text[2..] == w.count + ":" + rest;
    }
  }

  // ---- Order and repetition ----

  /** The first field under the key stands at i. */
  ghost predicate FirstAt(es: seq<Entry>, key: string, i: int) {
    0 <= i < |es| && es[i].key == key && forall j :: 0 <= j < i ==> es[j].key != key
  }

  /** A field put in takes its place at the end, or the place of the one it replaces. */
  lemma {:induction false} PutInPlace(es: seq<Entry>, key: string, v: Value)
    ensures !HasKey(es, key) ==> Put(es, key, v) == es + [Entry(key, v)]
    ensures forall i :: FirstAt(es, key, i) ==> Put(es, key, v) == es[i := Entry(key, v)]
    ensures HasKey(es, key) <==> exists i :: FirstAt(es, key, i)
  {
    if !HasKey(es, key) {
      PutNew(es, key, v);
    } else {
      var i := PutFirst(es, key, v);
      forall k | FirstAt(es, key, k)
        ensures k == i
      {
      }
    }
  }

  lemma {:induction false} PutFirst(es: seq<Entry>, key: string, v: Value) returns (i: int)
    requires HasKey(es, key)
    ensures FirstAt(es, key, i) && Put(es, key, v) == es[i := Entry(key, v)]
  {
    if es[0].key == key {
      i := 0;
    } else {
      HasKeySplit(es, key);
      var k := PutFirst(es[1..], key, v);
      i := k + 1;
      assert forall j :: 0 < j < |es| ==> es[j] == es[1..][j - 1];
    }
  }

  /** Of several items under one key the last one counts. */
  lemma {:induction false} LastItemCounts(es: seq<Entry>, items: seq<Item>, i: nat)
    requires i < |items| && forall j :: i < j < |items| ==> items[j].key != items[i].key
    ensures Lookup(PutAll(es, items), items[i].key) == Some(Meaning(items[i].value))
    decreases |items|
  {
    hide Meaning, Put;
    var put := Put(es, items[0].key, Meaning(items[0].value));
    if i > 0 {
      LastItemCounts(put, items[1..], i - 1);
    } else {
      LookupPut(es, items[0].key, Meaning(items[0].value), items[0].key);
      OthersKeep(put, items[1..], items[0].key);
    }
  }

  lemma {:induction false} OthersKeep(es: seq<Entry>, items: seq<Item>, k: string)
    requires forall j :: 0 <= j < |items| ==> items[j].key != k
    ensures Lookup(PutAll(es, items), k) == Lookup(es, k)
    decreases |items|
  {
    hide Meaning, Put;
    if items != [] {
      LookupPut(es, items[0].key, Meaning(items[0].value), k);
      OthersKeep(Put(es, items[0].key, Meaning(items[0].value)), items[1..], k);
    }
  }

  /** Where the sanitizer writes a field. */
  function Rank(k: string): int {
    if k == "session_id" then 0 else if k == "ip_address" then 1 else if k == "user_agent" then 2
    else if k == "last_activity" then 3 else if k == "device_id" then 4 else 5
  }

  /** The fields stand in the fixed order. */
  ghost predicate InFixedOrder(es: seq<Entry>) {
    forall i, j :: 0 <= i < j < |es| ==> Rank(es[i].key) < Rank(es[j].key)
  }

  ghost predicate NamesRise(names: seq<string>) {
    forall i, j :: 0 <= i < j < |names| ==> Rank(names[i]) < Rank(names[j])
  }

  lemma {:induction false} PickOrdered(es: seq<Entry>, names: seq<string>)
    requires NamesRise(names)
    ensures InFixedOrder(Pick(es, names)) && KeysWithin(Pick(es, names), names)
  {
    hide Rank, Lookup;
    if names != [] {
      var rest := names[1..];
      assert forall i :: 0 <= i < |rest| ==> rest[i] == names[i + 1];
      PickOrdered(es, rest);
      FirstBefore(names, Pick(es, rest));
    }
  }

  lemma FirstBefore(names: seq<string>, more: seq<Entry>)
    requires names != [] && NamesRise(names) && KeysWithin(more, names[1..])
    ensures forall i :: 0 <= i < |more| ==> Rank(names[0]) < Rank(more[i].key) && more[i].key in names
  {
    hide Rank;
    forall i | 0 <= i < |more|
      ensures Rank(names[0]) < Rank(more[i].key) && more[i].key in names
    {
      assert more[i].key in names[1..];
      var j :| 0 <= j < |names[1..]| && names[1..][j] == more[i].key;
      assert names[j + 1] == more[i].key;
    }
  }

  /** A rebuilt session has its fields in the fixed order: session_id, ip_address, user_agent,
      last_activity, device_id. */
  lemma {:induction false} RebuiltInOrder(value: string, fallback: seq<Entry>, includeDevice: bool, agent: string,
      now: int)
    ensures var o := Sanitize(value, fallback, includeDevice, agent, now);
            o.Rebuilt? ==> InFixedOrder(o.fields) && KeysWithin(o.fields, FIELD_ORDER)
  {
    hide RustSafe, Recover, Normalize, Incomplete, FillDefaults, Pick, TrimLeft, TrimRight, Gather, HasSession,
        BuildSession, TrailingHash, Lookup, InFixedOrder, NamesRise, KeysWithin;
    RanksRise();
    var o := Sanitize(value, fallback, includeDevice, agent, now);
    if o.Rebuilt? {
      var gathered := Gather(Normalize(value), TrimRight(TrimLeft(value)), fallback, Allowed(includeDevice));
      PickOrdered(FillDefaults(gathered, agent, now), FIELD_ORDER);
    }
  }

  lemma RanksRise()
    ensures NamesRise(FIELD_ORDER)
  {
    OrderFacts();
    var o := FIELD_ORDER;
    assert Rank(o[0]) == 0 && Rank(o[1]) == 1 && Rank(o[2]) == 2 && Rank(o[3]) == 3 && Rank(o[4]) == 4;
  }
}
