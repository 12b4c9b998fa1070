/** The sanitizer: rebuild a flat session from what can be recovered, so that the native
    client accepts it. */
module PhpSanitize {
  import opened Options
  import opened Text
  import opened PhpText
  import opened PhpCodec
  import opened PhpWire
  import opened PhpSession

  // ---- What the native client accepts ----

  predicate IsHex(c: char) {
    IsDigit(c) || 'a' <= c <= 'f' || 'A' <= c <= 'F'
  }

  predicate IsHash(s: string) {
    |s| == 32 && forall i :: 0 <= i < |s| ==> IsHex(s[i])
  }

  function Strip(s: string): string {
    StripRight(StripLeft(s))
  }

  /** The 32-hex hash that follows a session, or nothing when it is malformed. */
  function TrailingHash(trailing: string): (h: string)
    ensures h == "" || IsHash(h)
  {
    if IsHash(Strip(trailing)) then Strip(trailing) else ""
  }

  function DeclaredCount(text: string): Option<nat> {
    if !At2(text, 'a', ':') then None
    else
      var n := ReadDigits(text[2..]);
      if n.None? then None else Some(n.value.0)
  }

  predicate KeysWithin(es: seq<Entry>, names: seq<string>) {
    forall i :: 0 <= i < |es| ==> es[i].key in names
  }

  predicate Flat(es: seq<Entry>) {
    forall i :: 0 <= i < |es| ==> !es[i].value.Arr?
  }

  /** A flat array with an exact count, exact lengths, the required fields, none but allowed
      fields, and nothing after it but a hash. */
  predicate RustSafe(text: string, allowed: seq<string>) {
    At2(text, 'a', ':') &&
    var r := Parse(text);
    && r.Done? && !r.objects && !r.repaired
    && DeclaredCount(text) == Some(|r.value.entries|)
    && HasAll(r.value.entries, REQUIRED)
    && KeysWithin(r.value.entries, allowed)
    && Flat(r.value.entries)
    && (Strip(r.rest) == "" || TrailingHash(r.rest) != "")
  }

  // ---- Recovery ----

  predicate Scalar(v: Value) { v.Str? || v.Int? || v.Bool? }

  function Lookup(es: seq<Entry>, key: string): Option<Value> {
    if es == [] then None
    else if es[0].key == key then Some(es[0].value)
    else Lookup(es[1..], key)
  }

  /** Put every allowed scalar of es on top of what is already held. */
  function Merge(held: seq<Entry>, es: seq<Entry>, allowed: seq<string>): seq<Entry> {
    if es == [] then held
    else
      var before := Merge(held, es[..|es| - 1], allowed);
      var e := es[|es| - 1];
      if e.key in allowed && Scalar(e.value) then Put(before, e.key, e.value) else before
  }

  function PutMissing(es: seq<Entry>, key: string, v: Value): seq<Entry> {
    if HasKey(es, key) then es else Put(es, key, v)
  }

  function FillDefaults(es: seq<Entry>, agent: string, now: int): seq<Entry> {
    PutMissing(PutMissing(PutMissing(es, "ip_address", Str("0.0.0.0")), "user_agent", Str(agent)),
        "last_activity", Int(now))
  }

  /** The named fields that are held, in the order of the names. */
  function Pick(es: seq<Entry>, names: seq<string>): seq<Entry> {
    if names == [] then []
    else
      var rest := Pick(es, names[1..]);
      if Lookup(es, names[0]).Some? then [Entry(names[0], Lookup(es, names[0]).value)] + rest else rest
  }

  /** A canonical flat session from the scalar fields given. */
  function BuildSession(fields: seq<Entry>): string {
    Print(Arr(BuildEntries(fields)))
  }

  function BuildEntries(fields: seq<Entry>): seq<Entry> {
    if fields == [] then []
    else
      var before := BuildEntries(fields[..|fields| - 1]);
      var e := fields[|fields| - 1];
      if e.key != "" && Scalar(e.value) then Put(before, e.key, e.value) else before
  }

  // ---- Scanning a text that does not parse ----

  function SkipDigits(s: string): (r: string)
    ensures |r| <= |s|
  {
    if s != [] && IsDigit(s[0]) then SkipDigits(s[1..]) else s
  }

  /** Rest behind a literal of this name at the start of s, whatever its declared length. */
  function MatchName(s: string, name: string): (r: Option<string>)
    ensures r.Some? ==> |r.value| < |s|
  {
    if !At2(s, 's', ':') then None
    else
      var t := SkipDigits(s[2..]);
      var close := ":\"" + name + "\";";
      if |t| < |s| - 2 && close <= t then Some(t[|close|..]) else None
  }

  function SkipSpace(s: string): (r: string)
    ensures |r| <= |s|
  {
    if s != [] && (s[0] == ' ' || s[0] == '\t' || s[0] == '\r' || s[0] == '\n') then SkipSpace(s[1..]) else s
  }

  /** The first non-null scalar that follows the name anywhere in the data. */
  function ScanField(s: string, name: string): (r: Option<Value>)
    ensures r.Some? ==> Scalar(r.value)
    decreases |s|
  {
    if s == [] then None
    else
      var m := MatchName(s, name);
      if m.None? then ScanField(s[1..], name)
      else
        var v := ReadScalar(SkipSpace(m.value));
        if v.Done? && !v.value.Null? then Some(v.value) else ScanField(m.value, name)
  }

  function ScanFields(data: string, names: seq<string>): seq<Entry> {
    if names == [] then []
    else
      var v := ScanField(data, names[0]);
      (if v.Some? then [Entry(names[0], v.value)] else []) + ScanFields(data, names[1..])
  }

  /** The hash at the very end of the data, if there is one. */
  function EndHash(data: string): string {
    var s := StripRight(data);
    if |s| >= 32 && IsHash(s[|s| - 32..]) then s[|s| - 32..] else ""
  }

  // ---- The sanitizer ----

  /** Kept: returned without a rebuild. Rebuilt: the new text, its fields, and the hash kept. */
  datatype Outcome = Kept(text: string) | Rebuilt(text: string, fields: seq<Entry>, hash: string)

  function Allowed(includeDevice: bool): seq<string> {
    if includeDevice then FIELD_ORDER else REQUIRED
  }

  /** What the damaged session itself still gives, and what follows it. */
  function Recover(normalized: string, text: string): (seq<Entry>, string) {
    var p := if Parse(normalized).Done? then Parse(normalized) else Parse(text);
    if p.Done? then (p.value.entries, p.rest) else (ScanFields(text, FIELD_ORDER), EndHash(text))
  }

  /** Structurally sound but short of fields: nothing to rebuild from. */
  predicate Incomplete(normalized: string, text: string) {
    var p := if Parse(normalized).Done? then Parse(normalized) else Parse(text);
    && p.Done? && normalized == text && !p.objects && Flat(p.value.entries)
    && !HasAll(p.value.entries, REQUIRED)
  }

  function Gather(normalized: string, text: string, fallback: seq<Entry>, allowed: seq<string>): seq<Entry> {
    Merge(Merge([], fallback, allowed), Recover(normalized, text).0, allowed)
  }

  predicate HasSession(es: seq<Entry>) {
    var id := Lookup(es, "session_id");
    id.Some? && id.value.Str? && id.value.s != ""
  }

  function Sanitize(value: string, fallback: seq<Entry>, includeDevice: bool, agent: string, now: int): Outcome {
    var text := TrimRight(TrimLeft(value));
    if !Headed(text) then Kept(text)
    else
      var allowed, normalized := Allowed(includeDevice), Normalize(value);
      if RustSafe(normalized, allowed) || Incomplete(normalized, text) then Kept(normalized)
      else
        var gathered := Gather(normalized, text, fallback, allowed);
        if !HasSession(gathered) then Kept(normalized)
        else
          var fields := Pick(FillDefaults(gathered, agent, now), FIELD_ORDER);
          var hash := TrailingHash(Recover(normalized, text).1);
          Rebuilt(BuildSession(fields) + hash, fields, hash)
  }

  // ---- Entry maps ----

  lemma LookupHas(es: seq<Entry>, key: string)
    ensures Lookup(es, key).Some? <==> HasKey(es, key)
  {
    if es != [] {
      LookupHas(es[1..], key);
      HasKeySplit(es, key);
    }
  }

  lemma {:induction false} LookupPut(es: seq<Entry>, key: string, v: Value, k: string)
    ensures Lookup(Put(es, key, v), k) == if k == key then Some(v) else Lookup(es, k)
  {
    if es != [] && es[0].key != key {
      LookupPut(es[1..], key, v, k);
    }
  }

  /** Every value held is a scalar under an allowed name. */
  ghost predicate Clean(es: seq<Entry>, allowed: seq<string>) {
    forall k :: Lookup(es, k).Some? ==> k in allowed && Scalar(Lookup(es, k).value)
  }

  lemma PutClean(es: seq<Entry>, key: string, v: Value, allowed: seq<string>)
    requires Clean(es, allowed) && key in allowed && Scalar(v)
    ensures Clean(Put(es, key, v), allowed)
  {
    forall k | Lookup(Put(es, key, v), k).Some?
      ensures k in allowed && Scalar(Lookup(Put(es, key, v), k).value)
    {
      LookupPut(es, key, v, k);
    }
  }

  lemma {:induction false} MergeClean(held: seq<Entry>, es: seq<Entry>, allowed: seq<string>)
    requires Clean(held, allowed)
    ensures Clean(Merge(held, es, allowed), allowed)
  {
    if es != [] {
      MergeClean(held, es[..|es| - 1], allowed);
      var e := es[|es| - 1];
      if e.key in allowed && Scalar(e.value) {
        PutClean(Merge(held, es[..|es| - 1], allowed), e.key, e.value, allowed);
      }
    }
  }

  lemma PutMissingClean(es: seq<Entry>, key: string, v: Value, allowed: seq<string>)
    requires Clean(es, allowed) && key in allowed && Scalar(v)
    ensures Clean(PutMissing(es, key, v), allowed)
    ensures forall k :: Lookup(PutMissing(es, key, v), k) ==
                        if k == key && Lookup(es, k).None? then Some(v) else Lookup(es, k)
  {
    PutClean(es, key, v, allowed);
    LookupHas(es, key);
    forall k
      ensures Lookup(PutMissing(es, key, v), k) == if k == key && Lookup(es, k).None? then Some(v) else Lookup(es, k)
    {
      LookupPut(es, key, v, k);
    }
  }

  /** After the defaults all required fields are there, and nothing recovered has changed. */
  lemma DefaultsComplete(es: seq<Entry>, agent: string, now: int, allowed: seq<string>)
    requires Clean(es, allowed) && HasSession(es) && forall n :: n in REQUIRED ==> n in allowed
    ensures var r := FillDefaults(es, agent, now);
            && Clean(r, allowed)
            && (forall n :: n in REQUIRED ==> Lookup(r, n).Some?)
            && (forall k :: Lookup(es, k).Some? ==> Lookup(r, k) == Lookup(es, k))
  {
    var a := PutMissing(es, "ip_address", Str("0.0.0.0"));
    var b := PutMissing(a, "user_agent", Str(agent));
    assert "ip_address" == REQUIRED[1] && "user_agent" == REQUIRED[2] && "last_activity" == REQUIRED[3];
    PutMissingClean(es, "ip_address", Str("0.0.0.0"), allowed);
    PutMissingClean(a, "user_agent", Str(agent), allowed);
    PutMissingClean(b, "last_activity", Int(now), allowed);
  }

  ghost predicate DistinctNames(names: seq<string>) {
    forall i, j :: 0 <= i < j < |names| ==> names[i] != names[j]
  }

  /** Picking keeps what is held under the names, each once. */
  lemma {:induction false} PickSpec(es: seq<Entry>, names: seq<string>)
    requires DistinctNames(names)
    ensures var r := Pick(es, names);
            && (forall k :: Lookup(r, k) == if k in names then Lookup(es, k) else None)
            && (forall i :: 0 <= i < |r| ==> r[i].key in names && Lookup(es, r[i].key) == Some(r[i].value))
            && DistinctKeys(r) && |r| <= |names|
  {
    if names != [] {
      var rest := names[1..];
      forall i, j | 0 <= i < j < |rest|
        ensures rest[i] != rest[j]
      {
        assert names[i + 1] != names[j + 1];
      }
      assert names[0] !in rest;
      PickSpec(es, rest);
      assert names == [names[0]] + rest;
    }
  }

  lemma {:induction false} BuildEntriesAll(fields: seq<Entry>)
    requires DistinctKeys(fields) && forall i :: 0 <= i < |fields| ==> fields[i].key != "" && Scalar(fields[i].value)
    ensures BuildEntries(fields) == fields
  {
    if fields != [] {
      var init, e := fields[..|fields| - 1], fields[|fields| - 1];
      BuildEntriesAll(init);
      assert !HasKey(init, e.key);
      PutNew(init, e.key, e.value);
      assert fields == init + [e];
    }
  }

  // ---- Hashes ----

  lemma {:induction false} StripHash(h: string)
    requires h == "" || IsHash(h)
    ensures Strip(h) == h && TrailingHash(h) == h
  {
    if h != "" {
      assert IsHex(h[0]) && IsHex(h[|h| - 1]);
    }
  }

  lemma CanonicalCount(es: seq<Entry>, tail: string)
    ensures At2(Print(Arr(es)) + tail, 'a', ':') && DeclaredCount(Print(Arr(es)) + tail) == Some(|es|)
  {
    var rest := "{" + (PrintEntries(es) + ("}" + tail));
    assert Print(Arr(es)) + tail == "a:" + (Dec(|es|) + ":" + rest);
    ReadDigitsAt(Dec(|es|), rest);
    assert ("a:" + (Dec(|es|) + ":" + rest))[2..] == Dec(|es|) + ":" + rest;
  }

  // ---- Main results ----

  /** A canonical flat session with the required and none but allowed fields, followed by
      nothing or a hash, is accepted. */
  lemma {:induction false} CanonicalSafe(es: seq<Entry>, hash: string, allowed: seq<string>)
    requires DistinctKeys(es) && |es| <= MAX_ENTRIES && Flat(es)
    requires HasAll(es, REQUIRED) && KeysWithin(es, allowed)
    requires hash == "" || IsHash(hash)
    ensures RustSafe(Print(Arr(es)) + hash, allowed)
    ensures Parse(Print(Arr(es)) + hash) == Done(Arr(es), hash, false, false)
    ensures DeclaredCount(Print(Arr(es)) + hash) == Some(|es|)
  {
    hide Parse, Print, DeclaredCount, TrailingHash;
    RoundTrip(es, hash);
    CanonicalCount(es, hash);
    StripHash(hash);
  }

  lemma OrderFacts()
    ensures DistinctNames(FIELD_ORDER) && |FIELD_ORDER| == 5
    ensures forall n :: n in REQUIRED ==> n in FIELD_ORDER && n != ""
    ensures forall n :: n in FIELD_ORDER ==> n != ""
  {
    assert "session_id" == FIELD_ORDER[0] && "ip_address" == FIELD_ORDER[1];
    assert "user_agent" == FIELD_ORDER[2] && "last_activity" == FIELD_ORDER[3];
    assert "session_id"[0] == 's' && "ip_address"[0] == 'i' && "user_agent"[0] == 'u' &&
        "last_activity"[0] == 'l' && "device_id"[0] == 'd';
  }

  lemma {:induction false} RebuiltFields(gathered: seq<Entry>, agent: string, now: int, allowed: seq<string>)
    returns (fields: seq<Entry>)
    requires Clean(gathered, allowed) && HasSession(gathered)
    requires allowed == FIELD_ORDER || allowed == REQUIRED
    ensures fields == Pick(FillDefaults(gathered, agent, now), FIELD_ORDER)
    ensures DistinctKeys(fields) && |fields| <= 5 && Flat(fields)
    ensures HasAll(fields, REQUIRED) && KeysWithin(fields, allowed)
    ensures BuildEntries(fields) == fields
    ensures forall k :: Lookup(gathered, k).Some? ==> Lookup(fields, k) == Lookup(gathered, k)
  {
    OrderFacts();
    DefaultsComplete(gathered, agent, now, allowed);
    var r := FillDefaults(gathered, agent, now);
    PickSpec(r, FIELD_ORDER);
    fields := Pick(r, FIELD_ORDER);
    forall i | 0 <= i < |fields|
      ensures fields[i].key != "" && Scalar(fields[i].value) && fields[i].key in allowed
    {
      assert Lookup(r, fields[i].key) == Some(fields[i].value);
    }
    forall i | 0 <= i < |REQUIRED|
      ensures HasKey(fields, REQUIRED[i])
    {
      assert REQUIRED[i] in REQUIRED;
      LookupHas(fields, REQUIRED[i]);
    }
    BuildEntriesAll(fields);
  }

  lemma GatherClean(normalized: string, text: string, fallback: seq<Entry>, allowed: seq<string>)
    ensures Clean(Gather(normalized, text, fallback, allowed), allowed)
  {
    hide Recover;
    MergeClean([], fallback, allowed);
    MergeClean(Merge([], fallback, allowed), Recover(normalized, text).0, allowed);
  }

  /** Whenever the sanitizer rebuilds, the native client accepts the result: exact count,
      exact lengths, flat, complete, only allowed fields, and the hash kept. */
  lemma {:induction false} RebuiltIsSafe(value: string, fallback: seq<Entry>, includeDevice: bool, agent: string,
      now: int)
    ensures var o := Sanitize(value, fallback, includeDevice, agent, now);
            var text := TrimRight(TrimLeft(value));
            o.Rebuilt? ==>
              && RustSafe(o.text, Allowed(includeDevice))
              && Parse(o.text) == Done(Arr(o.fields), o.hash, false, false)
              && DeclaredCount(o.text) == Some(|o.fields|)
              && o.hash == TrailingHash(Recover(Normalize(value), text).1)
  {
    hide RustSafe, Parse, Print, DeclaredCount, Recover, Normalize, Incomplete, FillDefaults, Pick, TrimLeft,
        TrimRight, Gather;
    var o := Sanitize(value, fallback, includeDevice, agent, now);
    if o.Rebuilt? {
      var text, allowed, normalized := TrimRight(TrimLeft(value)), Allowed(includeDevice), Normalize(value);
      var gathered := Gather(normalized, text, fallback, allowed);
      GatherClean(normalized, text, fallback, allowed);
      var fields := RebuiltFields(gathered, agent, now, allowed);
      CanonicalSafe(fields, o.hash, allowed);
    }
  }

  /** The sanitizer's result is accepted exactly when the normaliser's already was, or it
      could rebuild: the text has a header, is not merely short of fields, and a non-empty
      session_id string was recovered or supplied. */
  lemma {:induction false} SanitizedSafeIff(value: string, fallback: seq<Entry>, includeDevice: bool,
      agent: string, now: int)
    ensures var text, allowed, normalized := TrimRight(TrimLeft(value)), Allowed(includeDevice), Normalize(value);
            RustSafe(Sanitize(value, fallback, includeDevice, agent, now).text, allowed) <==>
              && Headed(text)
              && (RustSafe(normalized, allowed) ||
                  (!Incomplete(normalized, text) && HasSession(Gather(normalized, text, fallback, allowed))))
  {
    RebuiltIsSafe(value, fallback, includeDevice, agent, now);
    hide Parse, Recover, Normalize, Incomplete, FillDefaults, Pick, TrimLeft, TrimRight, Gather, BuildSession,
        HasSession, TrailingHash;
  }

  lemma {:induction false} MergeLookup(held: seq<Entry>, es: seq<Entry>, allowed: seq<string>, k: string)
    requires DistinctKeys(es)
    ensures Lookup(Merge(held, es, allowed), k) ==
            if Lookup(es, k).Some? && k in allowed && Scalar(Lookup(es, k).value) then Lookup(es, k)
            else Lookup(held, k)
  {
    if es != [] {
      var init, e := es[..|es| - 1], es[|es| - 1];
      MergeLookup(held, init, allowed, k);
      LookupPut(Merge(held, init, allowed), e.key, e.value, k);
      LookupSnoc(init, e, k);
      LookupHas(init, e.key);
      assert !HasKey(init, e.key);
      assert es == init + [e];
    }
  }

  lemma {:induction false} LookupSnoc(es: seq<Entry>, e: Entry, k: string)
    requires DistinctKeys(es + [e])
    ensures Lookup(es + [e], k) == if k == e.key then Some(e.value) else Lookup(es, k)
  {
    if es == [] {
      assert es + [e] == [e];
    } else {
      assert (es + [e])[1..] == es[1..] + [e];
      assert (es + [e])[0].key != (es + [e])[|es|].key;
      DistinctTail(es + [e]);
      LookupSnoc(es[1..], e, k);
    }
  }

  lemma DistinctTail(es: seq<Entry>)
    requires DistinctKeys(es) && es != []
    ensures DistinctKeys(es[1..])
  {
  }

  /** Nothing usable is lost or overridden: every allowed scalar field the session still
      parses to is in the rebuilt session with its own value. */
  lemma {:induction false} RebuiltKeepsFields(value: string, fallback: seq<Entry>, includeDevice: bool,
      agent: string, now: int, k: string)
    requires Sanitize(value, fallback, includeDevice, agent, now).Rebuilt?
    requires Parse(Normalize(value)).Done?
    requires k in Allowed(includeDevice)
    requires var v := Lookup(Parse(Normalize(value)).value.entries, k);
             v.Some? && Scalar(v.value)
    ensures Lookup(Sanitize(value, fallback, includeDevice, agent, now).fields, k) ==
            Lookup(Parse(Normalize(value)).value.entries, k)
  {
    hide RustSafe, Parse, Print, DeclaredCount, Normalize, Incomplete, FillDefaults, Pick, TrimLeft, TrimRight,
        Merge, Lookup, Scalar, HasSession;
    var text, allowed, normalized := TrimRight(TrimLeft(value)), Allowed(includeDevice), Normalize(value);
    var gathered := Gather(normalized, text, fallback, allowed);
    GatherClean(normalized, text, fallback, allowed);
    var fields := RebuiltFields(gathered, agent, now, allowed);
    var es := Parse(normalized).value.entries;
    ParseWellFormed(normalized);
    MergeLookup(Merge([], fallback, allowed), es, allowed, k);
  }
}
