/** Session values, their canonical print, and the tolerant reader as functions on the
    remaining input. */
module PhpCodec {
  import opened Options
  import opened PhpText

  datatype Value = Str(s: string) | Int(n: int) | Bool(b: bool) | Null | Arr(entries: seq<Entry>)

  datatype Entry = Entry(key: string, value: Value)

  const MAX_ENTRIES := 10_000

  // ---- Entry maps: insertion order, a repeated key keeps its place and takes the new value ----

  function Put(es: seq<Entry>, key: string, v: Value): seq<Entry> {
    if es == [] then [Entry(key, v)]
    else if es[0].key == key then [Entry(key, v)] + es[1..]
    else [es[0]] + Put(es[1..], key, v)
  }

  predicate HasKey(es: seq<Entry>, key: string) {
    exists i :: 0 <= i < |es| && es[i].key == key
  }

  ghost predicate DistinctKeys(es: seq<Entry>) {
    forall i, j :: 0 <= i < j < |es| ==> es[i].key != es[j].key
  }

  lemma {:induction false} PutNew(es: seq<Entry>, key: string, v: Value)
    requires !HasKey(es, key)
    ensures Put(es, key, v) == es + [Entry(key, v)]
  {
    if es != [] {
      assert es[0].key != key;
      forall i | 0 <= i < |es[1..]|
        ensures es[1..][i].key != key
      {
        assert es[i + 1].key != key;
      }
      PutNew(es[1..], key, v);
    }
  }

  lemma {:induction false} PutKeys(es: seq<Entry>, key: string, v: Value, k: string)
    ensures HasKey(Put(es, key, v), k) <==> HasKey(es, k) || k == key
  {
    var r := Put(es, key, v);
    if es == [] {
      assert r[0].key == key;
    } else if es[0].key == key {
      assert r[0].key == key && forall i :: 0 <= i < |es| ==> r[i].key == es[i].key;
    } else {
      PutKeys(es[1..], key, v, k);
      var t := Put(es[1..], key, v);
      assert r[0] == es[0] && r[1..] == t;
      HasKeySplit(es, k);
      HasKeySplit(r, k);
    }
  }

  lemma HasKeySplit(es: seq<Entry>, k: string)
    requires es != []
    ensures HasKey(es, k) <==> es[0].key == k || HasKey(es[1..], k)
  {
    if HasKey(es, k) && es[0].key != k {
      var i :| 0 <= i < |es| && es[i].key == k;
      assert es[1..][i - 1].key == k;
    }
    if HasKey(es[1..], k) {
      var i :| 0 <= i < |es[1..]| && es[1..][i].key == k;
      assert es[i + 1].key == k;
    }
  }

  lemma {:induction false} PutDistinct(es: seq<Entry>, key: string, v: Value)
    requires DistinctKeys(es)
    ensures DistinctKeys(Put(es, key, v)) && |Put(es, key, v)| <= |es| + 1
  {
    if es != [] && es[0].key != key {
      PutDistinct(es[1..], key, v);
      var t := Put(es[1..], key, v);
      assert forall j :: 0 <= j < |es[1..]| ==> es[1..][j].key == es[j + 1].key;
      assert !HasKey(es[1..], es[0].key);
      forall i | 0 <= i < |t|
        ensures t[i].key != es[0].key
      {
        PutKeys(es[1..], key, v, t[i].key);
        assert HasKey(t, t[i].key);
      }
    }
  }

  /** A value the codec can hold: at every level distinct keys, at most 10,000 of them. */
  ghost predicate WellFormed(v: Value) {
    v.Arr? ==> WellFormedEntries(v.entries)
  }

  ghost predicate WellFormedEntries(es: seq<Entry>) {
    && DistinctKeys(es) && |es| <= MAX_ENTRIES
    && forall i :: 0 <= i < |es| ==> WellFormed(es[i].value)
  }

  lemma {:induction false} PutAppend(es: seq<Entry>, key: string, v: Value)
    requires WellFormed(v) && forall i :: 0 <= i < |es| ==> WellFormed(es[i].value)
    ensures forall i :: 0 <= i < |Put(es, key, v)| ==> WellFormed(Put(es, key, v)[i].value)
  {
    if es != [] && es[0].key != key {
      PutAppend(es[1..], key, v);
    }
  }

  lemma PutWellFormed(es: seq<Entry>, key: string, v: Value)
    requires WellFormedEntries(es) && |es| < MAX_ENTRIES && WellFormed(v)
    ensures WellFormedEntries(Put(es, key, v)) && |Put(es, key, v)| <= |es| + 1
  {
    PutDistinct(es, key, v);
    PutAppend(es, key, v);
  }

  // ---- Canonical print ----

  function PrintStr(s: string): string {
    "s:" + Dec(|s|) + ":\"" + s + CLOSE
  }

  function Print(v: Value): string {
    match v
    case Str(s) => PrintStr(s)
    case Int(n) => "i:" + IntText(n) + ";"
    case Bool(b) => if b then "b:1;" else "b:0;"
    case Null => "N;"
    case Arr(es) => "a:" + Dec(|es|) + ":{" + PrintEntries(es) + "}"
  }

  function PrintEntries(es: seq<Entry>): string {
    if es == [] then "" else PrintStr(es[0].key) + Print(es[0].value) + PrintEntries(es[1..])
  }

  // ---- The reader ----

  /** Fail stands for the ValueError; repaired and objects are the reader's two flags. */
  datatype Read<+T> = Fail | Done(value: T, rest: string, repaired: bool, objects: bool)

  /** The result with these flags raised as well. */
  function Raise<T>(r: Read<T>, repaired: bool, objects: bool): Read<T> {
    if r.Fail? then Fail
    else Done(r.value, r.rest, repaired || r.repaired, objects || r.objects)
  }

  /** Declared length of a string literal, and the input from its payload on. */
  function OpenLiteral(s: string): (r: Option<(nat, string)>)
    ensures r.Some? ==> |r.value.1| < |s|
  {
    var a := Expect2(s, 's', ':');
    if a.None? then None else
    var n := ReadDigits(a.value);
    if n.None? then None else
    var q := Expect(n.value.1, '"');
    if q.None? then None else Some((n.value.0, q.value))
  }

  /** Trust the declared length if a closing token stands there; otherwise look for one. */
  function PayloadEnd(body: string, declared: nat): int {
    if ClosesAt(body, declared) then declared else FindClose(body)
  }

  function ReadPayload(body: string, declared: nat): (r: Read<string>)
    ensures r.Done? ==> |r.rest| < |body| && !r.objects
  {
    var end := PayloadEnd(body, declared);
    if end < 0 then Fail else Done(body[..end], body[end + 2..], !ClosesAt(body, declared), false)
  }

  function ReadString(s: string): (r: Read<string>)
    ensures r.Done? ==> |r.rest| < |s| && !r.objects
  {
    var o := OpenLiteral(s);
    if o.None? then Fail else ReadPayload(o.value.1, o.value.0)
  }

  function ReadScalar(s: string): (r: Read<Value>)
    ensures r.Done? ==> |r.rest| < |s| && !r.value.Arr? && !r.objects
  {
    if At2(s, 's', ':') then
      var r := ReadString(s);
      if r.Fail? then Fail else Done(Str(r.value), r.rest, r.repaired, false)
    else if At2(s, 'i', ':') then
      var t := ReadUntil(s[2..], ';');
      if t.None? then Fail else
      var n := PyInt(t.value.0);
      if n.None? then Fail else Done(Int(n.value), t.value.1, false, false)
    else if At2(s, 'b', ':') then
      var t := ReadUntil(s[2..], ';');
      if t.None? then Fail else Done(Bool(t.value.0 == "1"), t.value.1, false, false)
    else if At2(s, 'N', ';') then Done(Null, s[2..], false, false)
    else Fail
  }

  function ReadValue(s: string): (r: Read<Value>)
    ensures r.Done? ==> |r.rest| < |s|
    decreases |s|, 1
  {
    if At2(s, 'a', ':') then ReadArray(s)
    else if At2(s, 'O', ':') then ReadObject(s)
    else ReadScalar(s)
  }

  /** The declared count, read and ignored, and the opening brace. */
  function OpenBody(s: string): (r: Option<string>)
    ensures r.Some? ==> |r.value| < |s|
  {
    var n := ReadDigits(s);
    if n.None? then None else Expect(n.value.1, '{')
  }

  function ReadArray(s: string): (r: Read<Value>)
    ensures r.Done? ==> |r.rest| < |s| && r.value.Arr?
    decreases |s|, 0
  {
    var a := Expect2(s, 'a', ':');
    if a.None? then Fail else
    var b := OpenBody(a.value);
    if b.None? then Fail else ReadEntries(b.value, [], 0)
  }

  /** Class name with its trusted length, then the closing quote and colon. */
  function ReadName(s: string): (r: Option<(string, string)>)
    ensures r.Some? ==> |r.value.1| < |s|
  {
    var n := ReadDigits(s);
    if n.None? then None else
    var q := Expect(n.value.1, '"');
    if q.None? || n.value.0 > |q.value| then None else
    var t := Expect2(q.value[n.value.0..], '"', ':');
    if t.None? then None else Some((q.value[..n.value.0], t.value))
  }

  function ReadObject(s: string): (r: Read<Value>)
    ensures r.Done? ==> |r.rest| < |s| && r.value.Arr?
    decreases |s|, 0
  {
    var a := Expect2(s, 'O', ':');
    if a.None? then Fail else
    var name := ReadName(a.value);
    if name.None? then Fail else
    var b := OpenBody(name.value.1);
    if b.None? then Fail else
    Raise(ReadEntries(b.value, [], 0), false, true)
  }

  /** Entries up to the closing brace; the declared count is not consulted. */
  function ReadEntries(s: string, es: seq<Entry>, count: nat): (r: Read<Value>)
    ensures r.Done? ==> |r.rest| < |s| && r.value.Arr?
    decreases |s|, 3
  {
    if At(s, '}') then Done(Arr(es), s[1..], false, false)
    else
      var p := ReadPair(s);
      if p.Fail? || count + 1 > MAX_ENTRIES then Fail
      else Raise(ReadEntries(p.rest, Put(es, p.value.0, p.value.1), count + 1), p.repaired, p.objects)
  }

  function ReadPair(s: string): (r: Read<(string, Value)>)
    ensures r.Done? ==> |r.rest| < |s|
    decreases |s|, 2
  {
    var k := ReadString(s);
    if k.Fail? then Fail else
    var v := ReadValue(k.rest);
    if v.Fail? then Fail else Done((k.value, v.value), v.rest, k.repaired || v.repaired, v.objects)
  }

  /** A whole session: a container and whatever follows it. */
  function Parse(data: string): (r: Read<Value>)
    ensures r.Done? ==> r.value.Arr?
  {
    if At2(data, 'a', ':') then ReadArray(data)
    else if At2(data, 'O', ':') then ReadObject(data)
    else Fail
  }

  // ---- What the reader returns is always a value the codec can hold ----

  /** One turn of the entry loop that did not fail: key, value, input before and after the value. */
  lemma ReadEntriesTurn(s: string, es: seq<Entry>, count: nat)
    returns (k: string, v: Value, before: string, after: string, put: seq<Entry>)
    requires ReadEntries(s, es, count).Done? && !At(s, '}')
    ensures |after| < |before| < |s| && count < MAX_ENTRIES && put == Put(es, k, v)
    ensures ReadString(s).Done? && k == ReadString(s).value && before == ReadString(s).rest
    ensures ReadValue(before).Done? && v == ReadValue(before).value && after == ReadValue(before).rest
    ensures ReadEntries(after, put, count + 1).Done?
    ensures ReadEntries(after, put, count + 1).value == ReadEntries(s, es, count).value
  {
    k, before := ReadString(s).value, ReadString(s).rest;
    v, after := ReadValue(before).value, ReadValue(before).rest;
    put := Put(es, k, v);
  }

  lemma {:induction false} ReadWellFormed(s: string)
    requires ReadValue(s).Done?
    ensures WellFormed(ReadValue(s).value)
    decreases |s|, 1
  {
    if At2(s, 'a', ':') {
      ReadArrayWellFormed(s);
    } else if At2(s, 'O', ':') {
      ReadObjectWellFormed(s);
    }
  }

  lemma {:induction false} ReadArrayWellFormed(s: string)
    requires ReadArray(s).Done?
    ensures WellFormed(ReadArray(s).value)
    decreases |s|, 0
  {
    ReadEntriesWellFormed(OpenBody(s[2..]).value, [], 0);
  }

  lemma {:induction false} ReadObjectWellFormed(s: string)
    requires ReadObject(s).Done?
    ensures WellFormed(ReadObject(s).value)
    decreases |s|, 0
  {
    ReadEntriesWellFormed(OpenBody(ReadName(s[2..]).value.1).value, [], 0);
  }

  ghost predicate Held(es: seq<Entry>, count: nat) {
    WellFormedEntries(es) && |es| <= count
  }

  lemma HeldPut(es: seq<Entry>, key: string, v: Value, count: nat, put: seq<Entry>) returns (next: nat)
    requires Held(es, count) && count < MAX_ENTRIES && WellFormed(v) && put == Put(es, key, v)
    ensures next == count + 1 && Held(put, next)
  {
    next := count + 1;
    PutWellFormed(es, key, v);
  }

  lemma {:induction false} ReadEntriesWellFormed(s: string, es: seq<Entry>, count: nat)
    requires Held(es, count) && ReadEntries(s, es, count).Done?
    ensures WellFormed(ReadEntries(s, es, count).value)
    decreases |s|, 2
  {
    if !At(s, '}') {
      var k, v, before, after, put := ReadEntriesTurn(s, es, count);
      ReadWellFormed(before);
      var next := HeldPut(es, k, v, count, put);
      ReadEntriesWellFormed(after, put, next);
    }
  }

  /** Whatever is read has distinct keys and at most 10,000 entries at every level. */
  lemma {:induction false} ParseWellFormed(data: string)
    requires Parse(data).Done?
    ensures WellFormedEntries(Parse(data).value.entries)
  {
    if At2(data, 'a', ':') {
      ReadArrayWellFormed(data);
    } else {
      ReadObjectWellFormed(data);
    }
  }
}
