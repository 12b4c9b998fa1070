/** The session parser as the source runs it: a cursor over the data and flags set on the
    way, each method tied to the reader function on the remaining input. */
module PhpParser {
  import opened Options
  import opened PhpText
  import opened PhpCodec

  datatype Container = NoContainer | ArrayContainer | ObjectContainer

  lemma DropDrop(s: string, i: nat, j: nat)
    requires i <= |s| && j <= |s[i..]|
    ensures s[i..][j..] == s[i + j..]
  {
  }

  /** One turn of the entry loop: what is left to read, on top of the flags raised by the turn. */
  lemma EntryTurn(s: string, es: seq<Entry>, count: nat, repaired: bool, objects: bool)
    requires !At(s, '}')
    ensures var p := ReadPair(s);
            Raise(ReadEntries(s, es, count), repaired, objects) ==
              if p.Fail? || count + 1 > MAX_ENTRIES then Fail
              else Raise(ReadEntries(p.rest, Put(es, p.value.0, p.value.1), count + 1),
                         repaired || p.repaired, objects || p.objects)
  {
  }

  class Parser {
    const data: string
    var pos: nat
    var depth: nat
    var topLevelCount: nat
    var containerKind: Container
    var repairedStrings: bool
    var sawObjects: bool

    ghost predicate Valid()
      reads this
    {
      pos <= |data|
    }

    function Rest(): string
      requires pos <= |data|
      reads this
    {
      data[pos..]
    }

    /** A method's outcome with the state it leaves, in the reader's terms. */
    function Now<T>(r: Option<T>): Read<T>
      requires pos <= |data|
      reads this
    {
      if r.None? then Fail else Done(r.value, Rest(), repairedStrings, sawObjects)
    }

    constructor (data: string)
      ensures Valid() && this.data == data && pos == 0
      ensures depth == 0 && !repairedStrings && !sawObjects && containerKind == NoContainer
    {
      this.data, pos, depth, topLevelCount := data, 0, 0, 0;
      containerKind, repairedStrings, sawObjects := NoContainer, false, false;
    }

    /** Move the cursor n places on. */
    method Advance(n: nat)
      requires Valid() && n <= |Rest()|
      modifies this`pos
      ensures Valid() && Rest() == old(Rest())[n..]
    {
      DropDrop(data, pos, n);
      pos := pos + n;
    }

    method ExpectChar(c: char) returns (ok: bool)
      requires Valid()
      modifies this`pos
      ensures Valid() && Expect(old(Rest()), c) == if ok then Some(Rest()) else None
    {
      ok := At(Rest(), c);
      if ok {
        Advance(1);
      }
    }

    method ExpectPair(c: char, d: char) returns (ok: bool)
      requires Valid()
      modifies this`pos
      ensures Valid() && Expect2(old(Rest()), c, d) == if ok then Some(Rest()) else None
    {
      ok := At2(Rest(), c, d);
      if ok {
        Advance(2);
      }
    }

    method ReadTo(delimiter: char) returns (r: Option<string>)
      requires Valid()
      modifies this`pos
      ensures Valid()
      ensures ReadUntil(old(Rest()), delimiter) == if r.Some? then Some((r.value, Rest())) else None
    {
      var end := FindChar(Rest(), delimiter);
      if end < 0 {
        return None;
      }
      r := Some(Rest()[..end]);
      Advance(end + 1);
    }

    method ReadInt() returns (r: Option<nat>)
      requires Valid()
      modifies this`pos
      ensures Valid()
      ensures ReadDigits(old(Rest())) == if r.Some? then Some((r.value, Rest())) else None
    {
      var raw := ReadTo(':');
      if raw.None? || !AllDigits(raw.value) {
        return None;
      }
      return Some(DecVal(raw.value));
    }

    method OpenStringLiteral() returns (length: Option<nat>)
      requires Valid()
      modifies this`pos
      ensures Valid()
      ensures OpenLiteral(old(Rest())) == if length.Some? then Some((length.value, Rest())) else None
    {
      var ok := ExpectPair('s', ':');
      if !ok {
        return None;
      }
      length := ReadInt();
      if length.None? {
        return None;
      }
      ok := ExpectChar('"');
      if !ok {
        return None;
      }
    }

    method ReadRaw(length: nat) returns (r: Option<string>)
      requires Valid()
      modifies this`pos, this`repairedStrings
      ensures Valid()
      ensures Now(r) == Raise(ReadPayload(old(Rest()), length), old(repairedStrings), old(sawObjects))
    {
      var end: int := length;
      if !ClosesAt(Rest(), end) {
        end := FindClose(Rest());
        if end < 0 {
          return None;
        }
        repairedStrings := true;
      }
      r := Some(Rest()[..end]);
      Advance(end + 2);
    }

    method ReadStr() returns (r: Option<string>)
      requires Valid()
      modifies this`pos, this`repairedStrings
      ensures Valid()
      ensures Now(r) == Raise(ReadString(old(Rest())), old(repairedStrings), old(sawObjects))
    {
      var length := OpenStringLiteral();
      if length.None? {
        return None;
      }
      r := ReadRaw(length.value);
    }

    method ReadNumber() returns (r: Option<Value>)
      requires Valid() && At2(Rest(), 'i', ':')
      modifies this`pos
      ensures Valid()
      ensures Now(r) == Raise(ReadScalar(old(Rest())), repairedStrings, sawObjects)
    {
      Advance(2);
      var t := ReadTo(';');
      if t.None? {
        return None;
      }
      var n := PyInt(t.value);
      return if n.None? then None else Some(Int(n.value));
    }

    method ReadFlag() returns (r: Option<Value>)
      requires Valid() && At2(Rest(), 'b', ':')
      modifies this`pos
      ensures Valid()
      ensures Now(r) == Raise(ReadScalar(old(Rest())), repairedStrings, sawObjects)
    {
      Advance(2);
      var t := ReadTo(';');
      return if t.None? then None else Some(Bool(t.value == "1"));
    }

    method ReadSimple() returns (r: Option<Value>)
      requires Valid()
      modifies this`pos, this`repairedStrings
      ensures Valid()
      ensures Now(r) == Raise(ReadScalar(old(Rest())), old(repairedStrings), old(sawObjects))
    {
      if At2(Rest(), 's', ':') {
        var s := ReadStr();
        r := if s.None? then None else Some(Str(s.value));
      } else if At2(Rest(), 'i', ':') {
        r := ReadNumber();
      } else if At2(Rest(), 'b', ':') {
        r := ReadFlag();
      } else if At2(Rest(), 'N', ';') {
        Advance(2);
        r := Some(Null);
      } else {
        r := None;
      }
    }

    method ReadAny() returns (r: Option<Value>)
      requires Valid()
      modifies this
      ensures Valid() && (r.Some? ==> depth == old(depth))
      ensures Now(r) == Raise(ReadValue(old(Rest())), old(repairedStrings), old(sawObjects))
      decreases |Rest()|, 1
    {
      if At2(Rest(), 'a', ':') {
        r := ReadArrayBody();
      } else if At2(Rest(), 'O', ':') {
        r := ReadObjectBody();
      } else {
        r := ReadSimple();
      }
    }

    method OpenBraces() returns (ok: bool)
      requires Valid()
      modifies this`pos
      ensures Valid() && OpenBody(old(Rest())) == if ok then Some(Rest()) else None
    {
      var n := ReadInt();
      if n.None? {
        return false;
      }
      ok := ExpectChar('{');
    }

    method OpenArray() returns (ok: bool)
      requires Valid()
      modifies this`pos
      ensures Valid() && (ok ==> |Rest()| < |old(Rest())|)
      ensures ReadArray(old(Rest())) == if ok then ReadEntries(Rest(), [], 0) else Fail
    {
      ok := ExpectPair('a', ':');
      if ok {
        ok := OpenBraces();
      }
    }

    method ReadClassName() returns (r: Option<string>)
      requires Valid()
      modifies this`pos
      ensures Valid()
      ensures ReadName(old(Rest())) == if r.Some? then Some((r.value, Rest())) else None
    {
      var length := ReadInt();
      if length.None? {
        return None;
      }
      var ok := ExpectChar('"');
      if !ok || length.value > |Rest()| {
        return None;
      }
      r := Some(Rest()[..length.value]);
      Advance(length.value);
      ok := ExpectPair('"', ':');
      if !ok {
        return None;
      }
    }

    method OpenObject() returns (ok: bool)
      requires Valid()
      modifies this`pos, this`sawObjects
      ensures Valid() && (ok ==> |Rest()| < |old(Rest())|)
      ensures Raise(ReadObject(old(Rest())), repairedStrings, old(sawObjects)) ==
              if ok then Raise(ReadEntries(Rest(), [], 0), repairedStrings, sawObjects) else Fail
    {
      sawObjects := true;
      ok := ExpectPair('O', ':');
      if !ok {
        return;
      }
      var name := ReadClassName();
      if name.None? {
        return false;
      }
      ok := OpenBraces();
    }

    /** The entries of a container just opened, and what is noted when it is the outermost. */
    method ReadContents(kind: Container) returns (r: Option<Value>)
      requires Valid() && depth > 0
      modifies this
      ensures Valid() && (r.Some? ==> depth == old(depth) - 1 && r.value.Arr?)
      ensures Now(r) == Raise(ReadEntries(old(Rest()), [], 0), old(repairedStrings), old(sawObjects))
      ensures r.Some? && depth == 0 ==> containerKind == kind && topLevelCount == |r.value.entries|
      decreases |Rest()|, 5
    {
      r := ReadEntryLoop();
      if r.None? {
        return;
      }
      depth := depth - 1;
      if depth == 0 {
        containerKind := kind;
        topLevelCount := |r.value.entries|;
      }
    }

    method ReadArrayBody() returns (r: Option<Value>)
      requires Valid()
      modifies this
      ensures Valid() && (r.Some? ==> depth == old(depth) && r.value.Arr?)
      ensures Now(r) == Raise(ReadArray(old(Rest())), old(repairedStrings), old(sawObjects))
      ensures r.Some? && depth == 0 ==> containerKind == ArrayContainer && topLevelCount == |r.value.entries|
      decreases |Rest()|, 0
    {
      depth := depth + 1;
      var ok := OpenArray();
      if !ok {
        return None;
      }
      r := ReadContents(ArrayContainer);
    }

    method ReadObjectBody() returns (r: Option<Value>)
      requires Valid()
      modifies this
      ensures Valid() && (r.Some? ==> depth == old(depth) && r.value.Arr?)
      ensures Now(r) == Raise(ReadObject(old(Rest())), old(repairedStrings), old(sawObjects))
      ensures r.Some? && depth == 0 ==> containerKind == ObjectContainer && topLevelCount == |r.value.entries|
      decreases |Rest()|, 0
    {
      ghost var target := Raise(ReadObject(Rest()), repairedStrings, sawObjects);
      depth := depth + 1;
      var ok := OpenObject();
      if !ok {
        assert target == Fail;
        return None;
      }
      assert target == Raise(ReadEntries(Rest(), [], 0), repairedStrings, sawObjects);
      r := ReadContents(ObjectContainer);
    }

    method ReadKeyAndValue() returns (r: Option<(string, Value)>)
      requires Valid()
      modifies this
      ensures Valid() && (r.Some? ==> depth == old(depth))
      ensures Now(r) == Raise(ReadPair(old(Rest())), old(repairedStrings), old(sawObjects))
      decreases |Rest()|, 2
    {
      hide ReadString, ReadValue;
      var key := ReadStr();
      if key.None? {
        return None;
      }
      var value := ReadAny();
      if value.None? {
        return None;
      }
      return Some((key.value, value.value));
    }

    /** One turn of the entry loop. */
    method ReadEntryInto(entries: seq<Entry>, count: nat) returns (r: Option<seq<Entry>>)
      requires Valid() && !At(Rest(), '}')
      modifies this
      ensures Valid() && (r.Some? ==> depth == old(depth) && |Rest()| < |old(Rest())|)
      ensures Raise(ReadEntries(old(Rest()), entries, count), old(repairedStrings), old(sawObjects)) ==
              if r.Some? then Raise(ReadEntries(Rest(), r.value, count + 1), repairedStrings, sawObjects) else Fail
      decreases |Rest()|, 3
    {
      EntryTurn(Rest(), entries, count, repairedStrings, sawObjects);
      var e := ReadKeyAndValue();
      if e.None? || count + 1 > MAX_ENTRIES {
        return None;
      }
      return Some(Put(entries, e.value.0, e.value.1));
    }

    /** The entry loop: at every turn the entries so far, the flags so far and the rest still
        to read add up to the reader's result on the whole. */
    method ReadEntryLoop() returns (r: Option<Value>)
      requires Valid()
      modifies this
      ensures Valid() && (r.Some? ==> depth == old(depth) && r.value.Arr?)
      ensures Now(r) == Raise(ReadEntries(old(Rest()), [], 0), old(repairedStrings), old(sawObjects))
      decreases |Rest()|, 4
    {
      var entries: seq<Entry>, count: nat := [], 0;
      while !At(Rest(), '}')
        invariant Valid() && |Rest()| <= |old(Rest())| && depth == old(depth)
        invariant Raise(ReadEntries(Rest(), entries, count), repairedStrings, sawObjects) ==
                  Raise(ReadEntries(old(Rest()), [], 0), old(repairedStrings), old(sawObjects))
        decreases |Rest()|
      {
        var e := ReadEntryInto(entries, count);
        if e.None? {
          return None;
        }
        entries, count := e.value, count + 1;
      }
      Advance(1);
      r := Some(Arr(entries));
    }

    /** Parse a whole session from the start of the data. */
    method ParseSession() returns (r: Option<(seq<Entry>, string)>)
      requires Valid() && pos == 0 && depth == 0 && !repairedStrings && !sawObjects
      modifies this
      ensures Parse(data) == if r.None? then Fail else Done(Arr(r.value.0), r.value.1, repairedStrings, sawObjects)
      ensures r.Some? ==>
                && containerKind == (if At2(data, 'a', ':') then ArrayContainer else ObjectContainer)
                && topLevelCount == |r.value.0|
    {
      assert Rest() == data;
      var v;
      if At2(data, 'a', ':') {
        v := ReadArrayBody();
      } else if At2(data, 'O', ':') {
        v := ReadObjectBody();
      } else {
        return None;
      }
      if v.None? {
        return None;
      }
      return Some((v.value.entries, Rest()));
    }
  }
}
