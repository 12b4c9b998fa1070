/** A session that was escaped on its way: how often normalising takes that off again. */
module PhpUnescape {
  import opened Options
  import opened Text
  import opened PhpText
  import opened PhpCodec
  import opened PhpWire
  import opened PhpScan
  import opened PhpSession
  import opened PhpEscapes

  // ---- Escaping ----

  /** A backslash in front of every quote and every backslash. */
  function Escape(s: string): string {
    if s == [] then []
    else (if s[0] == '"' || s[0] == '\\' then ['\\', s[0]] else [s[0]]) + Escape(s[1..])
  }

  function EscapeTimes(s: string, n: nat): string {
    if n == 0 then s else Escape(EscapeTimes(s, n - 1))
  }

  /** The backslashes doubled. */
  function Doubled(s: string): string {
    if s == [] then [] else (if s[0] == '\\' then ['\\', '\\'] else [s[0]]) + Doubled(s[1..])
  }

  lemma EscapeStarts(s: string)
    ensures Escape(s) != [] ==> Escape(s)[0] != '"'
  {
  }

  lemma ReplaceFirst(c: char, rest: string, b: char, to: char)
    ensures c == '\\' && rest != [] && rest[0] == b ==>
              ReplacePair([c] + rest, '\\', b, to) == [to] + ReplacePair(rest[1..], '\\', b, to)
    ensures !(c == '\\' && rest != [] && rest[0] == b) ==>
              ReplacePair([c] + rest, '\\', b, to) == [c] + ReplacePair(rest, '\\', b, to)
  {
    assert ([c] + rest)[1..] == rest && |rest| > 0 ==> ([c] + rest)[2..] == rest[1..];
  }

  lemma EscapeFirst(s: string)
    requires s != []
    ensures Escape(s) ==
              if s[0] == '"' || s[0] == '\\' then ['\\'] + ([s[0]] + Escape(s[1..])) else [s[0]] + Escape(s[1..])
    ensures Doubled(s) == if s[0] == '\\' then ['\\'] + (['\\'] + Doubled(s[1..])) else [s[0]] + Doubled(s[1..])
  {
    var c, e, d := s[0], Escape(s[1..]), Doubled(s[1..]);
    assert ['\\', c] + e == ['\\'] + ([c] + e) && ['\\', '\\'] + d == ['\\'] + (['\\'] + d);
  }

  /** The first replacement takes the backslashes off the quotes. */
  lemma {:induction false} UnquoteEscaped(s: string)
    ensures ReplacePair(Escape(s), '\\', '"', '"') == Doubled(s)
  {
    hide ReplacePair, Escape, Doubled;
    if s == [] {
      EmptyEscapes();
    } else {
      var c, rest := s[0], s[1..];
      var e := Escape(rest);
      UnquoteEscaped(rest);
      EscapeFirst(s);
      EscapeStarts(rest);
      ReplaceFirst(c, e, '"', '"');
      ReplaceFirst('\\', [c] + e, '"', '"');
      assert ([c] + e)[1..] == e;
    }
  }

  lemma EmptyEscapes()
    ensures Escape([]) == [] && Doubled([]) == []
    ensures forall b, to :: ReplacePair([], '\\', b, to) == []
  {
  }

  /** The second takes the other half of the backslashes off. */
  lemma {:induction false} UndoubleDoubled(s: string)
    ensures ReplacePair(Doubled(s), '\\', '\\', '\\') == s
  {
    hide ReplacePair, Escape, Doubled;
    if s == [] {
      EmptyEscapes();
    } else {
      var c, rest := s[0], s[1..];
      var d := Doubled(rest);
      UndoubleDoubled(rest);
      EscapeFirst(s);
      ReplaceFirst(c, d, '\\', '\\');
      ReplaceFirst('\\', ['\\'] + d, '\\', '\\');
      assert (['\\'] + d)[1..] == d && s == [c] + rest;
    }
  }

  /** One round of unescaping undoes one escaping, of any text. */
  lemma {:induction false} UnescapeEscape(s: string)
    ensures Unescape(Escape(s)) == s
  {
    hide ReplacePair, Escape;
    UnquoteEscaped(s);
    UndoubleDoubled(s);
  }

  // ---- Escaped sessions cannot be repaired ----

  /** Every quote but one at the very start has a backslash in front. */
  ghost predicate Guarded(s: string) {
    forall i :: 0 < i < |s| && s[i] == '"' ==> s[i - 1] == '\\'
  }

  lemma GuardedRest(s: string, k: nat)
    requires Guarded(s) && k <= |s|
    ensures Guarded(s[k..])
  {
    forall i | 0 < i < |s[k..]| && s[k..][i] == '"'
      ensures s[k..][i - 1] == '\\'
    {
      assert s[k + i] == '"';
    }
  }

  lemma GuardedStart(s: string, k: nat)
    requires Guarded(s) && k <= |s|
    ensures Guarded(s[..k])
  {
  }

  lemma {:induction false} EscapeGuards(s: string)
    ensures Guarded(Escape(s)) && (Escape(s) != [] ==> Escape(s)[0] != '"')
  {
    EscapeStarts(s);
    if s != [] {
      EscapeGuards(s[1..]);
      EscapeFirst(s);
    }
  }

  /** Behind a number and its colon there is no quote. */
  lemma DigitsThenNoQuote(s: string)
    requires Guarded(s) && ReadDigits(s).Some?
    ensures !At(ReadDigits(s).value.1, '"') && Guarded(ReadDigits(s).value.1)
  {
    hide FindChar, DecVal, AllDigits;
    var i := FindChar(s, ':');
    GuardedRest(s, i + 1);
    if i + 1 < |s| {
      assert s[i] == ':' && s[i + 1..][0] == s[i + 1];
    }
  }

  lemma NoLiteral(s: string)
    requires Guarded(s)
    ensures ReadString(s).Fail?
  {
    hide FindChar, DecVal, AllDigits, ReadDigits, FindClose;
    if At2(s, 's', ':') {
      GuardedRest(s, 2);
      if ReadDigits(s[2..]).Some? {
        DigitsThenNoQuote(s[2..]);
      }
    }
  }

  lemma NoEntries(s: string)
    requires Guarded(s)
    ensures var r := ReadEntries(s, [], 0);
            r.Done? ==> r.value == Arr([])
  {
    hide ReadString, ReadValue;
    NoLiteral(s);
  }

  lemma BodyGuarded(s: string)
    requires Guarded(s) && OpenBody(s).Some?
    ensures Guarded(OpenBody(s).value)
  {
    hide ReadDigits;
    DigitsThenNoQuote(s);
    GuardedRest(ReadDigits(s).value.1, 1);
  }

  lemma NoFix(s: string)
    requires Guarded(s)
    ensures Fix(s).None?
  {
    hide ReadDigits, ReadEntries, OpenBody;
    if At2(s, 'a', ':') {
      GuardedRest(s, 2);
      if OpenBody(s[2..]).Some? {
        BodyGuarded(s[2..]);
        NoEntries(OpenBody(s[2..]).value);
      }
    } else if At2(s, 'O', ':') {
      GuardedRest(s, 2);
      if ReadDigits(s[2..]).Some? {
        DigitsThenNoQuote(s[2..]);
      }
    }
    NoneOfAll();
  }

  lemma NoneOfAll()
    ensures !HasAll([], REQUIRED)
  {
    assert !HasKey([], REQUIRED[0]);
  }

  lemma NoMention(s: string)
    requires Guarded(s)
    ensures !NamesStand(s)
  {
    forall pre: string, post: string
      ensures s != pre + ("\"session_id\"" + post)
    {
      IdUnguarded(pre, post);
    }
  }

  lemma IdUnguarded(pre: string, post: string)
    ensures !Guarded(pre + ("\"session_id\"" + post))
  {
    var s := pre + ("\"session_id\"" + post);
    assert s[|pre| + 11] == '"' && s[|pre| + 10] == 'd';
  }

  lemma NoCountFix(s: string)
    requires Guarded(s)
    ensures CountFix(s).None?
  {
    hide FindBody, NamesStand, MentionsAll, CountKeys, Reheader;
    var b := FindBody(s);
    if b.Some? {
      var i, j := b.value.0 + 1, b.value.1;
      if i <= j {
        GuardedStart(s, j);
        GuardedRest(s[..j], i);
        assert s[..j][i..] == s[i..j];
      }
      NoMention(Slice(s, i, j));
      MentionsIff(Slice(s, i, j));
    }
  }

  /** So no repair takes a text that is still escaped. */
  lemma EscapedBeyond(s: string)
    ensures Attempt(Escape(s)).None?
  {
    hide Escape, Fix, CountFix;
    EscapeGuards(s);
    NoFix(Escape(s));
    NoCountFix(Escape(s));
  }

  // ---- Rounds ----

  lemma {:induction false} EscapeGrows(s: string)
    ensures |Escape(s)| >= |s| && ('"' in s ==> |Escape(s)| > |s|)
    ensures '"' in s ==> HasEscapedQuote(Escape(s)) && '"' in Escape(s)
  {
    hide HasEscapedQuote;
    if s != [] {
      EscapeGrows(s[1..]);
      EscapeFirst(s);
      assert s == [s[0]] + s[1..];
      if s[0] == '"' {
        EscapedHere([], Escape(s[1..]), Escape(s));
      } else if '"' in s {
        EscapedLater(Escape(s), Escape(s[1..]));
      }
    }
  }

  lemma EscapedHere(pre: string, rest: string, s: string)
    requires s == pre + ("\\\"" + rest)
    ensures HasEscapedQuote(s) && '"' in s
  {
    assert s[|pre|] == '\\' && s[|pre| + 1] == '"';
  }

  lemma EscapedLater(s: string, rest: string)
    requires |rest| <= |s| && s[|s| - |rest|..] == rest && HasEscapedQuote(rest)
    ensures HasEscapedQuote(s) && '"' in s
  {
    var k := |s| - |rest|;
    var i :| 0 <= i < |rest| - 1 && rest[i] == '\\' && rest[i + 1] == '"';
    assert s[k + i] == '\\' && s[k + i + 1] == '"';
  }

  lemma {:induction false} TimesGrow(s: string, n: nat)
    requires '"' in s
    ensures '"' in EscapeTimes(s, n) && (n > 0 ==> HasEscapedQuote(EscapeTimes(s, n)))
    ensures n > 0 ==> Unescape(EscapeTimes(s, n)) == EscapeTimes(s, n - 1) != EscapeTimes(s, n)
  {
    hide Escape, Unescape, HasEscapedQuote;
    if n > 0 {
      TimesGrow(s, n - 1);
      EscapeGrows(EscapeTimes(s, n - 1));
      UnescapeEscape(EscapeTimes(s, n - 1));
    }
  }

  lemma PlainStays(s: string)
    requires '\\' !in s
    ensures Unescape(s) == s && !HasEscapedQuote(s)
  {
    ReplaceNothing(s, '"', '"');
    ReplaceNothing(s, '\\', '\\');
  }

  /** The rounds go back through the escapings, down to the text itself if there are enough. */
  lemma {:induction false} RoundsBack(s: string, n: nat, m: nat)
    requires '\\' !in s && '"' in s
    ensures var r := Rounds(EscapeTimes(s, n), m);
            && |r| == (if n <= m then n else m)
            && forall j :: 0 <= j < |r| ==> r[j] == EscapeTimes(s, n - 1 - j)
    decreases m
  {
    hide Unescape, Escape;
    TimesGrow(s, n);
    if m > 0 {
      if n == 0 {
        PlainStays(s);
      } else {
        RoundsBack(s, n - 1, m - 1);
      }
    }
  }

  lemma CandidatesBack(s: string, n: nat)
    requires '\\' !in s && '"' in s
    ensures var cs := Candidates(EscapeTimes(s, n));
            && |cs| == (if n <= 3 then n else 3) + 1
            && (forall j :: 0 <= j < |cs| - 1 ==> cs[j] == EscapeTimes(s, n - 1 - j))
            && cs[|cs| - 1] == EscapeTimes(s, n)
  {
    hide Rounds, HasEscapedQuote;
    RoundsBack(s, n, 3);
    TimesGrow(s, n);
    if n == 0 {
      PlainStays(s);
    }
  }

  lemma {:induction false} EscapeEnds(s: string)
    requires EndsPlain(s)
    ensures EndsPlain(Escape(s))
  {
    EscapeFirst(s);
    if |s| > 1 {
      EscapeEnds(s[1..]);
    }
  }

  lemma {:induction false} TimesTrimmed(s: string, n: nat)
    requires Trimmed(s)
    ensures Trimmed(EscapeTimes(s, n))
  {
    if n > 0 {
      var t := EscapeTimes(s, n - 1);
      TimesTrimmed(s, n - 1);
      EscapeEnds(t);
      EscapeFirst(t);
      EscapeFirst(t[1..]);
    }
  }

  lemma QuoteNeeded(s: string)
    requires Attempt(s).Some?
    ensures '"' in s
  {
    hide Fix, CountFix;
    if '"' !in s {
      NoFix(s);
      NoCountFix(s);
    }
  }

  /** A session without backslashes that can be repaired is repaired as well when it arrives
      escaped, once, twice or three times; escaped more often it is returned as it came. */
  lemma {:induction false} UnescapesThree(s: string, n: nat)
    requires Trimmed(s) && '\\' !in s && Attempt(s).Some?
    ensures Normalize(EscapeTimes(s, n)) == if n <= 3 then Attempt(s).value else EscapeTimes(s, n)
  {
    hide Attempt, Candidates, Normalize, Trimmed, Escape;
    QuoteNeeded(s);
    TimesTrimmed(s, n);
    CandidatesBack(s, n);
    forall k | 0 < k
      ensures Attempt(EscapeTimes(s, k)).None?
    {
      EscapedBeyond(EscapeTimes(s, k - 1));
    }
    var cs := Candidates(EscapeTimes(s, n));
    var first := if n == 0 then 0 else if n <= 3 then n - 1 else |cs|;
    NormalizeIs(EscapeTimes(s, n), first);
  }
}
