/** Byte-string helpers of the session codec. A string here is a byte string: one char a byte. */
module PhpText {
  import opened Options

  // ---- Tokens and searches ----

  predicate At(s: string, c: char) {
    s != [] && s[0] == c
  }

  predicate At2(s: string, c: char, d: char) {
    |s| >= 2 && s[0] == c && s[1] == d
  }

  function Expect(s: string, c: char): Option<string> {
    if At(s, c) then Some(s[1..]) else None
  }

  function Expect2(s: string, c: char, d: char): Option<string> {
    if At2(s, c, d) then Some(s[2..]) else None
  }

  lemma ExpectToken(c: char, t: string)
    ensures At([c] + t, c) && Expect([c] + t, c) == Some(t)
  {
    assert ([c] + t)[1..] == t;
  }

  lemma ExpectToken2(c: char, d: char, t: string)
    ensures At2([c, d] + t, c, d) && Expect2([c, d] + t, c, d) == Some(t)
  {
    assert ([c, d] + t)[2..] == t;
  }

  /** Index of the first c, or -1. */
  function FindChar(s: string, c: char): (r: int)
    ensures r == -1 <==> c !in s
    ensures r != -1 ==> 0 <= r < |s| && s[r] == c && forall i :: 0 <= i < r ==> s[i] != c
  {
    if s == [] then -1
    else if s[0] == c then 0
    else
      var r := FindChar(s[1..], c);
      assert s == [s[0]] + s[1..];
      if r == -1 then -1 else r + 1
  }

  lemma {:induction false} FindCharAt(pre: string, c: char, post: string)
    requires c !in pre
    ensures FindChar(pre + [c] + post, c) == |pre|
  {
    var s := pre + [c] + post;
    assert s[|pre|] == c;
    assert forall i :: 0 <= i < |pre| ==> s[i] == pre[i];
  }

  function ReadUntil(s: string, c: char): Option<(string, string)> {
    var i := FindChar(s, c);
    if i < 0 then None else Some((s[..i], s[i + 1..]))
  }

  lemma ReadUntilAt(pre: string, c: char, post: string)
    requires c !in pre
    ensures ReadUntil(pre + [c] + post, c) == Some((pre, post))
  {
    FindCharAt(pre, c, post);
    assert (pre + [c] + post)[..|pre|] == pre;
    assert (pre + [c] + post)[|pre| + 1..] == post;
  }

  /** The end of a PHP string literal. */
  const CLOSE := "\";"

  predicate ClosesAt(s: string, i: int) {
    0 <= i && i + 2 <= |s| && s[i] == '"' && s[i + 1] == ';'
  }

  ghost predicate HasClose(s: string) {
    exists i :: ClosesAt(s, i)
  }

  /** Index of the first closing token, or -1. */
  function FindClose(s: string): (r: int)
    ensures r == -1 || 0 <= r <= |s| - 2
  {
    if |s| < 2 then -1
    else if ClosesAt(s, 0) then 0
    else
      var r := FindClose(s[1..]);
      if r == -1 then -1 else r + 1
  }

  lemma {:induction false} FindCloseFirst(s: string)
    ensures FindClose(s) == -1 <==> !HasClose(s)
    ensures FindClose(s) != -1 ==> ClosesAt(s, FindClose(s)) && forall i :: i < FindClose(s) ==> !ClosesAt(s, i)
  {
    if |s| >= 2 && !ClosesAt(s, 0) {
      FindCloseFirst(s[1..]);
      assert forall i :: i >= 1 ==> (ClosesAt(s, i) <==> ClosesAt(s[1..], i - 1));
      if HasClose(s) {
        var i :| ClosesAt(s, i);
        assert ClosesAt(s[1..], i - 1);
      }
      if HasClose(s[1..]) {
        var i :| ClosesAt(s[1..], i);
        assert ClosesAt(s, i + 1);
      }
    }
  }

  /** Before the end of a literal the closing token occurs only where the payload has it. */
  lemma ClosesInside(s: string, tail: string, i: int)
    requires i < |s|
    ensures ClosesAt(s + CLOSE + tail, i) <==> ClosesAt(s, i)
  {
    if 0 <= i {
      assert (s + CLOSE + tail)[|s|] == '"';
    }
  }

  lemma ClosesAtEnd(s: string, tail: string)
    ensures ClosesAt(s + CLOSE + tail, |s|)
  {
    assert (s + CLOSE + tail)[|s|] == '"' && (s + CLOSE + tail)[|s| + 1] == ';';
  }

  lemma {:induction false} FindCloseAt(s: string, tail: string)
    ensures FindClose(s + CLOSE + tail) == |s| <==> !HasClose(s)
    ensures FindClose(s + CLOSE + tail) != -1
  {
    var t := s + CLOSE + tail;
    FindCloseFirst(t);
    ClosesAtEnd(s, tail);
    if HasClose(s) {
      var i :| ClosesAt(s, i);
      ClosesInside(s, tail, i);
    }
    var r := FindClose(t);
    if r != -1 && r < |s| {
      ClosesInside(s, tail, r);
    }
  }

  // ---- Decimal numbers ----

  predicate IsDigit(c: char) { '0' <= c <= '9' }

  /** bytes.isdigit: not empty, ASCII digits only. */
  predicate AllDigits(s: string) {
    s != [] && forall i :: 0 <= i < |s| ==> IsDigit(s[i])
  }

  function DecVal(s: string): nat
    requires forall i :: 0 <= i < |s| ==> IsDigit(s[i])
  {
    if s == [] then 0
    else
      assert IsDigit(s[|s| - 1]);
      10 * DecVal(s[..|s| - 1]) + (s[|s| - 1] as int - '0' as int)
  }

  function DigitChar(d: nat): (c: char)
    requires d < 10
    ensures IsDigit(c) && c as int - '0' as int == d
  {
    ('0' as int + d) as char
  }

  function Dec(n: nat): (s: string)
    ensures AllDigits(s)
    ensures DecVal(s) == n
  {
    if n < 10 then
      assert [DigitChar(n)][..0] == [];
      [DigitChar(n)]
    else
      var s := Dec(n / 10);
      assert (s + [DigitChar(n % 10)])[..|s|] == s;
      s + [DigitChar(n % 10)]
  }

  function IntText(n: int): string {
    if n < 0 then "-" + Dec(-n) else Dec(n)
  }

  function ReadDigits(s: string): Option<(nat, string)> {
    var r := ReadUntil(s, ':');
    if r.Some? && AllDigits(r.value.0) then Some((DecVal(r.value.0), r.value.1)) else None
  }

  lemma DigitsPlain(d: string, c: char)
    requires AllDigits(d) && !IsDigit(c)
    ensures c !in d
  {
  }

  lemma ReadDigitsAt(d: string, t: string)
    requires AllDigits(d)
    ensures ReadDigits(d + ":" + t) == Some((DecVal(d), t))
  {
    DigitsPlain(d, ':');
    ReadUntilAt(d, ':', t);
  }

  // ---- Python's int() on bytes: blanks around, one sign, digits joined by single underscores ----

  predicate IsBlank(c: char) {
    c == ' ' || ('\t' <= c <= '\r')
  }

  function StripLeft(s: string): string {
    if s != [] && IsBlank(s[0]) then StripLeft(s[1..]) else s
  }

  function StripRight(s: string): string {
    if s != [] && IsBlank(s[|s| - 1]) then StripRight(s[..|s| - 1]) else s
  }

  predicate AllBlanks(s: string) {
    forall i :: 0 <= i < |s| ==> IsBlank(s[i])
  }

  lemma {:induction false} StripLeftOver(pre: string, s: string)
    requires AllBlanks(pre) && (s != [] ==> !IsBlank(s[0]))
    ensures StripLeft(pre + s) == s
  {
    if pre == [] {
      assert pre + s == s;
    } else {
      assert (pre + s)[1..] == pre[1..] + s;
      StripLeftOver(pre[1..], s);
    }
  }

  lemma {:induction false} StripRightOver(s: string, post: string)
    requires AllBlanks(post) && (s != [] ==> !IsBlank(s[|s| - 1]))
    ensures StripRight(s + post) == s
  {
    if post == [] {
      assert s + post == s;
    } else {
      assert (s + post)[..|s + post| - 1] == s + post[..|post| - 1];
      StripRightOver(s, post[..|post| - 1]);
    }
  }

  /** The digits of a literal body, or None when it is malformed. */
  function BodyDigits(s: string): Option<string> {
    if s == [] then None
    else if !IsDigit(s[|s| - 1]) then None
    else if |s| == 1 then Some(s)
    else
      var init := if s[|s| - 2] == '_' then s[..|s| - 2] else s[..|s| - 1];
      var r := BodyDigits(init);
      if r.None? then None else Some(r.value + [s[|s| - 1]])
  }

  lemma BodyDigitsAll(s: string)
    ensures BodyDigits(s).Some? ==> AllDigits(BodyDigits(s).value)
  {
  }

  function PyInt(text: string): Option<int> {
    var s := StripRight(StripLeft(text));
    var body := if s != [] && (s[0] == '-' || s[0] == '+') then s[1..] else s;
    BodyDigitsAll(body);
    var d := BodyDigits(body);
    if d.None? then None
    else
      var v: int := DecVal(d.value);
      Some(if s[0] == '-' then -v else v)
  }

  /** A sign, if there is one. */
  predicate IsSign(sign: string) { sign == "" || sign == "+" || sign == "-" }

  /** Blanks around an integer and a sign in front of it are read as Python reads them. */
  lemma {:induction false} SignedReads(pre: string, sign: string, digits: string, post: string)
    requires AllBlanks(pre) && AllBlanks(post) && IsSign(sign) && AllDigits(digits)
    ensures PyInt(pre + (sign + digits + post)) ==
            Some(if sign == "-" then -(DecVal(digits) as int) else DecVal(digits))
  {
    hide PyInt, StripLeft, StripRight, DecVal;
    var core := sign + digits;
    CorePlain(sign, digits);
    StripLeftOver(pre, core + post);
    StripRightOver(core, post);
    CoreReads(pre + (core + post), sign, digits);
  }

  lemma CorePlain(sign: string, digits: string)
    requires IsSign(sign) && AllDigits(digits)
    ensures var core := sign + digits;
            core != [] && !IsBlank(core[0]) && !IsBlank(core[|core| - 1])
  {
    var core := sign + digits;
    assert core[|core| - 1] == digits[|digits| - 1];
    assert core[0] == if sign == "" then digits[0] else sign[0];
  }

  lemma CoreReads(text: string, sign: string, digits: string)
    requires IsSign(sign) && AllDigits(digits) && StripRight(StripLeft(text)) == sign + digits
    ensures PyInt(text) == Some(if sign == "-" then -(DecVal(digits) as int) else DecVal(digits))
  {
    hide StripLeft, StripRight, BodyDigits;
    BodyDigitsPlain(digits);
    if sign == "" {
      assert sign + digits == digits;
    } else {
      assert (sign + digits)[1..] == digits;
    }
  }

  lemma {:induction false} BodyDigitsPlain(s: string)
    requires AllDigits(s)
    ensures BodyDigits(s) == Some(s)
  {
    if |s| > 1 {
      BodyDigitsPlain(s[..|s| - 1]);
      assert s == s[..|s| - 1] + [s[|s| - 1]];
    }
  }

  /** The decimal text of an integer reads back as that integer. */
  lemma {:induction false} IntTextReads(n: int)
    ensures PyInt(IntText(n)) == Some(n)
    ensures ';' !in IntText(n)
  {
    if n < 0 {
      var d := Dec(-n);
      BodyDigitsPlain(d);
      DigitsPlain(d, ';');
      assert ("-" + d)[1..] == d;
      assert StripRight("-" + d) == "-" + d;
    } else {
      BodyDigitsPlain(Dec(n));
      DigitsPlain(Dec(n), ';');
    }
  }
}
