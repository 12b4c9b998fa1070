/** Character strings as the program trims and folds them. */
module Text {
  predicate IsTextBlank(c: char) {
    c == ' ' || '\t' <= c <= '\r' || 0x1c <= c as int <= 0x1f
  }

  function TrimLeft(s: string): string {
    if s != [] && IsTextBlank(s[0]) then TrimLeft(s[1..]) else s
  }

  function TrimRight(s: string): string {
    if s != [] && IsTextBlank(s[|s| - 1]) then TrimRight(s[..|s| - 1]) else s
  }

  lemma TrimRightEnd(s: string)
    ensures var t := TrimRight(s);
            t == [] || !IsTextBlank(t[|t| - 1])
  {
  }

  lemma TrimLeftStart(s: string)
    ensures var t := TrimLeft(s);
            t == [] || !IsTextBlank(t[0])
  {
  }

  lemma TrimRightStart(s: string)
    ensures var t := TrimRight(s);
            t == [] || (s != [] && t[0] == s[0])
  {
  }

  lemma TrimNothing(s: string)
    requires s != [] && !IsTextBlank(s[0]) && !IsTextBlank(s[|s| - 1])
    ensures TrimRight(TrimLeft(s)) == s
  {
  }

  predicate AllBlank(s: string) {
    forall i :: 0 <= i < |s| ==> IsTextBlank(s[i])
  }

  lemma {:induction false} TrimLeftOver(pre: string, s: string)
    requires AllBlank(pre) && (s != [] ==> !IsTextBlank(s[0]))
    ensures TrimLeft(pre + s) == s
  {
    if pre == [] {
      assert pre + s == s;
    } else {
      assert (pre + s)[1..] == pre[1..] + s;
      TrimLeftOver(pre[1..], s);
    }
  }

  lemma {:induction false} TrimRightOver(s: string, post: string)
    requires AllBlank(post) && (s != [] ==> !IsTextBlank(s[|s| - 1]))
    ensures TrimRight(s + post) == s
  {
    if post == [] {
      assert s + post == s;
    } else {
      assert (s + post)[..|s + post| - 1] == s + post[..|post| - 1];
      TrimRightOver(s, post[..|post| - 1]);
    }
  }

  /** Trimming takes the blanks around a text, and nothing else. */
  lemma TrimIs(pre: string, s: string, post: string)
    requires AllBlank(pre) && AllBlank(post) && s != [] && !IsTextBlank(s[0]) && !IsTextBlank(s[|s| - 1])
    ensures TrimRight(TrimLeft(pre + (s + post))) == s
  {
    TrimLeftOver(pre, s + post);
    TrimRightOver(s, post);
  }

  function UpperChar(c: char): char {
    if 'a' <= c <= 'z' then (c as int - 32) as char else c
  }

  function LowerChar(c: char): char {
    if 'A' <= c <= 'Z' then (c as int + 32) as char else c
  }

  function Upper(s: string): string {
    seq(|s|, i requires 0 <= i < |s| => UpperChar(s[i]))
  }

  function Lower(s: string): string {
    seq(|s|, i requires 0 <= i < |s| => LowerChar(s[i]))
  }

  /** The given text is the name, in either case of letter. */
  ghost predicate Spells(given: string, name: string) {
    |given| == |name| && forall i :: 0 <= i < |name| ==> given[i] == name[i] || given[i] as int == name[i] as int + 32
  }

  lemma UpperSpells(given: string, name: string)
    requires forall i :: 0 <= i < |name| ==> 'A' <= name[i] <= 'Z'
    ensures Upper(given) == name <==> Spells(given, name)
  {
    var up := Upper(given);
    if Spells(given, name) {
      assert forall i :: 0 <= i < |name| ==> up[i] == UpperChar(given[i]) == name[i];
      assert up == name;
    }
    if up == name {
      assert forall i :: 0 <= i < |given| ==> up[i] == UpperChar(given[i]);
    }
  }
}
