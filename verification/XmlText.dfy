/** Escaping of character data and attribute values (lib/str.c: strescape, strunescape). */
module XmlText {

  function Entity(c: char): string {
    match c
    case '&' => "&amp;"
    case '\'' => "&apos;"
    case '"' => "&quot;"
    case '<' => "&lt;"
    case '>' => "&gt;"
    case _ => [c]
  }

  function Escape(s: string): string {
    if s == "" then "" else Entity(s[0]) + Escape(s[1..])
  }

  /** What strescape adds to the length for a character: one more than it needs. */
  function Extra(c: char): nat {
    match c
    case '&' => 5
    case '\'' => 6
    case '"' => 6
    case '<' => 4
    case '>' => 4
    case _ => 0
  }

  function ExtraOf(s: string): nat { if s == "" then 0 else Extra(s[0]) + ExtraOf(s[1..]) }

  lemma {:induction false} EscapeConcat(a: string, b: string)
    ensures Escape(a + b) == Escape(a) + Escape(b)
  {
    if a == "" {
      assert a + b == b;
    } else {
      assert (a + b)[1..] == a[1..] + b;
      EscapeConcat(a[1..], b);
      assert Escape(a + b) == Entity(a[0]) + (Escape(a[1..]) + Escape(b));
    }
  }

  lemma {:induction false} ExtraConcat(a: string, b: string)
    ensures ExtraOf(a + b) == ExtraOf(a) + ExtraOf(b)
  {
    if a == "" {
      assert a + b == b;
    } else {
      assert (a + b)[1..] == a[1..] + b;
      ExtraConcat(a[1..], b);
    }
  }

  lemma {:induction false} EscapeLength(s: string)
    ensures |s| <= |Escape(s)| <= |s| + ExtraOf(s)
    ensures ExtraOf(s) == 0 ==> Escape(s) == s
  {
    if s != "" {
      EscapeLength(s[1..]);
      assert |Escape(s)| == |Entity(s[0])| + |Escape(s[1..])|;
      assert s == [s[0]] + s[1..];
    }
  }

  /** r may be what strunescape makes of s. A '&' that starts none of the five entities
      leaves one character of uninitialised memory: anything. */
  predicate Unescapes(s: string, r: string) {
    if s == "" then r == ""
    else
      r != "" &&
      if s[0] != '&' then r[0] == s[0] && Unescapes(s[1..], r[1..])
      else if "&amp;" <= s then r[0] == '&' && Unescapes(s[5..], r[1..])
      else if "&quot;" <= s then r[0] == '"' && Unescapes(s[6..], r[1..])
      else if "&apos;" <= s then r[0] == '\'' && Unescapes(s[6..], r[1..])
      else if "&lt;" <= s then r[0] == '<' && Unescapes(s[4..], r[1..])
      else if "&gt;" <= s then r[0] == '>' && Unescapes(s[4..], r[1..])
      else Unescapes(s[1..], r[1..])
  }

  /** Every '&' of s starts one of the five entities. */
  predicate WellEscaped(s: string) {
    s == "" ||
    if s[0] != '&' then WellEscaped(s[1..])
    else if "&amp;" <= s then WellEscaped(s[5..])
    else if "&quot;" <= s || "&apos;" <= s then WellEscaped(s[6..])
    else if "&lt;" <= s || "&gt;" <= s then WellEscaped(s[4..])
    else false
  }

  /** One escaped character in front of anything. */
  lemma UnescapesOne(c: char, rest: string, r: string)
    requires r != ""
    ensures Unescapes(Entity(c) + rest, r) <==> r[0] == c && Unescapes(rest, r[1..])
  {
    var e := Entity(c);
    var t := e + rest;
    assert t[|e|..] == rest && t[..|e|] == e;
    assert |e| > 1 ==> e <= t && t[1] == e[1] && t[2] == e[2];
  }

  /** Characters that would end a text or a quoted value. */
  predicate Special(c: char) { c == '<' || c == '>' || c == '\'' || c == '"' }

  /** An escaped text is safe to print: it holds no markup character and no quote, and each of
      its ampersands starts an entity. */
  lemma {:induction false} EscapedIsSafe(s: string)
    ensures forall i :: 0 <= i < |Escape(s)| ==> !Special(Escape(s)[i])
    ensures WellEscaped(Escape(s))
  {
    if s != "" {
      EscapedIsSafe(s[1..]);
      EntityIsSafe(s[0], Escape(s[1..]));
    }
  }

  lemma EntityIsSafe(c: char, rest: string)
    ensures forall i :: 0 <= i < |Entity(c)| ==> !Special(Entity(c)[i])
    ensures WellEscaped(Entity(c) + rest) == WellEscaped(rest)
  {
    var e := Entity(c);
    var t := e + rest;
    assert t[|e|..] == rest && t[..|e|] == e;
    assert |e| > 1 ==> e <= t && t[1] == e[1] && t[2] == e[2];
  }

  /** Unescaping undoes escaping, whatever the uninitialised memory holds. */
  lemma {:induction false} RoundTrip(s: string, r: string)
    ensures Unescapes(Escape(s), r) <==> r == s
  {
    if s != "" && r != "" {
      UnescapesOne(s[0], Escape(s[1..]), r);
      RoundTrip(s[1..], r[1..]);
      Heads(r, s);
    }
  }

  lemma Heads(r: string, s: string)
    requires r != "" && s != ""
    ensures r == s <==> r[0] == s[0] && r[1..] == s[1..]
  {
    assert r == [r[0]] + r[1..] && s == [s[0]] + s[1..];
  }

  /** The result is determined exactly when no '&' is left over. */
  lemma {:induction false} Determined(s: string, r: string, r': string)
    requires WellEscaped(s) && Unescapes(s, r) && Unescapes(s, r')
    ensures r == r'
  {
    if s != "" {
      var k := if s[0] != '&' then 1 else if "&amp;" <= s then 5
               else if "&quot;" <= s || "&apos;" <= s then 6 else 4;
      Determined(s[k..], r[1..], r'[1..]);
      assert r == [r[0]] + r[1..] && r' == [r'[0]] + r'[1..];
    }
  }

  lemma {:induction false} Undetermined(s: string, r: string)
    requires !WellEscaped(s) && Unescapes(s, r)
    ensures exists r' :: r' != r && Unescapes(s, r')
  {
    var k := if s[0] != '&' then 1 else if "&amp;" <= s then 5
             else if "&quot;" <= s || "&apos;" <= s then 6 else if "&lt;" <= s || "&gt;" <= s then 4 else 0;
    if k == 0 {
      var r' := [if r[0] == 'x' then 'y' else 'x'] + r[1..];
      assert r'[1..] == r[1..] && r'[0] != r[0];
      assert Unescapes(s, r');
    } else {
      Undetermined(s[k..], r[1..]);
      var t :| t != r[1..] && Unescapes(s[k..], t);
      var r' := [r[0]] + t;
      assert r'[1..] == t;
      assert Unescapes(s, r');
    }
  }

  // ------------------------------------------------------ the two routines

  /** The counting loop of strescape. */
  method CountEscaped(buf: string) returns (newlen: nat)
    ensures newlen == |buf| + ExtraOf(buf)
  {
    newlen := |buf|;
    var i := 0;
    while i < |buf|
      invariant i <= |buf| && newlen == |buf| + ExtraOf(buf[..i])
    {
      assert buf[..i + 1] == buf[..i] + [buf[i]];
      ExtraConcat(buf[..i], [buf[i]]);
      newlen := newlen + Extra(buf[i]);
      i := i + 1;
    }
    assert buf[..i] == buf;
  }

  /** memcpy of an entity, or the plain character. */
  method PutEscaped(temp: array<char>, j: nat, c: char) returns (j': nat)
    requires j + |Entity(c)| <= temp.Length
    modifies temp
    ensures j' == j + |Entity(c)| && temp[..j'] == old(temp[..j]) + Entity(c)
  {
    var e := Entity(c);
    forall k | 0 <= k < |e| { temp[j + k] := e[k]; }
    j' := j + |e|;
  }

  lemma EscapeNext(buf: string, i: nat)
    requires i < |buf|
    ensures Escape(buf[..i + 1]) == Escape(buf[..i]) + Entity(buf[i])
    ensures |Escape(buf[..i + 1])| + |Escape(buf[i + 1..])| == |Escape(buf)|
  {
    assert buf[..i + 1] == buf[..i] + [buf[i]];
    EscapeConcat(buf[..i], [buf[i]]);
    assert Escape([buf[i]]) == Entity(buf[i]);
    assert buf == buf[..i + 1] + buf[i + 1..];
    EscapeConcat(buf[..i + 1], buf[i + 1..]);
  }

  /** strescape: counts, allocates, copies; the text always fits in front of the NUL. */
  method StrEscape(buf: string) returns (r: string)
    ensures r == Escape(buf)
  {
    var newlen := CountEscaped(buf);
    EscapeLength(buf);
    if |buf| == newlen { return buf; }
    var temp := new char[newlen + 1];
    var i, j := 0, 0;
    while i < |buf|
      invariant i <= |buf| && 0 <= j <= newlen
      invariant temp[..j] == Escape(buf[..i])
    {
      EscapeNext(buf, i);
      j := PutEscaped(temp, j, buf[i]);
      i := i + 1;
    }
    assert buf[..i] == buf;
    temp[j] := '\0';
    return temp[..j];
  }

  /** The first k characters of s stand for the one character c; a '&' that starts no
      entity stands for any. */
  predicate Reads(s: string, c: char, k: nat) {
    0 < k <= |s| &&
    if s[0] != '&' then k == 1 && c == s[0]
    else if "&amp;" <= s then k == 5 && c == '&'
    else if "&quot;" <= s then k == 6 && c == '"'
    else if "&apos;" <= s then k == 6 && c == '\''
    else if "&lt;" <= s then k == 4 && c == '<'
    else if "&gt;" <= s then k == 4 && c == '>'
    else k == 1
  }

  lemma ReadsOne(s: string, c: char, k: nat, t: string)
    requires Reads(s, c, k) && Unescapes(s[k..], t)
    ensures Unescapes(s, [c] + t)
  {
    assert ([c] + t)[1..] == t;
  }

  /** The body of the loop of strunescape. */
  method UnescapeOne(buf: string, start: nat, temp: array<char>, j: nat) returns (i: nat)
    requires start < |buf| && j < temp.Length
    modifies temp
    ensures start < i && Reads(buf[start..], temp[j], i - start) && temp[..j] == old(temp[..j])
  {
    i := start;
    if buf[i] == '&' {
      if "&amp;" <= buf[i..] {
        temp[j] := '&';
        i := i + 4;
      } else if "&quot;" <= buf[i..] {
        temp[j] := '"';
        i := i + 5;
      } else if "&apos;" <= buf[i..] {
        temp[j] := '\'';
        i := i + 5;
      } else if "&lt;" <= buf[i..] {
        temp[j] := '<';
        i := i + 3;
      } else if "&gt;" <= buf[i..] {
        temp[j] := '>';
        i := i + 3;
      }
    } else {
      temp[j] := buf[i];
    }
    i := i + 1;
  }

  /** strunescape: the text always fits in a buffer of the length of the input. */
  method StrUnescape(buf: string) returns (r: string)
    ensures Unescapes(buf, r) && |r| <= |buf|
  {
    if '&' !in buf {
      NoEntities(buf);
      return buf;
    }
    var temp := new char[|buf| + 1];
    var i, j := 0, 0;
    assert buf[0..] == buf && forall t: string :: temp[..0] + t == t;
    while i < |buf|
      invariant 0 <= j <= i <= |buf|
      invariant forall t :: Unescapes(buf[i..], t) ==> Unescapes(buf, temp[..j] + t)
    {
      var next := UnescapeOne(buf, i, temp, j);
      ReadOn(buf, i, next, temp[..j], temp[j]);
      assert temp[..j + 1] == temp[..j] + [temp[j]];
      i, j := next, j + 1;
    }
    temp[j] := '\0';
    assert buf[i..] == "" && Unescapes("", "");
    assert temp[..j] + "" == temp[..j];
    return temp[..j];
  }

  lemma ReadOn(buf: string, i: nat, next: nat, done: string, c: char)
    requires i < next <= |buf| && Reads(buf[i..], c, next - i)
    requires forall t :: Unescapes(buf[i..], t) ==> Unescapes(buf, done + t)
    ensures forall t :: Unescapes(buf[next..], t) ==> Unescapes(buf, done + [c] + t)
  {
    assert buf[i..][next - i..] == buf[next..];
    forall t | Unescapes(buf[next..], t)
      ensures Unescapes(buf, done + [c] + t)
    {
      ReadsOne(buf[i..], c, next - i, t);
      assert done + ([c] + t) == done + [c] + t;
    }
  }

  lemma {:induction false} NoEntities(s: string)
    requires '&' !in s
    ensures Unescapes(s, s)
  {
    if s != "" {
      NoEntities(s[1..]);
    }
  }
}
