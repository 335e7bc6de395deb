/** String and sequence helpers shared by the server and the page model.
    Characters are modelled as ASCII: lower-casing touches 'A'..'Z' only and
    whitespace is the ASCII part of what Python's str.strip removes, which
    includes the separators U+001C..U+001F that JavaScript's trim keeps. */
module Text {

  datatype Option<+T> = None | Some(value: T)

  // ---------------------------------------------------------------- case

  function LowerChar(c: char): char
  {
    if 'A' <= c <= 'Z' then (c as int + 32) as char else c
  }

  function UpperChar(c: char): char
  {
    if 'a' <= c <= 'z' then (c as int - 32) as char else c
  }

  predicate IsLetter(c: char)
  {
    'A' <= c <= 'Z' || 'a' <= c <= 'z'
  }

  /** str.lower() / String.prototype.toLowerCase() on ASCII text. */
  function ToLower(s: string): (r: string)
    ensures |r| == |s|
    ensures forall i :: 0 <= i < |s| ==> r[i] == LowerChar(s[i])
  {
    if s == [] then [] else [LowerChar(s[0])] + ToLower(s[1..])
  }

  lemma {:induction false} ToLowerAppend(a: string, b: string)
    ensures ToLower(a + b) == ToLower(a) + ToLower(b)
  {
    var ab := a + b;
    var whole := ToLower(ab);
    var la := ToLower(a);
    var lb := ToLower(b);
    var parts := la + lb;
    forall i | 0 <= i < |ab|
      ensures whole[i] == parts[i]
    {
      if i < |a| {
        assert ab[i] == a[i] && parts[i] == la[i];
      } else {
        assert ab[i] == b[i - |a|] && parts[i] == lb[i - |a|];
      }
    }
    assert whole == parts;
  }

  lemma ToLowerIdempotent(s: string)
    ensures ToLower(ToLower(s)) == ToLower(s)
  {
  }

  /** str.title() on ASCII text: a letter is upper-cased when it follows a
      non-letter (or starts the string) and lower-cased otherwise. */
  function Title(s: string): (r: string)
    ensures |r| == |s|
  {
    TitleAfter(s, false)
  }

  function TitleAfter(s: string, afterLetter: bool): (r: string)
    ensures |r| == |s|
  {
    if s == [] then []
    else
      var c := if afterLetter then LowerChar(s[0]) else UpperChar(s[0]);
      [c] + TitleAfter(s[1..], IsLetter(s[0]))
  }

  // ---------------------------------------------------------- whitespace

  predicate IsSpace(c: char)
  {
    c == ' ' || '\t' <= c <= '\r' || '\U{1c}' <= c <= '\U{1f}'
  }

  /** s without its leading whitespace. */
  function TrimLeft(s: string): (r: string)
    ensures |r| <= |s|
    ensures r != [] ==> !IsSpace(r[0])
  {
    if s != [] && IsSpace(s[0]) then TrimLeft(s[1..]) else s
  }

  /** TrimLeft keeps a suffix of s and removes only whitespace. */
  lemma {:induction false} TrimLeftSuffix(s: string)
    ensures forall i :: 0 <= i < |TrimLeft(s)| ==> TrimLeft(s)[i] == s[|s| - |TrimLeft(s)| + i]
    ensures forall i :: 0 <= i < |s| - |TrimLeft(s)| ==> IsSpace(s[i])
  {
    if s != [] && IsSpace(s[0]) {
      var tail := s[1..];
      var r := TrimLeft(tail);
      TrimLeftSuffix(tail);
      assert TrimLeft(s) == r;
      forall i | 0 <= i < |r|
        ensures r[i] == s[|s| - |r| + i]
      {
        assert r[i] == tail[|tail| - |r| + i];
      }
      forall i | 0 <= i < |s| - |r|
        ensures IsSpace(s[i])
      {
        if i > 0 { assert s[i] == tail[i - 1]; }
      }
    }
  }

  /** s without its trailing whitespace. */
  function TrimRight(s: string): (r: string)
    ensures |r| <= |s|
    ensures r != [] ==> !IsSpace(r[|r| - 1])
  {
    if s != [] && IsSpace(s[|s| - 1]) then TrimRight(s[..|s| - 1]) else s
  }

  /** TrimRight keeps a prefix of s and removes only whitespace. */
  lemma {:induction false} TrimRightPrefix(s: string)
    ensures forall i :: 0 <= i < |TrimRight(s)| ==> TrimRight(s)[i] == s[i]
    ensures forall i :: |TrimRight(s)| <= i < |s| ==> IsSpace(s[i])
  {
    if s != [] && IsSpace(s[|s| - 1]) { TrimRightPrefix(s[..|s| - 1]); }
  }

  /** str.strip() / String.prototype.trim(). */
  function Strip(s: string): (r: string)
    ensures Stripped(r)
    ensures |r| <= |s|
  {
    var l := TrimLeft(s);
    TrimRightPrefix(l);
    TrimRight(l)
  }

  /** Neither end of s is whitespace. */
  predicate Stripped(s: string)
  {
    s != [] ==> !IsSpace(s[0]) && !IsSpace(s[|s| - 1])
  }

  lemma StripOfStripped(s: string)
    requires Stripped(s)
    ensures Strip(s) == s
  {
  }

  /** Stripping only removes characters: one absent before is absent after. */
  lemma StripKeepsOut(s: string, c: char)
    requires c !in s
    ensures c !in Strip(s)
  {
    var l := TrimLeft(s);
    TrimLeftSuffix(s);
    TrimRightPrefix(l);
    assert forall x :: x in l ==> x in s;
    assert forall x :: x in TrimRight(l) ==> x in l;
  }

  /** Stripping a space-joined pair of stripped words changes nothing once
      the left word is non-empty, and drops the separator when it is empty. */
  lemma StripJoin(a: string, b: string)
    requires Stripped(a) && Stripped(b) && b != []
    ensures Strip(a + " " + b) == if a == [] then b else a + " " + b
  {
    if a == [] {
      assert a + " " + b == [' '] + b;
      assert TrimLeft([' '] + b) == TrimLeft(b);
      StripOfStripped(b);
    } else {
      var s := a + " " + b;
      assert s[0] == a[0] && s[|s| - 1] == b[|b| - 1];
      StripOfStripped(s);
    }
  }

  // --------------------------------------------------------- substrings

  /** Python's `a in b` / JavaScript's b.includes(a) for strings. */
  predicate Contains(b: string, a: string)
  {
    a <= b || (b != [] && Contains(b[1..], a))
  }

  lemma {:induction false} ContainsAt(b: string, a: string, i: nat)
    requires i + |a| <= |b| && b[i..i + |a|] == a
    ensures Contains(b, a)
  {
    if i > 0 {
      assert b[1..][i - 1..i - 1 + |a|] == a;
      ContainsAt(b[1..], a, i - 1);
    }
  }

  lemma {:induction false} ContainsWitness(b: string, a: string) returns (i: nat)
    requires Contains(b, a)
    ensures i + |a| <= |b| && b[i..i + |a|] == a
  {
    if a <= b {
      i := 0;
    } else {
      var j := ContainsWitness(b[1..], a);
      i := j + 1;
      assert b[i..i + |a|] == b[1..][j..j + |a|];
    }
  }

  lemma ContainsPrefix(b: string, a: string, rest: string)
    requires b == a + rest
    ensures Contains(b, a)
  {
    assert a <= b;
  }

  lemma ContainsInLeft(x: string, a: string, y: string)
    requires Contains(x, a)
    ensures Contains(x + y, a)
  {
    var i := ContainsWitness(x, a);
    assert (x + y)[i..i + |a|] == x[i..i + |a|];
    ContainsAt(x + y, a, i);
  }

  lemma ContainsInRight(x: string, a: string, y: string)
    requires Contains(y, a)
    ensures Contains(x + y, a)
  {
    var i := ContainsWitness(y, a);
    assert (x + y)[|x| + i..|x| + i + |a|] == y[i..i + |a|];
    ContainsAt(x + y, a, |x| + i);
  }

  /** A substring of a substring of b is a substring of b. */
  lemma ContainsTransitive(b: string, a: string, c: string)
    requires Contains(b, a) && Contains(a, c)
    ensures Contains(b, c)
  {
    var i := ContainsWitness(b, a);
    var j := ContainsWitness(a, c);
    assert forall k :: j <= k < j + |c| ==> b[i + k] == a[k];
    assert b[i + j..i + j + |c|] == c;
    ContainsAt(b, c, i + j);
  }

  /** A character absent from b is absent from every substring of b. */
  lemma {:induction false} ContainsChar(b: string, a: string, c: char)
    requires Contains(b, a) && c in a
    ensures c in b
  {
    var i := ContainsWitness(b, a);
    var k :| 0 <= k < |a| && a[k] == c;
    assert b[i + k] == a[k];
  }

  // ------------------------------------------------------------ splitting

  /** str.split(sep) for a one-character separator: n separators give
      n + 1 pieces, none of which contains the separator. */
  function Split(s: string, sep: char): (r: seq<string>)
    ensures |r| >= 1
    ensures forall k :: 0 <= k < |r| ==> sep !in r[k]
  {
    if s == [] then [""]
    else
      var rest := Split(s[1..], sep);
      if s[0] == sep then [""] + rest else [[s[0]] + rest[0]] + rest[1..]
  }

  function Join(pieces: seq<string>, sep: char): string
  {
    if pieces == [] then ""
    else if |pieces| == 1 then pieces[0]
    else pieces[0] + [sep] + Join(pieces[1..], sep)
  }

  /** `", ".join(items)`. */
  function JoinComma(items: seq<string>): string
  {
    if items == [] then ""
    else if |items| == 1 then items[0]
    else items[0] + ", " + JoinComma(items[1..])
  }

  /** Each item appears in the joined text. */
  lemma {:induction false} JoinCommaContains(items: seq<string>, i: nat)
    requires i < |items|
    ensures Contains(JoinComma(items), items[i])
  {
    if |items| == 1 {
      ContainsPrefix(items[0], items[0], []);
    } else if i == 0 {
      ContainsPrefix(JoinComma(items), items[0], ", " + JoinComma(items[1..]));
    } else {
      JoinCommaContains(items[1..], i - 1);
      ContainsInRight(items[0] + ", ", items[i], JoinComma(items[1..]));
      assert JoinComma(items) == (items[0] + ", ") + JoinComma(items[1..]);
    }
  }

  /** Splitting loses nothing: the pieces joined back give the input. */
  lemma {:induction false} JoinSplit(s: string, sep: char)
    ensures Join(Split(s, sep), sep) == s
  {
    if s != [] {
      var rest := Split(s[1..], sep);
      JoinSplit(s[1..], sep);
      if s[0] == sep {
        assert Split(s, sep) == [""] + rest;
        assert ([""] + rest)[1..] == rest;
      } else {
        var r := [[s[0]] + rest[0]] + rest[1..];
        assert Split(s, sep) == r;
        if |rest| == 1 {
          assert Join(r, sep) == [s[0]] + rest[0];
        } else {
          assert r[1..] == rest[1..];
          assert Join(r, sep) == [s[0]] + rest[0] + [sep] + Join(rest[1..], sep);
        }
      }
    }
  }

  /** Replace one character by another everywhere (str.replace(" ", "_")). */
  function ReplaceChar(s: string, from: char, to: char): (r: string)
    ensures |r| == |s|
    ensures forall i :: 0 <= i < |s| ==> r[i] == (if s[i] == from then to else s[i])
  {
    if s == [] then [] else [if s[0] == from then to else s[0]] + ReplaceChar(s[1..], from, to)
  }

  /** str.replace("\r\n", "\n"), scanning left to right. */
  function ReplaceCrlf(s: string): string
  {
    if |s| >= 2 && s[0] == '\r' && s[1] == '\n' then "\n" + ReplaceCrlf(s[2..])
    else if s == [] then []
    else [s[0]] + ReplaceCrlf(s[1..])
  }

  // -------------------------------------------------------------- windows

  /** The last n elements of s (all of s when it is shorter): both
      `history[-20:]` after a length test and `chatHistory.slice(-6)`. */
  function Window<T>(s: seq<T>, n: nat): (r: seq<T>)
    ensures |r| == if |s| <= n then |s| else n
    ensures r == s[|s| - |r|..]
  {
    if |s| > n then s[|s| - n..] else s
  }

  // -------------------------------------------------------------- numbers

  predicate IsDigit(c: char)
  {
    '0' <= c <= '9'
  }

  function DigitChar(d: nat): (c: char)
    requires d < 10
    ensures IsDigit(c)
  {
    ('0' as int + d) as char
  }

  function DigitValue(c: char): nat
    requires IsDigit(c)
  {
    c as int - '0' as int
  }

  predicate AllDigits(s: string)
  {
    forall i :: 0 <= i < |s| ==> IsDigit(s[i])
  }

  /** Decimal rendering of a natural number, as f"{n}" prints it. */
  function NatToString(n: nat): (r: string)
    ensures |r| >= 1 && AllDigits(r)
  {
    if n < 10 then [DigitChar(n)] else NatToString(n / 10) + [DigitChar(n % 10)]
  }

  function IntToString(i: int): string
  {
    if i < 0 then "-" + NatToString(-i) else NatToString(i)
  }

  /** The value of a string of decimal digits (parseInt on a \d+ match). */
  function DigitsValue(s: string): nat
    requires AllDigits(s)
  {
    if s == [] then 0 else DigitsValue(s[..|s| - 1]) * 10 + DigitValue(s[|s| - 1])
  }

  lemma {:induction false} DigitsValueOfNatToString(n: nat)
    ensures DigitsValue(NatToString(n)) == n
  {
    if n >= 10 {
      var s := NatToString(n);
      assert s[..|s| - 1] == NatToString(n / 10);
      DigitsValueOfNatToString(n / 10);
    }
  }

  /** f"{n:02d}" / String(n).padStart(2, '0'). */
  function Pad2(n: nat): (r: string)
    ensures |r| >= 2 && AllDigits(r)
  {
    if n < 10 then "0" + NatToString(n) else NatToString(n)
  }

  lemma {:induction false} DigitsValueLeadingZero(s: string)
    requires AllDigits(s)
    ensures AllDigits("0" + s) && DigitsValue("0" + s) == DigitsValue(s)
  {
    var t := "0" + s;
    assert AllDigits(t);
    if s != [] {
      assert t[..|t| - 1] == "0" + s[..|s| - 1];
      DigitsValueLeadingZero(s[..|s| - 1]);
    }
  }

  lemma DigitsValueOfPad2(n: nat)
    ensures DigitsValue(Pad2(n)) == n
  {
    DigitsValueOfNatToString(n);
    if n < 10 { DigitsValueLeadingZero(NatToString(n)); }
  }

  /** The "MM:SS" clock text: f"{m:02d}:{s:02d}" on the server and
      padStart(2, '0') on the page. */
  function Clock(minutes: nat, seconds: nat): string
  {
    Pad2(minutes) + ":" + Pad2(seconds)
  }
}
