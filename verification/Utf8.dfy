/** UTF-8 recognition over a growing byte buffer.

    The grammar is section 4 of RFC 3629; the meaning of a well-formed string is
    section 3 of the same document, the encoding of a sequence of Unicode scalar
    values. Both recognisers of the program are proved against the grammar. */
module Utf8 {

  type Byte = b: int | 0 <= b < 0x100

  /** Every code point except the surrogates. */
  type Scalar = c: int | 0 <= c < 0xD800 || 0xE000 <= c < 0x110000

  predicate Tail(b: Byte) {
    0x80 <= b <= 0xBF
  }

  /** Exactly one UTF8-char of the grammar. */
  predicate IsChar(s: seq<Byte>) {
    match |s|
    case 1 => s[0] <= 0x7F
    case 2 => 0xC2 <= s[0] <= 0xDF && Tail(s[1])
    case 3 =>
      && Tail(s[2])
      && (|| (s[0] == 0xE0 && 0xA0 <= s[1] <= 0xBF)
          || (0xE1 <= s[0] <= 0xEC && Tail(s[1]))
          || (s[0] == 0xED && 0x80 <= s[1] <= 0x9F)
          || (0xEE <= s[0] <= 0xEF && Tail(s[1])))
    case 4 =>
      && Tail(s[2]) && Tail(s[3])
      && (|| (s[0] == 0xF0 && 0x90 <= s[1] <= 0xBF)
          || (0xF1 <= s[0] <= 0xF3 && Tail(s[1]))
          || (s[0] == 0xF4 && 0x80 <= s[1] <= 0x8F))
    case _ => false
  }

  /** UTF8-octets = *( UTF8-char ): the string is a concatenation of characters. */
  ghost predicate WellFormed(s: seq<Byte>) {
    exists chars: seq<seq<Byte>> :: Parses(chars, s)
  }

  ghost predicate Parses(chars: seq<seq<Byte>>, s: seq<Byte>) {
    if chars == [] then s == []
    else IsChar(chars[0]) && chars[0] <= s && Parses(chars[1..], s[|chars[0]|..])
  }

  /** Section 3: the octets that represent one scalar value. */
  function Encode(c: Scalar): (s: seq<Byte>) {
    if c < 0x80 then [c]
    else if c < 0x800 then [0xC0 + c / 0x40, Low6(c)]
    else if c < 0x10000 then [0xE0 + c / 0x40 / 0x40, Low6(c / 0x40), Low6(c)]
    else [0xF0 + c / 0x40 / 0x40 / 0x40, Low6(c / 0x40 / 0x40), Low6(c / 0x40), Low6(c)]
  }

  /** A continuation octet carrying the six low bits of c. */
  function Low6(c: nat): (b: Byte) {
    0x80 + c % 0x40
  }

  function EncodeAll(text: seq<Scalar>): seq<Byte> {
    if text == [] then [] else Encode(text[0]) + EncodeAll(text[1..])
  }

  /** The width the lead octet announces; 0 when no character starts with it. */
  function LeadWidth(lead: Byte): nat {
    if lead <= 0x7F then 1
    else if 0xC2 <= lead <= 0xDF then 2
    else if 0xE0 <= lead <= 0xEF then 3
    else if 0xF0 <= lead <= 0xF4 then 4
    else 0
  }

  /** Appending six bits to n. */
  function Push6(n: nat, tail: Byte): (c: nat)
    requires Tail(tail)
    ensures c / 0x40 == n && Low6(c) == tail
    ensures n * 0x40 <= c < (n + 1) * 0x40
  {
    n * 0x40 + (tail - 0x80)
  }

  /** The scalar a character stands for. */
  function Scan(s: seq<Byte>): (c: Scalar)
    requires IsChar(s)
  {
    if |s| == 1 then s[0]
    else if |s| == 2 then Push6(s[0] - 0xC0, s[1])
    else if |s| == 3 then Push6(Push6(s[0] - 0xE0, s[1]), s[2])
    else Push6(Push6(Push6(s[0] - 0xF0, s[1]), s[2]), s[3])
  }

  lemma EncodeScan(s: seq<Byte>)
    requires IsChar(s)
    ensures Encode(Scan(s)) == s
  {
  }

  lemma EncodeIsChar(c: Scalar)
    ensures IsChar(Encode(c))
  {
  }

  lemma EmptyIsWellFormed()
    ensures WellFormed([])
  {
    assert Parses([], []);
  }

  lemma FirstChar(s: seq<Byte>) returns (k: nat)
    requires WellFormed(s) && s != []
    ensures 0 < k <= |s| && IsChar(s[..k]) && WellFormed(s[k..])
  {
    var chars: seq<seq<Byte>> :| Parses(chars, s);
    k := |chars[0]|;
    assert s[..k] == chars[0] && Parses(chars[1..], s[k..]);
  }

  lemma CharWidth(c: seq<Byte>)
    requires IsChar(c)
    ensures |c| == LeadWidth(c[0])
  {
  }

  /** Characters have the width their first octet announces, so a string splits in only one way. */
  lemma ConsChar(c: seq<Byte>, rest: seq<Byte>)
    requires IsChar(c)
    ensures WellFormed(c + rest) <==> WellFormed(rest)
  {
    assert (c + rest)[|c|..] == rest;
    if WellFormed(c + rest) {
      var k := FirstChar(c + rest);
      CharWidth(c);
      CharWidth((c + rest)[..k]);
    }
    if WellFormed(rest) {
      var chars: seq<seq<Byte>> :| Parses(chars, rest);
      assert ([c] + chars)[1..] == chars;
      assert Parses([c] + chars, c + rest);
    }
  }

  lemma SplitsAtLead(s: seq<Byte>)
    requires s != []
    ensures var w := LeadWidth(s[0]);
            WellFormed(s) <==> 0 < w <= |s| && IsChar(s[..w]) && WellFormed(s[w..])
  {
    var w := LeadWidth(s[0]);
    if WellFormed(s) {
      var k := FirstChar(s);
      CharWidth(s[..k]);
    }
    if 0 < w <= |s| && IsChar(s[..w]) {
      ConsChar(s[..w], s[w..]);
      assert s == s[..w] + s[w..];
    }
  }

  /** The grammar accepts exactly the encodings of scalar sequences. */
  lemma WellFormedIffEncoded(s: seq<Byte>)
    ensures WellFormed(s) <==> exists text: seq<Scalar> :: EncodeAll(text) == s
  {
    if WellFormed(s) {
      var text := DecodeAll(s);
    }
    if exists text: seq<Scalar> :: EncodeAll(text) == s {
      var text: seq<Scalar> :| EncodeAll(text) == s;
      EncodedIsWellFormed(text);
    }
  }

  lemma {:induction false} DecodeAll(s: seq<Byte>) returns (text: seq<Scalar>)
    requires WellFormed(s)
    ensures EncodeAll(text) == s
  {
    hide Encode, IsChar;
    if s == [] {
      text := [];
    } else {
      var k := FirstChar(s);
      var rest := DecodeAll(s[k..]);
      var c := Scan(s[..k]);
      EncodeScan(s[..k]);
      text := [c] + rest;
      assert text[1..] == rest;
      assert s == s[..k] + s[k..];
    }
  }

  lemma {:induction false} EncodedIsWellFormed(text: seq<Scalar>)
    ensures WellFormed(EncodeAll(text))
  {
    if text == [] {
      EmptyIsWellFormed();
    } else {
      EncodedIsWellFormed(text[1..]);
      EncodeIsChar(text[0]);
      ConsChar(Encode(text[0]), EncodeAll(text[1..]));
    }
  }

  lemma {:induction false} Concatenation(a: seq<Byte>, b: seq<Byte>)
    requires WellFormed(a)
    ensures WellFormed(a + b) <==> WellFormed(b)
  {
    if a == [] {
      assert a + b == b;
    } else {
      var k := FirstChar(a);
      Concatenation(a[k..], b);
      ConsChar(a[..k], a[k..] + b);
      assert a + b == a[..k] + (a[k..] + b);
    }
  }

  lemma CharIsWellFormed(c: seq<Byte>)
    requires IsChar(c)
    ensures WellFormed(c)
  {
    EmptyIsWellFormed();
    ConsChar(c, []);
    assert c + [] == c;
  }

  lemma AsciiIsOwnChar(c: seq<Byte>, i: nat)
    requires IsChar(c) && i < |c| && c[i] <= 0x7F
    ensures i == 0 && |c| == 1
  {
  }

  lemma AsciiFirst(s: seq<Byte>, k: nat, i: nat)
    requires i < k <= |s| && IsChar(s[..k]) && s[i] <= 0x7F
    ensures WellFormed(s[..i]) && WellFormed(s[..i + 1])
  {
    assert s[..k][i] == s[i];
    AsciiIsOwnChar(s[..k], i);
    CharIsWellFormed(s[..k]);
    EmptyIsWellFormed();
    assert s[..i] == [];
  }

  lemma ConsPrefix(s: seq<Byte>, k: nat, i: nat)
    requires k <= i <= |s| && IsChar(s[..k]) && WellFormed(s[k..][..i - k])
    ensures WellFormed(s[..i])
  {
    ConsChar(s[..k], s[k..][..i - k]);
    assert s[..i] == s[..k] + s[k..][..i - k];
  }

  /** Octets below 0x80 are never part of a longer character: both sides of one are well-formed. */
  lemma {:induction false} AsciiSplits(s: seq<Byte>, i: nat)
    requires WellFormed(s) && i < |s| && s[i] <= 0x7F
    ensures WellFormed(s[..i]) && WellFormed(s[..i + 1])
  {
    hide IsChar;
    var k := FirstChar(s);
    if i < k {
      AsciiFirst(s, k, i);
    } else {
      AsciiSplits(s[k..], i - k);
      ConsPrefix(s, k, i);
      ConsPrefix(s, k, i + 1);
    }
  }

  /** n is the length of the longest well-formed prefix. */
  ghost predicate IsLongest(value: seq<Byte>, n: nat) {
    && n <= |value| && WellFormed(value[..n])
    && forall m :: n < m <= |value| ==> !WellFormed(value[..m])
  }

  /** Appending octets never withdraws a prefix. */
  lemma LongestIsMonotone(value: seq<Byte>, more: seq<Byte>, n: nat, m: nat)
    requires IsLongest(value, n) && IsLongest(value + more, m)
    ensures n <= m
    ensures value[..n] <= (value + more)[..m]
  {
    assert (value + more)[..n] == value[..n];
  }

  /** The whole string is the longest prefix exactly when the string is well-formed. */
  lemma WholeIffWellFormed(value: seq<Byte>, n: nat)
    requires IsLongest(value, n)
    ensures n == |value| <==> WellFormed(value)
  {
    assert value[..|value|] == value;
  }

  lemma SliceOfSlice(value: seq<Byte>, from: nat, until: nat, length: nat)
    requires from + length <= until <= |value|
    ensures value[from..until][..length] == value[from..from + length]
  {
  }

  /** No prefix ends inside or after a position where no character starts. */
  lemma StuckMeansLongest(value: seq<Byte>, offset: nat)
    requires offset < |value| && WellFormed(value[..offset])
    requires var w := LeadWidth(value[offset]);
             w == 0 || offset + w > |value| || !IsChar(value[offset..offset + w])
    ensures IsLongest(value, offset) && !WellFormed(value)
  {
    hide IsChar;
    forall m | offset < m <= |value| ensures !WellFormed(value[..m]) {
      assert value[..m] == value[..offset] + value[offset..m];
      Concatenation(value[..offset], value[offset..m]);
      SplitsAtLead(value[offset..m]);
      var w := LeadWidth(value[offset]);
      if 0 < w <= m - offset {
        SliceOfSlice(value, offset, m, w);
      }
    }
    assert value[..|value|] == value;
  }

  lemma AdvanceOneChar(value: seq<Byte>, offset: nat, width: nat)
    requires offset + width <= |value| && WellFormed(value[..offset])
    requires IsChar(value[offset..offset + width])
    ensures WellFormed(value[..offset + width])
  {
    var c := value[offset..offset + width];
    CharIsWellFormed(c);
    assert value[..offset + width] == value[..offset] + c;
    Concatenation(value[..offset], c);
  }

  /** The loop body's test on the octet at distance i from a lead octet: the top two bits
      must be 10, and the first continuation is narrowed for four lead octets. */
  predicate AcceptsContinuation(lead: Byte, i: nat, continuation: Byte) {
    && continuation / 0x40 == 2
    && !(i == 1 && (|| (lead == 0xE0 && continuation < 0xA0)
                    || (lead == 0xED && continuation >= 0xA0)
                    || (lead == 0xF0 && continuation < 0x90)
                    || (lead == 0xF4 && continuation >= 0x90)))
  }

  /** The inner loop accepts all continuations exactly on the characters of the grammar. */
  lemma ContinuationsDecideChar(s: seq<Byte>)
    requires 0 < |s| == LeadWidth(s[0])
    ensures IsChar(s) <==> forall i :: 1 <= i < |s| ==> AcceptsContinuation(s[0], i, s[i])
  {
  }

  method CompleteUtf8Prefix(value: seq<Byte>) returns (offset: nat)
    ensures IsLongest(value, offset)
  {
    offset := 0;
    EmptyIsWellFormed();
    while offset < |value|
      invariant offset <= |value| && WellFormed(value[..offset])
    {
      var lead := value[offset];
      var width := LeadWidth(lead);
      if width == 0 || offset + width > |value| {
        StuckMeansLongest(value, offset);
        return;
      }
      ghost var c := value[offset..offset + width];
      ContinuationsDecideChar(c);
      var i := 1;
      while i < width
        invariant 1 <= i <= width
        invariant forall j :: 1 <= j < i ==> AcceptsContinuation(c[0], j, c[j])
      {
        if !AcceptsContinuation(lead, i, value[offset + i]) {
          assert c[i] == value[offset + i];
          StuckMeansLongest(value, offset);
          return;
        }
        i := i + 1;
      }
      AdvanceOneChar(value, offset, width);
      offset := offset + width;
    }
  }

  /** The regression program's own recogniser. */
  method ValidUtf8(value: seq<Byte>) returns (valid: bool)
    ensures valid <==> WellFormed(value)
  {
    var offset := 0;
    EmptyIsWellFormed();
    while offset < |value|
      invariant offset <= |value| && WellFormed(value[..offset])
    {
      var lead := value[offset];
      var width := LeadWidth(lead);
      if width == 0 || offset + width > |value| {
        StuckMeansLongest(value, offset);
        return false;
      }
      ghost var c := value[offset..offset + width];
      ContinuationsDecideChar(c);
      var i := 1;
      while i < width
        invariant 1 <= i <= width
        invariant forall j :: 1 <= j < i ==> AcceptsContinuation(c[0], j, c[j])
      {
        if !AcceptsContinuation(lead, i, value[offset + i]) {
          assert c[i] == value[offset + i];
          StuckMeansLongest(value, offset);
          return false;
        }
        i := i + 1;
      }
      AdvanceOneChar(value, offset, width);
      offset := offset + width;
    }
    assert value[..offset] == value;
    return true;
  }
}
