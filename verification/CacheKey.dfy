/** The configuration key of the prefix cache: each part is written as its length in
    decimal, a colon, and its bytes. Parts may hold any bytes, digits and colons included. */
module CacheKey {
  import opened Options
  import opened Utf8

  const COLON: Byte := 0x3A

  function Decimal(n: nat): seq<Byte> {
    if n < 10 then [0x30 + n] else Decimal(n / 10) + [0x30 + n % 10]
  }

  function Part(value: seq<Byte>): seq<Byte> {
    Decimal(|value|) + [COLON] + value
  }

  function Key(path: seq<Byte>, scope: seq<Byte>, format: seq<Byte>): seq<Byte> {
    Part(path) + Part(scope) + Part(format)
  }

  function Number(digits: seq<Byte>): int {
    if digits == [] then 0
    else Number(digits[..|digits| - 1]) * 10 + (digits[|digits| - 1] as int - 0x30)
  }

  function FirstColon(s: seq<Byte>): (i: nat)
    ensures i <= |s| && COLON !in s[..i] && (i < |s| ==> s[i] == COLON)
  {
    if s == [] || s[0] == COLON then 0 else 1 + FirstColon(s[1..])
  }

  /** Reads one part back: the announced length decides where it ends. */
  function TakePart(s: seq<Byte>): Option<(seq<Byte>, seq<Byte>)> {
    var colon := FirstColon(s);
    var length := Number(s[..colon]);
    var body := colon + 1;
    if 0 <= length && body + length <= |s|
    then Some((s[body..body + length], s[body + length..]))
    else None
  }

  lemma {:induction false} NumberDecimal(n: nat)
    ensures Number(Decimal(n)) == n && COLON !in Decimal(n)
  {
    if n >= 10 {
      NumberDecimal(n / 10);
      var d := Decimal(n);
      assert d[..|d| - 1] == Decimal(n / 10);
    }
  }

  lemma {:induction false} FirstColonEndsDigits(digits: seq<Byte>, rest: seq<Byte>)
    requires COLON !in digits
    ensures FirstColon(digits + [COLON] + rest) == |digits|
  {
    var s := digits + [COLON] + rest;
    if digits != [] {
      FirstColonEndsDigits(digits[1..], rest);
      assert s[0] == digits[0] && s[1..] == digits[1..] + [COLON] + rest;
    }
  }

  /** Whatever follows a part, reading returns that part and exactly what follows. */
  lemma TakePartInverts(value: seq<Byte>, rest: seq<Byte>)
    ensures TakePart(Part(value) + rest) == Some((value, rest))
  {
    var digits := Decimal(|value|);
    var s := Part(value) + rest;
    NumberDecimal(|value|);
    assert s == digits + [COLON] + (value + rest);
    FirstColonEndsDigits(digits, value + rest);
    var i := |digits|;
    assert FirstColon(s) == i && s[..i] == digits;
    assert s[i + 1..i + 1 + |value|] == value && s[i + 1 + |value|..] == rest;
  }

  /** Equal keys mean equal model path, cache scope and chat template. */
  lemma KeyIsInjective(path: seq<Byte>, scope: seq<Byte>, format: seq<Byte>,
                       path': seq<Byte>, scope': seq<Byte>, format': seq<Byte>)
    ensures Key(path, scope, format) == Key(path', scope', format')
            <==> path == path' && scope == scope' && format == format'
  {
    var key, key' := Key(path, scope, format), Key(path', scope', format');
    TakeAll(path, scope, format);
    TakeAll(path', scope', format');
  }

  lemma TakeAll(path: seq<Byte>, scope: seq<Byte>, format: seq<Byte>)
    ensures TakePart(Key(path, scope, format)) == Some((path, Part(scope) + Part(format)))
    ensures TakePart(Part(scope) + Part(format)) == Some((scope, Part(format)))
    ensures TakePart(Part(format)) == Some((format, []))
  {
    TakePartInverts(path, Part(scope) + Part(format));
    assert Key(path, scope, format) == Part(path) + (Part(scope) + Part(format));
    TakePartInverts(scope, Part(format));
    TakePartInverts(format, []);
    assert Part(format) + [] == Part(format);
  }
}
