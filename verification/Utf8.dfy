/** UTF-8 as in section 4 of RFC 3629: validation, and escaping within a budget that never splits a code point. */
module Utf8 {
  import opened Bytes

  type Scalar = c: nat | c < 0x11_0000 && !(0xD800 <= c < 0xE000)

  // ---- the definition ----

  function EncodeScalar(c: Scalar): (r: seq<byte>)
    ensures 1 <= |r| <= 4
  {
    if c < 0x80 then [Octet(c)]
    else if c < 0x800 then [Octet(0xC0 + c / 64), Octet(0x80 + c % 64)]
    else if c < 0x1_0000 then [Octet(0xE0 + c / 4096), Octet(0x80 + c / 64 % 64), Octet(0x80 + c % 64)]
    else [Octet(0xF0 + c / 262144), Octet(0x80 + c / 4096 % 64), Octet(0x80 + c / 64 % 64), Octet(0x80 + c % 64)]
  }

  function Encode(cs: seq<Scalar>): seq<byte> {
    if cs == [] then [] else EncodeScalar(cs[0]) + Encode(cs[1..])
  }

  /** A byte string is UTF-8 if it is the encoding of some scalar values, one after the other. */
  ghost predicate IsUtf8(s: seq<byte>) {
    exists cs :: s == Encode(cs)
  }

  // ---- the recogniser ----

  predicate Continuation(b: byte) {
    b & 0xC0 == 0x80
  }

  lemma ContinuationValue(b: byte)
    ensures Continuation(b) <==> 0x80 <= Value(b) < 0xC0
  {
  }

  function DeclaredLength(lead: nat): nat {
    if lead <= 0x7F then 1 else if 0xC2 <= lead <= 0xDF then 2 else if 0xE0 <= lead <= 0xEF then 3
    else if 0xF0 <= lead <= 0xF4 then 4 else 0
  }

  predicate SecondFits(lead: nat, second: nat) {
    !(lead == 0xE0 && second < 0xA0) && !(lead == 0xED && second > 0x9F) && !(lead == 0xF0 && second < 0x90) && !(lead == 0xF4 && second > 0x8F)
  }

  /** The length of the well-formed sequence at the front of `s`, or 0. */
  function Front(s: seq<byte>): (n: nat)
    ensures n <= |s| && n <= 4
  {
    if s == [] then 0
    else
      var lead, n := Value(s[0]), DeclaredLength(Value(s[0]));
      if n == 0 || n > |s| then 0
      else if n == 1 then 1
      else if (forall k :: 1 <= k < n ==> Continuation(s[k])) && SecondFits(lead, Value(s[1])) then n
      else 0
  }

  function Tail6(b: byte): nat {
    Value(b) % 64
  }

  /** The scalar value that a well-formed sequence stands for. */
  function ScalarOf(s: seq<byte>): (c: nat)
    requires 1 <= |s| <= 4
  {
    var lead := Value(s[0]);
    if |s| == 1 then lead
    else if |s| == 2 then lead % 32 * 64 + Tail6(s[1])
    else if |s| == 3 then lead % 16 * 4096 + Tail6(s[1]) * 64 + Tail6(s[2])
    else lead % 8 * 262144 + Tail6(s[1]) * 4096 + Tail6(s[2]) * 64 + Tail6(s[3])
  }

  lemma TwoOctets(a: nat, b: nat)
    requires 0xC2 <= a <= 0xDF && 0x80 <= b < 0xC0
    ensures var c := a % 32 * 64 + b % 64; 0x80 <= c < 0x800 && 0xC0 + c / 64 == a && 0x80 + c % 64 == b
  {
  }

  lemma SplitAt64(q: nat, r: nat)
    requires r < 64
    ensures (q * 64 + r) / 64 == q && (q * 64 + r) % 64 == r
  {
  }

  lemma SplitAt4096(q: nat, r: nat)
    requires r < 4096
    ensures (q * 4096 + r) / 4096 == q
  {
  }

  lemma SplitAt262144(q: nat, r: nat)
    requires r < 262144
    ensures (q * 262144 + r) / 262144 == q
  {
  }

  lemma ThreeOctets(a: nat, b: nat, d: nat)
    requires 0xE0 <= a <= 0xEF && 0x80 <= b < 0xC0 && 0x80 <= d < 0xC0 && SecondFits(a, b)
    ensures a % 16 == a - 0xE0 && b % 64 == b - 0x80 && d % 64 == d - 0x80
    ensures var c := (a - 0xE0) * 4096 + (b - 0x80) * 64 + (d - 0x80);
            && 0x800 <= c < 0x1_0000 && !(0xD800 <= c < 0xE000)
            && 0xE0 + c / 4096 == a && 0x80 + c / 64 % 64 == b && 0x80 + c % 64 == d
  {
    var x, y, z := a - 0xE0, b - 0x80, d - 0x80;
    SplitAt64(x * 64 + y, z);
    SplitAt64(x, y);
    SplitAt4096(x, y * 64 + z);
  }

  lemma FourOctets(a: nat, b: nat, d: nat, e: nat)
    requires 0xF0 <= a <= 0xF4 && 0x80 <= b < 0xC0 && 0x80 <= d < 0xC0 && 0x80 <= e < 0xC0 && SecondFits(a, b)
    ensures a % 8 == a - 0xF0 && b % 64 == b - 0x80 && d % 64 == d - 0x80 && e % 64 == e - 0x80
    ensures var c := (a - 0xF0) * 262144 + (b - 0x80) * 4096 + (d - 0x80) * 64 + (e - 0x80);
            && 0x1_0000 <= c < 0x11_0000
            && 0xF0 + c / 262144 == a && 0x80 + c / 4096 % 64 == b && 0x80 + c / 64 % 64 == d && 0x80 + c % 64 == e
  {
    var x, y, z, w := a - 0xF0, b - 0x80, d - 0x80, e - 0x80;
    SplitAt64(x * 4096 + y * 64 + z, w);
    SplitAt64(x * 64 + y, z);
    SplitAt4096(x * 64 + y, z * 64 + w);
    SplitAt64(x, y);
    SplitAt262144(x, y * 4096 + z * 64 + w);
  }

  lemma SameOctets(s: seq<byte>, t: seq<byte>)
    requires |s| == |t| && forall k :: 0 <= k < |s| ==> Value(s[k]) == Value(t[k])
    ensures s == t
  {
    forall k | 0 <= k < |s| ensures s[k] == t[k] { ValueInjective(s[k], t[k]); }
  }

  /** What the recogniser accepts at the front is exactly the encoding of one scalar value. */
  lemma FrontIsScalar(s: seq<byte>)
    requires Front(s) > 0
    ensures var c := ScalarOf(s[..Front(s)]);
            c < 0x11_0000 && !(0xD800 <= c < 0xE000) && s[..Front(s)] == EncodeScalar(c)
  {
    var n := Front(s);
    var t := s[..n];
    var c := ScalarOf(t);
    assert forall k :: 0 <= k < n ==> t[k] == s[k];
    forall k | 1 <= k < n ensures 0x80 <= Value(t[k]) < 0xC0 { ContinuationValue(s[k]); }
    hide Octet, Value, Continuation, SecondFits;
    if n == 1 { OneIsScalar(t); } else if n == 2 { TwoIsScalar(t); } else if n == 3 { ThreeIsScalar(t); } else { FourIsScalar(t); }
  }

  predicate Tailed(t: seq<byte>) {
    forall k :: 1 <= k < |t| ==> 0x80 <= Value(t[k]) < 0xC0
  }

  lemma OneIsScalar(t: seq<byte>)
    requires |t| == 1 && DeclaredLength(Value(t[0])) == 1
    ensures var c := ScalarOf(t); c < 0x80 && t == EncodeScalar(c)
  {
    SameOctets(t, EncodeScalar(ScalarOf(t)));
  }

  lemma TwoIsScalar(t: seq<byte>)
    requires |t| == 2 && DeclaredLength(Value(t[0])) == 2 && Tailed(t)
    ensures var c := ScalarOf(t); 0x80 <= c < 0x800 && t == EncodeScalar(c)
  {
    hide Octet, Value;
    TwoOctets(Value(t[0]), Value(t[1]));
    SameOctets(t, EncodeScalar(ScalarOf(t)));
  }

  lemma ThreeIsScalar(t: seq<byte>)
    requires |t| == 3 && DeclaredLength(Value(t[0])) == 3 && Tailed(t) && SecondFits(Value(t[0]), Value(t[1]))
    ensures var c := ScalarOf(t); 0x800 <= c < 0x1_0000 && !(0xD800 <= c < 0xE000) && t == EncodeScalar(c)
  {
    hide Octet, Value, SecondFits;
    ThreeOctets(Value(t[0]), Value(t[1]), Value(t[2]));
    SameOctets(t, EncodeScalar(ScalarOf(t)));
  }

  lemma FourOctetsOf(c: Scalar)
    requires c >= 0x1_0000
    ensures var e := EncodeScalar(c);
            && |e| == 4 && Value(e[0]) == 0xF0 + c / 262144 && Value(e[1]) == 0x80 + c / 4096 % 64
            && Value(e[2]) == 0x80 + c / 64 % 64 && Value(e[3]) == 0x80 + c % 64
  {
  }

  lemma FourIsScalar(t: seq<byte>)
    requires |t| == 4 && DeclaredLength(Value(t[0])) == 4 && Tailed(t) && SecondFits(Value(t[0]), Value(t[1]))
    ensures var c := ScalarOf(t); 0x1_0000 <= c < 0x11_0000 && t == EncodeScalar(c)
  {
    hide Octet, Value, SecondFits, EncodeScalar;
    FourOctets(Value(t[0]), Value(t[1]), Value(t[2]), Value(t[3]));
    FourOctetsOf(ScalarOf(t));
    SameOctets(t, EncodeScalar(ScalarOf(t)));
  }

  lemma ScalarOctets(c: Scalar)
    ensures var e := EncodeScalar(c);
            && DeclaredLength(Value(e[0])) == |e| && (|e| > 1 ==> SecondFits(Value(e[0]), Value(e[1])))
            && forall k :: 1 <= k < |e| ==> 0x80 <= Value(e[k]) < 0xC0
  {
    hide Octet, Value;
  }

  /** The recogniser accepts the encoding of every scalar value, at its full length, whatever follows. */
  lemma ScalarIsFront(c: Scalar, rest: seq<byte>)
    ensures Front(EncodeScalar(c) + rest) == |EncodeScalar(c)|
  {
    ScalarOctets(c);
    hide Octet, Value, Continuation, EncodeScalar, DeclaredLength, SecondFits;
    var e := EncodeScalar(c);
    var s := e + rest;
    assert s[0] == e[0] && (|e| > 1 ==> s[1] == e[1]);
    forall k | 1 <= k < |e| ensures Continuation(s[k]) { ContinuationValue(e[k]); }
    assert |e| == 1 ==> DeclaredLength(Value(s[0])) == 1;
  }

  predicate Accepts(s: seq<byte>) {
    s == [] || (Front(s) > 0 && Accepts(s[Front(s)..]))
  }

  lemma {:induction false} AcceptsEncodings(cs: seq<Scalar>)
    ensures Accepts(Encode(cs))
  {
    hide Front, EncodeScalar;
    if cs != [] {
      AcceptsEncodings(cs[1..]);
      ScalarIsFront(cs[0], Encode(cs[1..]));
      assert Encode(cs)[|EncodeScalar(cs[0])|..] == Encode(cs[1..]);
    }
  }

  lemma {:induction false} AcceptedIsEncoding(s: seq<byte>) returns (cs: seq<Scalar>)
    requires Accepts(s)
    ensures s == Encode(cs)
  {
    if s == [] {
      cs := [];
    } else {
      hide Front, EncodeScalar, ScalarOf;
      FrontIsScalar(s);
      var n := Front(s);
      var rest := AcceptedIsEncoding(s[n..]);
      var c: Scalar := ScalarOf(s[..n]);
      cs := [c] + rest;
      assert cs[1..] == rest && cs[0] == c;
      assert s == s[..n] + s[n..];
    }
  }

  lemma AcceptsIffUtf8(s: seq<byte>)
    ensures Accepts(s) <==> IsUtf8(s)
  {
    if Accepts(s) { var cs := AcceptedIsEncoding(s); }
    if IsUtf8(s) {
      var cs :| s == Encode(cs);
      AcceptsEncodings(cs);
    }
  }

  /** is_valid_utf8: true exactly for UTF-8. */
  method IsValidUtf8(s: seq<byte>) returns (ok: bool)
    ensures ok <==> IsUtf8(s)
  {
    AcceptsIffUtf8(s);
    var i := 0;
    while i < |s|
      invariant i <= |s| && (Accepts(s) <==> Accepts(s[i..]))
    {
      var n := FrontLength(s, i);
      if n == 0 { return false; }
      assert s[i..][n..] == s[i + n..];
      i := i + n;
    }
    ok := true;
  }

  method FrontLength(s: seq<byte>, i: nat) returns (n: nat)
    requires i < |s|
    ensures n == Front(s[i..])
  {
    var lead := Value(s[i]);
    n := DeclaredLength(lead);
    if n == 0 || i + n > |s| { return 0; }
    for k := 1 to n
      invariant forall j :: 1 <= j < k ==> Continuation(s[i..][j])
    {
      if !Continuation(s[i + k]) {
        assert !Continuation(s[i..][k]);
        return 0;
      }
    }
    if n > 1 && !SecondFits(lead, Value(s[i + 1])) { return 0; }
  }

  // ---- escaping within a budget ----

  const QUOTE: byte := 0x22
  const BACKSLASH: byte := 0x5C

  function HexDigit(v: nat): byte
    requires v < 16
  {
    if v < 10 then Octet(0x30 + v) else Octet(0x41 + v - 10)
  }

  /** The token that one position of the input becomes: an escape, a whole code point, or the escaped replacement character. */
  function Token(s: seq<byte>): (t: seq<byte>)
    requires s != []
    ensures t != []
  {
    var lead := Value(s[0]);
    if lead > 0x7F then if Front(s) > 0 then s[..Front(s)] else [BACKSLASH, 0x75, 0x46, 0x46, 0x46, 0x44]
    else if s[0] == QUOTE || s[0] == BACKSLASH then [BACKSLASH, s[0]]
    else if lead == 8 then [BACKSLASH, 0x62] else if lead == 12 then [BACKSLASH, 0x66] else if lead == 10 then [BACKSLASH, 0x6E]
    else if lead == 13 then [BACKSLASH, 0x72] else if lead == 9 then [BACKSLASH, 0x74]
    else if lead < 0x20 then [BACKSLASH, 0x75, 0x30, 0x30, HexDigit(lead / 16), HexDigit(lead % 16)]
    else [s[0]]
  }

  /** How much input the token stands for. */
  function Consumed(s: seq<byte>): (n: nat)
    requires s != []
    ensures 1 <= n <= |s|
  {
    if Value(s[0]) > 0x7F && Front(s) > 0 then Front(s) else 1
  }

  /** Tokens one after the other until the next one would not fit; nothing is ever cut inside a token. */
  function Escaped(s: seq<byte>, budget: nat): seq<byte>
    decreases |s|
  {
    if s == [] || |Token(s)| > budget then [] else Token(s) + Escaped(s[Consumed(s)..], budget - |Token(s)|)
  }

  lemma {:induction false} AcceptsConcat(a: seq<byte>, b: seq<byte>)
    requires Accepts(a) && Accepts(b)
    ensures Accepts(a + b)
  {
    hide Front;
    if a == [] {
      assert a + b == b;
    } else {
      var n := Front(a);
      FrontIsLocal(a, b);
      AcceptsConcat(a[n..], b);
      assert (a + b)[n..] == a[n..] + b;
    }
  }

  lemma FrontIsLocal(a: seq<byte>, b: seq<byte>)
    requires Front(a) > 0
    ensures Front(a + b) == Front(a)
  {
    hide Continuation, Value, SecondFits, DeclaredLength;
    var n := Front(a);
    assert forall k :: 0 <= k < n ==> (a + b)[k] == a[k];
  }

  lemma {:induction false} AsciiIsAccepted(t: seq<byte>)
    requires forall k :: 0 <= k < |t| ==> Value(t[k]) <= 0x7F
    ensures Accepts(t)
  {
    hide Value;
    if t != [] { AsciiIsAccepted(t[1..]); }
  }

  lemma TokenIsAccepted(s: seq<byte>)
    requires s != []
    ensures Accepts(Token(s))
  {
    hide Octet;
    if Value(s[0]) > 0x7F && Front(s) > 0 {
      var t := s[..Front(s)];
      FrontOfFront(s);
      assert t[Front(t)..] == [];
    } else {
      AsciiToken(s);
      AsciiIsAccepted(Token(s));
    }
  }

  lemma FrontOfFront(s: seq<byte>)
    requires Front(s) > 0
    ensures Front(s[..Front(s)]) == Front(s)
  {
    hide Continuation, Value, SecondFits, DeclaredLength;
    assert forall k :: 0 <= k < Front(s) ==> s[..Front(s)][k] == s[k];
  }

  lemma AsciiToken(s: seq<byte>)
    requires s != [] && (Value(s[0]) <= 0x7F || Front(s) == 0)
    ensures forall k :: 0 <= k < |Token(s)| ==> Value(Token(s)[k]) <= 0x7F
  {
    hide Front, Value, Octet, HexDigit;
    AsciiConstants();
    if Value(s[0]) < 0x20 {
      HexDigitIsAscii(Value(s[0]) / 16);
      HexDigitIsAscii(Value(s[0]) % 16);
    }
  }

  lemma HexDigitIsAscii(v: nat)
    requires v < 16
    ensures Value(HexDigit(v)) <= 0x7F
  {
    hide Value, Octet;
  }

  lemma AsciiConstants()
    ensures Value(QUOTE) <= 0x7F && Value(BACKSLASH) <= 0x7F && Value(0x75) <= 0x7F && Value(0x46) <= 0x7F && Value(0x44) <= 0x7F
    ensures Value(0x62) <= 0x7F && Value(0x66) <= 0x7F && Value(0x6E) <= 0x7F && Value(0x72) <= 0x7F && Value(0x74) <= 0x7F && Value(0x30) <= 0x7F
  {
  }

  /** Whatever the input, even broken UTF-8, the output is UTF-8 and within the budget. */
  lemma {:induction false} EscapedIsUtf8(s: seq<byte>, budget: nat)
    ensures |Escaped(s, budget)| <= budget && IsUtf8(Escaped(s, budget))
    decreases |s|
  {
    AcceptsIffUtf8(Escaped(s, budget));
    hide IsUtf8, Token, Consumed;
    if s != [] && |Token(s)| <= budget {
      var rest := s[Consumed(s)..];
      EscapedIsUtf8(rest, budget - |Token(s)|);
      AcceptsIffUtf8(Escaped(rest, budget - |Token(s)|));
      TokenIsAccepted(s);
      AcceptsConcat(Token(s), Escaped(rest, budget - |Token(s)|));
    }
  }

  /** escape_json_string_bounded. */
  method EscapeBounded(s: seq<byte>, budget: nat) returns (escaped: seq<byte>)
    ensures escaped == Escaped(s, budget) && |escaped| <= budget && IsUtf8(escaped)
  {
    hide Escaped, Token, Consumed, IsUtf8, Front;
    EscapedIsUtf8(s, budget);
    escaped := [];
    var i := 0;
    while i < |s|
      invariant i <= |s| && |escaped| <= budget && escaped + Escaped(s[i..], budget - |escaped|) == Escaped(s, budget)
    {
      var rest := s[i..];
      EscapedStep(rest, budget - |escaped|);
      var t := Token(rest);
      if |escaped| + |t| > budget { return; }
      var n := Consumed(rest);
      assert rest[n..] == s[i + n..];
      escaped, i := escaped + t, i + n;
    }
    assert s[i..] == [];
    NothingToEscape(budget - |escaped|);
  }

  lemma EscapedStep(s: seq<byte>, budget: nat)
    requires s != []
    ensures Escaped(s, budget) == if |Token(s)| > budget then [] else Token(s) + Escaped(s[Consumed(s)..], budget - |Token(s)|)
  {
  }

  lemma NothingToEscape(budget: nat)
    ensures Escaped([], budget) == []
  {
  }
}
