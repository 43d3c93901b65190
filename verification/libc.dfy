/** itoa of libc.c: digits from the right, then a reversal in place. */
module Libc {

  function Digit(d: nat): char
    requires d < 10
  {
    '0' + d as char
  }

  predicate IsDigit(c: char) {
    '0' <= c <= '9'
  }

  predicate AllDigits(s: string) {
    forall k :: 0 <= k < |s| ==> IsDigit(s[k])
  }

  /** The digits of a, most significant first; none for 0. */
  function Numeral(a: nat): string {
    if a == 0 then "" else Numeral(a / 10) + [Digit(a % 10)]
  }

  function Decimal(a: nat): string {
    if a == 0 then "0" else Numeral(a)
  }

  /** The number that a string of digits denotes. */
  function Value(s: string): nat
    requires AllDigits(s)
  {
    if s == "" then 0 else 10 * Value(s[..|s| - 1]) + (s[|s| - 1] as int - '0' as int)
  }

  lemma {:induction false} NumeralValue(a: nat)
    ensures AllDigits(Numeral(a))
    ensures Value(Numeral(a)) == a && (a > 0 ==> Numeral(a) != "" && Numeral(a)[0] != '0')
  {
    if a > 0 {
      NumeralValue(a / 10);
      var s := Numeral(a);
      assert s[..|s| - 1] == Numeral(a / 10);
    }
  }

  /** What itoa writes for a >= 0 consists of digits, denotes a, and has no leading zero. */
  lemma DecimalIsRight(a: nat)
    ensures var s := Decimal(a);
            && s != "" && AllDigits(s) && Value(s) == a
            && (s[0] == '0' <==> s == "0")
  {
    NumeralValue(a);
    assert Value("0") == 10 * Value("0"[..0]) + 0;
  }

  lemma DivMod(q: nat, d: nat)
    requires d < 10
    ensures (10 * q + d) / 10 == q && (10 * q + d) % 10 == d
  {
  }

  /** There is only one such string. */
  lemma {:induction false} NumeralIsUnique(s: string)
    requires AllDigits(s) && (s != "" ==> s[0] != '0')
    ensures s == Numeral(Value(s))
  {
    if s != "" {
      var t := s[..|s| - 1];
      NumeralIsUnique(t);
      var d := s[|s| - 1] as int - '0' as int;
      assert Value(s) == 10 * Value(t) + d;
      DivMod(Value(t), d);
      if t == "" {
        assert Value(s) == d && d > 0;
      } else {
        NumeralValue(Value(t));
        assert Value(t) != 0;
      }
      assert s == t + [s[|s| - 1]];
    }
  }

  function Reversed(s: string): (r: string)
    ensures |r| == |s| && forall k :: 0 <= k < |s| ==> r[k] == s[|s| - 1 - k]
  {
    seq(|s|, k requires 0 <= k < |s| => s[|s| - 1 - k])
  }

  lemma OneMoreDigit(a: nat, n: nat, written: string)
    requires n > 0 && Numeral(a) == Numeral(n) + Reversed(written)
    ensures Numeral(a) == Numeral(n / 10) + Reversed(written + [Digit(n % 10)])
    ensures |Numeral(n)| == |Numeral(n / 10)| + 1
  {
    assert Reversed(written + [Digit(n % 10)]) == [Digit(n % 10)] + Reversed(written);
  }

  lemma ReversedTwice(s: string)
    ensures Reversed(Reversed(s)) == s
  {
  }

  // itoa gets a pointer, not a buffer: b is a position in the memory of the process.

  /** The memory after a string is written at position b. */
  function Stored(memory: string, b: nat, s: string): (r: string)
    requires b + |s| <= |memory|
    ensures |r| == |memory|
    ensures forall k :: 0 <= k < |memory| ==> r[k] == if b <= k < b + |s| then s[k - b] else memory[k]
  {
    memory[..b] + s + memory[b + |s|..]
  }

  /** The digits of a > 0, least significant first. */
  method PutDigits(a: int, memory: array<char>, b: nat) returns (i: nat)
    requires b + (if a > 0 then |Numeral(a)| else 0) < memory.Length
    modifies memory
    ensures b + i < memory.Length && i == if a > 0 then |Numeral(a)| else 0
    ensures memory[..] == Stored(old(memory[..]), b, if a > 0 then Reversed(Numeral(a)) else "")
  {
    i := 0;
    var n := a;
    ghost var written := "";
    if a > 0 {
      assert Numeral(a) == Numeral(n) + Reversed(written);
    }
    while n > 0
      invariant a > 0 ==> n >= 0 && i + |Numeral(n)| == |Numeral(a)| && Numeral(a) == Numeral(n) + Reversed(written)
      invariant a <= 0 ==> n == a && i == 0
      invariant |written| == i && b + i < memory.Length && memory[..] == Stored(old(memory[..]), b, written)
    {
      hide Numeral, Reversed;
      OneMoreDigit(a, n, written);
      written := written + [Digit(n % 10)];
      memory[b + i] := Digit(n % 10);
      n := n / 10;
      i := i + 1;
    }
    if a > 0 {
      assert Numeral(a) == Reversed(written);
      ReversedTwice(written);
    }
  }

  lemma Mirrored(was: string, now: string, b: nat, i: nat)
    requires b + i < |was| && |now| == |was|
    requires forall p :: b <= p < b + i ==> now[p] == was[b + b + i - 1 - p]
    requires forall p :: 0 <= p < |was| && !(b <= p < b + i) ==> now[p] == was[p]
    ensures now == Stored(was, b, Reversed(was[b..b + i]))
  {
    var s := was[b..b + i];
    forall p | b <= p < b + i ensures now[p] == Reversed(s)[p - b] {
      assert Reversed(s)[p - b] == s[i - 1 - (p - b)];
    }
  }

  method ReverseFirst(memory: array<char>, b: nat, i: nat)
    requires b + i < memory.Length
    modifies memory
    ensures memory[..] == Stored(old(memory[..]), b, Reversed(old(memory[b..b + i])))
  {
    hide Stored, Reversed;
    ghost var was := memory[..];
    var i1 := 0;
    while i1 < i / 2
      invariant 0 <= i1 <= i / 2
      invariant forall p :: b <= p < b + i1 ==> memory[p] == was[b + b + i - 1 - p]
      invariant forall p :: b + i1 <= p < b + i - i1 ==> memory[p] == was[p]
      invariant forall p :: b + i - i1 <= p < b + i ==> memory[p] == was[b + b + i - 1 - p]
      invariant forall p :: 0 <= p < memory.Length && !(b <= p < b + i) ==> memory[p] == was[p]
    {
      var c := memory[b + i1];
      memory[b + i1] := memory[b + i - i1 - 1];
      memory[b + i - i1 - 1] := c;
      i1 := i1 + 1;
    }
    assert was[b..b + i] == old(memory[b..b + i]);
    Mirrored(was, memory[..], b, i);
  }

  /** The characters that itoa writes before the zero: none for a negative number. */
  function Written(a: int): string {
    if a >= 0 then Decimal(a) else ""
  }

  /** itoa writes the digits of a and a zero from b on and nothing else, however short the caller's buffer is. */
  method Itoa(a: int, memory: array<char>, b: nat)
    requires b + |Written(a)| < memory.Length
    modifies memory
    ensures memory[..] == Stored(old(memory[..]), b, Written(a) + [0 as char])
  {
    hide Numeral, Reversed;
    ghost var was := memory[..];
    if a == 0 {
      memory[b], memory[b + 1] := '0', 0 as char;
      return;
    }
    var i := PutDigits(a, memory, b);
    ReverseFirst(memory, b, i);
    StoredTwice(was, b, if a > 0 then Numeral(a) else "");
    memory[b + i] := 0 as char;
  }

  lemma StoredTwice(memory: string, b: nat, s: string)
    requires b + |s| < |memory|
    ensures var first := Stored(memory, b, Reversed(s));
            Stored(first, b, Reversed(first[b..b + |s|])) == Stored(memory, b, s)
  {
    assert Stored(memory, b, Reversed(s))[b..b + |s|] == Reversed(s);
    ReversedTwice(s);
  }

  /** The calls of board_to_screen, with a buffer of one byte: it gets the digit, and the byte behind it is cleared. */
  lemma OneByteBuffer(a: nat, memory: string, b: nat)
    requires a < 10 && b + 1 < |memory|
    ensures |Written(a)| == 1
    ensures Stored(memory, b, Written(a) + [0 as char]) == memory[b := Digit(a)][b + 1 := 0 as char]
  {
    assert a > 0 ==> Numeral(a) == Numeral(0) + [Digit(a)];
  }
}
