/** The key under which a query result is cached: a 32-bit hash of the table name. */
module CacheKeys {
  const TWO_32 := 0x1_0000_0000
  const TWO_31 := 0x8000_0000

  /** The signed 32-bit integer that a bitwise operator makes of a number. */
  function ToInt32(x: int): (r: int)
    ensures -TWO_31 <= r < TWO_31
  {
    (x + TWO_31) % TWO_32 - TWO_31
  }

  /** The UTF-16 code units that `charCodeAt` reads: a character beyond the basic plane is two. */
  function Utf16(s: string): seq<nat> {
    if s == "" then [] else Units(s[0]) + Utf16(s[1..])
  }

  function Units(c: char): seq<nat> {
    var code := c as int;
    if code < 0x10000 then [code] else [0xD800 + (code - 0x10000) / 0x400, 0xDC00 + (code - 0x10000) % 0x400]
  }

  /** The hash as a polynomial in the code units, before any wrap-around. */
  function Polynomial(units: seq<nat>): int {
    if units == [] then 5381 else 33 * Polynomial(units[..|units| - 1]) + units[|units| - 1]
  }

  lemma WrapsBy(x: int) returns (k: int)
    ensures ToInt32(x) == x + k * TWO_32
  {
    k := -((x + TWO_31) / TWO_32);
  }

  lemma SameWrap(x: int, k: int)
    ensures ToInt32(x + k * TWO_32) == ToInt32(x)
  {
    assert x + k * TWO_32 + TWO_31 == (x + TWO_31) + k * TWO_32;
  }

  /** Wrapping at every step gives the same as wrapping once at the end. */
  lemma StepWraps(p: int, h: int, c: int)
    requires h == ToInt32(p)
    ensures ToInt32(ToInt32(h * 32) + h + c) == ToInt32(33 * p + c)
  {
    hide ToInt32;
    var k := WrapsBy(p);
    var j := WrapsBy(h * 32);
    var m := j + 33 * k;
    assert ToInt32(h * 32) + h + c == 33 * p + c + m * TWO_32;
    SameWrap(33 * p + c, m);
  }

  method Hash(s: string) returns (h: int)
    ensures h == ToInt32(Polynomial(Utf16(s)))
  {
    var units := Utf16(s);
    h := 5381;
    for i := 0 to |units|
      invariant h == ToInt32(Polynomial(units[..i]))
    {
      assert units[..i + 1][..i] == units[..i];
      StepWraps(Polynomial(units[..i]), h, units[i]);
      h := ToInt32(ToInt32(h * 32) + h + units[i]);
    }
    assert units[..|units|] == units;
  }

  function Digit36(d: nat): char
    requires d < 36
  {
    (if d < 10 then '0' as int + d else 'a' as int + (d - 10)) as char
  }

  function Natural36(n: nat): (s: string)
    ensures s != "" && s[0] != '-'
  {
    if n < 36 then [Digit36(n)] else Natural36(n / 36) + [Digit36(n % 36)]
  }

  /** `n.toString(36)` */
  function Base36(n: int): string {
    if n < 0 then "-" + Natural36(-n) else Natural36(n)
  }

  /** `parseInt(s, 36)` of digits. */
  function Value36(s: string): int {
    if s == "" then 0
    else
      var c, front := s[|s| - 1], s[..|s| - 1];
      36 * Value36(front) + if '0' <= c <= '9' then c as int - '0' as int else c as int - 'a' as int + 10
  }

  function Read36(s: string): int {
    if s != "" && s[0] == '-' then -Value36(s[1..]) else Value36(s)
  }

  /** A number written in base 36 reads back, and no leading zero is written. */
  lemma {:induction false} NaturalReads(n: nat)
    ensures Value36(Natural36(n)) == n && (n > 0 ==> Natural36(n)[0] != '0')
    ensures forall c | c in Natural36(n) :: '0' <= c <= '9' || 'a' <= c <= 'z'
  {
    var s := Natural36(n);
    if n < 36 {
      assert s[..0] == "";
    } else {
      NaturalReads(n / 36);
      assert s[..|s| - 1] == Natural36(n / 36) && s[0] == Natural36(n / 36)[0];
    }
  }

  /** The key under which what belongs to a text without parameters is kept (`buildCacheKey`). */
  function CacheKey(text: string): string {
    "q:" + Base36(ToInt32(Polynomial(Utf16(text + "|"))))
  }

  /** The key is a short prefix and the hash, from which it can be read back. */
  lemma KeyReads(text: string)
    ensures CacheKey(text)[..2] == "q:" && Read36(CacheKey(text)[2..]) == ToInt32(Polynomial(Utf16(text + "|")))
  {
    var n := ToInt32(Polynomial(Utf16(text + "|")));
    hide Polynomial, Utf16, ToInt32, Value36, Natural36;
    assert CacheKey(text)[2..] == Base36(n);
    NaturalReads(if n < 0 then -n else n);
    if n < 0 {
      assert Base36(n)[1..] == Natural36(-n);
    }
  }

  lemma UsersUnits()
    ensures Utf16("users" + "|") == [117, 115, 101, 114, 115, 124]
  {
    PairUnits('u', 's');
    PairUnits('e', 'r');
    PairUnits('s', '|');
    hide Utf16;
    Around("us", "er", "s|");
    assert "users" + "|" == "us" + "er" + "s|";
  }

  lemma UsersHash()
    ensures Polynomial([117, 115, 101, 114, 115, 124]) == 6954108120787
  {
    TwoUnits([117, 115, 101, 114], 115, 124);
    TwoUnits([117, 115], 101, 114);
    TwoUnits([], 117, 115);
    assert [117, 115, 101, 114] + [115, 124] == [117, 115, 101, 114, 115, 124];
    assert [117, 115] + [101, 114] == [117, 115, 101, 114] && [] + [117, 115] == [117, 115];
  }

  lemma UsersDigits()
    ensures Base36(556068563) == "972h8z"
  {
    assert Natural36(11918) == "972" by {
      assert Natural36(331) == "97";
    }
    assert Natural36(15446348) == "972h8" by {
      assert Natural36(429065) == "972h";
    }
  }

  /** The key of a table named users. */
  lemma UsersKey()
    ensures CacheKey("users") == "q:972h8z"
  {
    UsersUnits();
    UsersHash();
    UsersDigits();
    hide Polynomial, Utf16, Base36;
  }

  /** Writing the hash down loses nothing: keys are equal exactly when the hashes are. */
  lemma KeysAreHashes(s: string, t: string)
    ensures CacheKey(s) == CacheKey(t) <==>
            ToInt32(Polynomial(Utf16(s + "|"))) == ToInt32(Polynomial(Utf16(t + "|")))
  {
    KeyReads(s);
    KeyReads(t);
  }

  // ---- collisions ----

  lemma {:induction false} UnitsConcat(s: string, t: string)
    ensures Utf16(s + t) == Utf16(s) + Utf16(t)
  {
    if s == "" {
      assert s + t == t;
    } else {
      assert (s + t)[1..] == s[1..] + t;
      UnitsConcat(s[1..], t);
    }
  }

  lemma {:induction false} SameSuffix(x: seq<nat>, y: seq<nat>, suffix: seq<nat>)
    requires Polynomial(x) == Polynomial(y)
    ensures Polynomial(x + suffix) == Polynomial(y + suffix)
  {
    if suffix == [] {
      assert x + suffix == x && y + suffix == y;
    } else {
      var front := suffix[..|suffix| - 1];
      SameSuffix(x, y, front);
      assert (x + suffix)[..|x + suffix| - 1] == x + front;
      assert (y + suffix)[..|y + suffix| - 1] == y + front;
    }
  }

  lemma TwoUnits(before: seq<nat>, a: nat, b: nat)
    ensures Polynomial(before + [a, b]) == 33 * (33 * Polynomial(before) + a) + b
  {
    var x := before + [a, b];
    assert x[..|x| - 1] == before + [a] && (before + [a])[..|before|] == before;
  }

  /** Raising a character by one and lowering the next by 33 changes no key, whatever is around them. */
  lemma KeysCollide(before: string, a: char, b: char, after: string)
    requires a as int + 1 < 0xD800 && 33 <= b as int < 0xD800
    ensures CacheKey(before + [a, b] + after) ==
            CacheKey(before + [(a as int + 1) as char, (b as int - 33) as char] + after)
  {
    var ab, cd := [a, b], [(a as int + 1) as char, (b as int - 33) as char];
    var x, y := Utf16(before) + [a as int, b as int], Utf16(before) + [a as int + 1, b as int - 33];
    TwoUnits(Utf16(before), a as int, b as int);
    TwoUnits(Utf16(before), a as int + 1, b as int - 33);
    PairUnits(a, b);
    PairUnits((a as int + 1) as char, (b as int - 33) as char);
    hide Utf16, Polynomial;
    SameSuffix(x, y, Utf16(after + "|"));
    Around(before, ab, after + "|");
    Around(before, cd, after + "|");
    assert before + ab + after + "|" == before + ab + (after + "|");
    assert before + cd + after + "|" == before + cd + (after + "|");
  }

  lemma PairUnits(a: char, b: char)
    requires a as int < 0x10000 && b as int < 0x10000
    ensures Utf16([a, b]) == [a as int, b as int]
  {
    assert [a, b][1..] == [b] && [b][1..] == "";
    assert Utf16([b]) == Units(b) + [] == [b as int];
  }

  lemma Around(before: string, s: string, after: string)
    ensures Utf16(before + s + after) == Utf16(before) + Utf16(s) + Utf16(after)
  {
    UnitsConcat(before + s, after);
    UnitsConcat(before, s);
  }
}
