/** Text as Unicode scalar values, with their UTF-8 bytes as section 3 of
    RFC 3629 lays them out. */
module Utf8 {
  import opened Basics

  newtype byte = x: int | 0 <= x < 256

  type Scalar = c: int | 0 <= c < 0xD800 || 0xE000 <= c < 0x11_0000

  type Text = seq<Scalar>

  /** Bytes in a character's encoding. */
  function Width(c: Scalar): (n: nat)
    ensures 1 <= n <= 4
  {
    if c < 0x80 then 1 else if c < 0x800 then 2 else if c < 0x1_0000 then 3 else 4
  }

  predicate Continues(b: byte) {
    0x80 <= b < 0xC0
  }

  function Encode(c: Scalar): (r: seq<byte>)
    ensures |r| == Width(c) && !Continues(r[0]) && forall k :: 1 <= k < |r| ==> Continues(r[k])
  {
    if c < 0x80 then [c as byte]
    else if c < 0x800 then [(0xC0 + c / 0x40) as byte, (0x80 + c % 0x40) as byte]
    else if c < 0x1_0000 then
      [(0xE0 + c / 0x1000) as byte, (0x80 + c / 0x40 % 0x40) as byte, (0x80 + c % 0x40) as byte]
    else
      [(0xF0 + c / 0x4_0000) as byte, (0x80 + c / 0x1000 % 0x40) as byte,
       (0x80 + c / 0x40 % 0x40) as byte, (0x80 + c % 0x40) as byte]
  }

  /** The number an encoding stands for: its first byte tells how many follow, six
      bits of the number in each. */
  function Decode(r: seq<byte>): int
    requires 1 <= |r| <= 4
  {
    var low := if |r| == 1 then 0 else r[|r| - 1] as int - 0x80;
    match |r|
    case 1 => r[0] as int
    case 2 => (r[0] as int - 0xC0) * 64 + low
    case 3 => (r[0] as int - 0xE0) * 4096 + (r[1] as int - 0x80) * 64 + low
    case _ => (r[0] as int - 0xF0) * 262144 + (r[1] as int - 0x80) * 4096 + (r[2] as int - 0x80) * 64 + low
  }

  lemma EncodeDecodes(c: Scalar)
    ensures Decode(Encode(c)) == c
  {
    Digits(c);
    var r := Encode(c);
    if 0x1_0000 <= c {
      assert r[0] as int == 0xF0 + c / 0x4_0000 && r[1] as int == 0x80 + c / 0x1000 % 0x40;
    }
  }

  /** A number in digits of six bits. */
  lemma Digits(c: nat)
    ensures c == c / 0x40 * 64 + c % 0x40
    ensures c / 0x40 == c / 0x1000 * 64 + c / 0x40 % 0x40
    ensures c / 0x1000 == c / 0x4_0000 * 64 + c / 0x1000 % 0x40
  {
  }

  /** `str::len`: bytes, not characters. */
  function Len(t: Text): nat {
    if t == [] then 0 else Len(t[..|t| - 1]) + Width(t[|t| - 1])
  }

  function Bytes(t: Text): (r: seq<byte>)
    ensures |r| == Len(t)
  {
    if t == [] then [] else Bytes(t[..|t| - 1]) + Encode(t[|t| - 1])
  }

  /** `str::is_char_boundary`, a test of one byte. */
  predicate IsBoundary(bytes: seq<byte>, k: nat) {
    k == 0 || k == |bytes| || (k < |bytes| && !Continues(bytes[k]))
  }

  /** How many characters fit into the first `max` bytes. */
  function Fitting(t: Text, max: nat): (j: nat)
    ensures j <= |t|
  {
    if Len(t) <= max then |t| else Fitting(t[..|t| - 1], max)
  }

  lemma {:induction false} LenPlus(a: Text, b: Text)
    ensures Len(a + b) == Len(a) + Len(b)
  {
    if b == [] {
      assert a + b == a;
    } else {
      assert (a + b)[..|a + b| - 1] == a + b[..|b| - 1];
      LenPlus(a, b[..|b| - 1]);
    }
  }

  /** As many characters as possible, and none split. */
  lemma {:induction false} FittingIsLongest(t: Text, max: nat)
    ensures Len(t[..Fitting(t, max)]) <= max
    ensures Fitting(t, max) < |t| ==> Len(t[..Fitting(t, max) + 1]) > max
    ensures Len(t) > max ==> max < Len(t[..Fitting(t, max)]) + 4
    decreases |t|
  {
    assert t[..|t|] == t;
    if Len(t) > max {
      var front := t[..|t| - 1];
      FittingIsLongest(front, max);
      var j := Fitting(front, max);
      assert front[..j] == t[..j];
      if j < |front| {
        assert front[..j + 1] == t[..j + 1];
        assert t[..j + 1][..j] == t[..j];
      } else {
        assert front[..|front|] == front;
      }
    }
  }

  /** Some first characters of the text take exactly `k` bytes. */
  predicate CharsEndAt(t: Text, k: nat) {
    k == Len(t) || (t != [] && CharsEndAt(t[..|t| - 1], k))
  }

  lemma {:induction false} EndsWithin(t: Text, k: nat)
    ensures CharsEndAt(t, k) ==> k <= Len(t)
    ensures CharsEndAt(t, 0)
  {
    if t != [] {
      EndsWithin(t[..|t| - 1], k);
    }
  }

  /** The test of one byte finds exactly the ends of characters. */
  lemma {:induction false} BoundaryIff(t: Text, k: nat)
    requires k <= Len(t)
    ensures IsBoundary(Bytes(t), k) <==> CharsEndAt(t, k)
  {
    EndsWithin(t, k);
    if t != [] && 0 < k < Len(t) {
      var front, last := t[..|t| - 1], Encode(t[|t| - 1]);
      EndsWithin(front, k);
      if k < Len(front) {
        BoundaryIff(front, k);
        assert Bytes(t)[k] == Bytes(front)[k];
      } else {
        assert Bytes(t)[k] == last[k - Len(front)];
      }
    }
  }

  /** The characters that fit end at the greatest boundary. */
  lemma {:induction false} FittingIsFloor(t: Text, max: nat, k: nat)
    requires k <= max
    ensures CharsEndAt(t, Len(t[..Fitting(t, max)]))
    ensures CharsEndAt(t, k) ==> k <= Len(t[..Fitting(t, max)])
    decreases |t|
  {
    assert t[..|t|] == t;
    if Len(t) > max {
      var front := t[..|t| - 1];
      FittingIsFloor(front, max, k);
      assert front[..Fitting(front, max)] == t[..Fitting(t, max)];
    } else {
      EndsWithin(t, k);
    }
  }

  // ---- `sanitize::truncate`. ----

  const ELLIPSIS: Text := [0x2026]

  function Truncate(t: Text, max: nat): Text {
    if Len(t) <= max then t
    else if max < 3 then []
    else t[..Fitting(t, max - 3)] + ELLIPSIS
  }

  /** A text too long is cut to the most characters that leave room for the
      ellipsis, which then ends it; with no room for that nothing is left. */
  lemma TruncateIs(t: Text, max: nat)
    requires Len(t) > max
    ensures if max < 3 then Truncate(t, max) == []
            else exists j :: 0 <= j < |t| && Truncate(t, max) == t[..j] + [0x2026]
                             && Len(t[..j]) <= max - 3 < Len(t[..j + 1])
  {
    if max >= 3 {
      FittingIsLongest(t, max - 3);
      assert t[..|t|] == t;
      var j := Fitting(t, max - 3);
      assert Truncate(t, max) == t[..j] + [0x2026];
    }
  }

  lemma TruncateFits(t: Text, max: nat)
    ensures Len(Truncate(t, max)) <= max
    ensures Truncate(t, max) == t <==> Len(t) <= max
  {
    if 3 <= max < Len(t) {
      FittingIsLongest(t, max - 3);
      LenPlus(t[..Fitting(t, max - 3)], ELLIPSIS);
      assert ELLIPSIS[..0] == [];
    }
  }
}
