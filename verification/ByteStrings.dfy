/** Byte strings as big-endian numbers. */
module ByteStrings {

  newtype byte = x: int | 0 <= x < 256

  function BigEndian(b: seq<byte>): nat {
    if b == [] then 0 else BigEndian(b[..|b| - 1]) * 256 + b[|b| - 1] as nat
  }

  /** 256 to the power of w. */
  ghost function Power(w: nat): nat {
    if w == 0 then 1 else 256 * Power(w - 1)
  }

  function ToBytes(v: nat, w: nat): (b: seq<byte>)
    ensures |b| == w
  {
    if w == 0 then [] else ToBytes(v / 256, w - 1) + [(v % 256) as byte]
  }

  lemma {:induction false} BytesBack(v: nat, w: nat)
    requires v < Power(w)
    ensures BigEndian(ToBytes(v, w)) == v
  {
    if w > 0 {
      BytesBack(v / 256, w - 1);
      var b := ToBytes(v, w);
      assert b[..w - 1] == ToBytes(v / 256, w - 1);
    }
  }

  lemma {:induction false} ValueInRange(b: seq<byte>)
    ensures BigEndian(b) < Power(|b|)
  {
    if b != [] {
      ValueInRange(b[..|b| - 1]);
    }
  }

  lemma {:induction false} ValueBack(b: seq<byte>)
    ensures ToBytes(BigEndian(b), |b|) == b
  {
    if b != [] {
      var init, last := b[..|b| - 1], b[|b| - 1];
      ValueBack(init);
      assert BigEndian(b) / 256 == BigEndian(init) && BigEndian(b) % 256 == last as nat;
      assert b == init + [last];
    }
  }

  /** Numbers of the same width are equal only if their bytes are. */
  lemma SameValueSameBytes(a: seq<byte>, b: seq<byte>)
    requires |a| == |b| && BigEndian(a) == BigEndian(b)
    ensures a == b
  {
    ValueBack(a);
    ValueBack(b);
  }

  lemma {:induction false} ValueOfJoined(a: seq<byte>, b: seq<byte>)
    ensures BigEndian(a + b) == BigEndian(a) * Power(|b|) + BigEndian(b)
  {
    if b == [] {
      assert a + b == a;
    } else {
      var init, last := b[..|b| - 1], b[|b| - 1];
      assert (a + b)[..|a + b| - 1] == a + init;
      ValueOfJoined(a, init);
      assert BigEndian(a) * Power(|b|) == 256 * (BigEndian(a) * Power(|init|));
    }
  }
}
