/** Fixed-width big-endian numbers. */
module BigEndian {
  import opened Bytes

  function Power(width: nat): (p: nat)
    ensures p > 0
  {
    if width == 0 then 1 else Power(width - 1) * 256
  }

  function Write(n: nat, width: nat): (b: bytes)
    ensures |b| == width
  {
    if width == 0 then [] else Write(n / 256, width - 1) + [n % 256]
  }

  function Read(b: bytes): nat {
    if b == [] then 0 else Read(b[..|b| - 1]) * 256 + b[|b| - 1]
  }

  lemma {:induction false} ReadWrite(n: nat, width: nat)
    requires n < Power(width)
    ensures Read(Write(n, width)) == n
  {
    if width > 0 {
      var rest := Write(n / 256, width - 1);
      assert (rest + [n % 256])[..width - 1] == rest;
      assert n / 256 < Power(width - 1);
      ReadWrite(n / 256, width - 1);
    }
  }

  lemma {:induction false} WriteRead(b: bytes)
    ensures Read(b) < Power(|b|) && Write(Read(b), |b|) == b
  {
    if b != [] {
      var init := b[..|b| - 1];
      WriteRead(init);
      assert Read(b) / 256 == Read(init) && Read(b) % 256 == b[|b| - 1];
      assert init + [b[|b| - 1]] == b;
    }
  }

  lemma Powers()
    ensures Power(1) == 0x100 && Power(2) == 0x1_0000 && Power(4) == 0x1_0000_0000
    ensures Power(8) == 0x1_0000_0000_0000_0000
  {
    assert Power(3) == 0x100_0000;
    assert Power(5) == 0x100_0000_0000;
    assert Power(6) == 0x1_0000_0000_0000;
    assert Power(7) == 0x100_0000_0000_0000;
  }
}
