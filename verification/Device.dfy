// The 64-bit device number coding of pkg/device/devices.go. Numbers are the two's
// complement bits of the program's int64 and uint64 values.
module Device {

  function Mkdev(major: bv64, minor: bv64): bv64 {
    ((major & 0xfff) << 8) | (minor & 0xff) | ((major & !0xfff) << 32) | ((minor & !0xff) << 12)
  }

  function Major(dev: bv64): bv64 {
    ((dev >> 8) & 0xfff) | (((dev >> 32) & 0xffff_ffff) & !0xfff)
  }

  function Minor(dev: bv64): bv64 {
    (dev & 0xff) | (((dev >> 12) & 0xffff_ffff) & !0xff)
  }

  // Both numbers come back exactly when both fit 32 bits.
  lemma SplitsExactly(major: bv64, minor: bv64)
    ensures Major(Mkdev(major, minor)) == major && Minor(Mkdev(major, minor)) == minor
            <==> major < 0x1_0000_0000 && minor < 0x1_0000_0000
  {
  }

  // Every 64-bit value is the number of its own major and minor, and of no other pair.
  lemma JoinsExactly(dev: bv64, major: bv64, minor: bv64)
    requires major < 0x1_0000_0000 && minor < 0x1_0000_0000
    ensures Mkdev(Major(dev), Minor(dev)) == dev
    ensures Mkdev(major, minor) == dev <==> major == Major(dev) && minor == Minor(dev)
  {
    SplitsExactly(major, minor);
  }
}
