/** PCI ids and addresses, and the hexadecimal text through which they travel. */
module PciNames {
  import opened Sequences

  type u16 = x: nat | x < 0x1_0000
  type u8 = x: nat | x < 0x100

  const ULONG_RANGE := 0x1_0000_0000_0000_0000

  datatype PciId = PciId(vendor: u16, device: u16)

  datatype PciAddress = PciAddress(domain: u16, bus: u8, slot: u8, function_: u8)

  // ---------------------------------------------------------------------------------------------
  // Writing
  // ---------------------------------------------------------------------------------------------

  function Digit(d: nat): char
    requires d < 16
  {
    "0123456789abcdef"[d]
  }

  function Digits(n: nat): (s: string)
    ensures s != []
  {
    if n < 16 then [Digit(n)] else Digits(n / 16) + [Digit(n % 16)]
  }

  /** Zeros up to the given width; longer text is not cut. */
  function Padded(s: string, width: nat): string {
    if |s| < width then Repeat('0', width - |s|) + s else s
  }

  function ToHexString(n: nat, digits: nat, showBase: bool): string {
    (if showBase then "0x" else "") + Padded(Digits(n), digits)
  }

  // ---------------------------------------------------------------------------------------------
  // Reading, as strtoul does with base 0
  // ---------------------------------------------------------------------------------------------

  function DigitValue(c: char): nat {
    if '0' <= c <= '9' then c as int - '0' as int
    else if 'a' <= c <= 'f' then c as int - 'a' as int + 10
    else if 'A' <= c <= 'F' then c as int - 'A' as int + 10
    else 16
  }

  /** The longest prefix made of digits below the base. */
  function DigitPrefix(s: string, base: nat): string {
    if s == [] || DigitValue(s[0]) >= base then [] else [s[0]] + DigitPrefix(s[1..], base)
  }

  function Value(s: string, base: nat): nat {
    if s == [] then 0 else Value(s[..|s| - 1], base) * base + DigitValue(s[|s| - 1])
  }

  function ValueOfPrefix(s: string, base: nat): Option<nat> {
    var p := DigitPrefix(s, base);
    if p == [] || Value(p, base) >= ULONG_RANGE then None else Some(Value(p, base))
  }

  /** Base 16 after "0x" and a digit, else base 8 after "0", else base 10; None is an exception. */
  function ParseBase0(s: string): Option<nat> {
    if |s| >= 3 && s[0] == '0' && (s[1] == 'x' || s[1] == 'X') && DigitValue(s[2]) < 16 then ValueOfPrefix(s[2..], 16)
    else if |s| >= 1 && s[0] == '0' then ValueOfPrefix(s, 8)
    else ValueOfPrefix(s, 10)
  }

  // ---------------------------------------------------------------------------------------------
  // What is written is read back
  // ---------------------------------------------------------------------------------------------

  ghost predicate InBase(s: string, base: nat) {
    forall i :: 0 <= i < |s| ==> DigitValue(s[i]) < base
  }

  lemma DigitRoundTrip(d: nat)
    requires d < 16
    ensures DigitValue(Digit(d)) == d
  {
  }

  lemma {:induction false} DigitsValue(n: nat)
    ensures InBase(Digits(n), 16) && Value(Digits(n), 16) == n
  {
    if n < 16 {
      DigitRoundTrip(n);
      assert Value([], 16) == 0 && Digits(n)[..0] == [];
    } else {
      DigitsValue(n / 16);
      DigitRoundTrip(n % 16);
      assert Digits(n)[..|Digits(n)| - 1] == Digits(n / 16);
    }
  }

  lemma {:induction false} LeadingZeros(k: nat, s: string, base: nat)
    ensures Value(Repeat('0', k) + s, base) == Value(s, base)
    decreases |s|, k
  {
    var t := Repeat('0', k) + s;
    if s != [] {
      assert t[..|t| - 1] == Repeat('0', k) + s[..|s| - 1];
      LeadingZeros(k, s[..|s| - 1], base);
    } else if k > 0 {
      assert t[..|t| - 1] == Repeat('0', k - 1) + [];
      LeadingZeros(k - 1, [], base);
    } else {
      assert t == [];
    }
  }

  lemma {:induction false} AllDigits(s: string, base: nat)
    requires InBase(s, base)
    ensures DigitPrefix(s, base) == s
  {
    if s != [] {
      assert InBase(s[1..], base);
      AllDigits(s[1..], base);
      assert s == [s[0]] + s[1..];
    }
  }

  /** Zeros in front change neither that these are digits nor their value. */
  lemma PaddingKeepsValue(s: string, width: nat)
    requires s != [] && InBase(s, 16)
    ensures Padded(s, width) != [] && InBase(Padded(s, width), 16) && Value(Padded(s, width), 16) == Value(s, 16)
  {
    if |s| < width {
      LeadingZeros(width - |s|, s, 16);
      assert DigitValue('0') == 0;
    }
  }

  lemma PaddedValue(n: nat, digits: nat)
    ensures var p := Padded(Digits(n), digits);
            p != [] && InBase(p, 16) && Value(p, 16) == n
  {
    DigitsValue(n);
    PaddingKeepsValue(Digits(n), digits);
  }

  /** Every number written with its base is read back, whatever the width; its digits are lower case. */
  lemma HexRoundTrip(n: nat, digits: nat)
    requires n < ULONG_RANGE
    ensures ParseBase0(ToHexString(n, digits, true)) == Some(n) && HexText(ToHexString(n, digits, true))
  {
    HexTextWritten(n, digits);
    var p := Padded(Digits(n), digits);
    PaddedValue(n, digits);
    AllDigits(p, 16);
    var t := ToHexString(n, digits, true);
    assert t == "0x" + p && t[2..] == p;
  }

  // ---------------------------------------------------------------------------------------------
  // What is written, character by character
  // ---------------------------------------------------------------------------------------------

  ghost predicate LowerHex(s: string) {
    forall i :: 0 <= i < |s| ==> '0' <= s[i] <= '9' || 'a' <= s[i] <= 'f'
  }

  lemma {:induction false} DigitsAreLower(n: nat)
    ensures LowerHex(Digits(n))
  {
    if n >= 16 {
      DigitsAreLower(n / 16);
    }
  }

  /** Numbers are written in lower case, with the base in front just if asked for. */
  lemma HexIsLower(n: nat, digits: nat)
    ensures LowerHex(ToHexString(n, digits, false)) && |ToHexString(n, digits, false)| >= digits
    ensures ToHexString(n, digits, true) == ['0', 'x'] + ToHexString(n, digits, false)
  {
    DigitsAreLower(n);
    assert ToHexString(n, digits, false) == Padded(Digits(n), digits);
  }

  lemma SameDigit(a: char, b: char)
    requires '0' <= a <= '9' || 'a' <= a <= 'f'
    requires '0' <= b <= '9' || 'a' <= b <= 'f'
    requires DigitValue(a) == DigitValue(b)
    ensures a == b
  {
  }

  lemma {:induction false} SameText(s: string, t: string)
    requires LowerHex(s) && LowerHex(t) && |s| == |t| && Value(s, 16) == Value(t, 16)
    ensures s == t
  {
    if s != [] {
      var n := |s| - 1;
      assert DigitValue(s[n]) < 16 && DigitValue(t[n]) < 16;
      SameDigit(s[n], t[n]);
      SameText(s[..n], t[..n]);
      assert s == s[..n] + [s[n]] && t == t[..n] + [t[n]];
    }
  }

  /** In lower case there is only one text of a given length for a number, and that is what is written. */
  lemma HexIsTheText(n: nat, digits: nat, t: string)
    requires LowerHex(t) && |t| == |ToHexString(n, digits, false)| && Value(t, 16) == n
    ensures ToHexString(n, digits, false) == t
  {
    HexIsLower(n, digits);
    PaddedValue(n, digits);
    assert ToHexString(n, digits, false) == Padded(Digits(n), digits);
    SameText(ToHexString(n, digits, false), t);
  }

  lemma NothingToPad(n: nat, t: string)
    requires Digits(n) == t && |t| == 4
    ensures ToHexString(n, 4, false) == t
  {
    assert ToHexString(n, 4, false) == Padded(Digits(n), 4);
  }

  /** Every digit once. */
  lemma HexByExample()
    ensures ToHexString(0x1023, 4, false) == "1023" && ToHexString(0x4567, 4, false) == "4567"
    ensures ToHexString(0x89ab, 4, false) == "89ab" && ToHexString(0xcdef, 4, false) == "cdef"
  {
    assert Digits(0x10) == "10" && Digits(0x102) == "102" && Digits(0x1023) == "1023";
    assert Digits(0x45) == "45" && Digits(0x456) == "456" && Digits(0x4567) == "4567";
    assert Digits(0x89) == "89" && Digits(0x89a) == "89a" && Digits(0x89ab) == "89ab";
    assert Digits(0xcd) == "cd" && Digits(0xcde) == "cde" && Digits(0xcdef) == "cdef";
    NothingToPad(0x1023, "1023");
    NothingToPad(0x4567, "4567");
    NothingToPad(0x89ab, "89ab");
    NothingToPad(0xcdef, "cdef");
  }

  // ---------------------------------------------------------------------------------------------
  // Decimal and octal numbers are read too
  // ---------------------------------------------------------------------------------------------

  function Numeral(n: nat, base: nat): (s: string)
    requires 2 <= base <= 16
    ensures s != []
  {
    if n < base then [Digit(n)] else Numeral(n / base, base) + [Digit(n % base)]
  }

  lemma DivMod(n: nat, base: nat)
    requires base > 0
    ensures n / base * base + n % base == n
    ensures n >= base ==> n / base > 0
  {
  }

  lemma ValueSnoc(s: string, d: nat, base: nat)
    requires d < 16
    ensures Value(s + [Digit(d)], base) == Value(s, base) * base + d
  {
    DigitRoundTrip(d);
    assert (s + [Digit(d)])[..|s|] == s;
  }

  lemma {:induction false} NumeralValue(n: nat, base: nat)
    requires 2 <= base <= 16
    ensures Value(Numeral(n, base), base) == n
  {
    if n < base {
      ValueSnoc([], n, base);
      assert [] + [Digit(n)] == [Digit(n)] && Value([], base) == 0;
    } else {
      var m, d := n / base, n % base;
      DivMod(n, base);
      NumeralValue(m, base);
      ValueSnoc(Numeral(m, base), d, base);
    }
  }

  lemma {:induction false} NumeralShape(n: nat, base: nat)
    requires 2 <= base <= 16
    ensures InBase(Numeral(n, base), base)
    ensures n > 0 ==> Numeral(n, base)[0] != '0'
  {
    if n < base {
      DigitRoundTrip(n);
    } else {
      var m, d := n / base, n % base;
      DivMod(n, base);
      NumeralShape(m, base);
      ShapeSnoc(Numeral(m, base), d, base);
    }
  }

  lemma ShapeSnoc(s: string, d: nat, base: nat)
    requires s != [] && InBase(s, base) && d < base <= 16
    ensures InBase(s + [Digit(d)], base) && (s + [Digit(d)])[0] == s[0]
  {
    DigitRoundTrip(d);
  }

  /** Reading stops at the first character that is no digit. */
  lemma {:induction false} PrefixEnds(s: string, rest: string, base: nat)
    requires InBase(s, base) && (rest != [] ==> DigitValue(rest[0]) >= base)
    ensures DigitPrefix(s + rest, base) == s
  {
    if s == [] {
      assert s + rest == rest;
    } else {
      assert (s + rest)[1..] == s[1..] + rest;
      assert InBase(s[1..], base);
      PrefixEnds(s[1..], rest, base);
      assert s == [s[0]] + s[1..];
    }
  }

  /**
   Decimal numbers without leading zeros are read as what they are, whatever follows them; one that
   does not fit throws.
   */
  lemma DecimalRoundTrip(n: nat, rest: string)
    requires n > 0 && (rest != [] ==> DigitValue(rest[0]) >= 10)
    ensures ParseBase0(Numeral(n, 10) + rest) == if n < ULONG_RANGE then Some(n) else None
  {
    NumeralValue(n, 10);
    NumeralShape(n, 10);
    PrefixEnds(Numeral(n, 10), rest, 10);
    assert (Numeral(n, 10) + rest)[0] == Numeral(n, 10)[0];
  }

  /** Text that does not begin with a digit throws. */
  lemma NoDigitThrows(s: string)
    requires s != [] ==> DigitValue(s[0]) >= 10
    ensures ParseBase0(s) == None
  {
    assert DigitPrefix(s, 10) == [];
  }

  /** Upper case is read as well. */
  lemma UpperCaseIsRead()
    ensures ParseBase0("0XaB") == Some(0xab)
  {
    var s := "0XaB";
    assert s[2..] == "aB" && "aB"[1..] == "B" && "B"[1..] == [];
    assert DigitPrefix("B", 16) == "B" && DigitPrefix("aB", 16) == "aB";
    assert "aB"[..1] == "a" && "a"[..0] == [];
    assert Value("a", 16) == 10 && Value("aB", 16) == 0xab;
  }

  /** A zero in front makes the number octal. */
  lemma OctalText(s: string)
    requires InBase(s, 8) && Value(s, 8) < ULONG_RANGE
    ensures ParseBase0(['0'] + s) == Some(Value(s, 8))
  {
    var t := ['0'] + s;
    LeadingZeros(1, s, 8);
    assert Repeat('0', 1) + s == t;
    assert InBase(t, 8);
    AllDigits(t, 8);
    if s != [] {
      assert t[1] == s[0];
    }
  }

  lemma OctalRoundTrip(n: nat)
    requires n < ULONG_RANGE
    ensures ParseBase0(['0'] + Numeral(n, 8)) == Some(n)
  {
    NumeralValue(n, 8);
    NumeralShape(n, 8);
    OctalText(Numeral(n, 8));
  }

  /** Zero itself is the octal number without digits. */
  lemma ZeroIsRead()
    ensures ParseBase0("0") == Some(0)
  {
    OctalText([]);
    assert ['0'] + [] == "0";
  }

  // ---------------------------------------------------------------------------------------------
  // Addresses
  // ---------------------------------------------------------------------------------------------

  /** The attributes of an address element. */
  datatype AddressText = AddressText(domain: string, bus: string, slot: string, function_: string)

  function ToText(a: PciAddress): AddressText {
    AddressText(ToHexString(a.domain, 4, true), ToHexString(a.bus, 2, true),
                ToHexString(a.slot, 2, true), ToHexString(a.function_, 1, true))
  }

  /** The parsed numbers are cut to the width of the fields; None is an exception. */
  function FromText(t: AddressText): Option<PciAddress> {
    FromNumbers(ParseBase0(t.domain), ParseBase0(t.bus), ParseBase0(t.slot), ParseBase0(t.function_))
  }

  function FromNumbers(d: Option<nat>, b: Option<nat>, s: Option<nat>, f: Option<nat>): Option<PciAddress> {
    if d.None? || b.None? || s.None? || f.None? then None
    else Some(PciAddress(d.value % 0x1_0000, b.value % 0x100, s.value % 0x100, f.value % 0x100))
  }

  /** Four numbers that are a's make up a. */
  lemma FieldsMakeAddress(a: PciAddress)
    ensures FromNumbers(Some(a.domain), Some(a.bus), Some(a.slot), Some(a.function_)) == Some(a)
  {
  }

  /** Numbers that are too large for their field lose their upper digits. */
  lemma FieldsAreCut(a: PciAddress, x: nat, y: nat, z: nat, w: nat)
    ensures FromNumbers(Some(a.domain + 0x1_0000 * x), Some(a.bus + 0x100 * y), Some(a.slot + 0x100 * z),
                        Some(a.function_ + 0x100 * w)) == Some(a)
  {
    assert (a.domain + 0x1_0000 * x) % 0x1_0000 == a.domain;
  }

  /** Every attribute carries its own field, and the four together are read back as the address. */
  lemma AddressRoundTrip(a: PciAddress)
    ensures FromText(ToText(a)) == Some(a)
    ensures var t := ToText(a);
            && ParseBase0(t.domain) == Some(a.domain) && ParseBase0(t.bus) == Some(a.bus)
            && ParseBase0(t.slot) == Some(a.slot) && ParseBase0(t.function_) == Some(a.function_)
  {
    HexRoundTrip(a.domain, 4);
    HexRoundTrip(a.bus, 2);
    HexRoundTrip(a.slot, 2);
    HexRoundTrip(a.function_, 1);
    FieldsMakeAddress(a);
  }

  /** An id as messages carry it. */
  lemma IdRoundTrip(id: PciId)
    ensures ParseBase0(ToHexString(id.vendor, 4, true)) == Some(id.vendor)
    ensures ParseBase0(ToHexString(id.device, 4, true)) == Some(id.device)
  {
    HexRoundTrip(id.vendor, 4);
    HexRoundTrip(id.device, 4);
  }

  function ToNameFmt(a: PciAddress): string {
    "pci_" + ToHexString(a.domain, 4, false) + "_" + ToHexString(a.bus, 2, false) + "_"
    + ToHexString(a.slot, 2, false) + "_" + ToHexString(a.function_, 1, false)
  }

  function Power16(k: nat): nat {
    if k == 0 then 1 else 16 * Power16(k - 1)
  }

  lemma {:induction false} DigitsLength(n: nat, k: nat)
    requires k > 0 && n < Power16(k)
    ensures |Digits(n)| <= k
    decreases k
  {
    if n >= 16 {
      assert k > 1;
      DigitsLength(n / 16, k - 1);
    }
  }

  /** A number that fits the width fills it exactly. */
  lemma FixedWidth(n: nat, digits: nat)
    requires digits > 0 && n < Power16(digits)
    ensures |ToHexString(n, digits, false)| == digits
  {
    DigitsLength(n, digits);
    assert ToHexString(n, digits, false) == Padded(Digits(n), digits);
  }

  lemma HexInjective(m: nat, n: nat, digits: nat)
    requires ToHexString(m, digits, false) == ToHexString(n, digits, false)
    ensures m == n
  {
    PaddedValue(m, digits);
    PaddedValue(n, digits);
    assert "" + Padded(Digits(m), digits) == Padded(Digits(m), digits);
    assert "" + Padded(Digits(n), digits) == Padded(Digits(n), digits);
  }

  /** Joining with one separator each, the first three parts being of fixed width. */
  lemma PartsStandApart(p: string, d: string, b: string, s: string, f: string, t: string)
    requires t == p + d + "_" + b + "_" + s + "_" + f
    requires |p| == 4 && |d| == 4 && |b| == 2 && |s| == 2
    ensures |t| >= 15 && t[4..8] == d && t[9..11] == b && t[12..14] == s && t[15..] == f
    ensures t[..4] == p && t[8] == '_' && t[11] == '_' && t[14] == '_'
  {
  }

  /** The fields stand at fixed places in the name of a node device. */
  lemma NameFields(a: PciAddress)
    ensures var s := ToNameFmt(a);
            && |s| >= 15 && s[..4] == "pci_" && s[8] == '_' && s[11] == '_' && s[14] == '_'
            && s[4..8] == ToHexString(a.domain, 4, false) && s[9..11] == ToHexString(a.bus, 2, false)
            && s[12..14] == ToHexString(a.slot, 2, false) && s[15..] == ToHexString(a.function_, 1, false)
  {
    assert Power16(1) == 16 && Power16(2) == 0x100 && Power16(3) == 0x1000 && Power16(4) == 0x1_0000;
    FixedWidth(a.domain, 4);
    FixedWidth(a.bus, 2);
    FixedWidth(a.slot, 2);
    PartsStandApart("pci_", ToHexString(a.domain, 4, false), ToHexString(a.bus, 2, false),
                    ToHexString(a.slot, 2, false), ToHexString(a.function_, 1, false), ToNameFmt(a));
  }

  /** The name the library knows the device under: bus ten in slot zero. */
  lemma NameByExample()
    ensures ToNameFmt(PciAddress(0, 10, 0, 0)) == "pci_0000_0a_00_0"
  {
    assert ToHexString(0, 4, false) == "0000" && ToHexString(10, 2, false) == "0a";
    assert ToHexString(0, 2, false) == "00" && ToHexString(0, 1, false) == "0";
  }

  /** An address as text: the base, then lower case digits, as many as the field has. */
  lemma AddressTextShape(a: PciAddress)
    ensures var t := ToText(a);
            && |t.domain| == 6 && |t.bus| == 4 && |t.slot| == 4 && |t.function_| >= 3
            && HexText(t.domain) && HexText(t.bus) && HexText(t.slot) && HexText(t.function_)
  {
    assert Power16(1) == 16 && Power16(2) == 0x100 && Power16(3) == 0x1000 && Power16(4) == 0x1_0000;
    FixedWidth(a.domain, 4);
    FixedWidth(a.bus, 2);
    FixedWidth(a.slot, 2);
    HexTextWritten(a.domain, 4);
    HexTextWritten(a.bus, 2);
    HexTextWritten(a.slot, 2);
    HexTextWritten(a.function_, 1);
  }

  ghost predicate HexText(s: string) {
    |s| >= 2 && s[0] == '0' && s[1] == 'x' && LowerHex(s[2..])
  }

  lemma HexTextWritten(n: nat, digits: nat)
    ensures HexText(ToHexString(n, digits, true))
    ensures |ToHexString(n, digits, true)| == |ToHexString(n, digits, false)| + 2 >= digits + 2
  {
    HexIsLower(n, digits);
    assert ToHexString(n, digits, true)[2..] == ToHexString(n, digits, false);
  }

  /** Different addresses have different names. */
  lemma NameFmtInjective(a: PciAddress, b: PciAddress)
    requires ToNameFmt(a) == ToNameFmt(b)
    ensures a == b
  {
    NameFields(a);
    NameFields(b);
    HexInjective(a.domain, b.domain, 4);
    HexInjective(a.bus, b.bus, 2);
    HexInjective(a.slot, b.slot, 2);
    HexInjective(a.function_, b.function_, 1);
  }
}
