/**
 * A terminal key binding: a key plus a set of modifier flags. A binding is
 * stored under an integer id that packs both, and is shown to the user as
 * a label such as "⌃ ⇧ F5".
 */
module TerminalKeyMap {
  import opened Wrappers
  import opened Text
  import TerminalKey

  // ---------------------------------------------------------------------------
  // Modifiers: an option set over three flags, control (bit 0), option (bit 1)
  // and shift (bit 2)

  datatype Modifiers = Modifiers(ctrl: bool, option: bool, shift: bool)

  const NoModifiers := Modifiers(false, false, false)
  const CtrlOnly := Modifiers(true, false, false)
  const OptionOnly := Modifiers(false, true, false)
  const ShiftOnly := Modifiers(false, false, true)

  /** `Modifiers.all`, in the order labels list them. */
  const All: seq<Modifiers> := [CtrlOnly, OptionOnly, ShiftOnly]

  function RawValue(m: Modifiers): (n: nat)
    ensures n < 8
  {
    (if m.ctrl then 1 else 0) + (if m.option then 2 else 0) + (if m.shift then 4 else 0)
  }

  /** `Modifiers(rawValue:)` for a value of the three flag bits. */
  function FromRawValue(n: int): Modifiers
    requires 0 <= n < 8
  {
    Modifiers(n % 2 == 1, n / 2 % 2 == 1, n / 4 % 2 == 1)
  }

  /** A set of flags and its three-bit raw value determine each other. */
  lemma ModifiersRawRoundTrip(m: Modifiers, n: int)
    ensures FromRawValue(RawValue(m)) == m
    ensures 0 <= n < 8 ==> RawValue(FromRawValue(n)) == n
  {
  }

  /** `modifiers.contains(flag)`: every flag of `flag` is set in `m`. */
  predicate Includes(m: Modifiers, flag: Modifiers)
  {
    (flag.ctrl ==> m.ctrl) && (flag.option ==> m.option) && (flag.shift ==> m.shift)
  }

  /** The symbol of a single flag; any other set has the empty symbol. */
  function Symbol(m: Modifiers): string
  {
    if m == ShiftOnly then "\U{21E7}"
    else if m == CtrlOnly then "\U{2303}"
    else if m == OptionOnly then "\U{2325}"
    else ""
  }

  /** The symbols of the entries of `flags` that `m` includes, in order (the `compactMap`). */
  function SymbolsOf(flags: seq<Modifiers>, m: Modifiers): seq<string>
  {
    if flags == [] then []
    else (if Includes(m, flags[0]) then [Symbol(flags[0])] else []) + SymbolsOf(flags[1..], m)
  }

  /** `Modifiers.<`: comparison by raw value. */
  predicate ModifiersLess(a: Modifiers, b: Modifiers)
  {
    RawValue(a) < RawValue(b)
  }

  /** Comparison of modifier sets is a strict total order. */
  lemma ModifiersLessIsStrictTotalOrder(a: Modifiers, b: Modifiers, c: Modifiers)
    ensures !ModifiersLess(a, a)
    ensures ModifiersLess(a, b) && ModifiersLess(b, c) ==> ModifiersLess(a, c)
    ensures a != b ==> ModifiersLess(a, b) || ModifiersLess(b, a)
  {
    ModifiersRawRoundTrip(a, 0);
    ModifiersRawRoundTrip(b, 0);
  }

  // ---------------------------------------------------------------------------
  // KeyMatch

  datatype KeyMatch = KeyMatch(key: TerminalKey.Key, modifiers: Modifiers)

  /**
   * The stable id `key.rawValue << 4 | modifiers.rawValue`. The modifier raw
   * value is below 8, so the `|` adds it to the shifted key value; bit 3 is
   * always clear.
   */
  function Id(km: KeyMatch): int
  {
    TerminalKey.RawValue(km.key) * 16 + RawValue(km.modifiers)
  }

  /**
   * `KeyMatch(id:)`: the key is `Key(rawValue: id >> 4)` (an arithmetic
   * shift, so a floor division by 16) and the modifiers are `id & 0x7` (the
   * low three bits of the two's-complement value, so the remainder modulo 8).
   */
  function FromId(id: int): Option<KeyMatch>
  {
    match TerminalKey.FromRawValue(id / 16)
    case None => None
    case Some(k) => Some(KeyMatch(k, FromRawValue(id % 8)))
  }

  /** Packing a key value above a three-bit value can be undone by `>> 4` and `& 0x7`. */
  lemma PackedParts(k: nat, m: nat)
    requires m < 8
    ensures (k * 16 + m) / 16 == k && (k * 16 + m) % 8 == m
  {
    var x := k * 16 + m;
    var q, r := x / 16, x % 16;
    assert x == 16 * q + r && 0 <= r < 16;
    assert q == k;
    var q8, r8 := x / 8, x % 8;
    assert x == 8 * q8 + r8 && 0 <= r8 < 8;
    assert q8 == 2 * k;
  }

  /** Decoding an id gives back the binding it was made from. */
  lemma IdRoundTrip(km: KeyMatch)
    ensures FromId(Id(km)) == Some(km)
  {
    var k := TerminalKey.RawValue(km.key);
    var m := RawValue(km.modifiers);
    PackedParts(k, m);
    TerminalKey.RawValueRoundTrip(km.key, k);
    ModifiersRawRoundTrip(km.modifiers, m);
  }

  /**
   * Exactly the ids 0 to 543 decode, and a decoded id re-encodes as the
   * same id with bit 3 cleared: that bit is ignored by the decoder.
   */
  lemma FromIdInverse(id: int)
    ensures FromId(id).Some? <==> 0 <= id < 34 * 16
    ensures FromId(id).Some? ==> Id(FromId(id).value) == id / 16 * 16 + id % 8
  {
    var k := id / 16;
    TerminalKey.RawValueRoundTrip(TerminalKey.F1, k);
    if FromId(id).Some? {
      var km := FromId(id).value;
      TerminalKey.RawValueRoundTrip(km.key, k);
      ModifiersRawRoundTrip(km.modifiers, id % 8);
    }
  }

  /** Two distinct bindings never share an id. */
  lemma IdInjective(a: KeyMatch, b: KeyMatch)
    requires Id(a) == Id(b)
    ensures a == b
  {
    IdRoundTrip(a);
    IdRoundTrip(b);
  }

  /** `KeyMatch.<`: by key raw value, and by modifier raw value for the same key. */
  predicate Less(a: KeyMatch, b: KeyMatch)
  {
    if a.key == b.key then RawValue(a.modifiers) < RawValue(b.modifiers)
    else TerminalKey.RawValue(a.key) < TerminalKey.RawValue(b.key)
  }

  /** The order on bindings is the order on their ids. */
  lemma LessIsIdOrder(a: KeyMatch, b: KeyMatch)
    ensures Less(a, b) <==> Id(a) < Id(b)
  {
    var ka, kb := TerminalKey.RawValue(a.key), TerminalKey.RawValue(b.key);
    var ma, mb := RawValue(a.modifiers), RawValue(b.modifiers);
    assert Id(a) == ka * 16 + ma && Id(b) == kb * 16 + mb;
    if a.key != b.key {
      assert ka != kb by {
        TerminalKey.RawValueRoundTrip(a.key, kb);
      }
    }
  }

  /** Hence the order on bindings is a strict total order. */
  lemma LessIsStrictTotalOrder(a: KeyMatch, b: KeyMatch, c: KeyMatch)
    ensures !Less(a, a)
    ensures Less(a, b) && Less(b, c) ==> Less(a, c)
    ensures a != b ==> Less(a, b) || Less(b, a)
  {
    LessIsIdOrder(a, a);
    LessIsIdOrder(a, b);
    LessIsIdOrder(b, a);
    LessIsIdOrder(b, c);
    LessIsIdOrder(a, c);
    if a != b && Id(a) == Id(b) {
      IdInjective(a, b);
    }
  }

  // ---------------------------------------------------------------------------
  // Labels

  /** The label: the symbols of the set flags, then the key's label, separated by spaces. */
  function Label(km: KeyMatch): string
  {
    if km.modifiers != NoModifiers then
      Join(SymbolsOf(All, km.modifiers), " ") + " " + TerminalKey.Label(km.key)
    else
      TerminalKey.Label(km.key)
  }

  /** The flag a leading symbol stands for. */
  function FlagOf(c: char): Option<Modifiers>
  {
    if c == '\U{2303}' then Some(CtrlOnly)
    else if c == '\U{2325}' then Some(OptionOnly)
    else if c == '\U{21E7}' then Some(ShiftOnly)
    else None
  }

  function Union(a: Modifiers, b: Modifiers): Modifiers
  {
    Modifiers(a.ctrl || b.ctrl, a.option || b.option, a.shift || b.shift)
  }

  /** Collects the leading "symbol space" pairs of a label; returns the flags and the rest. */
  function ReadModifiers(s: string): (Modifiers, string)
    decreases |s|
  {
    if |s| >= 2 && s[1] == ' ' && FlagOf(s[0]).Some? then
      var (m, rest) := ReadModifiers(s[2..]);
      (Union(FlagOf(s[0]).value, m), rest)
    else
      (NoModifiers, s)
  }

  /** Reads a binding back from its label. */
  function ParseLabel(s: string): Option<KeyMatch>
  {
    var (m, rest) := ReadModifiers(s);
    match TerminalKey.FromLabel(rest)
    case None => None
    case Some(k) => Some(KeyMatch(k, m))
  }

  /** The symbol pairs a set of modifiers contributes in front of the key label. */
  function Prefix(m: Modifiers): string
  {
    (if m.ctrl then ['\U{2303}', ' '] else [])
    + (if m.option then ['\U{2325}', ' '] else [])
    + (if m.shift then ['\U{21E7}', ' '] else [])
  }

  lemma SymbolsOfAll(m: Modifiers)
    ensures SymbolsOf(All, m)
         == (if m.ctrl then ["\U{2303}"] else [])
          + (if m.option then ["\U{2325}"] else [])
          + (if m.shift then ["\U{21E7}"] else [])
  {
    var c := if m.ctrl then ["\U{2303}"] else [];
    var o := if m.option then ["\U{2325}"] else [];
    var sh := if m.shift then ["\U{21E7}"] else [];
    assert SymbolsOf([ShiftOnly], m) == sh by {
      assert [ShiftOnly][1..] == [];
    }
    assert SymbolsOf([OptionOnly, ShiftOnly], m) == o + sh by {
      assert [OptionOnly, ShiftOnly][1..] == [ShiftOnly];
    }
    assert SymbolsOf(All, m) == c + (o + sh) by {
      assert All[1..] == [OptionOnly, ShiftOnly];
    }
    assert c + (o + sh) == c + o + sh;
  }

  lemma LabelIsPrefixed(km: KeyMatch)
    ensures Label(km) == Prefix(km.modifiers) + TerminalKey.Label(km.key)
  {
    var m := km.modifiers;
    var key := TerminalKey.Label(km.key);
    SymbolsOfAll(m);
    if m != NoModifiers {
      var syms := SymbolsOf(All, m);
      assert Join(syms, " ") + " " == Prefix(m) by {
        if |syms| == 1 {
          assert Join(syms, " ") == syms[0];
        } else if |syms| == 2 {
          assert syms[1..] == [syms[1]];
          assert Join(syms, " ") == syms[0] + " " + syms[1];
        } else {
          assert syms[1..] == [syms[1], syms[2]];
          assert syms[1..][1..] == [syms[2]];
          assert Join(syms[1..], " ") == syms[1] + " " + syms[2];
          assert Join(syms, " ") == syms[0] + " " + (syms[1] + " " + syms[2]);
        }
      }
    }
  }

  lemma ReadPair(present: bool, c: char, rest: string)
    requires FlagOf(c).Some?
    ensures var r := ReadModifiers(rest);
      ReadModifiers((if present then [c, ' '] else []) + rest)
      == (if present then Union(FlagOf(c).value, r.0) else r.0, r.1)
  {
    if present {
      assert ([c, ' '] + rest)[2..] == rest;
    } else {
      assert [] + rest == rest;
    }
  }

  /** Reading the symbol pairs back off a prefixed key label recovers the flags. */
  lemma ReadPrefix(m: Modifiers, key: string)
    requires |key| >= 2 && FlagOf(key[0]).None?
    ensures ReadModifiers(Prefix(m) + key) == (m, key)
  {
    var a := if m.ctrl then ['\U{2303}', ' '] else [];
    var b := if m.option then ['\U{2325}', ' '] else [];
    var c := if m.shift then ['\U{21E7}', ' '] else [];
    assert Prefix(m) + key == a + (b + (c + key));
    assert ReadModifiers(key) == (NoModifiers, key);
    assert ReadModifiers(c + key) == (Modifiers(false, false, m.shift), key) by {
      ReadPair(m.shift, '\U{21E7}', key);
    }
    assert ReadModifiers(b + (c + key)) == (Modifiers(false, m.option, m.shift), key) by {
      ReadPair(m.option, '\U{2325}', c + key);
    }
    assert ReadModifiers(a + (b + (c + key))) == (m, key) by {
      ReadPair(m.ctrl, '\U{2303}', b + (c + key));
    }
  }

  /** The label determines the binding, so no two bindings share a label. */
  lemma LabelRoundTrip(km: KeyMatch)
    ensures ParseLabel(Label(km)) == Some(km)
  {
    var key := TerminalKey.Label(km.key);
    TerminalKey.LabelHead(km.key);
    TerminalKey.LabelRoundTrip(km.key);
    LabelIsPrefixed(km);
    ReadPrefix(km.modifiers, key);
  }

  lemma LabelInjective(a: KeyMatch, b: KeyMatch)
    requires Label(a) == Label(b)
    ensures a == b
  {
    LabelRoundTrip(a);
    LabelRoundTrip(b);
  }

  /** A binding with control and shift on F5. */
  lemma LabelExample()
    ensures Label(KeyMatch(TerminalKey.F5, Modifiers(true, false, true))) == "\U{2303} \U{21E7} F5"
    ensures Id(KeyMatch(TerminalKey.F5, Modifiers(true, false, true))) == 69
  {
    LabelIsPrefixed(KeyMatch(TerminalKey.F5, Modifiers(true, false, true)));
  }
}
