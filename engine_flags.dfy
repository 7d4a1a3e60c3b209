/**
 * The engine-mode bitset: one process-wide 32-bit word in which each EngineMode
 * owns one bit, with add, remove, test and toggle.
 */
module Engine {

  /** EngineMode: Editor, Physics and Game, one bit each. */
  datatype EngineMode = Editor | Physics | Game
  {
    /** The mode's mask: bits 0, 1 and 2 in declaration order. */
    function Mask(): bv32
    {
      match this
      case Editor => 0x1
      case Physics => 0x2
      case Game => 0x4
    }
  }

  /** Different modes have different masks. */
  lemma MasksDistinct(a: EngineMode, b: EngineMode)
    ensures a.Mask() == b.Mask() <==> a == b
  {
  }

  /** Every mask has exactly one bit set. */
  lemma MaskIsSingleBit(mode: EngineMode)
    ensures mode.Mask() != 0 && mode.Mask() & (mode.Mask() - 1) == 0
  {
    SingleBit(mode.Mask());
  }

  /** The mode's bit is set in the word. */
  predicate HasMode(word: bv32, mode: EngineMode)
  {
    word & mode.Mask() == mode.Mask()
  }

  /** The word after AddFlag. */
  function WithMode(word: bv32, mode: EngineMode): bv32
  {
    word | mode.Mask()
  }

  /** The word after RemoveFlag. */
  function WithoutMode(word: bv32, mode: EngineMode): bv32
  {
    word & !mode.Mask()
  }

  /** Reference meaning of ToggleFlag: the mode's bit flipped, every other bit kept. */
  function Toggled(word: bv32, mode: EngineMode): bv32
  {
    word ^ mode.Mask()
  }

  /** IsEqualFlag: the two masks share a bit, which for single-bit modes means the same mode. */
  function IsEqualFlag(flag1: EngineMode, flag2: EngineMode): (r: bool)
    ensures r <==> flag1 == flag2
  {
    MasksDistinct(flag1, flag2);
    BitsShared(flag1.Mask(), flag2.Mask());
    flag1.Mask() & flag2.Mask() != 0
  }

  /** A word ANDed with a mode's mask is non-zero exactly when the mode's bit is set. */
  lemma NonZeroIsSet(word: bv32, mode: EngineMode)
    ensures word & mode.Mask() != 0 <==> HasMode(word, mode)
  {
    BitTest(word, mode.Mask());
  }

  /** `flags & flag` read as a boolean: the mode's bit is set. */
  function FlagTest(word: bv32, mode: EngineMode): (r: bool)
    ensures r <==> HasMode(word, mode)
  {
    NonZeroIsSet(word, mode);
    word & mode.Mask() != 0
  }

  /** Adding sets the mode's bit. */
  lemma AddSetsMode(word: bv32, mode: EngineMode)
    ensures HasMode(WithMode(word, mode), mode)
  {
    BitAdd(word, mode.Mask());
  }

  /** Adding leaves every other bit of the word as it was. */
  lemma AddKeepsOtherBits(word: bv32, mode: EngineMode)
    ensures WithMode(word, mode) & !mode.Mask() == word & !mode.Mask()
  {
    BitAdd(word, mode.Mask());
  }

  /** Removing clears the mode's bit. */
  lemma RemoveClearsMode(word: bv32, mode: EngineMode)
    ensures !HasMode(WithoutMode(word, mode), mode)
  {
    BitRemove(word, mode.Mask());
  }

  /** Removing leaves every other bit of the word as it was. */
  lemma RemoveKeepsOtherBits(word: bv32, mode: EngineMode)
    ensures WithoutMode(word, mode) & !mode.Mask() == word & !mode.Mask()
  {
    BitRemove(word, mode.Mask());
  }

  /** ToggleFlag's branch for a set mode: RemoveFlag's assignment flips exactly the mode's bit. */
  lemma ToggleSetIsRemove(word: bv32, mode: EngineMode)
    requires HasMode(word, mode)
    ensures Toggled(word, mode) == word & !mode.Mask()
  {
    BitXorSet(word, mode.Mask());
  }

  /** ToggleFlag's branch for a clear mode: AddFlag's assignment flips exactly the mode's bit. */
  lemma ToggleClearIsAdd(word: bv32, mode: EngineMode)
    requires !HasMode(word, mode)
    ensures Toggled(word, mode) == word | mode.Mask()
  {
    NonZeroIsSet(word, mode);
    BitXorClear(word, mode.Mask());
  }

  /** Toggling flips the mode's bit. */
  lemma ToggleFlipsMode(word: bv32, mode: EngineMode)
    ensures HasMode(Toggled(word, mode), mode) <==> !HasMode(word, mode)
  {
    BitXorFlips(word, mode.Mask());
  }

  /** Toggling leaves every other bit of the word as it was. */
  lemma ToggleKeepsOtherBits(word: bv32, mode: EngineMode)
    ensures Toggled(word, mode) & !mode.Mask() == word & !mode.Mask()
  {
  }

  lemma AddIsIdempotent(word: bv32, mode: EngineMode)
    ensures WithMode(WithMode(word, mode), mode) == WithMode(word, mode)
  {
    var m := mode.Mask();
    assert (word | m) | m == word | m;
  }

  lemma RemoveIsIdempotent(word: bv32, mode: EngineMode)
    ensures WithoutMode(WithoutMode(word, mode), mode) == WithoutMode(word, mode)
  {
  }

  lemma ToggleTwiceRestores(word: bv32, mode: EngineMode)
    ensures Toggled(Toggled(word, mode), mode) == word
  {
  }

  /** Adding one mode never changes whether another mode is set. */
  lemma AddKeepsOtherModes(word: bv32, mode: EngineMode, other: EngineMode)
    requires other != mode
    ensures HasMode(WithMode(word, mode), other) == HasMode(word, other)
  {
    MasksDistinct(mode, other);
    BitAddOther(word, mode.Mask(), other.Mask());
  }

  /** Removing one mode never changes whether another mode is set. */
  lemma RemoveKeepsOtherModes(word: bv32, mode: EngineMode, other: EngineMode)
    requires other != mode
    ensures HasMode(WithoutMode(word, mode), other) == HasMode(word, other)
  {
    MasksDistinct(mode, other);
    BitRemoveOther(word, mode.Mask(), other.Mask());
  }

  /** Toggling one mode never changes whether another mode is set. */
  lemma ToggleKeepsOtherModes(word: bv32, mode: EngineMode, other: EngineMode)
    requires other != mode
    ensures HasMode(Toggled(word, mode), other) == HasMode(word, other)
  {
    MasksDistinct(mode, other);
    BitToggleOther(word, mode.Mask(), other.Mask());
  }

  // Facts about the three single-bit words, stated on the words themselves.

  lemma SingleBit(m: bv32)
    requires m == 0x1 || m == 0x2 || m == 0x4
    ensures m != 0 && m & (m - 1) == 0
  {
    if m == 0x1 { } else if m == 0x2 { } else { }
  }

  lemma BitsShared(m: bv32, o: bv32)
    requires m == 0x1 || m == 0x2 || m == 0x4
    requires o == 0x1 || o == 0x2 || o == 0x4
    ensures m & o != 0 <==> m == o
  {
    if m == 0x1 {
      if o == 0x2 { } else { }
    } else if m == 0x2 {
      if o == 0x1 { } else { }
    } else {
      if o == 0x1 { } else { }
    }
  }

  lemma BitTest(word: bv32, m: bv32)
    requires m == 0x1 || m == 0x2 || m == 0x4
    ensures word & m != 0 <==> word & m == m
  {
    if m == 0x1 { } else if m == 0x2 { } else { }
  }

  lemma BitAdd(word: bv32, m: bv32)
    requires m == 0x1 || m == 0x2 || m == 0x4
    ensures (word | m) & m == m && (word | m) & !m == word & !m
  {
    if m == 0x1 { } else if m == 0x2 { } else { }
  }

  lemma BitRemove(word: bv32, m: bv32)
    requires m == 0x1 || m == 0x2 || m == 0x4
    ensures (word & !m) & m != m && (word & !m) & !m == word & !m
  {
    if m == 0x1 { } else if m == 0x2 { } else { }
  }

  lemma BitXorSet(word: bv32, m: bv32)
    requires m == 0x1 || m == 0x2 || m == 0x4
    requires word & m == m
    ensures word ^ m == word & !m
  {
    if m == 0x1 { } else if m == 0x2 { } else { }
  }

  lemma BitXorClear(word: bv32, m: bv32)
    requires m == 0x1 || m == 0x2 || m == 0x4
    requires word & m == 0
    ensures word ^ m == word | m
  {
    if m == 0x1 { } else if m == 0x2 { } else { }
  }

  lemma BitXorFlips(word: bv32, m: bv32)
    requires m == 0x1 || m == 0x2 || m == 0x4
    ensures (word ^ m) & m == m <==> word & m != m
  {
    if m == 0x1 { } else if m == 0x2 { } else { }
  }

  lemma BitAddOther(word: bv32, m: bv32, o: bv32)
    requires m == 0x1 || m == 0x2 || m == 0x4
    requires o == 0x1 || o == 0x2 || o == 0x4
    requires m != o
    ensures ((word | m) & o == o) == (word & o == o)
  {
    if m == 0x1 {
      if o == 0x2 { } else { }
    } else if m == 0x2 {
      if o == 0x1 { } else { }
    } else {
      if o == 0x1 { } else { }
    }
  }

  lemma BitRemoveOther(word: bv32, m: bv32, o: bv32)
    requires m == 0x1 || m == 0x2 || m == 0x4
    requires o == 0x1 || o == 0x2 || o == 0x4
    requires m != o
    ensures ((word & !m) & o == o) == (word & o == o)
  {
    if m == 0x1 {
      if o == 0x2 { } else { }
    } else if m == 0x2 {
      if o == 0x1 { } else { }
    } else {
      if o == 0x1 { } else { }
    }
  }

  lemma BitToggleOther(word: bv32, m: bv32, o: bv32)
    requires m == 0x1 || m == 0x2 || m == 0x4
    requires o == 0x1 || o == 0x2 || o == 0x4
    requires m != o
    ensures ((word ^ m) & o == o) == (word & o == o)
  {
    if m == 0x1 {
      if o == 0x2 { } else { }
    } else if m == 0x2 {
      if o == 0x1 { } else { }
    } else {
      if o == 0x1 { } else { }
    }
  }

  /** The module-level `flags` word and the static operations on it. */
  class EngineFlags {
    var flags: bv32

    constructor ()
      ensures flags == 0
    {
      flags := 0;
    }

    method AddFlag(flag: EngineMode)
      modifies this
      ensures flags == WithMode(old(flags), flag)
    {
      flags := flags | flag.Mask();
    }

    method RemoveFlag(flag: EngineMode)
      modifies this
      ensures flags == WithoutMode(old(flags), flag)
    {
      flags := flags & !flag.Mask();
    }

    /** The word ANDed with the mask, read as a boolean, is the mode's membership. */
    function IsFlagSet(flag: EngineMode): (r: bool)
      reads this
      ensures r <==> HasMode(flags, flag)
    {
      FlagTest(flags, flag)
    }

    method ToggleFlag(flag: EngineMode)
      modifies this
      ensures flags == Toggled(old(flags), flag)
    {
      if IsFlagSet(flag) {
        ToggleSetIsRemove(flags, flag);
        RemoveFlag(flag);
      } else {
        ToggleClearIsAdd(flags, flag);
        AddFlag(flag);
      }
    }
  }
}
