/** `ScalarType` ids and their registry (vllm/scalar_type.py). */
module ScalarTypes {
  import opened Prelude
  import opened Bits

  datatype NanRepr = NoNan | Ieee754 | ExtendedRange
  {
    function Value(): nat {
      match this
      case NoNan => 0
      case Ieee754 => 1
      case ExtendedRange => 2
    }
  }

  datatype ScalarType = ScalarType(exponent: int, mantissa: int, signed: bool, bias: int, finiteOnly: bool,
                                   nanRepr: NanRepr)

  const BYTE: nat := 8
  const FLAG: nat := 1
  const WORD: nat := 32

  // ----- Packing fields into one number

  datatype Field = Field(member: int, width: nat)

  function BoolToInt(b: bool): nat {
    if b then 1 else 0
  }

  /** The members of a type with their bit widths, in the order they are packed. */
  function Fields(t: ScalarType): seq<Field> {
    [Field(t.exponent, BYTE), Field(t.mantissa, BYTE), Field(BoolToInt(t.signed), FLAG), Field(t.bias, WORD),
     Field(BoolToInt(t.finiteOnly), FLAG), Field(t.nanRepr.Value(), BYTE)]
  }

  function Width(fs: seq<Field>): nat {
    if fs == [] then 0 else fs[0].width + Width(fs[1..])
  }

  /** The first field in the lowest bits. */
  function Pack(fs: seq<Field>): nat {
    if fs == [] then 0 else Mask(fs[0].member, fs[0].width) + Shl(Pack(fs[1..]), fs[0].width)
  }

  /** Shifting and masking the number apart again. */
  function Unpack(widths: seq<nat>, id: nat): seq<nat>
    decreases |widths|
  {
    if widths == [] then [] else [Mask(id, widths[0])] + Unpack(widths[1..], Shr(id, widths[0]))
  }

  function Widths(fs: seq<Field>): (ws: seq<nat>)
    ensures |ws| == |fs|
  {
    seq(|fs|, i requires 0 <= i < |fs| => fs[i].width)
  }

  function Masked(fs: seq<Field>): (ms: seq<nat>)
    ensures |ms| == |fs|
  {
    seq(|fs|, i requires 0 <= i < |fs| => Mask(fs[i].member, fs[i].width))
  }

  /** No field is lost or mixed with another: unpacking gives back every field cut to its width. */
  lemma {:induction false} UnpackUndoesPack(fs: seq<Field>)
    ensures Unpack(Widths(fs), Pack(fs)) == Masked(fs)
  {
    if fs != [] {
      UnpackUndoesPack(fs[1..]);
      MaskBound(fs[0].member, fs[0].width);
      ReadBack(Mask(fs[0].member, fs[0].width), Pack(fs[1..]), fs[0].width);
      assert Widths(fs)[1..] == Widths(fs[1..]);
    }
  }

  lemma {:induction false} PackDependsOnMasks(fs: seq<Field>, gs: seq<Field>)
    requires Widths(fs) == Widths(gs)
    ensures Pack(fs) == Pack(gs) <==> Masked(fs) == Masked(gs)
  {
    UnpackUndoesPack(fs);
    UnpackUndoesPack(gs);
    if Masked(fs) == Masked(gs) {
      SameMasksSamePack(fs, gs);
    }
  }

  lemma {:induction false} SameMasksSamePack(fs: seq<Field>, gs: seq<Field>)
    requires Widths(fs) == Widths(gs) && Masked(fs) == Masked(gs)
    ensures Pack(fs) == Pack(gs)
  {
    if |fs| > 0 {
      assert Widths(fs[1..]) == Widths(fs)[1..] && Widths(gs[1..]) == Widths(gs)[1..];
      assert Masked(fs[1..]) == Masked(fs)[1..] && Masked(gs[1..]) == Masked(gs)[1..];
      assert Widths(fs)[0] == Widths(gs)[0] && Masked(fs)[0] == Masked(gs)[0];
      SameMasksSamePack(fs[1..], gs[1..]);
    }
  }

  lemma {:induction false} PackFits(fs: seq<Field>)
    ensures Pack(fs) < Pow2(Width(fs))
  {
    if fs != [] {
      PackFits(fs[1..]);
      MaskBound(fs[0].member, fs[0].width);
      ShlBound(Mask(fs[0].member, fs[0].width), Pack(fs[1..]), Width(fs[1..]), fs[0].width);
    }
  }

  lemma {:induction false} PackAppend(fs: seq<Field>, f: Field)
    ensures Pack(fs + [f]) == Pack(fs) + Shl(Mask(f.member, f.width), Width(fs))
    ensures Width(fs + [f]) == Width(fs) + f.width
  {
    if fs == [] {
      ShlZero(f.width);
    } else {
      PackAppend(fs[1..], f);
      assert (fs + [f])[1..] == fs[1..] + [f];
      var x := Mask(f.member, f.width);
      ShlPlus(Pack(fs[1..]), Shl(x, Width(fs[1..])), fs[0].width);
      ShlTwice(x, Width(fs[1..]), fs[0].width);
    }
  }

  lemma {:induction false} ShlZero(n: nat)
    ensures Shl(0, n) == 0
  {
    if n > 0 {
      ShlZero(n - 1);
    }
  }

  /** The two variables that the inner function of `id` updates, and the fields packed so far. */
  class Packer {
    var val: nat
    var offset: nat
    ghost var done: seq<Field>

    ghost predicate Valid()
      reads this
    {
      val == Pack(done) && offset == Width(done)
    }

    constructor ()
      ensures Valid() && done == [] && offset == 0
    {
      val, offset, done := 0, 0, [];
    }

    method OrAndAdvance(member: int, width: nat)
      requires Valid()
      modifies this
      ensures Valid() && done == old(done) + [Field(member, width)] && offset == old(offset) + width
    {
      PackFits(done);
      PackAppend(done, Field(member, width));
      OrIsPlus(val, Mask(member, width), offset);
      val := Or(val, Shl(Mask(member, width), offset));
      offset := offset + width;
      done := done + [Field(member, width)];
    }
  }

  function Id(t: ScalarType): nat {
    Pack(Fields(t))
  }

  /** The id: six fields in 58 bits, so it always fits into 64. */
  method ComputeId(t: ScalarType) returns (id: nat)
    ensures id == Id(t) && id < Pow2(58)
  {
    var packer := new Packer();
    packer.OrAndAdvance(t.exponent, BYTE);
    packer.OrAndAdvance(t.mantissa, BYTE);
    packer.OrAndAdvance(BoolToInt(t.signed), FLAG);
    packer.OrAndAdvance(t.bias, WORD);
    packer.OrAndAdvance(BoolToInt(t.finiteOnly), FLAG);
    packer.OrAndAdvance(t.nanRepr.Value(), BYTE);
    assert packer.done == Fields(t);
    assert packer.offset == 58;
    PackFits(packer.done);
    id := packer.val;
  }

  /** Two types whose members agree in the bits that are kept. */
  predicate SameBits(s: ScalarType, t: ScalarType) {
    && Mask(s.exponent, BYTE) == Mask(t.exponent, BYTE) && Mask(s.mantissa, BYTE) == Mask(t.mantissa, BYTE)
    && s.signed == t.signed && Mask(s.bias, WORD) == Mask(t.bias, WORD)
    && s.finiteOnly == t.finiteOnly && s.nanRepr == t.nanRepr
  }

  predicate InRange(t: ScalarType) {
    0 <= t.exponent < 0x100 && 0 <= t.mantissa < 0x100 && -0x8000_0000 <= t.bias < 0x8000_0000
  }

  lemma {:induction false} MaskedFields(t: ScalarType)
    ensures Masked(Fields(t)) == [Mask(t.exponent, BYTE), Mask(t.mantissa, BYTE), BoolToInt(t.signed),
                                  Mask(t.bias, WORD), BoolToInt(t.finiteOnly), t.nanRepr.Value()]
    ensures Widths(Fields(t)) == [BYTE, BYTE, FLAG, WORD, FLAG, BYTE]
  {
    MaskSmall(BoolToInt(t.signed), FLAG);
    MaskSmall(BoolToInt(t.finiteOnly), FLAG);
    MaskSmall(t.nanRepr.Value(), BYTE);
  }

  /** Where the fields are, as the layout on the other side of the interface has it: 8 bits of exponent, 8 of mantissa,
      the sign, 32 bits of bias, the finite flag, and 8 bits for the representation of not-a-number. */
  lemma {:induction false} IdBits(t: ScalarType)
    ensures Mask(Id(t), 8) == Mask(t.exponent, 8) && Mask(Shr(Id(t), 8), 8) == Mask(t.mantissa, 8)
    ensures Mask(Shr(Id(t), 16), 1) == (if t.signed then 1 else 0) && Mask(Shr(Id(t), 17), 32) == Mask(t.bias, 32)
    ensures Mask(Shr(Id(t), 49), 1) == (if t.finiteOnly then 1 else 0)
    ensures Mask(Shr(Id(t), 50), 8)
            == if t.nanRepr.NoNan? then 0 else if t.nanRepr.Ieee754? then 1 else 2
  {
    MaskedFields(t);
    UnpackUndoesPack(Fields(t));
    UnpackSix(Id(t), BYTE, BYTE, FLAG, WORD, FLAG, BYTE);
  }

  lemma {:induction false} UnpackSix(id: nat, a: nat, b: nat, c: nat, d: nat, e: nat, f: nat)
    ensures Unpack([a, b, c, d, e, f], id)
            == [Mask(id, a), Mask(Shr(id, a), b), Mask(Shr(id, a + b), c), Mask(Shr(id, a + b + c), d),
                Mask(Shr(id, a + b + c + d), e), Mask(Shr(id, a + b + c + d + e), f)]
  {
    ShrTwice(id, a, b);
    ShrTwice(id, a + b, c);
    ShrTwice(id, a + b + c, d);
    ShrTwice(id, a + b + c + d, e);
    var i1, i2, i3 := Shr(id, a), Shr(id, a + b), Shr(id, a + b + c);
    var i4, i5 := Shr(id, a + b + c + d), Shr(id, a + b + c + d + e);
    assert Unpack([f], i5) == [Mask(i5, f)];
    assert [e, f][1..] == [f] && [d, e, f][1..] == [e, f] && [c, d, e, f][1..] == [d, e, f];
    assert [b, c, d, e, f][1..] == [c, d, e, f] && [a, b, c, d, e, f][1..] == [b, c, d, e, f];
    assert Unpack([e, f], i4) == [Mask(i4, e)] + Unpack([f], i5);
    assert Unpack([d, e, f], i3) == [Mask(i3, d)] + Unpack([e, f], i4);
    assert Unpack([c, d, e, f], i2) == [Mask(i2, c)] + Unpack([d, e, f], i3);
    assert Unpack([b, c, d, e, f], i1) == [Mask(i1, b)] + Unpack([c, d, e, f], i2);
  }

  /** Two types get the same id exactly when they agree in the bits that are kept. */
  lemma IdsEqualIff(s: ScalarType, t: ScalarType)
    ensures Id(s) == Id(t) <==> SameBits(s, t)
  {
    MaskedFields(s);
    MaskedFields(t);
    PackDependsOnMasks(Fields(s), Fields(t));
    var a, b := Masked(Fields(s)), Masked(Fields(t));
  }

  /** Members within their widths, the bias as a signed 32-bit number: the id determines the type. */
  lemma IdIsInjective(s: ScalarType, t: ScalarType)
    requires InRange(s) && InRange(t) && Id(s) == Id(t)
    ensures s == t
  {
    IdsEqualIff(s, t);
    Pow2Values();
    MaskIdentifies(s.exponent, t.exponent, BYTE);
    MaskIdentifies(s.mantissa, t.mantissa, BYTE);
    MaskIdentifies(s.bias, t.bias, WORD);
  }

  /** The constructors do not check the widths: a type of 256 bits shares its id with one of none. */
  lemma WideTypesCollide()
    ensures var wide, none := ScalarType(0, 256, false, 0, false, Ieee754), ScalarType(0, 0, false, 0, false, Ieee754);
            Id(wide) == Id(none) && wide != none
  {
    Pow2Values();
  }

  // ----- The registry

  /** The global id map after these types have been given their ids, in order. */
  function Registered(ts: seq<ScalarType>): map<nat, ScalarType> {
    if ts == [] then map[] else Registered(ts[..|ts| - 1])[Id(ts[|ts| - 1]) := ts[|ts| - 1]]
  }

  class Registry {
    var idMap: map<nat, ScalarType>
    ghost var history: seq<ScalarType>

    ghost predicate Valid()
      reads this
    {
      idMap == Registered(history)
    }

    constructor ()
      ensures Valid() && history == []
    {
      idMap, history := map[], [];
    }

    method Register(t: ScalarType) returns (id: nat)
      requires Valid()
      modifies this
      ensures Valid() && history == old(history) + [t] && id == Id(t)
    {
      id := ComputeId(t);
      idMap := idMap[id := t];
      history := history + [t];
      assert history[..|history| - 1] == old(history);
    }

    method FromId(id: nat) returns (r: Option<ScalarType>)
      requires Valid()
      ensures r == if id in Registered(history) then Some(Registered(history)[id]) else None
    {
      r := if id in idMap then Some(idMap[id]) else None;
    }
  }

  lemma {:induction false} RegisteredHas(ts: seq<ScalarType>, t: ScalarType)
    requires t in ts
    ensures Id(t) in Registered(ts) && Registered(ts)[Id(t)] in ts && Id(Registered(ts)[Id(t)]) == Id(t)
  {
    var last := ts[|ts| - 1];
    if Id(t) != Id(last) {
      RegisteredHas(ts[..|ts| - 1], t);
    }
  }

  /** An id leads to the type that was given it last, and to none if none was. */
  lemma {:induction false} LastRegisteredWins(ts: seq<ScalarType>, k: nat)
    requires k < |ts| && forall j :: k < j < |ts| ==> Id(ts[j]) != Id(ts[k])
    ensures Id(ts[k]) in Registered(ts) && Registered(ts)[Id(ts[k])] == ts[k]
    ensures forall id :: id in Registered(ts) ==> exists j :: 0 <= j < |ts| && Id(ts[j]) == id
  {
    OnlyRegistered(ts);
    if k < |ts| - 1 {
      LastRegisteredWins(ts[..|ts| - 1], k);
    }
  }

  lemma {:induction false} OnlyRegistered(ts: seq<ScalarType>)
    ensures forall id :: id in Registered(ts) ==> exists j :: 0 <= j < |ts| && Id(ts[j]) == id
  {
    if ts != [] {
      OnlyRegistered(ts[..|ts| - 1]);
    }
  }

  lemma {:induction false} LookupByIds(ts: seq<ScalarType>)
    ensures forall t :: t in ts ==> Id(t) in Registered(ts)
    ensures (forall t :: t in ts ==> Registered(ts)[Id(t)] == t)
            <==> forall s, t :: s in ts && t in ts && Id(s) == Id(t) ==> s == t
  {
    forall t | t in ts
      ensures Id(t) in Registered(ts) && Registered(ts)[Id(t)] in ts && Id(Registered(ts)[Id(t)]) == Id(t)
    {
      RegisteredHas(ts, t);
    }
  }

  /** Looking up a type's id gives that type back, for every registered type, exactly when no two different ones agree
      in the bits that are kept. */
  lemma {:induction false} LookupIsExactIff(ts: seq<ScalarType>)
    ensures forall t :: t in ts ==> Id(t) in Registered(ts)
    ensures (forall t :: t in ts ==> Registered(ts)[Id(t)] == t)
            <==> forall s, t :: s in ts && t in ts && SameBits(s, t) ==> s == t
  {
    LookupByIds(ts);
    ClashIff(ts);
  }

  lemma {:induction false} ClashIff(ts: seq<ScalarType>)
    ensures (forall s, t :: s in ts && t in ts && Id(s) == Id(t) ==> s == t)
            <==> forall s, t :: s in ts && t in ts && SameBits(s, t) ==> s == t
  {
    if forall s, t :: s in ts && t in ts && Id(s) == Id(t) ==> s == t {
      forall s, t | s in ts && t in ts && SameBits(s, t)
        ensures s == t
      {
        IdsEqualIff(s, t);
      }
    }
    if forall s, t :: s in ts && t in ts && SameBits(s, t) ==> s == t {
      forall s, t | s in ts && t in ts && Id(s) == Id(t)
        ensures s == t
      {
        IdsEqualIff(s, t);
      }
    }
  }
}
