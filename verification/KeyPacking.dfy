/** Packing the placed fields of a spec key into its 64-bit words, directly or through 32-bit
    parts, and reading them back (`KeyWrite`, `AutoPart`, intj/render/context.py). */
module KeyPacking {
  import opened Bits
  import opened Optional
  import opened KeyLayout

  /** A placed field, the device's byte among them. */
  datatype Field = Field(offset: nat, width: nat)

  /** `KeyWrite`: where a field is or-ed in. */
  datatype KeyWrite = KeyWrite(word: nat, bits: nat, shift: nat)

  function IntoWord(f: Field): KeyWrite {
    KeyWrite(f.offset / 8, f.width * 8, f.offset % 8 * 8)
  }

  /** A one-byte field on the auto path; `word` is its 32-bit part. */
  function IntoPart(f: Field): KeyWrite {
    KeyWrite(f.offset / 4, 8, f.offset % 4 * 8)
  }

  /** Fields that share no byte and straddle no word. */
  ghost predicate Separate(fields: seq<Field>) {
    && (forall f :: 0 <= f < |fields| ==> fields[f].width >= 1 && fields[f].offset % 8 + fields[f].width <= 8)
    && forall f, g :: 0 <= f < |fields| && 0 <= g < |fields| && f != g ==>
         fields[f].offset + fields[f].width <= fields[g].offset
           || fields[g].offset + fields[g].width <= fields[f].offset
  }

  ghost predicate Fit(fields: seq<Field>, values: seq<nat>) {
    && |values| == |fields|
    && forall f :: 0 <= f < |fields| ==> values[f] < Pow2(fields[f].width * 8)
  }

  /** Word `w` of the key: every field in it, or-ed in. */
  function Packed(fields: seq<Field>, values: seq<nat>, w: nat): (r: nat)
    requires |values| == |fields|
  {
    if fields == [] then 0
    else
      var last := |fields| - 1;
      var before, at := Packed(fields[..last], values[..last], w), IntoWord(fields[last]);
      if at.word != w then before
      else
        OrNonNegative(before, ShiftLeft(values[last], at.shift));
        BitOr(before, ShiftLeft(values[last], at.shift))
  }

  /** Bit `i` of word `w` comes from field `f`. */
  ghost predicate Gives(fields: seq<Field>, values: seq<nat>, f: nat, w: nat, i: nat)
    requires f < |fields| == |values|
  {
    var at := IntoWord(fields[f]);
    at.word == w && i >= at.shift && Bit(values[f], i - at.shift)
  }

  ghost predicate SomeGives(fields: seq<Field>, values: seq<nat>, w: nat, i: nat)
    requires |values| == |fields|
  {
    exists f :: 0 <= f < |fields| && Gives(fields, values, f, w, i)
  }

  /** A bit of a word is set exactly when some field of that word sets it. */
  lemma {:induction false} PackedBit(fields: seq<Field>, values: seq<nat>, w: nat, i: nat)
    requires |values| == |fields|
    ensures Bit(Packed(fields, values, w), i) <==> SomeGives(fields, values, w, i)
    decreases |fields|
  {
    hide Bit;
    if fields == [] {
      BitOfZero(i);
    } else {
      var last := |fields| - 1;
      PackedBit(fields[..last], values[..last], w, i);
      assert forall f :: 0 <= f < last ==>
          (Gives(fields[..last], values[..last], f, w, i) <==> Gives(fields, values, f, w, i));
      var before, at := Packed(fields[..last], values[..last], w), IntoWord(fields[last]);
      if at.word == w {
        OrBit(before, ShiftLeft(values[last], at.shift), i);
        BitOfShiftLeft(values[last], at.shift, i);
      }
      assert Gives(fields, values, last, w, i) <==> at.word == w && i >= at.shift && Bit(values[last], i - at.shift);
    }
  }

  /** The field's bits of a word. */
  function Extract(word: nat, f: Field): int {
    Shift(word, IntoWord(f).shift) % Pow2(f.width * 8)
  }

  /** Two fields of a key that are neither one field nor in two words share no bit. */
  lemma OnlyOne(fields: seq<Field>, values: seq<nat>, f: nat, g: nat, i: nat)
    requires Separate(fields) && Fit(fields, values) && f < |fields| && g < |fields|
    requires i < fields[f].width * 8
        && Gives(fields, values, g, IntoWord(fields[f]).word, IntoWord(fields[f]).shift + i)
    ensures g == f
  {
    var at, other := IntoWord(fields[f]), IntoWord(fields[g]);
    if at.shift + i - other.shift >= fields[g].width * 8 {
      BitAbove(values[g], fields[g].width * 8, at.shift + i - other.shift);
    }
    hide Bit;
    assert fields[f].offset == 8 * at.word + fields[f].offset % 8
        && fields[g].offset == 8 * other.word + fields[g].offset % 8;
  }

  /** A field's own bits are its value's, whatever else is in the word. */
  lemma OwnBit(fields: seq<Field>, values: seq<nat>, f: nat, i: nat, w: nat, k: nat)
    requires Separate(fields) && Fit(fields, values) && f < |fields| && i < fields[f].width * 8
    requires w == IntoWord(fields[f]).word && k == IntoWord(fields[f]).shift + i
    ensures Bit(Packed(fields, values, w), k) <==> Bit(values[f], i)
  {
    hide Bit;
    PackedBit(fields, values, w, k);
    forall g | 0 <= g < |fields| && Gives(fields, values, g, w, k)
      ensures g == f
    {
      OnlyOne(fields, values, f, g, i);
    }
    assert Gives(fields, values, f, w, k) <==> Bit(values[f], i);
  }

  lemma ExtractedBit(word: nat, f: Field, i: nat)
    ensures Bit(Extract(word, f), i) <==> i < f.width * 8 && Bit(word, IntoWord(f).shift + i)
  {
    BitOfMod(Shift(word, IntoWord(f).shift), f.width * 8, i);
    BitOfShift(word, IntoWord(f).shift, i);
  }

  /** Every field reads back its value from the packed words. */
  lemma ExtractsBack(fields: seq<Field>, values: seq<nat>, f: nat)
    requires Separate(fields) && Fit(fields, values) && f < |fields|
    ensures Extract(Packed(fields, values, IntoWord(fields[f]).word), fields[f]) == values[f]
  {
    var word := Packed(fields, values, IntoWord(fields[f]).word);
    var back := Extract(word, fields[f]);
    assert back >= 0;
    hide Extract;
    hide Bit;
    hide Packed;
    forall i: nat
      ensures Bit(back, i) <==> Bit(values[f], i)
    {
      BackBit(fields, values, f, i);
    }
    SameBits(back, values[f]);
  }

  lemma BackBit(fields: seq<Field>, values: seq<nat>, f: nat, i: nat)
    requires Separate(fields) && Fit(fields, values) && f < |fields|
    ensures Bit(Extract(Packed(fields, values, IntoWord(fields[f]).word), fields[f]), i) <==> Bit(values[f], i)
  {
    hide Extract;
    hide Bit;
    hide Packed;
    var at := IntoWord(fields[f]);
    ExtractedBit(Packed(fields, values, at.word), fields[f], i);
    if i < fields[f].width * 8 {
      OwnBit(fields, values, f, i, at.word, at.shift + i);
    } else {
      BitAbove(values[f], fields[f].width * 8, i);
    }
  }

  /** Keys of one layout with different fields differ in some word. */
  lemma KeysDiffer(fields: seq<Field>, a: seq<nat>, b: seq<nat>)
    requires Separate(fields) && Fit(fields, a) && Fit(fields, b) && a != b
    ensures exists f ::
              0 <= f < |fields| && Packed(fields, a, IntoWord(fields[f]).word) != Packed(fields, b,
                IntoWord(fields[f]).word)
  {
    var f :| 0 <= f < |fields| && a[f] != b[f];
    ExtractsBack(fields, a, f);
    ExtractsBack(fields, b, f);
  }

  lemma HighBit(fields: seq<Field>, values: seq<nat>, w: nat, i: nat)
    requires Separate(fields) && Fit(fields, values) && i >= 64
    ensures !Bit(Packed(fields, values, w), i)
  {
    hide Bit;
    PackedBit(fields, values, w, i);
    forall f | 0 <= f < |fields|
      ensures !Gives(fields, values, f, w, i)
    {
      var at := IntoWord(fields[f]);
      if at.word == w {
        BitAbove(values[f], at.bits, i - at.shift);
      }
    }
  }

  /** A word holds no more than 64 bits. */
  lemma PackedFits(fields: seq<Field>, values: seq<nat>, w: nat)
    requires Separate(fields) && Fit(fields, values)
    ensures Packed(fields, values, w) < Pow2(64)
  {
    var word := Packed(fields, values, w);
    hide Packed;
    hide Bit;
    forall i: nat
      ensures Bit(word % Pow2(64), i) <==> Bit(word, i)
    {
      BitOfMod(word, 64, i);
      if i >= 64 {
        HighBit(fields, values, w, i);
      }
    }
    SameBits(word % Pow2(64), word);
  }

  // ---------------------------------------------------------------- the words as they are written

  lemma PackOne(fields: seq<Field>, values: seq<nat>, f: nat)
    requires f < |fields| == |values|
    ensures forall w: nat :: w != IntoWord(fields[f]).word ==>
        Packed(fields[..f + 1], values[..f + 1], w) == Packed(fields[..f], values[..f], w)
    ensures var at := IntoWord(fields[f]);
      Packed(fields[..f + 1], values[..f + 1], at.word)
        == BitOr(Packed(fields[..f], values[..f], at.word), ShiftLeft(values[f], at.shift))
  {
    assert fields[..f + 1][..f] == fields[..f] && values[..f + 1][..f] == values[..f];
  }

  ghost predicate WordsHold(words: seq<nat>, fields: seq<Field>, values: seq<nat>, n: nat)
    requires n <= |fields| == |values|
  {
    forall w :: 0 <= w < |words| ==> words[w] == Packed(fields[..n], values[..n], w)
  }

  lemma WordsStep(words: seq<nat>, fields: seq<Field>, values: seq<nat>, f: nat, word: nat)
    requires f < |fields| == |values| && IntoWord(fields[f]).word < |words| && WordsHold(words, fields, values, f)
    requires word == BitOr(words[IntoWord(fields[f]).word], ShiftLeft(values[f], IntoWord(fields[f]).shift))
    ensures WordsHold(words[IntoWord(fields[f]).word := word], fields, values, f + 1)
  {
    PackOne(fields, values, f);
    hide Packed;
  }

  lemma WordsStart(fields: seq<Field>, values: seq<nat>, nwords: nat)
    requires |fields| == |values|
    ensures WordsHold(seq(nwords, _ => 0), fields, values, 0)
  {
  }

  lemma WordsDone(words: seq<nat>, fields: seq<Field>, values: seq<nat>)
    requires |fields| == |values| && WordsHold(words, fields, values, |fields|)
    ensures forall w :: 0 <= w < |words| ==> words[w] == Packed(fields, values, w)
  {
    assert fields[..|fields|] == fields && values[..|values|] == values;
  }

  /** Each field or-ed into its word. */
  method PackWords(fields: seq<Field>, values: seq<nat>, nwords: nat) returns (words: seq<nat>)
    requires |values| == |fields| && forall f :: 0 <= f < |fields| ==> IntoWord(fields[f]).word < nwords
    ensures |words| == nwords && forall w :: 0 <= w < nwords ==> words[w] == Packed(fields, values, w)
  {
    hide WordsHold;
    words := seq(nwords, _ => 0);
    WordsStart(fields, values, nwords);
    for f := 0 to |fields|
      invariant |words| == nwords && WordsHold(words, fields, values, f)
    {
      var at := IntoWord(fields[f]);
      OrNonNegative(words[at.word], ShiftLeft(values[f], at.shift));
      WordsStep(words, fields, values, f, BitOr(words[at.word], ShiftLeft(values[f], at.shift)));
      words := words[at.word := BitOr(words[at.word], ShiftLeft(values[f], at.shift))];
    }
    WordsDone(words, fields, values);
  }

  // ---------------------------------------------------------------- through 32-bit parts

  /** The 32-bit part `p`: every one-byte field in it. */
  function Part(fields: seq<Field>, values: seq<nat>, p: nat): (r: nat)
    requires |values| == |fields|
  {
    if fields == [] then 0
    else
      var last := |fields| - 1;
      var before, at := Part(fields[..last], values[..last], p), IntoPart(fields[last]);
      if fields[last].width != 1 || at.word != p then before
      else
        OrNonNegative(before, ShiftLeft(values[last], at.shift));
        BitOr(before, ShiftLeft(values[last], at.shift))
  }

  ghost predicate GivesPart(fields: seq<Field>, values: seq<nat>, f: nat, p: nat, i: nat)
    requires f < |fields| == |values|
  {
    var at := IntoPart(fields[f]);
    fields[f].width == 1 && at.word == p && i >= at.shift && Bit(values[f], i - at.shift)
  }

  ghost predicate SomePart(fields: seq<Field>, values: seq<nat>, p: nat, i: nat)
    requires |values| == |fields|
  {
    exists f :: 0 <= f < |fields| && GivesPart(fields, values, f, p, i)
  }

  lemma {:induction false} PartBit(fields: seq<Field>, values: seq<nat>, p: nat, i: nat)
    requires |values| == |fields|
    ensures Bit(Part(fields, values, p), i) <==> SomePart(fields, values, p, i)
    decreases |fields|
  {
    hide Bit;
    if fields == [] {
      BitOfZero(i);
    } else {
      var last := |fields| - 1;
      PartBit(fields[..last], values[..last], p, i);
      assert forall f :: 0 <= f < last ==>
          (GivesPart(fields[..last], values[..last], f, p, i) <==> GivesPart(fields, values, f, p, i));
      var before, at := Part(fields[..last], values[..last], p), IntoPart(fields[last]);
      if fields[last].width == 1 && at.word == p {
        OrBit(before, ShiftLeft(values[last], at.shift), i);
        BitOfShiftLeft(values[last], at.shift, i);
      }
      assert GivesPart(fields, values, last, p, i) <==>
          fields[last].width == 1 && at.word == p && i >= at.shift && Bit(values[last], i - at.shift);
    }
  }

  /** Only the wider fields, in place. */
  function Wide(fields: seq<Field>, values: seq<nat>): (r: seq<nat>)
    requires |values| == |fields|
    ensures |r| == |fields| && forall f :: 0 <= f < |fields| ==> r[f] == if fields[f].width == 1 then 0 else values[f]
  {
    seq(|fields|, f requires 0 <= f < |fields| => if fields[f].width == 1 then 0 else values[f])
  }

  /** A word of the auto path: its wider fields, then its two parts. */
  function Joined(fields: seq<Field>, values: seq<nat>, w: nat): (r: nat)
    requires |values| == |fields|
  {
    var wide, low, high := Packed(fields, Wide(fields, values), w), Part(fields, values, 2 * w),
        ShiftLeft(Part(fields, values, 2 * w + 1), 32);
    OrNonNegative(wide, low);
    OrNonNegative(BitOr(wide, low), high);
    BitOr(BitOr(wide, low), high)
  }

  /** A one-byte field's place in its word is its place in its part, shifted by the part's. */
  lemma PartOfWord(f: Field)
    ensures IntoPart(f).word / 2 == IntoWord(f).word
    ensures IntoWord(f).shift == IntoPart(f).word % 2 * 32 + IntoPart(f).shift
  {
  }

  /** Some field of the word gives its bit, in place or through its part. */
  lemma AnyGives(fields: seq<Field>, values: seq<nat>, w: nat, i: nat)
    requires |values| == |fields|
    ensures SomeGives(fields, values, w, i)
       <==> SomeGives(fields, Wide(fields, values), w, i) || SomePart(fields, values, 2 * w, i)
            || (i >= 32 && SomePart(fields, values, 2 * w + 1, i - 32))
  {
    if SomeGives(fields, values, w, i) {
      var f :| 0 <= f < |fields| && Gives(fields, values, f, w, i);
      GivesEither(fields, values, f, w, i);
    }
    if SomeGives(fields, Wide(fields, values), w, i) {
      var f :| 0 <= f < |fields| && Gives(fields, Wide(fields, values), f, w, i);
      GivesEither(fields, values, f, w, i);
    }
    if SomePart(fields, values, 2 * w, i) {
      var f :| 0 <= f < |fields| && GivesPart(fields, values, f, 2 * w, i);
      GivesEither(fields, values, f, w, i);
    }
    if i >= 32 && SomePart(fields, values, 2 * w + 1, i - 32) {
      var p, k := 2 * w + 1, i - 32;
      var f :| 0 <= f < |fields| && GivesPart(fields, values, f, p, k);
      GivesEither(fields, values, f, w, i);
    }
  }

  lemma JoinedBit(fields: seq<Field>, values: seq<nat>, w: nat, i: nat)
    requires |values| == |fields|
    ensures Bit(Joined(fields, values, w), i) <==> SomeGives(fields, values, w, i)
  {
    hide Bit;
    hide Packed;
    hide Part;
    hide SomeGives;
    hide SomePart;
    var wide, low, high := Packed(fields, Wide(fields, values), w), Part(fields, values, 2 * w),
        Part(fields, values, 2 * w + 1);
    OrNonNegative(wide, low);
    OrBit(BitOr(wide, low), ShiftLeft(high, 32), i);
    OrBit(wide, low, i);
    BitOfShiftLeft(high, 32, i);
    hide BitOr;
    hide ShiftLeft;
    PackedBit(fields, Wide(fields, values), w, i);
    PartBit(fields, values, 2 * w, i);
    if i >= 32 {
      PartBit(fields, values, 2 * w + 1, i - 32);
    }
    AnyGives(fields, values, w, i);
  }

  lemma GivesEither(fields: seq<Field>, values: seq<nat>, f: nat, w: nat, i: nat)
    requires f < |fields| == |values|
    ensures Gives(fields, values, f, w, i)
       <==> Gives(fields, Wide(fields, values), f, w, i) || GivesPart(fields, values, f, 2 * w, i)
            || (i >= 32 && GivesPart(fields, values, f, 2 * w + 1, i - 32))
  {
    PartOfWord(fields[f]);
    if i >= IntoWord(fields[f]).shift {
      BitOfZero(i - IntoWord(fields[f]).shift);
    }
    hide Bit;
  }

  /** The auto path packs the same words. */
  lemma PathsAgree(fields: seq<Field>, values: seq<nat>, w: nat)
    requires |values| == |fields|
    ensures Joined(fields, values, w) == Packed(fields, values, w)
  {
    hide Joined;
    hide Packed;
    hide Bit;
    forall i: nat
      ensures Bit(Joined(fields, values, w), i) <==> Bit(Packed(fields, values, w), i)
    {
      JoinedBit(fields, values, w, i);
      PackedBit(fields, values, w, i);
    }
    SameBits(Joined(fields, values, w), Packed(fields, values, w));
  }

  /** Some one-byte field lies in part `p`: `_auto_parts` lists it. */
  predicate IsAutoPart(fields: seq<Field>, p: nat) {
    exists f :: 0 <= f < |fields| && fields[f].width == 1 && IntoPart(fields[f]).word == p
  }

  lemma {:induction false} UnlistedPart(fields: seq<Field>, values: seq<nat>, p: nat)
    requires |values| == |fields| && !IsAutoPart(fields, p)
    ensures Part(fields, values, p) == 0
    decreases |fields|
  {
    if fields != [] {
      var last := |fields| - 1;
      assert forall f :: 0 <= f < last ==> fields[..last][f] == fields[f];
      UnlistedPart(fields[..last], values[..last], p);
    }
  }

  /** A word of the auto path once the parts before `p` are or-ed in. */
  function JoinedTo(fields: seq<Field>, values: seq<nat>, w: nat, p: nat): (r: nat)
    requires |values| == |fields|
  {
    var wide, low := Packed(fields, Wide(fields, values), w), Part(fields, values, 2 * w);
    OrNonNegative(wide, low);
    if p <= 2 * w then wide else if p == 2 * w + 1 then BitOr(wide, low) else Joined(fields, values, w)
  }

  ghost predicate JoinedHold(words: seq<nat>, fields: seq<Field>, values: seq<nat>, p: nat)
    requires |fields| == |values|
  {
    forall w :: 0 <= w < |words| ==> words[w] == JoinedTo(fields, values, w, p)
  }

  lemma JoinedStep(words: seq<nat>, fields: seq<Field>, values: seq<nat>, p: nat, word: nat)
    requires |fields| == |values| && p / 2 < |words| && JoinedHold(words, fields, values, p)
    requires word == BitOr(words[p / 2], ShiftLeft(Part(fields, values, p), p % 2 * 32))
    ensures JoinedHold(words[p / 2 := word], fields, values, p + 1)
    ensures !IsAutoPart(fields, p) ==> JoinedHold(words, fields, values, p + 1)
  {
    JoinPart(fields, values, p);
    hide JoinedTo;
    if !IsAutoPart(fields, p) {
      UnlistedPart(fields, values, p);
      OrZero(words[p / 2]);
      assert word == words[p / 2];
    }
  }

  lemma JoinedDone(words: seq<nat>, fields: seq<Field>, values: seq<nat>)
    requires |fields| == |values| && JoinedHold(words, fields, values, 2 * |words|)
    ensures forall w :: 0 <= w < |words| ==> words[w] == Packed(fields, values, w)
  {
    forall w | 0 <= w < |words|
      ensures words[w] == Packed(fields, values, w)
    {
      PathsAgree(fields, values, w);
    }
  }

  /** One-byte fields through their parts, wider ones in place, then the parts into the words. */
  method PackAuto(fields: seq<Field>, values: seq<nat>, nwords: nat) returns (words: seq<nat>)
    requires |values| == |fields| && forall f :: 0 <= f < |fields| ==> IntoWord(fields[f]).word < nwords
    ensures |words| == nwords && forall w :: 0 <= w < nwords ==> words[w] == Packed(fields, values, w)
  {
    var parts: seq<nat>;
    words, parts := PackFields(fields, values, nwords);
    assert JoinedHold(words, fields, values, 0);
    hide JoinedHold;
    for p := 0 to 2 * nwords
      invariant |words| == nwords && JoinedHold(words, fields, values, p)
    {
      var listed := AnyByteField(fields, p);
      OrNonNegative(words[p / 2], ShiftLeft(parts[p], p % 2 * 32));
      JoinedStep(words, fields, values, p, BitOr(words[p / 2], ShiftLeft(parts[p], p % 2 * 32)));
      if listed {
        words := words[p / 2 := BitOr(words[p / 2], ShiftLeft(parts[p], p % 2 * 32))];
      }
    }
    JoinedDone(words, fields, values);
  }

  lemma JoinPart(fields: seq<Field>, values: seq<nat>, p: nat)
    requires |values| == |fields|
    ensures forall w: nat :: w != p / 2 ==> JoinedTo(fields, values, w, p + 1) == JoinedTo(fields, values, w, p)
    ensures JoinedTo(fields, values, p / 2, p + 1)
        == BitOr(JoinedTo(fields, values, p / 2, p), ShiftLeft(Part(fields, values, p), p % 2 * 32))
  {
    hide Packed;
    hide Part;
    hide BitOr;
    assert p == 2 * (p / 2) + p % 2;
    assert ShiftLeft(Part(fields, values, p), 0) == Part(fields, values, p);
  }

  method AnyByteField(fields: seq<Field>, p: nat) returns (r: bool)
    ensures r == IsAutoPart(fields, p)
  {
    for f := 0 to |fields|
      invariant forall g :: 0 <= g < f ==> !(fields[g].width == 1 && IntoPart(fields[g]).word == p)
    {
      if fields[f].width == 1 && IntoPart(fields[f]).word == p {
        return true;
      }
    }
    return false;
  }

  lemma WideSkips(fields: seq<Field>, values: seq<nat>, f: nat)
    requires f < |fields| == |values| && fields[f].width == 1
    ensures forall w: nat ::
        Packed(fields[..f + 1], Wide(fields, values)[..f + 1], w) == Packed(fields[..f], Wide(fields, values)[..f], w)
  {
    var wide, at := Wide(fields, values), IntoWord(fields[f]);
    PackOne(fields, wide, f);
    assert ShiftLeft(0, at.shift) == 0;
    OrZero(Packed(fields[..f], wide[..f], at.word));
  }

  lemma PartOne(fields: seq<Field>, values: seq<nat>, f: nat)
    requires f < |fields| == |values|
    ensures forall p: nat :: fields[f].width != 1 || p != IntoPart(fields[f]).word ==>
              Part(fields[..f + 1], values[..f + 1], p) == Part(fields[..f], values[..f], p)
    ensures var at := IntoPart(fields[f]);
      fields[f].width == 1 ==>
        Part(fields[..f + 1], values[..f + 1], at.word)
          == BitOr(Part(fields[..f], values[..f], at.word), ShiftLeft(values[f], at.shift))
  {
    assert fields[..f + 1][..f] == fields[..f] && values[..f + 1][..f] == values[..f];
  }

  ghost predicate PartsHold(parts: seq<nat>, fields: seq<Field>, values: seq<nat>, n: nat)
    requires n <= |fields| == |values|
  {
    forall p :: 0 <= p < |parts| ==> parts[p] == Part(fields[..n], values[..n], p)
  }

  lemma PartsStep(parts: seq<nat>, fields: seq<Field>, values: seq<nat>, f: nat, part: nat)
    requires f < |fields| == |values| && IntoPart(fields[f]).word < |parts| && PartsHold(parts, fields, values, f)
    requires part == BitOr(parts[IntoPart(fields[f]).word], ShiftLeft(values[f], IntoPart(fields[f]).shift))
    ensures fields[f].width == 1 ==> PartsHold(parts[IntoPart(fields[f]).word := part], fields, values, f + 1)
    ensures fields[f].width != 1 ==> PartsHold(parts, fields, values, f + 1)
  {
    PartOne(fields, values, f);
    hide Part;
  }

  lemma PartsStart(fields: seq<Field>, values: seq<nat>, nparts: nat)
    requires |fields| == |values|
    ensures PartsHold(seq(nparts, _ => 0), fields, values, 0)
  {
  }

  lemma PartsDone(parts: seq<nat>, fields: seq<Field>, values: seq<nat>)
    requires |fields| == |values| && PartsHold(parts, fields, values, |fields|)
    ensures forall p :: 0 <= p < |parts| ==> parts[p] == Part(fields, values, p)
  {
    assert fields[..|fields|] == fields && values[..|values|] == values;
  }

  lemma WordsSkip(words: seq<nat>, fields: seq<Field>, values: seq<nat>, f: nat)
    requires f < |fields| == |values| && fields[f].width == 1 && WordsHold(words, fields, Wide(fields, values), f)
    ensures WordsHold(words, fields, Wide(fields, values), f + 1)
  {
    WideSkips(fields, values, f);
    hide Packed;
  }

  method PackFields(fields: seq<Field>, values: seq<nat>, nwords: nat) returns (words: seq<nat>, parts: seq<nat>)
    requires |values| == |fields| && forall f :: 0 <= f < |fields| ==> IntoWord(fields[f]).word < nwords
    ensures |words| == nwords && |parts| == 2 * nwords
    ensures forall w :: 0 <= w < nwords ==> words[w] == Packed(fields, Wide(fields, values), w)
    ensures forall p :: 0 <= p < 2 * nwords ==> parts[p] == Part(fields, values, p)
  {
    hide WordsHold;
    hide PartsHold;
    words, parts := seq(nwords, _ => 0), seq(2 * nwords, _ => 0);
    ghost var wide := Wide(fields, values);
    WordsStart(fields, wide, nwords);
    PartsStart(fields, values, 2 * nwords);
    for f := 0 to |fields|
      invariant |words| == nwords && |parts| == 2 * nwords
      invariant WordsHold(words, fields, wide, f) && PartsHold(parts, fields, values, f)
    {
      PartOfWord(fields[f]);
      var part := IntoPart(fields[f]);
      OrNonNegative(parts[part.word], ShiftLeft(values[f], part.shift));
      PartsStep(parts, fields, values, f, BitOr(parts[part.word], ShiftLeft(values[f], part.shift)));
      if fields[f].width == 1 {
        WordsSkip(words, fields, values, f);
        parts := parts[part.word := BitOr(parts[part.word], ShiftLeft(values[f], part.shift))];
      } else {
        var at := IntoWord(fields[f]);
        OrNonNegative(words[at.word], ShiftLeft(values[f], at.shift));
        WordsStep(words, fields, wide, f, BitOr(words[at.word], ShiftLeft(values[f], at.shift)));
        words := words[at.word := BitOr(words[at.word], ShiftLeft(values[f], at.shift))];
      }
    }
    WordsDone(words, fields, wide);
    PartsDone(parts, fields, values);
  }

  // ---------------------------------------------------------------- a laid-out key

  /** The fields of a layout in parameter order, the device's byte last when the device is keyed. */
  function FieldsOf(widths: seq<nat>, offsets: map<nat, nat>, device: Option<nat>): (r: seq<Field>)
    requires forall i :: 0 <= i < |widths| ==> i in offsets
    ensures |r| == |widths| + if device.Some? then 1 else 0
    ensures forall i :: 0 <= i < |widths| ==> r[i] == Field(offsets[i], widths[i])
    ensures device.Some? ==> r[|widths|] == Field(device.value, 1)
  {
    seq(|widths|, i requires 0 <= i < |widths| && i in offsets => Field(offsets[i], widths[i]))
    + if device.Some? then [Field(device.value, 1)] else []
  }

  /** From the layout to the round trip: whatever fits its field reads back from the key's words,
      device and all, and the key has a word for every field. */
  lemma LayoutRoundTrip(widths: seq<nat>, offsets: map<nat, nat>, total: nat, device: Option<nat>, values: seq<nat>,
                        f: nat)
    requires LaidOut(widths, offsets, total) && (device.Some? ==> device.value == total)
    requires Fit(FieldsOf(widths, offsets, device), values) && f < |values|
    ensures var fields := FieldsOf(widths, offsets, device);
      && Extract(Packed(fields, values, IntoWord(fields[f]).word), fields[f]) == values[f]
      && IntoWord(fields[f]).word < (total + (if device.Some? then 1 else 0) + 7) / 8
  {
    var fields := FieldsOf(widths, offsets, device);
    LayoutSeparate(widths, offsets, total, device);
    hide FieldsOf;
    ExtractsBack(fields, values, f);
  }

  lemma LayoutSeparate(widths: seq<nat>, offsets: map<nat, nat>, total: nat, device: Option<nat>)
    requires LaidOut(widths, offsets, total) && (device.Some? ==> device.value == total)
    ensures Separate(FieldsOf(widths, offsets, device))
    ensures forall f :: 0 <= f < |FieldsOf(widths, offsets, device)| ==>
              IntoWord(FieldsOf(widths, offsets, device)[f]).word < (total + (if device.Some? then 1 else 0) + 7) / 8
  {
  }
}
