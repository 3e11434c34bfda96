/** `human_size`: a byte count shown in the largest binary unit (B, KiB,
    MiB, GiB, TiB) in which it is below 1024, never beyond TiB. The
    magnitude is kept exact; its `%.2f` rendering is a parameter of the
    text form. */
module Util {
  import Text

  /** The unit names, smallest first. */
  const Units: seq<string> := ["B", "KiB", "MiB", "GiB", "TiB"]

  /** Index of the last unit, the one the conversion never goes beyond. */
  const LastUnit: nat := 4

  /** 1024^k for every unit index k: the divisor of unit k. */
  const Powers: seq<nat> := [1, 1024, 1048576, 1073741824, 1099511627776]

  function Scale(k: nat): nat
    requires k <= LastUnit
  {
    Powers[k]
  }

  /** 1024^(k+1): the sizes shown in unit k are those below this bound. */
  function Limit(k: nat): nat
    requires k < LastUnit
  {
    Powers[k + 1]
  }

  /** The table holds the powers of 1024. */
  lemma PowersOf1024(k: nat)
    requires 0 < k <= LastUnit
    ensures Scale(0) == 1 && Scale(k) == 1024 * Scale(k - 1)
  {
  }

  /** The unit chosen when the search starts at unit `k`: the first unit
      from `k` on whose bound exceeds `size`, else the last. */
  function UnitIndexFrom(size: int, k: nat): (r: nat)
    requires k <= LastUnit
    ensures k <= r <= LastUnit
    ensures r < LastUnit ==> size < Limit(r)
    ensures forall j :: k <= j < r ==> size >= Limit(j)
    decreases LastUnit - k
  {
    if k == LastUnit || size < Limit(k) then k else UnitIndexFrom(size, k + 1)
  }

  /** The unit index `human_size` selects for `size`. */
  function UnitIndex(size: int): nat {
    UnitIndexFrom(size, 0)
  }

  /** The displayed magnitude: `size` scaled down to the chosen unit. */
  function Magnitude(size: int): real {
    size as real / Scale(UnitIndex(size)) as real
  }

  /** The unit index is the least k below 4 with `size < 1024^(k+1)`, and
      TiB (4) when there is none; both directions. */
  lemma UnitIndexIsLeast(size: int, k: nat)
    ensures UnitIndex(size) == k <==>
      && k <= LastUnit
      && (k < LastUnit ==> size < Limit(k))
      && (forall j :: 0 <= j < k ==> size >= Limit(j))
  {
    var u := UnitIndex(size);
    if k < u {
      assert size >= Limit(k);
    } else if u < k && k <= LastUnit {
      assert size < Limit(u);
    }
  }

  /** Sizes below 1024, negative ones included, are shown in bytes and not
      scaled. */
  lemma SmallSizesInBytes(size: int)
    requires size < 1024
    ensures UnitIndex(size) == 0 && Units[UnitIndex(size)] == "B"
    ensures Magnitude(size) == size as real
  {
  }

  /** However large the input, the unit is one of the five names and never
      beyond TiB; from 1024^4 bytes on it is TiB. */
  lemma UnitCapped(size: int)
    ensures UnitIndex(size) < |Units|
    ensures size >= Scale(LastUnit) ==> Units[UnitIndex(size)] == "TiB"
  {
  }

  /** A larger size never selects a smaller unit. */
  lemma UnitIndexMonotone(a: int, b: int)
    requires a <= b
    ensures UnitIndex(a) <= UnitIndex(b)
  {
  }

  /** Dividing by 1024 once more is dividing by the next power, and the
      scaled value is below 1024 exactly when the size is below the bound
      of the unit. */
  lemma ScaleStep(size: int, k: nat)
    requires k < LastUnit
    ensures (size as real / Scale(k) as real) / 1024.0 == size as real / Scale(k + 1) as real
    ensures (size as real / Scale(k) as real < 1024.0) <==> size < Limit(k)
  {
    var x := size as real;
    if k == 0 {
      assert Scale(k) == 1 && Scale(k + 1) == 1024;
    } else if k == 1 {
      assert Scale(k) == 1024 && Scale(k + 1) == 1048576;
    } else if k == 2 {
      assert Scale(k) == 1048576 && Scale(k + 1) == 1073741824;
    } else {
      assert Scale(k) == 1073741824 && Scale(k + 1) == 1099511627776;
    }
  }

  /** `human_size`, with the loop over every unit but the last: the
      returned unit is the one `UnitIndex` selects and the magnitude is the
      size divided by 1024 once per unit step. */
  method HumanSize(size: int) returns (magnitude: real, unit: string)
    ensures unit == Units[UnitIndex(size)]
    ensures magnitude == Magnitude(size)
  {
    magnitude := size as real;
    var k := 0;
    while k < |Units| - 1
      invariant 0 <= k <= LastUnit
      invariant magnitude == size as real / Scale(k) as real
      invariant UnitIndexFrom(size, k) == UnitIndex(size)
    {
      ScaleStep(size, k);
      if magnitude < 1024.0 {
        return magnitude, Units[k];
      }
      magnitude := magnitude / 1024.0;
      k := k + 1;
    }
    unit := Units[LastUnit];
  }

  /** The text form: the rendered magnitude, one space, the unit name. */
  function SizeText(renderedMagnitude: string, size: int): string {
    renderedMagnitude + " " + Units[UnitIndex(size)]
  }

  lemma UnitNamesAreWords(k: nat)
    requires k <= LastUnit
    ensures |Units[k]| > 0 && Text.NoSpace(Units[k])
  {
    var u := Units[k];
    forall i | 0 <= i < |u| ensures !Text.IsSpace(u[i]) {
      assert 'A' <= u[i] <= 'z';
    }
  }

  /** A rendered magnitude without whitespace (as `%.2f` produces) and the
      unit are exactly the two words of the text. */
  lemma SizeTextWords(renderedMagnitude: string, size: int)
    requires |renderedMagnitude| > 0 && Text.NoSpace(renderedMagnitude)
    ensures Text.Split(SizeText(renderedMagnitude, size)) == [renderedMagnitude, Units[UnitIndex(size)]]
    ensures Units[UnitIndex(size)] in Units
  {
    var k := UnitIndex(size);
    UnitNamesAreWords(k);
    Text.SplitTwoWords(renderedMagnitude, Units[k]);
  }

  /** The sizes shown for 0 bytes, 1536 bytes and 1 GiB. */
  lemma HumanSizeExamples()
    ensures Units[UnitIndex(0)] == "B" && Magnitude(0) == 0.0
    ensures Units[UnitIndex(1536)] == "KiB" && Magnitude(1536) == 1.5
    ensures Units[UnitIndex(1073741824)] == "GiB" && Magnitude(1073741824) == 1.0
  {
    assert UnitIndex(1536) == 1;
    assert UnitIndex(1073741824) == 3;
  }
}
