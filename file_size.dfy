/** `formatFileSize` of src/lib/utils.ts: pick the largest decimal unit
    (factor 1000, up to TB) the size reaches and render the scaled value
    with two decimals. Sizes are exact reals; the two-decimal rendering
    (`toFixed(2)`) is a parameter of the model. */
module FileSize {
  import opened Wrappers

  /** The unit names, smallest first. */
  const Units: seq<string> := ["bytes", "KB", "MB", "GB", "TB"]

  /** 1000 to the power `i`. */
  function Pow1000(i: nat): (r: real)
    ensures r >= 1.0
  {
    if i == 0 then 1.0 else 1000.0 * Pow1000(i - 1)
  }

  /** Reference definition of the unit chosen for `size`, by thresholds:
      bytes below 10^3, KB below 10^6, MB below 10^9, GB below 10^12, and TB
      from there on, however large. */
  function UnitIndex(size: real): (i: nat)
    ensures i < |Units|
  {
    if size < 1000.0 then 0
    else if size < 1000000.0 then 1
    else if size < 1000000000.0 then 2
    else if size < 1000000000000.0 then 3
    else 4
  }

  /** The value shown in front of the unit: scaling never moves the value
      away from zero or across it, and a size below 1000 is shown as it is. */
  function Scaled(size: real): (v: real)
    ensures 0.0 <= size ==> 0.0 <= v <= size
    ensures size < 0.0 ==> v == size
    ensures size < 1000.0 ==> v == size
  {
    var p := Pow1000(UnitIndex(size));
    assert 0.0 <= size ==> size / p <= size by {
      if 0.0 <= size { assert size == (size / p) * p; }
    }
    size / p
  }

  /** What the source's loop stops on: `i` is the first index that is the
      last unit or at which the value divided `i` times is below 1000. */
  predicate IsUnitChoice(size: real, i: nat) {
    && i < |Units|
    && (size / Pow1000(i) < 1000.0 || i == |Units| - 1)
    && forall j: nat :: j < i ==> size / Pow1000(j) >= 1000.0
  }

  /** While the index has not reached the chosen unit, the loop's guard
      holds, and once it has, it fails. */
  lemma GuardAt(size: real, i: nat)
    requires i <= UnitIndex(size)
    ensures i < UnitIndex(size) <==> size / Pow1000(i) >= 1000.0 && i < |Units| - 1
  {
    assert Pow1000(1) == 1000.0 && Pow1000(2) == 1000000.0;
    assert Pow1000(3) == 1000000000.0 && Pow1000(4) == 1000000000000.0;
  }

  /** The threshold definition and the loop's stopping rule agree in both
      directions: the unit chosen by the thresholds is a stopping point of
      the loop, and it is the only one. */
  lemma {:induction false} UnitChoiceIsUnitIndex(size: real, i: nat)
    ensures IsUnitChoice(size, i) <==> i == UnitIndex(size)
  {
    var u := UnitIndex(size);
    forall j: nat | j < u ensures size / Pow1000(j) >= 1000.0 {
      GuardAt(size, j);
    }
    GuardAt(size, u);
    if i <= u {
      GuardAt(size, i);
    }
  }

  /** `formatFileSize(size)`: "Unknown size" for `undefined`; otherwise the
      value divided by 1000 once per step up the unit list, rendered by
      `toFixed2`, a space, and the unit. */
  method FormatFileSize(size: Option<real>, toFixed2: real -> string) returns (text: string)
    ensures size.None? ==> text == "Unknown size"
    ensures size.Some? ==> text == toFixed2(Scaled(size.value)) + " " + Units[UnitIndex(size.value)]
  {
    if size.None? {
      return "Unknown size";
    }
    var i: nat := 0;
    var newSize := size.value;
    while newSize >= 1000.0 && i < |Units| - 1
      invariant i <= UnitIndex(size.value)
      invariant newSize == size.value / Pow1000(i)
    {
      GuardAt(size.value, i);
      newSize := newSize / 1000.0;
      i := i + 1;
    }
    GuardAt(size.value, i);
    text := toFixed2(newSize) + " " + Units[i];
  }

  /** On exit either the value is below 1000 or the unit is TB; and below
      TB the value has reached at least 1 (it was at least 1000 one unit
      down). */
  lemma {:induction false} ScaledBounds(size: real)
    ensures Scaled(size) < 1000.0 || Units[UnitIndex(size)] == "TB"
    ensures 0 < UnitIndex(size) ==> Scaled(size) >= 1.0
  {
    UnitChoiceIsUnitIndex(size, UnitIndex(size));
    assert Pow1000(1) == 1000.0 && Pow1000(2) == 1000000.0;
    assert Pow1000(3) == 1000000000.0 && Pow1000(4) == 1000000000000.0;
  }

  /** A size below 1000, negative ones included, stays unscaled in bytes. */
  lemma SmallSizeInBytes(size: real)
    requires size < 1000.0
    ensures Units[UnitIndex(size)] == "bytes" && Scaled(size) == size
  {
  }

  /** Sizes of a petabyte and more still show in TB. */
  lemma HugeSizeInTerabytes(size: real)
    requires size >= 1000000000000000.0
    ensures Units[UnitIndex(size)] == "TB" && Scaled(size) >= 1000.0
  {
    assert Pow1000(4) == 1000000000000.0;
  }

  /** The worked examples: 500 is 500 bytes, 1500 is 1.5 KB and 1000000 is
      1 MB (rendered "500.00 bytes", "1.50 KB" and "1.00 MB"). */
  lemma Examples()
    ensures Scaled(500.0) == 500.0 && Units[UnitIndex(500.0)] == "bytes"
    ensures Scaled(1500.0) == 1.5 && Units[UnitIndex(1500.0)] == "KB"
    ensures Scaled(1000000.0) == 1.0 && Units[UnitIndex(1000000.0)] == "MB"
  {
    assert Pow1000(2) == 1000000.0;
  }
}
