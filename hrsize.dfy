/** `hrSize`: a byte count in binary units. The exponent is the integer part
    of the base-1024 logarithm; the mantissa is printed with two decimals,
    which the model keeps as the exact quotient `size / 1024^i`. */
module SizeFormat {
  import opened PyStr

  function Pow1024(i: nat): (r: nat)
    ensures r >= 1
  {
    if i == 0 then 1 else 1024 * Pow1024(i - 1)
  }

  /** `floor(log(size) / log(1024))`. */
  function Exponent(size: nat): (i: nat)
    requires size >= 1
    ensures Pow1024(i) <= size < Pow1024(i + 1)
  {
    if size < 1024 then 0
    else
      var j := Exponent(size / 1024);
      assert 1024 * (size / 1024) <= size < 1024 * (size / 1024 + 1);
      assert 1024 * Pow1024(j) <= 1024 * (size / 1024);
      assert 1024 * (size / 1024 + 1) <= 1024 * Pow1024(j + 1);
      1 + j
  }

  /** The formatted size: plain bytes, or the mantissa `size / 1024^exponent`
      with its unit. */
  datatype SizeText = Plain(text: string) | Scaled(size: nat, exponent: nat, unit: string)

  const Units: seq<string> := ["KiB", "MiB", "GiB", "TiB"]

  /** `math.log` raises `ValueError` for a size that is not positive; a size of
      1024^5 bytes or more indexes past the last unit. */
  function HrSize(size: int): Result<SizeText>
  {
    if size <= 0 then Raise(ValueError)
    else
      var i := Exponent(size);
      if i < 1 then Ok(Plain(NatToString(size) + " B"))
      else if i - 1 >= |Units| then Raise(IndexError)
      else Ok(Scaled(size, i, Units[i - 1]))
  }

  /** The exponent is the only one whose power brackets the size. */
  lemma {:induction false} ExponentUnique(size: nat, i: nat)
    requires size >= 1 && Pow1024(i) <= size < Pow1024(i + 1)
    ensures Exponent(size) == i
  {
    if i > 0 {
      assert Pow1024(i) == 1024 * Pow1024(i - 1);
      assert Pow1024(i + 1) == 1024 * Pow1024(i);
      ExponentUnique(size / 1024, i - 1);
    }
  }

  lemma {:induction false} PowMonotone(i: nat, j: nat)
    requires i <= j
    ensures Pow1024(i) <= Pow1024(j)
    decreases j
  {
    if i < j {
      PowMonotone(i, j - 1);
    }
  }

  /** Below 1 KiB the size is printed in bytes; from 1 KiB up to below
      1024 TiB the unit is the one of the exponent and the mantissa lies in
      [1, 1024); from 1024 TiB on, `units[i - 1]` fails. */
  lemma HrSizeRanges(size: int)
    requires size >= 1
    ensures size < 1024 ==> HrSize(size) == Ok(Plain(NatToString(size) + " B"))
    ensures 1024 <= size < Pow1024(5) ==>
      HrSize(size).Ok? && HrSize(size).value.Scaled?
      && var e := HrSize(size).value.exponent;
         1 <= e <= 4 && HrSize(size).value.unit == Units[e - 1]
         && Pow1024(e) <= size < Pow1024(e + 1)
         && 1 <= size / Pow1024(e) < 1024
    ensures size >= Pow1024(5) <==> HrSize(size) == Raise(IndexError)
  {
    var i := Exponent(size);
    if size < 1024 {
      ExponentUnique(size, 0);
    } else {
      if i == 0 {
        assert false;
      }
      if size < Pow1024(5) {
        if i >= 5 {
          PowMonotone(5, i);
        }
        MantissaBounds(size, i);
      } else if i < 5 {
        PowMonotone(i + 1, 5);
      }
    }
  }

  lemma MantissaBounds(size: nat, i: nat)
    requires Pow1024(i) <= size < Pow1024(i + 1)
    ensures 1 <= size / Pow1024(i) < 1024
  {
    var p := Pow1024(i);
    assert Pow1024(i + 1) == 1024 * p;
    var q := size / p;
    assert q * p <= size;
  }

  /** The boundaries: 1023 bytes, 1 KiB, 1 TiB and the first size without a
      unit. */
  lemma HrSizeSmall()
    ensures HrSize(1023) == Ok(Plain("1023 B"))
    ensures HrSize(1024) == Ok(Scaled(1024, 1, "KiB"))
  {
    assert NatToString(1) == "1";
    assert NatToString(10) == "10";
    assert NatToString(102) == "102";
    assert NatToString(1023) == "1023";
    assert NatToString(1023) + " B" == "1023 B";
    ExponentUnique(1023, 0);
    ExponentUnique(1024, 1);
  }

  lemma HrSizeLarge()
    ensures HrSize(Pow1024(4)) == Ok(Scaled(Pow1024(4), 4, "TiB"))
    ensures HrSize(Pow1024(5) - 1) == Ok(Scaled(Pow1024(5) - 1, 4, "TiB"))
    ensures HrSize(Pow1024(5)) == Raise(IndexError)
  {
    ExponentUnique(Pow1024(4), 4);
    ExponentUnique(Pow1024(5) - 1, 4);
    HrSizeRanges(Pow1024(5));
  }
}
