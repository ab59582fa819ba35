/**
 * `IntegerIndex` (hml/indices/integer.py): an index written as a decimal numeral.
 * The class is type-checked, so a non-integer value is rejected with TypeError.
 */
module IntegerIndices {
  import opened Wrappers
  import opened Strings
  import opened Configs

  datatype IntegerIndex = IntegerIndex(value: int) {
    /** `name`: the value printed as `str(value)`. */
    function Name(): (s: string)
      ensures value >= 0 ==> |s| > 0 && AllDigits(s)
    {
      IntToString(value)
    }

    function Config(): (c: Configs.Config)
      ensures c.Keys == {"value"}
    {
      map["value" := Int(value)]
    }
  }

  /** The constructor's default value. */
  function Default(): (x: IntegerIndex)
    ensures x.value == 0
  {
    IntegerIndex(0)
  }

  /** `from_name`: the whole name must be decimal digits (`re.fullmatch(r"\d+", name)`). */
  function FromName(name: string): (r: Result<IntegerIndex>)
    ensures r.Ok? <==> |name| > 0 && AllDigits(name)
    ensures r.Err? ==> r.error == ValueError
  {
    if |name| > 0 && AllDigits(name) then Ok(IntegerIndex(DigitsValue(name)))
    else Err(ValueError)
  }

  /** `from_config`: reads `config["value"]`. */
  function FromConfig(c: Configs.Config): (r: Result<IntegerIndex>)
    ensures "value" !in c ==> r == Err(KeyError)
    ensures r.Ok? <==> "value" in c && c["value"].Int?
  {
    var v :- LookupInt(c, "value");
    Ok(IntegerIndex(v))
  }

  /** The value read from a name is what Python's `int()` gives for it. */
  lemma FromNameIsInt(name: string)
    requires FromName(name).Ok?
    ensures PyInt(name) == Some(FromName(name).value.value)
  {
    PyIntOfDigits(name);
  }

  /** Printing an index and reading it back gives the same index, for every non-negative value. */
  lemma FromNameOfName(v: int)
    requires v >= 0
    ensures FromName(IntegerIndex(v).Name()) == Ok(IntegerIndex(v))
  {
    ValueOfNatToString(v);
  }

  /** Reading a name and printing it back restores the name exactly when it has no leading zero. */
  lemma NameOfFromName(name: string)
    requires FromName(name).Ok?
    ensures FromName(name).value.Name() == name <==> Canonical(name)
  {
    var n := DigitsValue(name);
    if Canonical(name) {
      NatToStringOfValue(name);
    }
    if NatToString(n) == name {
      assert Canonical(NatToString(n));
    }
  }

  /** `007` reads as 7 and prints back as `7`. */
  lemma LeadingZerosNormalise()
    ensures FromName("007") == Ok(IntegerIndex(7))
    ensures FromName("007").value.Name() == "7"
  {
    assert DigitsValue("007") == 7 by {
      assert "007"[..2] == "00";
      assert "00"[..1] == "0";
      assert ""[..0] == "";
      assert "0"[..0] == "";
    }
  }

  lemma FromConfigOfConfig(x: IntegerIndex)
    ensures FromConfig(x.Config()) == Ok(x)
  {
  }
}
