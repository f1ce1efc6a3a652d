/** The port validation of the extension's options page (options.js). */
module Options {
  import opened Wrappers
  import opened JsText

  const DefaultPort := 18792

  predicate IsPort(n: int) {
    1 <= n <= 65535
  }

  /**
   * `clampPort(value)`, where `value` is given as the text `String(value || '')`: the
   * `parseInt` reading of the text when that is a valid TCP port, otherwise the default port.
   */
  function ClampPort(value: string): (port: int)
    ensures IsPort(port)
    ensures ParseInt(value).None? ==> port == DefaultPort
    ensures ParseInt(value).Some? && IsPort(ParseInt(value).value) ==> port == ParseInt(value).value
    ensures ParseInt(value).Some? && !IsPort(ParseInt(value).value) ==> port == DefaultPort
  {
    match ParseInt(value)
    case None => DefaultPort
    case Some(n) => if n <= 0 || n > 65535 then DefaultPort else n
  }

  /** A valid port written out as decimal text clamps to itself. */
  lemma ClampPortOfPortText(p: int)
    requires IsPort(p)
    ensures ClampPort(IntToDecimal(p)) == p
  {
    ParseIntOfIntToDecimal(p);
  }

  /**
   * `save` stores `clampPort(input)` and shows `String(port)` in the field; clamping that text
   * again gives the same port, so saving twice stores the same value.
   */
  lemma ClampPortIdempotent(value: string)
    ensures ClampPort(IntToDecimal(ClampPort(value))) == ClampPort(value)
  {
    ClampPortOfPortText(ClampPort(value));
  }

  /** Worked cases: empty and non-numeric text give the default port. */
  lemma ClampPortRejectsNonNumeric()
    ensures ClampPort("") == DefaultPort
    ensures ClampPort("abc") == DefaultPort
    ensures ClampPort("-") == DefaultPort
  {
    var abc, minus := "abc", "-";
    assert ParseInt("") == None by { assert TrimStart("") == ""; }
    assert ParseInt(abc) == None by {
      assert !IsJsSpace(abc[0]) && !IsDigit(abc[0]);
      assert TrimStart(abc) == abc;
    }
    assert ParseInt(minus) == None by {
      assert !IsJsSpace(minus[0]);
      assert TrimStart(minus) == minus && minus[1..] == [];
    }
  }

  /** Worked case of the `parseInt` prefix rule: trailing junk is ignored. */
  lemma ClampPortIgnoresTrailingText()
    ensures ClampPort("8080x") == 8080
  {
    assert DecimalValue("8080") == 8080 by {
      assert "8"[..0] == "" && DecimalValue("8") == 8;
      assert "80"[..1] == "8" && DecimalValue("80") == 80;
      assert "808"[..2] == "80" && DecimalValue("808") == 808;
      assert "8080"[..3] == "808";
    }
    ParseIntOfDigitsThen("8080", "x");
    assert "8080" + "x" == "8080x";
  }

  /** Worked case: zero gives the default port. */
  lemma ClampPortRejectsZero()
    ensures ClampPort("0") == DefaultPort
  {
    ParseIntOfDigitsThen("0", "");
    assert "0" + "" == "0";
  }

  /** Worked case: a negative value gives the default port. */
  lemma ClampPortRejectsNegative()
    ensures ClampPort("-1") == DefaultPort
  {
    var one := "1";
    assert ReadDigits(one) == Some(1) by {
      DigitPrefixLengthOfDigitsThen(one, "");
      assert one + "" == one;
      assert one[..1] == one;
    }
    ParseIntReadsMinus(one);
    assert "-" + one == "-1";
  }

  /** Worked case: a value above 65535 gives the default port. */
  lemma ClampPortRejectsTooLarge()
    ensures ClampPort("65536") == DefaultPort
  {
    assert DecimalValue("65536") == 65536 by {
      assert "6"[..0] == "" && DecimalValue("6") == 6;
      assert "65"[..1] == "6" && DecimalValue("65") == 65;
      assert "655"[..2] == "65" && DecimalValue("655") == 655;
      assert "6553"[..3] == "655" && DecimalValue("6553") == 6553;
      assert "65536"[..4] == "6553";
    }
    ParseIntOfDigitsThen("65536", "");
    assert "65536" + "" == "65536";
  }
}
