/** `convertDurationToSeconds`: an "H:M:S" string to a number of seconds. */
module Duration {
  import opened JsonValue
  import opened Text

  /**
   * `const [h, m, s] = d.split(':').map(Number); return h * 3600 + m * 60 + s`.
   * Components are read as decimal digit strings (an empty one is 0, as `Number("")` is);
   * None stands for the `NaN` that a missing or non-numeric component produces.
   * Components past the third are ignored, and none is range-checked.
   */
  function ConvertDurationToSeconds(d: string): (r: Option<int>)
    ensures r.Some? ==> r.value >= 0
  {
    var parts := Split(d, ':');
    if |parts| >= 3 && AllDigits(parts[0]) && AllDigits(parts[1]) && AllDigits(parts[2])
    then Some(DigitsValue(parts[0]) * 3600 + DigitsValue(parts[1]) * 60 + DigitsValue(parts[2]))
    else None
  }

  /** "H:M:S" with digit components is hours * 3600 + minutes * 60 + seconds, for any digit strings. */
  lemma {:induction false} ConvertDigitComponents(h: string, m: string, s: string)
    requires AllDigits(h) && AllDigits(m) && AllDigits(s)
    ensures ConvertDurationToSeconds(h + ":" + m + ":" + s) ==
            Some(DigitsValue(h) * 3600 + DigitsValue(m) * 60 + DigitsValue(s))
  {
    NoSeparatorInDigits(h, ':');
    NoSeparatorInDigits(m, ':');
    NoSeparatorInDigits(s, ':');
    SplitNone(s, ':');
    SplitCons(m, ':', s);
    SplitCons(h, ':', m + ":" + s);
    assert h + ":" + m + ":" + s == h + [':'] + (m + [':'] + s);
  }

  /** The format the client produces round-trips: rendered h, m, s convert back to h*3600 + m*60 + s. */
  lemma {:induction false} ConvertRenderedHms(h: nat, m: nat, s: nat)
    ensures ConvertDurationToSeconds(NatToString(h) + ":" + NatToString(m) + ":" + NatToString(s)) ==
            Some(h * 3600 + m * 60 + s)
  {
    ConvertDigitComponents(NatToString(h), NatToString(m), NatToString(s));
    NatToStringRoundTrip(h);
    NatToStringRoundTrip(m);
    NatToStringRoundTrip(s);
  }

  /** "01:02:03" is 3723 seconds. */
  lemma ConvertExample()
    ensures ConvertDurationToSeconds("01:02:03") == Some(3723)
  {
    assert "01" + ":" + "02" + ":" + "03" == "01:02:03";
    ConvertPadded("01" + ":" + "02" + ":" + "03");
  }

  /** The zero-padded spelling, taken apart at its separators. */
  lemma ConvertPadded(d: string)
    requires d == "01" + ":" + "02" + ":" + "03"
    ensures ConvertDurationToSeconds(d) == Some(3723)
  {
    ConvertDigitComponents("01", "02", "03");
    assert DigitsValue("01") == 1 && DigitsValue("02") == 2 && DigitsValue("03") == 3;
  }

  /** Only two components ("M:S") leave the seconds `undefined`: the result is NaN. */
  lemma {:induction false} TwoComponentsIsNaN(a: string, b: string)
    requires ':' !in a && ':' !in b
    ensures ConvertDurationToSeconds(a + ":" + b) == None
  {
    SplitNone(b, ':');
    SplitCons(a, ':', b);
    assert a + ":" + b == a + [':'] + b;
  }
}
