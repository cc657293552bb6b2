/** The sanity checks of `diag/checks.py` on a Hadoop configuration
    dictionary: the YARN scheduler's memory and vcore bounds. Each check
    either returns normally or raises ValueError; the error here says which
    test raised it. */
module Checks {
  import opened Base

  /** A key of the dictionary. The configuration reader fills it with
      string keys; `chkMem` also looks up an integer key (checks.py line 19). */
  datatype Key = StrKey(name: string) | IntKey(n: int)

  /** Setting name to its value as read from the configuration. */
  type Config = map<Key, string>

  const MemMaxName: string := "yarn.scheduler.maximum-allocation-mb"
  const MemMinName: string := "yarn.scheduler.minimum-allocation-mb"
  const VcoresMaxName: string := "yarn.scheduler.maximum-allocation-vcores"
  const VcoresMinName: string := "yarn.scheduler.minimum-allocation-vcores"
  const VcoresName: string := "yarn.nodemanager.resource.cpu-vcores"

  /** The ValueError a check raises: a missing setting, a value `int`
      rejects, one value below another, a value too small, or the minimum
      vcores above the node's vcores. */
  datatype CheckError =
    | NotFound(name: string)
    | NotAnInt(name: string)
    | Less(lesser: string, greater: string)
    | TooSmall(name: string)
    | Greater(greater: string, lesser: string)

  /** Every key is a string, as the configuration reader builds it. */
  predicate StringKeyed(d: Config) { forall k :: k in d ==> k.StrKey? }

  /** `int(dict[name])`, or None when the key is missing or `int` raises. */
  function IntAt(d: Config, name: string): Option<int>
  {
    if StrKey(name) in d then PyInt(d[StrKey(name)]) else None
  }

  /** The memory settings `chkMem` accepts, by the tests on lines 22-25. */
  predicate MemBoundsOk(d: Config)
  {
    && IntAt(d, MemMaxName).Some? && IntAt(d, MemMinName).Some?
    && IntAt(d, MemMaxName).value >= 2048
    && IntAt(d, MemMinName).value >= 128
  }

  /** The vcore settings `chkCore` accepts. */
  predicate CoreBoundsOk(d: Config)
  {
    && IntAt(d, VcoresMaxName).Some? && IntAt(d, VcoresMinName).Some? && IntAt(d, VcoresName).Some?
    && IntAt(d, VcoresMaxName).value >= IntAt(d, VcoresMinName).value
    && IntAt(d, VcoresMaxName).value >= 4
    && IntAt(d, VcoresName).value >= 4
    && IntAt(d, VcoresMinName).value <= IntAt(d, VcoresName).value
  }

  /** The test on line 19, `max < min in dict`, as Python chains it:
      `max < min and min in dict`. */
  predicate Chained(d: Config, max: int, min: int) { max < min && IntKey(min) in d }

  /** `chkMem` as written: both keys must be present, in this order; the
      values are then tested by `MemValues`. */
  function ChkMem(d: Config): (r: Option<CheckError>)
    ensures r == Some(NotFound(MemMaxName)) <==> StrKey(MemMaxName) !in d
    ensures r == Some(NotFound(MemMinName)) <==> StrKey(MemMaxName) in d && StrKey(MemMinName) !in d
    ensures r.None? ==> MemBoundsOk(d)
    ensures r.None? <==>
      MemBoundsOk(d) && !Chained(d, IntAt(d, MemMaxName).value, IntAt(d, MemMinName).value)
    ensures StringKeyed(d) ==> (r.None? <==> MemBoundsOk(d))
    ensures r == Some(Less(MemMaxName, MemMinName)) <==>
      && IntAt(d, MemMaxName).Some? && IntAt(d, MemMinName).Some?
      && Chained(d, IntAt(d, MemMaxName).value, IntAt(d, MemMinName).value)
    ensures StringKeyed(d) ==> r != Some(Less(MemMaxName, MemMinName))
    ensures r == Some(NotAnInt(MemMaxName)) <==>
      StrKey(MemMaxName) in d && StrKey(MemMinName) in d && IntAt(d, MemMaxName).None?
    ensures r == Some(NotAnInt(MemMinName)) <==>
      StrKey(MemMinName) in d && IntAt(d, MemMaxName).Some? && IntAt(d, MemMinName).None?
    ensures r == Some(TooSmall(MemMaxName)) <==>
      && IntAt(d, MemMaxName).Some? && IntAt(d, MemMinName).Some?
      && !Chained(d, IntAt(d, MemMaxName).value, IntAt(d, MemMinName).value)
      && IntAt(d, MemMaxName).value < 2048
    ensures r == Some(TooSmall(MemMinName)) <==>
      && IntAt(d, MemMaxName).Some? && IntAt(d, MemMinName).Some?
      && !Chained(d, IntAt(d, MemMaxName).value, IntAt(d, MemMinName).value)
      && IntAt(d, MemMaxName).value >= 2048 && IntAt(d, MemMinName).value < 128
  {
    if StrKey(MemMaxName) !in d then Some(NotFound(MemMaxName))
    else if StrKey(MemMinName) !in d then Some(NotFound(MemMinName))
    else MemValues(d, IntAt(d, MemMaxName), IntAt(d, MemMinName))
  }

  /** Lines 16-25 on the converted values. Line 19 reads
      `mem_max < mem_min in dict`, which Python chains into
      `mem_max < mem_min and mem_min in dict`: the integer `mem_min` must
      itself be a key of `d` for the test to fire. */
  function MemValues(d: Config, memMax: Option<int>, memMin: Option<int>): (r: Option<CheckError>)
    ensures r == Some(NotAnInt(MemMaxName)) <==> memMax.None?
    ensures r == Some(NotAnInt(MemMinName)) <==> memMax.Some? && memMin.None?
    ensures r == Some(Less(MemMaxName, MemMinName)) <==>
      memMax.Some? && memMin.Some? && Chained(d, memMax.value, memMin.value)
    ensures r == Some(TooSmall(MemMaxName)) <==>
      && memMax.Some? && memMin.Some? && !Chained(d, memMax.value, memMin.value)
      && memMax.value < 2048
    ensures r == Some(TooSmall(MemMinName)) <==>
      && memMax.Some? && memMin.Some? && !Chained(d, memMax.value, memMin.value)
      && memMax.value >= 2048 && memMin.value < 128
    ensures r.None? <==>
      && memMax.Some? && memMin.Some? && memMax.value >= 2048 && memMin.value >= 128
      && !Chained(d, memMax.value, memMin.value)
    ensures StringKeyed(d) ==> r != Some(Less(MemMaxName, MemMinName))
  {
    match memMax
    case None => Some(NotAnInt(MemMaxName))
    case Some(max) =>
      match memMin
      case None => Some(NotAnInt(MemMinName))
      case Some(min) =>
        if Chained(d, max, min) then Some(Less(MemMaxName, MemMinName))
        else if max < 2048 then Some(TooSmall(MemMaxName))
        else if min < 128 then Some(TooSmall(MemMinName))
        else None
  }

  /** `chkMem` as its error message says it was meant: the maximum below
      the minimum is rejected whatever the keys. */
  function ChkMemIntended(d: Config): (r: Option<CheckError>)
    ensures r == Some(NotFound(MemMaxName)) <==> StrKey(MemMaxName) !in d
    ensures r == Some(NotFound(MemMinName)) <==> StrKey(MemMaxName) in d && StrKey(MemMinName) !in d
    ensures r.None? <==> MemBoundsOk(d) && IntAt(d, MemMinName).value <= IntAt(d, MemMaxName).value
    ensures r == Some(Less(MemMaxName, MemMinName)) <==>
      IntAt(d, MemMaxName).Some? && IntAt(d, MemMinName).Some? &&
      IntAt(d, MemMaxName).value < IntAt(d, MemMinName).value
  {
    if StrKey(MemMaxName) !in d then Some(NotFound(MemMaxName))
    else if StrKey(MemMinName) !in d then Some(NotFound(MemMinName))
    else MemValuesIntended(IntAt(d, MemMaxName), IntAt(d, MemMinName))
  }

  /** The value tests of `ChkMemIntended`. */
  function MemValuesIntended(memMax: Option<int>, memMin: Option<int>): (r: Option<CheckError>)
    ensures r.None? <==>
      memMax.Some? && memMin.Some? && memMax.value >= 2048 && memMin.value >= 128 &&
      memMin.value <= memMax.value
    ensures r == Some(Less(MemMaxName, MemMinName)) <==>
      memMax.Some? && memMin.Some? && memMax.value < memMin.value
    ensures r == Some(TooSmall(MemMaxName)) <==>
      memMax.Some? && memMin.Some? && memMin.value <= memMax.value < 2048
    ensures r == Some(TooSmall(MemMinName)) <==>
      memMax.Some? && memMin.Some? && memMin.value <= memMax.value && memMax.value >= 2048 &&
      memMin.value < 128
  {
    match memMax
    case None => Some(NotAnInt(MemMaxName))
    case Some(max) =>
      match memMin
      case None => Some(NotAnInt(MemMinName))
      case Some(min) =>
        if max < min then Some(Less(MemMaxName, MemMinName))
        else if max < 2048 then Some(TooSmall(MemMaxName))
        else if min < 128 then Some(TooSmall(MemMinName))
        else None
  }

  /** `chkCore`: the three settings must be present, in this order; the
      values are then tested by `CoreValues`. */
  function ChkCore(d: Config): (r: Option<CheckError>)
    ensures r == Some(NotFound(VcoresMaxName)) <==> StrKey(VcoresMaxName) !in d
    ensures r == Some(NotFound(VcoresMinName)) <==>
      StrKey(VcoresMaxName) in d && StrKey(VcoresMinName) !in d
    ensures r == Some(NotFound(VcoresName)) <==>
      StrKey(VcoresMaxName) in d && StrKey(VcoresMinName) in d && StrKey(VcoresName) !in d
    ensures r.None? <==> CoreBoundsOk(d)
    ensures r == Some(NotAnInt(VcoresMaxName)) <==>
      && StrKey(VcoresMaxName) in d && StrKey(VcoresMinName) in d && StrKey(VcoresName) in d
      && IntAt(d, VcoresMaxName).None?
    ensures r == Some(NotAnInt(VcoresMinName)) <==>
      StrKey(VcoresMinName) in d && StrKey(VcoresName) in d && IntAt(d, VcoresMaxName).Some? &&
      IntAt(d, VcoresMinName).None?
    ensures r == Some(NotAnInt(VcoresName)) <==>
      StrKey(VcoresName) in d && IntAt(d, VcoresMaxName).Some? && IntAt(d, VcoresMinName).Some? &&
      IntAt(d, VcoresName).None?
    ensures r == Some(Less(VcoresMaxName, VcoresMinName)) <==>
      && IntAt(d, VcoresMaxName).Some? && IntAt(d, VcoresMinName).Some? && IntAt(d, VcoresName).Some?
      && IntAt(d, VcoresMaxName).value < IntAt(d, VcoresMinName).value
    ensures r == Some(TooSmall(VcoresMaxName)) <==>
      && IntAt(d, VcoresMaxName).Some? && IntAt(d, VcoresMinName).Some? && IntAt(d, VcoresName).Some?
      && IntAt(d, VcoresMinName).value <= IntAt(d, VcoresMaxName).value < 4
    ensures r == Some(TooSmall(VcoresName)) <==>
      && IntAt(d, VcoresMaxName).Some? && IntAt(d, VcoresMinName).Some? && IntAt(d, VcoresName).Some?
      && IntAt(d, VcoresMinName).value <= IntAt(d, VcoresMaxName).value
      && IntAt(d, VcoresMaxName).value >= 4 && IntAt(d, VcoresName).value < 4
    ensures r == Some(Greater(VcoresMinName, VcoresName)) <==>
      && IntAt(d, VcoresMaxName).Some? && IntAt(d, VcoresMinName).Some? && IntAt(d, VcoresName).Some?
      && IntAt(d, VcoresMinName).value <= IntAt(d, VcoresMaxName).value
      && IntAt(d, VcoresMaxName).value >= 4 && IntAt(d, VcoresName).value >= 4
      && IntAt(d, VcoresMinName).value > IntAt(d, VcoresName).value
  {
    if StrKey(VcoresMaxName) !in d then Some(NotFound(VcoresMaxName))
    else if StrKey(VcoresMinName) !in d then Some(NotFound(VcoresMinName))
    else if StrKey(VcoresName) !in d then Some(NotFound(VcoresName))
    else CoreValues(IntAt(d, VcoresMaxName), IntAt(d, VcoresMinName), IntAt(d, VcoresName))
  }

  /** Lines 39-52 on the converted values: four bounds, tested in order. */
  function CoreValues(vcoresMax: Option<int>, vcoresMin: Option<int>, vcores: Option<int>): (r: Option<CheckError>)
    ensures r.None? <==>
      && vcoresMax.Some? && vcoresMin.Some? && vcores.Some?
      && vcoresMax.value >= vcoresMin.value && vcoresMax.value >= 4
      && vcores.value >= 4 && vcoresMin.value <= vcores.value
    ensures r == Some(NotAnInt(VcoresMaxName)) <==> vcoresMax.None?
    ensures r == Some(NotAnInt(VcoresMinName)) <==> vcoresMax.Some? && vcoresMin.None?
    ensures r == Some(NotAnInt(VcoresName)) <==> vcoresMax.Some? && vcoresMin.Some? && vcores.None?
    ensures r == Some(Less(VcoresMaxName, VcoresMinName)) <==>
      vcoresMax.Some? && vcoresMin.Some? && vcores.Some? && vcoresMax.value < vcoresMin.value
    ensures r == Some(TooSmall(VcoresMaxName)) <==>
      && vcoresMax.Some? && vcoresMin.Some? && vcores.Some?
      && vcoresMin.value <= vcoresMax.value < 4
    ensures r == Some(TooSmall(VcoresName)) <==>
      && vcoresMax.Some? && vcoresMin.Some? && vcores.Some?
      && vcoresMin.value <= vcoresMax.value && vcoresMax.value >= 4 && vcores.value < 4
    ensures r == Some(Greater(VcoresMinName, VcoresName)) <==>
      && vcoresMax.Some? && vcoresMin.Some? && vcores.Some?
      && vcoresMin.value <= vcoresMax.value && vcoresMax.value >= 4 && vcores.value >= 4
      && vcoresMin.value > vcores.value
  {
    match vcoresMax
    case None => Some(NotAnInt(VcoresMaxName))
    case Some(max) =>
      match vcoresMin
      case None => Some(NotAnInt(VcoresMinName))
      case Some(min) =>
        match vcores
        case None => Some(NotAnInt(VcoresName))
        case Some(n) =>
          if max < min then Some(Less(VcoresMaxName, VcoresMinName))
          else if max < 4 then Some(TooSmall(VcoresMaxName))
          else if n < 4 then Some(TooSmall(VcoresName))
          else if min > n then Some(Greater(VcoresMinName, VcoresName))
          else None
  }

  /** `check`: `chkMem`, then `chkCore`; the first error found is the one
      reported. */
  function Check(d: Config): (r: Option<CheckError>)
    ensures r.None? <==>
      && MemBoundsOk(d) && !Chained(d, IntAt(d, MemMaxName).value, IntAt(d, MemMinName).value)
      && CoreBoundsOk(d)
    ensures StringKeyed(d) ==> (r.None? <==> MemBoundsOk(d) && CoreBoundsOk(d))
    ensures ChkMem(d).Some? ==> r == ChkMem(d)
    ensures ChkMem(d).None? ==> r == ChkCore(d)
  {
    if ChkMem(d).Some? then ChkMem(d) else ChkCore(d)
  }

  /** `check` with the intended memory check. */
  function CheckIntended(d: Config): (r: Option<CheckError>)
    ensures r.None? <==>
      && MemBoundsOk(d) && IntAt(d, MemMinName).value <= IntAt(d, MemMaxName).value
      && CoreBoundsOk(d)
    ensures ChkMemIntended(d).Some? ==> r == ChkMemIntended(d)
    ensures ChkMemIntended(d).None? ==> r == ChkCore(d)
  {
    if ChkMemIntended(d).Some? then ChkMemIntended(d) else ChkCore(d)
  }

  /** The two memory checks differ only where line 19's test is concerned:
      on a string-keyed configuration they agree except that the intended
      one reports a maximum below the minimum. */
  lemma ChkMemAgreement(d: Config)
    requires StringKeyed(d)
    requires IntAt(d, MemMaxName).Some? && IntAt(d, MemMinName).Some?
    requires IntAt(d, MemMinName).value <= IntAt(d, MemMaxName).value
    ensures ChkMem(d) == ChkMemIntended(d)
  {
  }

  /** Line 19 never rejects a string-keyed configuration: any maximum
      below the minimum passes `chkMem` once both clear their floors,
      where the intended check reports it. */
  lemma MemOrderGap(d: Config)
    requires StringKeyed(d)
    requires IntAt(d, MemMaxName).Some? && IntAt(d, MemMinName).Some?
    requires IntAt(d, MemMaxName).value >= 2048 && IntAt(d, MemMinName).value >= 128
    requires IntAt(d, MemMaxName).value < IntAt(d, MemMinName).value
    ensures ChkMem(d).None?
    ensures ChkMemIntended(d) == Some(Less(MemMaxName, MemMinName))
  {
  }

  /** A configuration line 19 lets through: a maximum of 4096 MB with a
      minimum of 8192 MB. */
  lemma MemOrderUnchecked(d: Config)
    requires d == map[StrKey(MemMaxName) := "4096", StrKey(MemMinName) := "8192"]
    ensures ChkMem(d).None? && ChkMemIntended(d) == Some(Less(MemMaxName, MemMinName))
  {
    assert MemMaxName[16] == 'a' && MemMinName[16] == 'i';
    assert StrKey(MemMaxName) != StrKey(MemMinName);
    assert d[StrKey(MemMaxName)] == "4096";
    assert d[StrKey(MemMinName)] == "8192";
    assert IsNumeral("4096");
    assert IsNumeral("8192");
    IntAtNumeral(d, MemMaxName, "4096");
    IntAtNumeral(d, MemMinName, "8192");
    FourDigits("4096");
    FourDigits("8192");
    MemOrderGap(d);
  }

  lemma IntAtNumeral(d: Config, name: string, s: string)
    requires StrKey(name) in d && d[StrKey(name)] == s && IsNumeral(s)
    ensures IntAt(d, name) == Some(DecimalValue(s))
  {
    PyIntOfNumeral(s);
  }

  /** The value of a four-digit numeral. */
  lemma FourDigits(s: string)
    requires |s| == 4 && AllDigits(s)
    ensures DecimalValue(s) ==
      1000 * (s[0] as int - '0' as int) + 100 * (s[1] as int - '0' as int) +
      10 * (s[2] as int - '0' as int) + (s[3] as int - '0' as int)
  {
    assert s[..3][..2] == s[..2] && s[..2][..1] == s[..1] && s[..1][..0] == [];
    assert DecimalValue(s[..1]) == s[0] as int - '0' as int;
    assert DecimalValue(s[..2]) == DecimalValue(s[..1]) * 10 + (s[1] as int - '0' as int);
    assert DecimalValue(s[..3]) == DecimalValue(s[..2]) * 10 + (s[2] as int - '0' as int);
  }
}
