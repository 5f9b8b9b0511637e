// WorkflowRuntimeParameters: reading workflow parameters from a Hadoop
// configuration, where a blank value or the "$UNDEFINED$" sentinel means
// that the parameter is not set.

module RuntimeParameters {
  import opened Wrappers
  import opened JavaStrings

  /** A Hadoop configuration: the names that are set and their values. */
  type Configuration = map<string, string>

  const UndefinedNonemptyValue: string := "$UNDEFINED$"

  /** The value stored under name, or null when there is none. */
  function ConfigGet(name: string, conf: Configuration): Option<string>
  {
    if name in conf then Some(conf[name]) else None
  }

  /** Whether a raw value counts as set. */
  predicate IsDefined(value: Option<string>)
  {
    !IsBlankOrNull(value) && value.value != UndefinedNonemptyValue
  }

  /** getParamValue: the stored value when it is set, otherwise null. */
  function GetParamValue(name: string, conf: Configuration): (r: Option<string>)
    ensures r.Some? <==> name in conf && !IsBlank(conf[name]) && conf[name] != UndefinedNonemptyValue
    ensures r.Some? ==> r.value == conf[name]
  {
    var value := ConfigGet(name, conf);
    if IsDefined(value) then value else None
  }

  /** getIntegerParamValue: null when the parameter is not set, otherwise
      the parsed integer; text that is not an int is a number-format error. */
  function GetIntegerParamValue(name: string, conf: Configuration): (r: Result<Option<int>>)
    ensures GetParamValue(name, conf).None? ==> r == Success(None)
    ensures GetParamValue(name, conf).Some? ==>
              (ParseInt(conf[name]).Failure? ==> r == Failure(NumberFormat))
              && (ParseInt(conf[name]).Success? ==> r == Success(Some(ParseInt(conf[name]).value)))
  {
    var value := GetParamValue(name, conf);
    if value.None? then Success(None)
    else
      var n :- ParseInt(value.value);
      Success(Some(n))
  }

  /** getParamValue with a fallback: the fallback parameter is read, by the
      same rules, only when the primary one is not set. */
  function GetParamValueWithFallback(name: string, fallbackName: string, conf: Configuration): (r: Option<string>)
    ensures GetParamValue(name, conf).Some? ==> r == GetParamValue(name, conf)
    ensures GetParamValue(name, conf).None? ==> r == GetParamValue(fallbackName, conf)
  {
    var candidate := GetParamValue(name, conf);
    if candidate.Some? then candidate else GetParamValue(fallbackName, conf)
  }

  /** getParamValue over a parameter map: the mapped value whenever the name
      is present, blank or undefined as it may be; the default otherwise. */
  function GetParamValueOrDefault(name: string, defaultValue: Option<string>, parameters: map<string, string>)
    : (r: Option<string>)
    ensures name in parameters ==> r == Some(parameters[name])
    ensures name !in parameters ==> r == defaultValue
  {
    if name in parameters then Some(parameters[name]) else defaultValue
  }

  /** An integer written back as text reads as the same integer. */
  lemma IntegerParamRoundTrip(name: string, conf: Configuration, n: int)
    requires MinInt32 <= n <= MaxInt32
    ensures GetIntegerParamValue(name, conf[name := IntToString(n)]) == Success(Some(n))
  {
    var s := IntToString(n);
    var c := conf[name := s];
    IntRoundTrip(n);
    assert s != "";
    assert !IsBlank(s) by {
      if n < 0 {
        assert s[0] == '-';
      } else {
        assert IsDigit(s[0]);
      }
    }
    assert s != UndefinedNonemptyValue by {
      if n < 0 {
        assert s[0] == '-';
      } else {
        assert IsDigit(s[0]);
      }
    }
  }

  /** The sentinel and blank values read as unset, whatever the fallback. */
  lemma UndefinedReadsAsUnset(name: string, conf: Configuration, value: string)
    requires value == UndefinedNonemptyValue || IsBlank(value)
    ensures GetParamValue(name, conf[name := value]).None?
    ensures GetIntegerParamValue(name, conf[name := value]) == Success(None)
  {
  }
}
