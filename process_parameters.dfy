// ProcessUtils.getParameterValue: a process parameter is looked up first in
// the process's own parameter map and then in the Hadoop configuration;
// either source may be null.

module ProcessParameters {
  import opened Wrappers
  import opened RuntimeParameters

  function GetParameterValue(name: string, conf: Option<Configuration>, parameters: Option<map<string, string>>)
    : (r: Option<string>)
    ensures parameters.Some? && name in parameters.value ==> r == Some(parameters.value[name])
    ensures !(parameters.Some? && name in parameters.value) ==>
              r == (if conf.Some? then ConfigGet(name, conf.value) else None)
  {
    if parameters.Some? && name in parameters.value then Some(parameters.value[name])
    else if conf.Some? then ConfigGet(name, conf.value)
    else None
  }

  /** The four pinned cases: nothing anywhere gives null, a value in one
      source is returned, and the parameter map wins over the configuration. */
  lemma PrecedenceCases(name: string, conf: Configuration, parameters: map<string, string>, v: string, w: string)
    ensures GetParameterValue(name, None, None) == None
    ensures name !in conf && name !in parameters ==> GetParameterValue(name, Some(conf), Some(parameters)) == None
    ensures name !in parameters ==> GetParameterValue(name, Some(conf[name := v]), Some(parameters)) == Some(v)
    ensures name !in conf ==> GetParameterValue(name, Some(conf), Some(parameters[name := v])) == Some(v)
    ensures GetParameterValue(name, Some(conf[name := w]), Some(parameters[name := v])) == Some(v)
  {
  }

  /** Adding a value to the configuration never overrides the parameter map. */
  lemma ParametersShadowConfiguration(name: string, conf: Configuration, parameters: map<string, string>,
                                      other: string, w: string)
    requires name in parameters
    ensures GetParameterValue(name, Some(conf[other := w]), Some(parameters))
         == GetParameterValue(name, Some(conf), Some(parameters))
  {
  }
}
