/** The engine worker script (worker.py): it reads the project folder and
    the optional override document from its environment, merges the
    overrides into the engine configuration and points the configuration
    at the project folder before the engine runs. */
module Worker {
  import opened PyValues
  import opened Settings
  import Odm

  /** The environment names the project folder (`ODM_PROJECT`, present
      and non-empty). */
  predicate HasProject(env: map<string, string>)
  {
    "ODM_PROJECT" in env && env["ODM_PROJECT"] != ""
  }

  /** The environment names an override document (`ODM_SETTINGS`, present
      and non-empty). */
  predicate HasSettingsFile(env: map<string, string>)
  {
    "ODM_SETTINGS" in env && env["ODM_SETTINGS"] != ""
  }

  /** The configuration `perform_work` hands to the engine, or what it
      raises on the way: `ValueError` without a project folder, then
      whatever reading the document raises, then whatever the merge
      raises.  `load` stands for opening the file and decoding it as
      YAML. */
  function WorkerSettings(env: map<string, string>, defaults: map<string, Value>,
                          load: string -> Outcome<Value>): Outcome<map<string, Value>>
  {
    if !HasProject(env) then Raised(ValueError)
    else
      var loaded := if HasSettingsFile(env) then load(env["ODM_SETTINGS"]) else Done(VNone);
      if loaded.Raised? then Raised(loaded.exc)
      else
        var merged := OverrideEffect(defaults, loaded.value);
        if merged.Raised? then Raised(merged.exc)
        else Done(merged.value["project_path" := VStr(env["ODM_PROJECT"])])
  }

  /** `perform_work`, up to the point where the engine is started. */
  method PerformWork(env: map<string, string>, defaults: map<string, Value>,
                     load: string -> Outcome<Value>) returns (r: Outcome<Config>)
    ensures r.Raised? <==> WorkerSettings(env, defaults, load).Raised?
    ensures r.Raised? ==> r.exc == WorkerSettings(env, defaults, load).exc
    ensures r.Done? ==> fresh(r.value) && r.value.settings == WorkerSettings(env, defaults, load).value
  {
    if !HasProject(env) {
      return Raised(ValueError);
    }
    var projectPath := env["ODM_PROJECT"];
    var newSettings := VNone;
    if HasSettingsFile(env) {
      var loaded := load(env["ODM_SETTINGS"]);
      if loaded.Raised? {
        return Raised(loaded.exc);
      }
      newSettings := loaded.value;
    }
    var args := new Config(defaults);
    var applied := args.ApplyOverrides(newSettings);
    if applied.Raised? {
      return Raised(applied.exc);
    }
    args.SetAttr("project_path", VStr(projectPath));
    return Done(args);
  }

  /** Without a project folder the worker stops with `ValueError` before
      it reads any document, whatever reading it would do. */
  lemma MissingProjectRaises(env: map<string, string>, defaults: map<string, Value>,
                             load: string -> Outcome<Value>)
    requires !HasProject(env)
    ensures WorkerSettings(env, defaults, load) == Raised(ValueError)
  {
  }

  /** Without an override document no override is applied: the
      configuration is the defaults pointed at the project folder. */
  lemma NoSettingsFileNoOverrides(env: map<string, string>, defaults: map<string, Value>,
                                  load: string -> Outcome<Value>)
    requires HasProject(env) && !HasSettingsFile(env)
    ensures WorkerSettings(env, defaults, load) == Done(defaults["project_path" := VStr(env["ODM_PROJECT"])])
  {
  }

  /** A mapping document sets each of its keys other than `project_path`;
      every other key keeps its default, and none is added. */
  lemma OverridesApplied(env: map<string, string>, defaults: map<string, Value>,
                         load: string -> Outcome<Value>, overrides: map<string, Value>, k: string)
    requires HasProject(env) && HasSettingsFile(env)
    requires load(env["ODM_SETTINGS"]) == Done(VDict(overrides))
    requires k != "project_path"
    ensures WorkerSettings(env, defaults, load).Done?
    ensures var s := WorkerSettings(env, defaults, load).value;
      && (k in overrides ==> k in s && s[k] == overrides[k])
      && (k !in overrides && k in defaults ==> k in s && s[k] == defaults[k])
      && (k !in overrides && k !in defaults ==> k !in s)
  {
    if overrides == map[] {
      MergeNothing(defaults, overrides);
    }
  }

  /** Whatever the document holds, the engine works in the folder the
      environment names. */
  lemma ProjectPathIsProject(env: map<string, string>, defaults: map<string, Value>,
                             load: string -> Outcome<Value>)
    requires WorkerSettings(env, defaults, load).Done?
    ensures HasProject(env)
    ensures var s := WorkerSettings(env, defaults, load).value;
      "project_path" in s && s["project_path"] == VStr(env["ODM_PROJECT"])
  {
  }

  /** Started by the OpenDroneMap stage, the worker works in the staged
      project folder (an empty one is refused), and reads the override
      path the stage was given, if any; otherwise only an inherited
      `ODM_SETTINGS` can bring overrides. */
  lemma WorkerRunsInStagedProject(env: map<string, string>, projectPath: string, overridePath: Option<string>,
                                  defaults: map<string, Value>, load: string -> Outcome<Value>)
    ensures var s := WorkerSettings(Odm.StitchEnvironment(env, projectPath, overridePath), defaults, load);
      && (projectPath == "" ==> s == Raised(ValueError))
      && (s.Done? ==> s.value["project_path"] == VStr(projectPath))
      && (projectPath != "" && overridePath.Some? && overridePath.value != "" ==>
            s == (if load(overridePath.value).Raised? then Raised(load(overridePath.value).exc)
                  else var m := OverrideEffect(defaults, load(overridePath.value).value);
                       if m.Raised? then Raised(m.exc) else Done(m.value["project_path" := VStr(projectPath)])))
      && (projectPath != "" && !(overridePath.Some? && overridePath.value != "") && !HasSettingsFile(env) ==>
            s == Done(defaults["project_path" := VStr(projectPath)]))
  {
    var e := Odm.StitchEnvironment(env, projectPath, overridePath);
    if projectPath != "" && !(overridePath.Some? && overridePath.value != "") && !HasSettingsFile(env) {
      assert !HasSettingsFile(e);
    }
  }
}
