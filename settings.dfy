/** The engine configuration and the merge of an override document into it,
    as both the older stage (`get_merge_options`) and the engine worker do
    it: every top-level key of the override mapping is set on the
    configuration, except the protected `project_path`. */
module Settings {
  import opened PyValues

  /** `NO_OVERRIDE_SETTINGS`: the keys an override document may not set. */
  const NoOverrideSettings: seq<string> := ["project_path"]

  /** The configuration with every override key that is not protected set
      to its override value; all other keys keep their values. */
  function Merge(settings: map<string, Value>, overrides: map<string, Value>): (r: map<string, Value>)
    ensures forall k :: k in r <==> k in settings || (k in overrides && k !in NoOverrideSettings)
    ensures forall k :: k in overrides && k !in NoOverrideSettings ==> r[k] == overrides[k]
    ensures forall k :: k in settings && (k !in overrides || k in NoOverrideSettings) ==> r[k] == settings[k]
  {
    map k | k in settings.Keys + overrides.Keys && (k in settings || k !in NoOverrideSettings)
      :: if k in overrides && k !in NoOverrideSettings then overrides[k] else settings[k]
  }

  /** The exception a list item raises when it is used as an index and then
      as an attribute name: an integer (or boolean) outside the list is an
      `IndexError`, anything else a `TypeError`. */
  function ListItemFailure(item: Value, n: nat): Exception
  {
    match item
    case VInt(i) => if -(n as int) <= i < n then TypeError else IndexError
    case VBool(b) => if (if b then 1 else 0) < n then TypeError else IndexError
    case _ => TypeError
  }

  /** The first item of a list override document that is not the protected
      name, if any. */
  function FirstUnprotected(items: seq<Value>): (r: Option<nat>)
    ensures r.None? <==> forall i :: 0 <= i < |items| ==> items[i] == VStr("project_path")
    ensures r.Some? ==> r.value < |items| && items[r.value] != VStr("project_path")
    ensures r.Some? ==> forall i :: 0 <= i < r.value ==> items[i] == VStr("project_path")
  {
    if items == [] then None
    else if items[0] != VStr("project_path") then Some(0)
    else
      var rest := FirstUnprotected(items[1..]);
      if rest.None? then None else Some(rest.value + 1)
  }

  /** `if new_settings: for name in new_settings: ...` for any value the
      override document decodes to: nothing happens for a false value, a
      mapping is merged, a list is walked item by item (an item that is the
      protected name is skipped, any other fails), and a string or number
      cannot be walked and indexed that way. */
  function OverrideEffect(settings: map<string, Value>, newSettings: Value): (r: Outcome<map<string, Value>>)
    ensures !Truthy(newSettings) ==> r == Done(settings)
    ensures newSettings.VDict? && newSettings.entries != map[] ==> r == Done(Merge(settings, newSettings.entries))
    ensures r.Done? && newSettings.VList? ==> r.value == settings
  {
    if !Truthy(newSettings) then Done(settings)
    else
      match newSettings
      case VDict(m) => Done(Merge(settings, m))
      case VList(items) =>
        var bad := FirstUnprotected(items);
        if bad.None? then Done(settings) else Raised(ListItemFailure(items[bad.value], |items|))
      case _ => Raised(TypeError)
  }

  /** `merged` is `settings` with the keys `done` of `m` merged in. */
  ghost predicate MergedOn(merged: map<string, Value>, settings: map<string, Value>, m: map<string, Value>, done: set<string>)
  {
    && (forall k :: k in merged <==> k in settings || (k in done && k in m && k !in NoOverrideSettings))
    && (forall k :: k in merged ==>
          merged[k] == if k in done && k in m && k !in NoOverrideSettings then m[k] else settings[k])
  }

  /** Once every key is merged the configuration is `Merge`'s. */
  lemma MergedAll(merged: map<string, Value>, settings: map<string, Value>, m: map<string, Value>)
    requires MergedOn(merged, settings, m, m.Keys)
    ensures merged == Merge(settings, m)
  {
    var r := Merge(settings, m);
    assert forall k :: k in merged <==> k in r;
  }

  /** Merging the same document twice changes nothing more. */
  lemma MergeIdempotent(settings: map<string, Value>, overrides: map<string, Value>)
    ensures Merge(Merge(settings, overrides), overrides) == Merge(settings, overrides)
  {
    var once := Merge(settings, overrides);
    var twice := Merge(once, overrides);
    assert forall k :: k in twice <==> k in once;
    assert forall k :: k in twice ==> twice[k] == once[k];
  }

  /** An empty document, or one that sets only protected keys, leaves the
      configuration as it is. */
  lemma MergeNothing(settings: map<string, Value>, overrides: map<string, Value>)
    requires forall k :: k in overrides ==> k in NoOverrideSettings
    ensures Merge(settings, overrides) == settings
  {
    var r := Merge(settings, overrides);
    assert forall k :: k in r <==> k in settings;
    assert forall k :: k in r ==> r[k] == settings[k];
  }

  /** The configuration object (`config.config()` and the attributes set on
      it). */
  class Config {
    var settings: map<string, Value>

    constructor (defaults: map<string, Value>)
      ensures settings == defaults
    {
      settings := defaults;
    }

    /** `setattr(args, name, value)`. */
    method SetAttr(name: string, value: Value)
      modifies this
      ensures settings == old(settings)[name := value]
    {
      settings := settings[name := value];
    }

    /** `for name in new_settings: if name not in NO_OVERRIDE_SETTINGS:
        setattr(args, name, new_settings[name])` over a mapping, in any
        key order. */
    method MergeMapping(m: map<string, Value>)
      modifies this
      ensures settings == Merge(old(settings), m)
    {
      ghost var start := settings;
      var remaining := m.Keys;
      while remaining != {}
        invariant remaining <= m.Keys
        invariant MergedOn(settings, start, m, m.Keys - remaining)
        decreases |remaining|
      {
        var name :| name in remaining;
        ghost var done := m.Keys - remaining;
        if name !in NoOverrideSettings {
          SetAttr(name, m[name]);
        }
        remaining := remaining - {name};
        assert m.Keys - remaining == done + {name};
      }
      MergedAll(settings, start, m);
    }

    /** The merge loop over the decoded override document. */
    method ApplyOverrides(newSettings: Value) returns (r: Outcome<()>)
      modifies this
      ensures r.Raised? <==> OverrideEffect(old(settings), newSettings).Raised?
      ensures r.Raised? ==> r.exc == OverrideEffect(old(settings), newSettings).exc
      ensures r.Done? ==> settings == OverrideEffect(old(settings), newSettings).value
      ensures r.Raised? ==> settings == old(settings)
    {
      if !Truthy(newSettings) {
        return Done(());
      }
      match newSettings {
        case VDict(m) =>
          MergeMapping(m);
          return Done(());
        case VList(items) =>
          for i := 0 to |items|
            invariant forall k :: 0 <= k < i ==> items[k] == VStr("project_path")
          {
            if items[i] != VStr("project_path") {
              return Raised(ListItemFailure(items[i], |items|));
            }
          }
          return Done(());
        case _ =>
          return Raised(TypeError);
      }
    }
  }
}
