/** SearchListener: injects a search condition into the paginator settings,
    built from the `q` query parameter.

    The listener keeps a configuration record with two optional fields,
    `conditions` (a condition template, a literal fragment, or a callable) and
    `searchTerm`. On `init` it fills in whichever of the two is still unset;
    on `beforePaginate` it adds the search condition to the paginator settings
    of the current model, or to the top-level settings when there is no
    per-model bucket. */
module Search {
  import opened Common
  import opened Strings

  /** What the listener reads from the event subject's model. */
  datatype Model = Model(alias: string, displayField: string)

  /** A scalar paginator option, such as `'page' => 1` or `'paramType' => 'named'`. */
  datatype Scalar = Number(n: int) | Text(t: string)

  /** One entry of the paginator's `conditions` list: a map from a field
      expression to its value, or a raw SQL fragment. */
  datatype Clause = FieldMatch(fields: map<string, string>) | Raw(sql: string)

  /** Paginator settings: the ordered `conditions` list (`None` when the
      array has no `conditions` key, which is not the same as an empty list),
      the other scalar options, and the per-model buckets keyed by model alias,
      each of which holds settings of its own. */
  datatype Settings = Settings(conditions: Option<seq<Clause>>, options: map<string, Scalar>, buckets: map<string, Settings>)

  /** The `conditions` list, read as empty when the key is absent. */
  function ConditionList(s: Settings): (list: seq<Clause>)
  {
    if s.conditions.Some? then s.conditions.value else []
  }

  /** An array in PHP is truthy exactly when it has at least one key; a
      `conditions` key holding an empty list is a key. */
  predicate NonEmpty(s: Settings)
    ensures NonEmpty(s) <==> s != Settings(None, map[], map[])
  {
    s.conditions.Some? || s.options != map[] || s.buckets != map[]
  }

  /** The configured `conditions`: a map whose values are templates, a single
      template string, or a callable `(paginate, searchTerm, model)` whose
      result is `None` when it returns null or false. */
  datatype ConditionSpec =
    | Template(fields: map<string, string>)
    | Fragment(text: string)
    | Strategy(compute: (Settings, string, Model) -> Option<Settings>)

  /** The listener's `_config`; `None` is PHP's null. */
  datatype SearchConfig = SearchConfig(conditions: Option<ConditionSpec>, searchTerm: Option<string>)

  /** `_defaults`: both fields null. */
  function Defaults(): (d: SearchConfig)
    ensures d.conditions.None? && d.searchTerm.None?
  {
    SearchConfig(None, None)
  }

  /** `config(array)`: the fields the override sets replace the current ones. */
  function Merge(current: SearchConfig, over: SearchConfig): (r: SearchConfig)
    ensures over.conditions.Some? ==> r.conditions == over.conditions
    ensures over.searchTerm.Some? ==> r.searchTerm == over.searchTerm
    ensures over.conditions.None? ==> r.conditions == current.conditions
    ensures over.searchTerm.None? ==> r.searchTerm == current.searchTerm
  {
    SearchConfig(
      if over.conditions.Some? then over.conditions else current.conditions,
      if over.searchTerm.Some? then over.searchTerm else current.searchTerm)
  }

  /** The condition `init` derives from the model when none is configured. */
  function DefaultCondition(model: Model): (spec: ConditionSpec)
    ensures spec.Template? && |spec.fields| == 1
    ensures model.alias + "." + model.displayField + " LIKE" in spec.fields
  {
    Template(map[model.alias + "." + model.displayField + " LIKE" := "{searchTerm}%"])
  }

  /** The configuration after `init`, given the model and the request's query
      parameters. */
  function InitConfig(c: SearchConfig, model: Model, query: map<string, string>): (r: SearchConfig)
    ensures r.conditions.Some?
    ensures r.searchTerm.Some? <==> (c.searchTerm.Some? || "q" in query)
  {
    SearchConfig(
      if c.conditions.None? then Some(DefaultCondition(model)) else c.conditions,
      if c.searchTerm.None? && "q" in query then Some(query["q"]) else c.searchTerm)
  }

  /** `$paginate['conditions'][] = $clause`, which creates the list when the
      key is absent. */
  function Append(paginate: Settings, clause: Clause): (r: Settings)
    ensures r.conditions == Some(ConditionList(paginate) + [clause])
    ensures r.options == paginate.options && r.buckets == paginate.buckets
    ensures r != paginate
  {
    paginate.(conditions := Some(ConditionList(paginate) + [clause]))
  }

  /** The template map with the search term substituted into every value. */
  function SubstituteValues(fields: map<string, string>, term: string): (r: map<string, string>)
    ensures r.Keys == fields.Keys
  {
    map k | k in fields :: Insert(fields[k], "searchTerm", term)
  }

  /** What `_addConditions` makes of one settings structure. A null condition
      goes through `String::insert` as the empty string, which is falsy, so
      nothing is added. */
  function WithCondition(spec: Option<ConditionSpec>, paginate: Settings, term: string, model: Model): (r: Settings)
    ensures !(spec.Some? && spec.value.Strategy?) ==>
      r == paginate || exists clause :: r == Append(paginate, clause)
  {
    match spec
    case None => paginate
    case Some(Strategy(compute)) =>
      var result := compute(paginate, term, model);
      if result.Some? && NonEmpty(result.value) then result.value else paginate
    case Some(Template(fields)) =>
      var substituted := SubstituteValues(fields, term);
      if substituted != map[] then Append(paginate, FieldMatch(substituted)) else paginate
    case Some(Fragment(text)) =>
      var substituted := Insert(text, "searchTerm", term);
      if Truthy(substituted) then Append(paginate, Raw(substituted)) else paginate
  }

  /** The paginator settings after `beforePaginate`. */
  function Paginated(c: SearchConfig, model: Model, settings: Settings): (r: Settings)
    ensures c.searchTerm.None? || c.conditions.None? ==> r == settings
  {
    if c.searchTerm.None? then settings
    else if model.alias in settings.buckets then
      settings.(buckets := settings.buckets[model.alias :=
        WithCondition(c.conditions, settings.buckets[model.alias], c.searchTerm.value, model)])
    else WithCondition(c.conditions, settings, c.searchTerm.value, model)
  }

  /** The paginator component, whose `settings` the listener edits in place. */
  class Paginator {
    var settings: Settings

    constructor (initial: Settings)
      ensures settings == initial
    {
      settings := initial;
    }
  }

  class SearchListener {
    var config: SearchConfig

    /** `new SearchListener($config)`: the defaults, overridden by `over`. */
    constructor (over: SearchConfig)
      ensures config == Merge(Defaults(), over)
      ensures over == SearchConfig(None, None) ==> config.conditions.None? && config.searchTerm.None?
    {
      config := Merge(Defaults(), over);
    }

    /** `config(array)`. */
    method Configure(over: SearchConfig)
      modifies this
      ensures config == Merge(old(config), over)
    {
      config := Merge(config, over);
    }

    /** `config('conditions', $value)`. */
    method SetConditions(spec: Option<ConditionSpec>)
      modifies this
      ensures config == old(config).(conditions := spec)
    {
      config := config.(conditions := spec);
    }

    /** `config('searchTerm', $value)`. */
    method SetSearchTerm(term: Option<string>)
      modifies this
      ensures config == old(config).(searchTerm := term)
    {
      config := config.(searchTerm := term);
    }

    /** `init`: fills in the default condition and the search term from the
        query, each only when it is still null. */
    method Init(model: Model, query: map<string, string>)
      modifies this
      ensures config == InitConfig(old(config), model, query)
    {
      if config.conditions.None? {
        config := config.(conditions := Some(DefaultCondition(model)));
      }
      if config.searchTerm.None? && "q" in query {
        config := config.(searchTerm := Some(query["q"]));
      }
    }

    /** `beforePaginate`: edits the bucket of the model's alias when it
        exists, otherwise the top-level settings. */
    method BeforePaginate(model: Model, paginator: Paginator)
      modifies paginator
      ensures paginator.settings == Paginated(config, model, old(paginator.settings))
    {
      if config.searchTerm.None? {
        return;
      }
      var term := config.searchTerm.value;
      if model.alias in paginator.settings.buckets {
        var bucket := AddConditions(paginator.settings.buckets[model.alias], term, model);
        paginator.settings := paginator.settings.(buckets := paginator.settings.buckets[model.alias := bucket]);
      } else {
        var updated := AddConditions(paginator.settings, term, model);
        paginator.settings := updated;
      }
    }

    /** `_addConditions`: the by-reference settings come in as `paginate` and
        go out as `result`. The template values are rewritten one key at a
        time on a copy of the configured map, as the source's `foreach` by
        reference does; the configuration itself is not changed. */
    method AddConditions(paginate: Settings, term: string, model: Model) returns (result: Settings)
      ensures result == WithCondition(config.conditions, paginate, term, model)
    {
      match config.conditions {
        case None =>
          result := paginate;
        case Some(Strategy(compute)) =>
          var returned := compute(paginate, term, model);
          if returned.Some? && NonEmpty(returned.value) {
            result := returned.value;
          } else {
            result := paginate;
          }
        case Some(Template(fields)) =>
          var substituted := fields;
          var todo := fields.Keys;
          while todo != {}
            invariant todo <= fields.Keys
            invariant substituted.Keys == fields.Keys
            invariant forall k :: k in fields && k !in todo ==> substituted[k] == Insert(fields[k], "searchTerm", term)
            invariant forall k :: k in todo ==> substituted[k] == fields[k]
            decreases todo
          {
            var k :| k in todo;
            substituted := substituted[k := Insert(substituted[k], "searchTerm", term)];
            todo := todo - {k};
          }
          assert substituted == SubstituteValues(fields, term);
          if substituted != map[] {
            result := Append(paginate, FieldMatch(substituted));
          } else {
            result := paginate;
          }
        case Some(Fragment(text)) =>
          var substituted := Insert(text, "searchTerm", term);
          if Truthy(substituted) {
            result := Append(paginate, Raw(substituted));
          } else {
            result := paginate;
          }
      }
    }
  }

  // ---------------------------------------------------------------------------
  // init

  /** With no condition configured, `init` installs exactly one entry, the
      display-field LIKE template; a configured condition is kept. */
  lemma InitCondition(c: SearchConfig, model: Model, query: map<string, string>)
    ensures c.conditions.None? ==>
      var r := InitConfig(c, model, query).conditions;
      r.Some? && r.value.Template? && |r.value.fields| == 1 &&
      r.value.fields == map[model.alias + "." + model.displayField + " LIKE" := "{searchTerm}%"]
    ensures c.conditions.Some? ==> InitConfig(c, model, query).conditions == c.conditions
  {
  }

  /** `init` takes the search term from `q` exactly when none is set and `q`
      is present; otherwise the search term is left as it was. */
  lemma InitSearchTerm(c: SearchConfig, model: Model, query: map<string, string>)
    ensures InitConfig(c, model, query).searchTerm != c.searchTerm <==> (c.searchTerm.None? && "q" in query)
    ensures c.searchTerm.None? && "q" in query ==> InitConfig(c, model, query).searchTerm == Some(query["q"])
  {
  }

  /** Running `init` a second time changes nothing. */
  lemma InitIdempotent(c: SearchConfig, model: Model, query: map<string, string>)
    ensures InitConfig(InitConfig(c, model, query), model, query) == InitConfig(c, model, query)
  {
  }

  /** `init` never clears a field: once set, a field stays set, whatever model
      or query a later `init` sees. */
  lemma InitKeepsSetFields(c: SearchConfig, model: Model, query: map<string, string>)
    ensures InitConfig(c, model, query).conditions.Some?
    ensures c.searchTerm.Some? ==> InitConfig(c, model, query).searchTerm == c.searchTerm
  {
  }

  // ---------------------------------------------------------------------------
  // beforePaginate

  /** Without a search term the paginator settings are left exactly as they were. */
  lemma PaginateWithoutTerm(c: SearchConfig, model: Model, settings: Settings)
    requires c.searchTerm.None?
    ensures Paginated(c, model, settings) == settings
  {
  }

  /** When the model's alias has a bucket, only that bucket is edited: the
      top-level conditions and options and every other bucket are kept. */
  lemma PaginateTargetsBucket(c: SearchConfig, model: Model, settings: Settings)
    requires c.searchTerm.Some? && model.alias in settings.buckets
    ensures var r := Paginated(c, model, settings);
      && r.conditions == settings.conditions
      && r.options == settings.options
      && r.buckets.Keys == settings.buckets.Keys
      && r.buckets[model.alias] == WithCondition(c.conditions, settings.buckets[model.alias], c.searchTerm.value, model)
      && forall a :: a in settings.buckets && a != model.alias ==> r.buckets[a] == settings.buckets[a]
  {
  }

  /** Without a bucket for the alias, the top-level settings are edited. */
  lemma PaginateTargetsTopLevel(c: SearchConfig, model: Model, settings: Settings)
    requires c.searchTerm.Some? && model.alias !in settings.buckets
    ensures Paginated(c, model, settings) == WithCondition(c.conditions, settings, c.searchTerm.value, model)
  {
  }

  /** A non-empty template is substituted value by value under the same keys
      and appended as the last condition; the earlier conditions are kept in
      their order, and nothing else in the settings changes. */
  lemma TemplateAppends(fields: map<string, string>, paginate: Settings, term: string, model: Model)
    requires fields != map[]
    ensures var r := WithCondition(Some(Template(fields)), paginate, term, model);
      var before := ConditionList(paginate);
      && r.conditions.Some?
      && |r.conditions.value| == |before| + 1
      && r.conditions.value[..|before|] == before
      && r.conditions.value[|before|].FieldMatch?
      && r.conditions.value[|before|].fields.Keys == fields.Keys
      && (forall k :: k in fields ==>
            r.conditions.value[|before|].fields[k] == Insert(fields[k], "searchTerm", term))
      && r.options == paginate.options
      && r.buckets == paginate.buckets
  {
    var substituted := SubstituteValues(fields, term);
    var k :| k in fields;
    assert k in substituted;
  }

  /** A fragment whose substitution is truthy is appended as the last
      condition, as the substituted text; the earlier conditions are kept in
      their order, and nothing else in the settings changes. */
  lemma FragmentAppends(text: string, paginate: Settings, term: string, model: Model)
    requires Truthy(Insert(text, "searchTerm", term))
    ensures var r := WithCondition(Some(Fragment(text)), paginate, term, model);
      && r.conditions == Some(ConditionList(paginate) + [Raw(Insert(text, "searchTerm", term))])
      && r.options == paginate.options
      && r.buckets == paginate.buckets
  {
  }

  /** An empty template or a fragment that substitutes to a falsy string adds nothing. */
  lemma FalsyConditionNotAppended(spec: ConditionSpec, paginate: Settings, term: string, model: Model)
    requires spec == Template(map[]) || (spec.Fragment? && !Truthy(Insert(spec.text, "searchTerm", term)))
    ensures WithCondition(Some(spec), paginate, term, model) == paginate
  {
    if spec.Template? {
      assert SubstituteValues(spec.fields, term) == map[];
    }
  }

  /** For a template or a fragment, the settings change exactly when the
      substituted condition is truthy: a non-empty map, or a string other
      than "" and "0". */
  lemma ConditionAppendedIff(spec: ConditionSpec, paginate: Settings, term: string, model: Model)
    requires !spec.Strategy?
    ensures WithCondition(Some(spec), paginate, term, model) != paginate
      <==> (if spec.Template? then spec.fields != map[] else Truthy(Insert(spec.text, "searchTerm", term)))
  {
    if spec.Template? {
      if spec.fields != map[] {
        TemplateAppends(spec.fields, paginate, term, model);
      } else {
        FalsyConditionNotAppended(spec, paginate, term, model);
      }
    }
  }

  /** A callable replaces the settings wholesale with what it returns when that
      is truthy, that is, an array with at least one key, and otherwise leaves
      them alone; no template is appended. */
  lemma StrategyReplacesOrKeeps(compute: (Settings, string, Model) -> Option<Settings>, paginate: Settings, term: string, model: Model)
    ensures var r := WithCondition(Some(Strategy(compute)), paginate, term, model);
      var returned := compute(paginate, term, model);
      && (returned.Some? && NonEmpty(returned.value) ==> r == returned.value)
      && (!(returned.Some? && NonEmpty(returned.value)) ==> r == paginate)
  {
  }

  /** A callable that empties the `conditions` list returns a truthy array,
      since the `conditions` key is still there, so the existing conditions
      are dropped. */
  lemma StrategyMayClearConditions(existing: Clause, term: string, model: Model)
    ensures var clear := (p: Settings, t: string, m: Model) => Some(p.(conditions := Some([])));
      WithCondition(Some(Strategy(clear)), Settings(Some([existing]), map[], map[]), term, model)
        == Settings(Some([]), map[], map[])
  {
  }

  /** Template values without any `{` come through substitution unchanged. */
  lemma SubstituteKeepsPlainValues(fields: map<string, string>, term: string)
    ensures forall k :: k in fields && '{' !in fields[k] ==> SubstituteValues(fields, term)[k] == fields[k]
  {
    forall k | k in fields && '{' !in fields[k]
      ensures SubstituteValues(fields, term)[k] == fields[k]
    {
      InsertWithoutBrace(fields[k], "searchTerm", term);
    }
  }

  /** The default template turns a search term T into the prefix pattern "T%". */
  lemma {:induction false} DefaultTemplateValue(term: string)
    ensures Insert("{searchTerm}%", "searchTerm", term) == term + "%"
  {
    var pat := Placeholder("searchTerm");
    assert "{searchTerm}%" == pat + "%";
    ReplaceAtOccurrence("%", pat, term);
    ReplacePlainPrefix("%", [], pat, term);
    assert "%" + [] == "%";
  }

  /** Substitution into a one-entry template keeps its single key. */
  lemma SubstituteSingle(key: string, template: string, term: string)
    ensures SubstituteValues(map[key := template], term) == map[key := Insert(template, "searchTerm", term)]
  {
    var substituted := SubstituteValues(map[key := template], term);
    assert substituted.Keys == {key};
  }

  /** Applying the default condition appends `alias.displayField LIKE => T%`. */
  lemma DefaultConditionAppends(model: Model, paginate: Settings, term: string)
    ensures WithCondition(Some(DefaultCondition(model)), paginate, term, model)
      == Append(paginate, FieldMatch(map[model.alias + "." + model.displayField + " LIKE" := term + "%"]))
  {
    var key := model.alias + "." + model.displayField + " LIKE";
    SubstituteSingle(key, "{searchTerm}%", term);
    DefaultTemplateValue(term);
    assert key in map[key := term + "%"];
  }

  // ---------------------------------------------------------------------------
  // Scenarios

  /** Appending to a one-element list puts the new clause second. */
  lemma AppendAfter(existing: Clause, options: map<string, Scalar>, buckets: map<string, Settings>, clause: Clause)
    ensures Append(Settings(Some([existing]), options, buckets), clause) == Settings(Some([existing, clause]), options, buckets)
  {
    assert [existing] + [clause] == [existing, clause];
  }

  /** Appending to settings without a `conditions` key creates a one-element list. */
  lemma AppendCreatesList(options: map<string, Scalar>, buckets: map<string, Settings>, clause: Clause)
    ensures Append(Settings(None, options, buckets), clause) == Settings(Some([clause]), options, buckets)
  {
    assert [] + [clause] == [clause];
  }

  /** After `init` on a listener with no condition configured, a search term
      T adds `alias.displayField LIKE => T%` to the top-level settings. */
  lemma DefaultFlow(model: Model, term: string, settings: Settings)
    requires model.alias !in settings.buckets
    ensures Paginated(SearchConfig(Some(DefaultCondition(model)), Some(term)), model, settings)
      == Append(settings, FieldMatch(map[model.alias + "." + model.displayField + " LIKE" := term + "%"]))
  {
    DefaultConditionAppends(model, settings, term);
  }

  /** A fresh listener, `init` with `q` in the query, then `beforePaginate`
      on settings without a bucket for the alias: `alias.displayField LIKE => q%`
      is appended. */
  lemma FreshListenerFlow(model: Model, query: map<string, string>, settings: Settings)
    requires "q" in query && model.alias !in settings.buckets
    ensures Paginated(InitConfig(Defaults(), model, query), model, settings)
      == Append(settings, FieldMatch(map[model.alias + "." + model.displayField + " LIKE" := query["q"] + "%"]))
  {
    assert InitConfig(Defaults(), model, query) == SearchConfig(Some(DefaultCondition(model)), Some(query["q"]));
    DefaultFlow(model, query["q"], settings);
  }

  /** The same with a search term configured beforehand, which `init` keeps. */
  lemma PresetTermFlow(model: Model, term: string, query: map<string, string>, settings: Settings)
    requires model.alias !in settings.buckets
    ensures Paginated(InitConfig(Defaults().(searchTerm := Some(term)), model, query), model, settings)
      == Append(settings, FieldMatch(map[model.alias + "." + model.displayField + " LIKE" := term + "%"]))
  {
    assert InitConfig(Defaults().(searchTerm := Some(term)), model, query)
      == SearchConfig(Some(DefaultCondition(model)), Some(term));
    DefaultFlow(model, term, settings);
  }

  /** The default flow on settings that hold no `conditions` key yet, and on
      settings that already hold one condition. */
  lemma DefaultFlowFromList(model: Model, term: string, options: map<string, Scalar>, before: Option<Clause>)
    ensures var settings := Settings(if before.Some? then Some([before.value]) else None, options, map[]);
      var added := FieldMatch(map[model.alias + "." + model.displayField + " LIKE" := term + "%"]);
      Paginated(SearchConfig(Some(DefaultCondition(model)), Some(term)), model, settings)
        == Settings(Some(if before.Some? then [before.value, added] else [added]), options, map[])
  {
    var added := FieldMatch(map[model.alias + "." + model.displayField + " LIKE" := term + "%"]);
    if before.Some? {
      DefaultFlow(model, term, Settings(Some([before.value]), options, map[]));
      AppendAfter(before.value, options, map[], added);
    } else {
      DefaultFlow(model, term, Settings(None, options, map[]));
      AppendCreatesList(options, map[], added);
    }
  }

  /** `/foos/index?q=bar` on model `Foo` with display field `title`, starting
      from a fresh listener and settings without conditions, ends with the
      single condition `Foo.title LIKE => bar%`; the same holds for every value
      of `q` and whatever options the settings hold. */
  lemma RequestScenario(q: string, options: map<string, Scalar>)
    ensures var model := Model("Foo", "title");
      var c := InitConfig(Defaults(), model, map["q" := q]);
      Paginated(c, model, Settings(None, options, map[]))
        == Settings(Some([FieldMatch(map["Foo.title LIKE" := q + "%"])]), options, map[])
  {
    var model := Model("Foo", "title");
    assert InitConfig(Defaults(), model, map["q" := q]) == SearchConfig(Some(DefaultCondition(model)), Some(q));
    assert model.alias + "." + model.displayField + " LIKE" == "Foo.title LIKE";
    DefaultFlowFromList(model, q, options, None);
  }

  /** A search term T set beforehand and settings without conditions: `init`
      supplies the default template and `beforePaginate` adds
      `Post.title LIKE => T%`. */
  lemma ConfiguredTermScenario(term: string, options: map<string, Scalar>)
    ensures var model := Model("Post", "title");
      var c := InitConfig(Defaults().(searchTerm := Some(term)), model, map[]);
      Paginated(c, model, Settings(None, options, map[]))
        == Settings(Some([FieldMatch(map["Post.title LIKE" := term + "%"])]), options, map[])
  {
    var model := Model("Post", "title");
    assert InitConfig(Defaults().(searchTerm := Some(term)), model, map[]) == SearchConfig(Some(DefaultCondition(model)), Some(term));
    assert model.alias + "." + model.displayField + " LIKE" == "Post.title LIKE";
    DefaultFlowFromList(model, term, options, None);
  }

  /** A search term set beforehand and a condition already in the settings:
      the new condition comes after the existing one. */
  lemma NoClobberScenario(term: string, options: map<string, Scalar>)
    ensures var model := Model("Post", "title");
      var c := InitConfig(Defaults().(searchTerm := Some(term)), model, map[]);
      var existing := FieldMatch(map["Post.title LIKE" := "%something%"]);
      Paginated(c, model, Settings(Some([existing]), options, map[]))
        == Settings(Some([existing, FieldMatch(map["Post.title LIKE" := term + "%"])]), options, map[])
  {
    var model := Model("Post", "title");
    var existing := FieldMatch(map["Post.title LIKE" := "%something%"]);
    assert InitConfig(Defaults().(searchTerm := Some(term)), model, map[]) == SearchConfig(Some(DefaultCondition(model)), Some(term));
    assert model.alias + "." + model.displayField + " LIKE" == "Post.title LIKE";
    DefaultFlowFromList(model, term, options, Some(existing));
  }

  /** A callable that appends a raw fragment naming the term: the settings
      become exactly what it returned, the other options included. */
  lemma CallableScenario()
    ensures var model := Model("Post", "title");
      var append := (p: Settings, t: string, m: Model) =>
        Some(Append(p, Raw("anything at all with '" + t + "' in it")));
      var c := InitConfig(SearchConfig(Some(Strategy(append)), Some("abc")), model, map[]);
      var options := map["page" := Number(1), "limit" := Number(20), "maxLimit" := Number(100), "paramType" := Text("named")];
      Paginated(c, model, Settings(None, options, map[]))
        == Settings(Some([Raw("anything at all with 'abc' in it")]), options, map[])
  {
    assert "anything at all with '" + "abc" + "' in it" == "anything at all with 'abc' in it";
    var options := map["page" := Number(1), "limit" := Number(20), "maxLimit" := Number(100), "paramType" := Text("named")];
    AppendCreatesList(options, map[], Raw("anything at all with 'abc' in it"));
  }
}
