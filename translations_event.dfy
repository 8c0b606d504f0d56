/** TranslationsEvent: resolves the flash message for a CRUD outcome.

    The configuration is a nested table: a translation `domain`, an optional
    display `name`, and per action (`create`, `update`, ...) per outcome
    (`success`, `error`, ...) an entry with `message` and `element`. On
    `setFlash` the subject's dotted `type` selects an entry; unset sub-fields
    get defaults, `{name}` in the message is replaced by the display name, the
    message goes through the translation function, and four fields are
    written onto the subject. A missing or unknown type is an error. */
module Translations {
  import opened Common
  import opened Strings

  /** A configuration value: null, a string, or a nested table (a PHP array
      with string keys). */
  datatype Value = Null | Str(s: string) | Table(entries: map<string, Value>)

  /** A flash entry with a message template and a rendering element. */
  function Entry(message: string, element: string): (v: Value)
  {
    Table(map["message" := Str(message), "element" := Str(element)])
  }

  /** `_defaults`. */
  function Defaults(): (d: map<string, Value>)
    ensures "domain" in d && d["domain"] == Str("crud") && "name" in d && d["name"] == Null
  {
    map[
      "domain" := Str("crud"),
      "name" := Null,
      "create" := Table(map[
        "success" := Entry("Successfully created {name}", "success"),
        "error" := Entry("Could not create {name}", "error")]),
      "update" := Table(map[
        "success" := Entry("{name} was successfully updated", "success"),
        "error" := Entry("Could not update {name}", "error")]),
      "delete" := Table(map[
        "success" := Entry("Successfully deleted {name}", "success"),
        "error" := Entry("Could not delete {name}", "error")]),
      "find" := Table(map[
        "error" := Entry("Could not find {name}", "error")]),
      "error" := Table(map[
        "invalid_http_request" := Entry("Invalid HTTP request", "error"),
        "invalid_id" := Entry("Invalid id", "error")])
    ]
  }

  /** `$array[$key]`, which reads as null when the key is missing. */
  function Get(m: map<string, Value>, key: string): (v: Value)
  {
    if key in m then m[key] else Null
  }

  /** The walk of `Hash::get` along the parts of a dotted path: each step
      needs a table holding a non-null value under the key, else the result
      is null. */
  function GetPath(v: Value, parts: seq<string>): (r: Value)
    ensures parts != [] && r != Null ==> v.Table? && parts[0] in v.entries && v.entries[parts[0]] != Null
    decreases |parts|
  {
    if parts == [] then v
    else match v
      case Table(m) =>
        if parts[0] in m && m[parts[0]] != Null then GetPath(m[parts[0]], parts[1..]) else Null
      case _ => Null
  }

  /** PHP's `empty()` on a value. */
  predicate Empty(v: Value)
    ensures Empty(v) <==> v == Null || v == Str("") || v == Str("0") || v == Table(map[])
  {
    match v
    case Null => true
    case Str(s) => !Truthy(s)
    case Table(m) => m == map[]
  }

  /** The text `String::insert` works on: null (and an array) become "". */
  function TextOf(v: Value): (s: string)
  {
    if v.Str? then v.s else ""
  }

  /** The sub-fields `$config += [...]` adds when an entry lacks them. */
  function FlashDefaults(): (d: map<string, Value>)
    ensures d.Keys == {"message", "element", "params", "key"}
  {
    map["message" := Null, "element" := Null, "params" := Table(map[]), "key" := Str("flash")]
  }

  /** The two `CakeException`s of `setFlash`, and the case where the type
      names something that is not a table, on which PHP stops with a fatal
      error at `+=`. */
  datatype FlashError = MissingFlashType | InvalidFlashType | UnsupportedEntry

  /** What `setFlash` writes onto the subject. */
  datatype Directive = Directive(message: string, element: Value, params: Value, key: Value)

  /** `$this->_config['name'] ?: $subject->name`, as the text substituted for
      `{name}`. */
  function DisplayName(config: map<string, Value>, subjectName: string): (r: string)
    ensures r != subjectName ==> !Empty(Get(config, "name"))
  {
    var configured := Get(config, "name");
    if !Empty(configured) then TextOf(configured) else subjectName
  }

  /** The entry a dotted type selects in the configuration. */
  function Lookup(config: map<string, Value>, flashType: string): (r: Value)
    ensures r != Null ==> Split(flashType, ".")[0] in config
  {
    GetPath(Table(config), Split(flashType, "."))
  }

  /** The resolution step of `setFlash`. `translate` stands for `__d`, a
      function of the domain and the message. */
  function Resolve(config: map<string, Value>, flashType: Option<string>, subjectName: string,
                   translate: (Value, string) -> string): (r: Result<Directive, FlashError>)
    ensures r.Ok? <==>
      (flashType.Some? && Truthy(flashType.value)
       && Lookup(config, flashType.value).Table? && Lookup(config, flashType.value).entries != map[])
  {
    if flashType.None? || !Truthy(flashType.value) then Err(MissingFlashType)
    else
      var entry := Lookup(config, flashType.value);
      if Empty(entry) then Err(InvalidFlashType)
      else if !entry.Table? then Err(UnsupportedEntry)
      else
        var filled := FlashDefaults() + entry.entries;
        var message := Insert(TextOf(filled["message"]), "name", DisplayName(config, subjectName));
        Ok(Directive(translate(Get(config, "domain"), message), filled["element"], filled["params"], filled["key"]))
  }

  /** The event subject: the outcome type and model name it carries, and the
      four flash fields the listener writes (`None` while unwritten). */
  class FlashSubject {
    var flashType: Option<string>
    var name: string
    var message: Option<string>
    var element: Value
    var params: Value
    var key: Value

    constructor (flashType: Option<string>, name: string)
      ensures this.flashType == flashType && this.name == name
      ensures message.None? && element == Null && params == Null && key == Null
    {
      this.flashType := flashType;
      this.name := name;
      message, element, params, key := None, Null, Null, Null;
    }
  }

  class TranslationsEvent {
    var config: map<string, Value>

    /** `new TranslationsEvent($config)`: the defaults, overridden key by key. */
    constructor (over: map<string, Value>)
      ensures config == Defaults() + over
      ensures over == map[] ==> config == Defaults() && config["domain"] == Str("crud")
    {
      config := Defaults() + over;
    }

    /** `getDefaults`: the built-in table, whatever the configuration now is. */
    method GetDefaults() returns (d: map<string, Value>)
      ensures d == Defaults()
      ensures d["domain"] == Str("crud") && d["name"] == Null
    {
      d := Defaults();
    }

    /** `config(array)`. */
    method Configure(over: map<string, Value>)
      modifies this
      ensures config == old(config) + over
    {
      config := config + over;
    }

    /** `setFlash`: on success exactly the four flash fields of the subject
        are written; on an error nothing is. */
    method SetFlash(subject: FlashSubject, translate: (Value, string) -> string)
      returns (outcome: Result<Directive, FlashError>)
      modifies subject
      ensures outcome == Resolve(config, old(subject.flashType), old(subject.name), translate)
      ensures subject.flashType == old(subject.flashType) && subject.name == old(subject.name)
      ensures outcome.Err? ==> unchanged(subject)
      ensures outcome.Ok? ==>
        && subject.message == Some(outcome.value.message)
        && subject.element == outcome.value.element
        && subject.params == outcome.value.params
        && subject.key == outcome.value.key
    {
      outcome := Resolve(config, subject.flashType, subject.name, translate);
      if outcome.Ok? {
        subject.message := Some(outcome.value.message);
        subject.element := outcome.value.element;
        subject.params := outcome.value.params;
        subject.key := outcome.value.key;
      }
    }
  }

  // ---------------------------------------------------------------------------
  // Errors

  /** The type is missing exactly when it is null, "" or "0"; that is the
      first check, whatever the configuration. */
  lemma MissingType(config: map<string, Value>, flashType: Option<string>, subjectName: string,
                    translate: (Value, string) -> string)
    ensures Resolve(config, flashType, subjectName, translate) == Err(MissingFlashType)
        <==> (flashType.None? || !Truthy(flashType.value))
  {
  }

  /** A present type is invalid exactly when its lookup is empty. */
  lemma InvalidType(config: map<string, Value>, flashType: string, subjectName: string,
                    translate: (Value, string) -> string)
    requires Truthy(flashType)
    ensures Resolve(config, Some(flashType), subjectName, translate) == Err(InvalidFlashType)
        <==> Empty(Lookup(config, flashType))
  {
  }

  /** explode('.', a + '.' + b) for parts without a dot. */
  lemma SplitTwo(a: string, b: string)
    requires '.' !in a && '.' !in b
    ensures Split(a + "." + b, ".") == [a, b]
  {
    SplitPlainPrefix(a, b, ".");
    NoOccurrenceWithoutFirstChar(b, ".");
    SplitWithoutOccurrence(b, ".");
  }

  /** The entry `a.b` of a table, for keys without a dot. */
  lemma LookupTwo(config: map<string, Value>, a: string, b: string)
    requires '.' !in a && '.' !in b
    ensures Lookup(config, a + "." + b) == GetPath(Table(config), [a, b])
  {
    SplitTwo(a, b);
  }

  /** Two steps down a table of tables. */
  lemma GetPathTwo(m: map<string, Value>, a: string, b: string)
    requires a in m && m[a].Table? && b in m[a].entries && m[a].entries[b] != Null
    ensures GetPath(Table(m), [a, b]) == m[a].entries[b]
  {
    assert [a, b][1..] == [b];
    assert GetPath(Table(m), [a, b]) == GetPath(m[a], [b]);
    assert [b][1..] == [];
    assert GetPath(m[a], [b]) == GetPath(m[a].entries[b], []);
  }

  /** Walking a path in two parts is walking the first part and then the
      second from where it ended: a step that fails gives null, and every
      further step from null stays null. */
  lemma {:induction false} GetPathConcat(v: Value, p: seq<string>, q: seq<string>)
    ensures GetPath(v, p + q) == GetPath(GetPath(v, p), q)
    decreases |p|
  {
    if p == [] {
      assert p + q == q;
    } else {
      assert (p + q)[0] == p[0] && (p + q)[1..] == p[1..] + q;
      if v.Table? && p[0] in v.entries && v.entries[p[0]] != Null {
        GetPathConcat(v.entries[p[0]], p[1..], q);
      }
    }
  }

  /** A dotted type `a.rest` is looked up by taking the entry `a` and then
      looking up `rest` inside it, for a first part without a dot. */
  lemma LookupStepwise(config: map<string, Value>, a: string, rest: string)
    requires '.' !in a
    ensures Lookup(config, a + "." + rest) == GetPath(GetPath(Table(config), [a]), Split(rest, "."))
  {
    SplitPlainPrefix(a, rest, ".");
    GetPathConcat(Table(config), [a], Split(rest, "."));
  }

  /** The default table has no `find.success` entry. */
  lemma LookupFindSuccess()
    ensures Lookup(Defaults(), "find.success") == Null
  {
    assert "find.success" == "find" + "." + "success";
    LookupTwo(Defaults(), "find", "success");
  }

  /** The default table has no `bogus` entry. */
  lemma LookupBogus()
    ensures Lookup(Defaults(), "bogus") == Null
  {
    NoOccurrenceWithoutFirstChar("bogus", ".");
    SplitWithoutOccurrence("bogus", ".");
  }

  /** In the default table `find` has no `success` entry and `bogus` is not
      an action, so both types are invalid. */
  lemma DefaultInvalidTypes(subjectName: string, translate: (Value, string) -> string)
    ensures Resolve(Defaults(), Some("find.success"), subjectName, translate) == Err(InvalidFlashType)
    ensures Resolve(Defaults(), Some("bogus"), subjectName, translate) == Err(InvalidFlashType)
  {
    LookupFindSuccess();
    LookupBogus();
  }

  // ---------------------------------------------------------------------------
  // Resolution

  /** Sub-fields the entry has are taken from it; the others get the
      defaults null, null, an empty table and "flash". */
  lemma FillsDefaults(config: map<string, Value>, flashType: string, subjectName: string,
                      translate: (Value, string) -> string)
    requires Resolve(config, Some(flashType), subjectName, translate).Ok?
    ensures var d := Resolve(config, Some(flashType), subjectName, translate).value;
      var e := Lookup(config, flashType).entries;
      && d.element == (if "element" in e then e["element"] else Null)
      && d.params == (if "params" in e then e["params"] else Table(map[]))
      && d.key == (if "key" in e then e["key"] else Str("flash"))
      && d.message == translate(Get(config, "domain"),
           Insert(if "message" in e then TextOf(e["message"]) else "", "name", DisplayName(config, subjectName)))
  {
  }

  /** A non-empty configured name wins; otherwise the subject's name is used. */
  lemma DisplayNameChoice(config: map<string, Value>, subjectName: string)
    ensures Get(config, "name").Str? && Truthy(Get(config, "name").s) ==>
      DisplayName(config, subjectName) == Get(config, "name").s
    ensures Empty(Get(config, "name")) ==> DisplayName(config, subjectName) == subjectName
  {
  }

  /** A message template without `{name}` reaches the translation unchanged. */
  lemma MessageWithoutPlaceholder(config: map<string, Value>, flashType: string, subjectName: string,
                                  translate: (Value, string) -> string)
    requires Resolve(config, Some(flashType), subjectName, translate).Ok?
    requires var e := Lookup(config, flashType).entries;
      "message" in e && !Occurs(TextOf(e["message"]), Placeholder("name"))
    ensures Resolve(config, Some(flashType), subjectName, translate).value.message
      == translate(Get(config, "domain"), TextOf(Lookup(config, flashType).entries["message"]))
  {
    var text := TextOf(Lookup(config, flashType).entries["message"]);
    ReplaceWithoutOccurrence(text, Placeholder("name"), DisplayName(config, subjectName));
  }

  /** The translation function left as the identity on the message. */
  function Untranslated(domain: Value, message: string): (translated: string)
  {
    message
  }

  /** `create.success` selects the default entry for a successful create. */
  lemma LookupCreateSuccess()
    ensures Lookup(Defaults(), "create.success") == Entry("Successfully created {name}", "success")
  {
    assert "create.success" == "create" + "." + "success";
    LookupTwo(Defaults(), "create", "success");
    var create := Defaults()["create"];
    assert create.entries["success"] == Entry("Successfully created {name}", "success");
    GetPathTwo(Defaults(), "create", "success");
  }

  /** An unfolding step for the scenarios below: `Resolve` on a truthy type
      whose entry is a given non-empty table. */
  lemma ResolveEntry(config: map<string, Value>, flashType: string, subjectName: string,
                     translate: (Value, string) -> string, e: map<string, Value>)
    requires Truthy(flashType) && Lookup(config, flashType) == Table(e) && e != map[]
    ensures var filled := FlashDefaults() + e;
      Resolve(config, Some(flashType), subjectName, translate)
        == Ok(Directive(translate(Get(config, "domain"), Insert(TextOf(filled["message"]), "name", DisplayName(config, subjectName))),
                        filled["element"], filled["params"], filled["key"]))
  {
  }

  /** A default entry with the defaults filled in. */
  lemma FilledEntry(message: string, element: string)
    ensures var filled := FlashDefaults() + Entry(message, element).entries;
      filled["message"] == Str(message) && filled["element"] == Str(element)
      && filled["params"] == Table(map[]) && filled["key"] == Str("flash")
  {
  }

  /** A template that is plain text followed by the placeholder. */
  lemma InsertAfterPlain(prefix: string, key: string, val: string)
    requires '{' !in prefix
    ensures Insert(prefix + Placeholder(key), key, val) == prefix + val
  {
    var pat := Placeholder(key);
    assert pat + [] == pat;
    ReplacePlainPrefix(prefix, pat, pat, val);
    ReplaceAtOccurrence([], pat, val);
    assert val + [] == val;
  }

  /** `create.success` resolves to its default entry, before the message is substituted. */
  lemma ResolveCreateSuccess(name: string)
    ensures Resolve(Defaults(), Some("create.success"), name, Untranslated)
      == Ok(Directive(Insert("Successfully created {name}", "name", name), Str("success"), Table(map[]), Str("flash")))
  {
    LookupCreateSuccess();
    FilledEntry("Successfully created {name}", "success");
    assert DisplayName(Defaults(), name) == name;
    ResolveEntry(Defaults(), "create.success", name, Untranslated,
                 Entry("Successfully created {name}", "success").entries);
  }

  /** The create-success template with the name substituted. */
  lemma InsertCreateSuccess(name: string)
    ensures Insert("Successfully created {name}", "name", name) == "Successfully created " + name
  {
    assert "Successfully created {name}" == "Successfully created " + Placeholder("name");
    InsertAfterPlain("Successfully created ", "name", name);
  }

  /** `create.success` with the default table: for the subject name `Widget`
      the message is `Successfully created Widget`, and likewise for any name. */
  lemma CreateSuccessScenario(name: string)
    ensures Resolve(Defaults(), Some("create.success"), name, Untranslated)
      == Ok(Directive("Successfully created " + name, Str("success"), Table(map[]), Str("flash")))
  {
    ResolveCreateSuccess(name);
    InsertCreateSuccess(name);
  }

  /** `error.invalid_id` selects the default entry for an invalid id. */
  lemma LookupInvalidId()
    ensures Lookup(Defaults(), "error.invalid_id") == Entry("Invalid id", "error")
  {
    assert "error.invalid_id" == "error" + "." + "invalid_id";
    LookupTwo(Defaults(), "error", "invalid_id");
    var errors := Defaults()["error"];
    assert errors.entries["invalid_id"] == Entry("Invalid id", "error");
    GetPathTwo(Defaults(), "error", "invalid_id");
  }

  /** `error.invalid_id`: a message without the placeholder comes through as written. */
  lemma InvalidIdScenario(subjectName: string)
    ensures Resolve(Defaults(), Some("error.invalid_id"), subjectName, Untranslated)
      == Ok(Directive("Invalid id", Str("error"), Table(map[]), Str("flash")))
  {
    LookupInvalidId();
    NoOccurrenceWithoutFirstChar("Invalid id", Placeholder("name"));
    ReplaceWithoutOccurrence("Invalid id", Placeholder("name"), DisplayName(Defaults(), subjectName));
    FilledEntry("Invalid id", "error");
    ResolveEntry(Defaults(), "error.invalid_id", subjectName, Untranslated, Entry("Invalid id", "error").entries);
  }
}
