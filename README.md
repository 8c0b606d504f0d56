# CRUD plugin event listeners in Dafny

This project models two event listeners of a CakePHP CRUD plugin and proves
properties of the model.

- **SearchListener** (module `Search`) keeps a configuration with two
  optional fields: `conditions` and `searchTerm`.
  - On `init` it fills in whichever field is still null. The default condition
    is `"<alias>.<displayField> LIKE" => "{searchTerm}%"`. The search term comes
    from the query parameter `q`.
  - On `beforePaginate` it changes the paginator settings in place. With no search
    term it does nothing. Otherwise it edits the bucket of the model's alias if
    one exists, else the top-level settings.
  - A callable condition replaces the settings it is given with its return value
    when that value is truthy.
  - A template condition has `{searchTerm}` substituted into every value. The
    result is appended to the `conditions` list, unless it comes out empty or falsy.
- **TranslationsEvent** (module `Translations`) resolves a flash directive from a
  dotted `type` such as `create.success`.
  - A missing type or an unknown type is an error.
  - Sub-fields the entry lacks get defaults.
  - The display name is the configured `name`, or else the subject's name.
  - `{name}` in the message is replaced by that display name.
  - On success, `message`, `element`, `params` and `key` are written onto the subject.
- **Shared text logic** (module `Strings`).
  - `String::insert` with one key and the delimiters `{` `}` is `Strings.Insert`: every
    occurrence of `{key}` is replaced, left to right, without overlaps.
  - PHP's `explode`/`implode` are `Strings.Split`/`Strings.Join`. `Split` also cuts the
    dotted path for `Hash::get`.
- `Common` holds `Option`, `Result` and PHP's truthiness of strings: `""` and
  `"0"` are falsy.

Paginator settings are the datatype `Search.Settings`. It holds the ordered
`conditions` list, which is `None` while the array has no `conditions` key (PHP
tells that apart from an empty list, and so does the model), the scalar options (`page`, `limit`, ...) and the buckets keyed
by model alias. The listener edits a `Search.Paginator` object in place. The
configured condition is a tagged variant: `Template` (a map), `Fragment` (a
string) or `Strategy` (an opaque function). A `Strategy` returns `None` where the
PHP callable returns null or false.

Where the source's comment and its code disagree, the model follows the code. The
doc comment at `Controller/Event/SearchListener.php:13` promises `"%bar%"`, but line
65 builds `"{searchTerm}%"`, so the model produces `"bar%"`.

## Model

| member | source | states |
|---|---|---|
| `Strings.Replace` | Controller/Event/SearchListener.php:132 | a text shorter than the placeholder comes through substitution unchanged |
| `Strings.Insert` | Controller/Event/TranslationsEvent.php:134 | `String::insert` with `{`/`}` delimiters leaves a text shorter than `{key}` unchanged |
| `Strings.InsertWithoutBrace` | Controller/Event/TranslationsEvent.php:134 | a text without any `{` comes through `String::insert` unchanged |
| `Common.Truthy` | Controller/Event/SearchListener.php:138 | a truthy string is non-empty, and every string of two or more characters is truthy (only `""` and `"0"` are falsy) |
| `Strings.Split` | Controller/Event/TranslationsEvent.php:127 | explode always yields at least one piece |
| `Strings.ReplaceIsJoinOfSplit` | Controller/Event/SearchListener.php:128-135 | substitution equals cutting the text at every placeholder and joining the pieces with the value |
| `Strings.SplitJoinRoundTrip` | Controller/Event/TranslationsEvent.php:127 | joining the pieces of a dotted type with "." gives the type back |
| `Strings.PiecesHaveNoSeparator` | Controller/Event/TranslationsEvent.php:127 | no piece of a split path contains the separator |
| `Strings.ReplaceBySelf` | Controller/Event/TranslationsEvent.php:134 | substituting the placeholder by itself leaves any text unchanged |
| `Strings.ReplaceWithoutOccurrence` | Controller/Event/TranslationsEvent.php:134 | a text without the placeholder comes through substitution unchanged |
| `Strings.SplitWithoutOccurrence` | Controller/Event/TranslationsEvent.php:127 | a path without a dot is a single key |
| `Strings.InsertLeavesNoBrace` | Controller/Event/SearchListener.php:132 | if every `{` of the template opens the placeholder and the value has no `{`, the result has no `{` and no placeholder |
| `Strings.ReplacePlainPrefix` | Controller/Event/TranslationsEvent.php:134 | text before the first `{` is copied, and substitution continues after it |
| `Strings.SplitPlainPrefix` | Controller/Event/TranslationsEvent.php:127 | the text before the first separator is the first piece |
| `Search.Defaults` | Controller/Event/SearchListener.php:26-29 | both `conditions` and `searchTerm` default to null |
| `Search.Merge` | Controller/Event/SearchListener.php:40-45 | a field the override gives replaces the current one, and a field it leaves out keeps its current value |
| `Search.NonEmpty` | Controller/Event/SearchListener.php:122 | a returned settings array is truthy iff it has any key: a `conditions` key (even holding `[]`), an option or a bucket |
| `Search.SubstituteValues` | Controller/Event/SearchListener.php:130-133 | the foreach rewrites the template's values in place, so the keys stay exactly the same |
| `Search.SubstituteKeepsPlainValues` | Controller/Event/SearchListener.php:130-133 | a template value without any `{` comes through the foreach unchanged |
| `Search.DefaultCondition` | Controller/Event/SearchListener.php:64-66 | the derived condition is a template with exactly one key, `alias.displayField LIKE` |
| `Search.InitConfig` | Controller/Event/SearchListener.php:61-73 | after `init` a condition is always set, and a search term is set iff one was set before or `q` is in the query |
| `Search.Append` | Controller/Event/SearchListener.php:139 | the clause goes last in the `conditions` list, which is created when the key is absent; options and buckets are kept; the settings always change |
| `Search.WithCondition` | Controller/Event/SearchListener.php:118-141 | except with a callable, the settings are either unchanged or have exactly one clause appended |
| `Search.Paginated` | Controller/Event/SearchListener.php:83-98 | with a null search term or a null condition the settings are unchanged |
| `Search.SearchListener.constructor` | Controller/Event/SearchListener.php:26-45 | the config is the defaults overridden by the given fields; with no override both fields are null |
| `Search.SearchListener.Configure` | Test/Case/Controller/Event/SearchListenerTest.php:54-82 | `config(array)` replaces the fields it gives and keeps the others |
| `Search.SearchListener.SetConditions` | Test/Case/Controller/Event/SearchListenerTest.php:198-201 | `config('conditions', v)` sets that field only |
| `Search.SearchListener.SetSearchTerm` | Test/Case/Controller/Event/SearchListenerTest.php:134 | `config('searchTerm', v)` sets that field only |
| `Search.SearchListener.Init` | Controller/Event/SearchListener.php:61-73 | the new config is `InitConfig` of the old config, the model and the query |
| `Search.SearchListener.BeforePaginate` | Controller/Event/SearchListener.php:83-98 | the paginator's new settings are `Paginated` of the config, the model and the old settings; nothing else changes |
| `Search.SearchListener.AddConditions` | Controller/Event/SearchListener.php:118-141 | the result is `WithCondition` of the configured condition; the foreach rewrites every template value under the same key |
| `Search.InitCondition` | Controller/Event/SearchListener.php:62-68 | a null condition becomes exactly one entry `alias.displayField LIKE => {searchTerm}%`; a set condition is kept |
| `Search.InitSearchTerm` | Controller/Event/SearchListener.php:70-72 | the search term changes iff it was null and `q` is present, and then it becomes `q` |
| `Search.InitIdempotent` | Controller/Event/SearchListener.php:61-73 | running `init` twice gives the config of running it once |
| `Search.InitKeepsSetFields` | Controller/Event/SearchListener.php:61-73 | after `init` a condition is always set, and a set search term is never replaced |
| `Search.PaginateWithoutTerm` | Controller/Event/SearchListener.php:84-87 | with a null search term the settings are unchanged |
| `Search.PaginateTargetsBucket` | Controller/Event/SearchListener.php:93-94 | with a bucket for the alias only that bucket changes; top-level conditions, options and other buckets are kept |
| `Search.PaginateTargetsTopLevel` | Controller/Event/SearchListener.php:95-97 | without a bucket the top-level settings are edited |
| `Search.TemplateAppends` | Controller/Event/SearchListener.php:128-139 | a non-empty template is appended last, with the same keys and the term in every value; earlier conditions stay in order; options and buckets are kept |
| `Search.FalsyConditionNotAppended` | Controller/Event/SearchListener.php:138-140 | an empty template, or a fragment that substitutes to a falsy string, adds nothing |
| `Search.StrategyReplacesOrKeeps` | Controller/Event/SearchListener.php:120-126 | a callable result that is an array with at least one key (a `conditions` key holding `[]` included) replaces the settings wholesale; null, false or an empty array leaves them unchanged |
| `Search.StrategyMayClearConditions` | Controller/Event/SearchListener.php:120-126 | a callable that returns the settings with `conditions => []` drops the existing conditions, since that array is truthy |
| `Search.FragmentAppends` | Controller/Event/SearchListener.php:134-139 | a string condition that substitutes to a truthy string is appended last as that string; earlier conditions, options and buckets are kept |
| `Search.ConditionAppendedIff` | Controller/Event/SearchListener.php:128-140 | for a template or a string condition the settings change iff the substituted condition is truthy (a non-empty map, or a string other than `""` and `"0"`) |
| `Search.DefaultTemplateValue` | Controller/Event/SearchListener.php:65 | the default template turns any term T into `T%` |
| `Search.DefaultConditionAppends` | Controller/Event/SearchListener.php:64-65 | the default condition appends `alias.displayField LIKE => T%` |
| `Search.DefaultFlow` | Controller/Event/SearchListener.php:61-98 | after `init`, a term T with no bucket for the alias appends `alias.displayField LIKE => T%` to the top-level conditions |
| `Search.FreshListenerFlow` | Controller/Event/SearchListener.php:61-98 | fresh listener, `init` with `q`, then `beforePaginate` without a bucket appends `alias.displayField LIKE => q%` |
| `Search.PresetTermFlow` | Controller/Event/SearchListener.php:61-98 | with a search term configured beforehand, `init` keeps it and `beforePaginate` appends `alias.displayField LIKE => term%` |
| `Search.RequestScenario` | Controller/Event/SearchListener.php:9-13 | for every `q` (e.g. `bar`) and any options, `?q=...` on `Foo`/`title` turns settings without conditions into the conditions `[Foo.title LIKE => q%]`, so `bar%` and not `%bar%`; the options are kept |
| `Search.ConfiguredTermScenario` | Test/Case/Controller/Event/SearchListenerTest.php:133-156 | a preset term T (the test uses `foo`) turns settings without conditions into `[Post.title LIKE => T%]`, options kept |
| `Search.NoClobberScenario` | Test/Case/Controller/Event/SearchListenerTest.php:158-187 | the existing `%something%` condition is kept and `Post.title LIKE => T%` follows it |
| `Search.CallableScenario` | Test/Case/Controller/Event/SearchListenerTest.php:189-220 | the settings become exactly what the callable returned, options included |
| `Translations.Defaults` | Controller/Event/TranslationsEvent.php:30-79 | the built-in table has domain `crud` and a null name |
| `Translations.GetPath` | Controller/Event/TranslationsEvent.php:127 | a non-null result of a non-empty path means the first key is set, to a non-null value, in a table |
| `Translations.GetPathConcat` | Controller/Event/TranslationsEvent.php:127 | walking `p + q` equals walking `p` and then `q` from where it ended; a failed step stays null |
| `Translations.LookupStepwise` | Controller/Event/TranslationsEvent.php:127 | the type `a.rest` looks up entry `a`, then `rest` inside it |
| `Translations.Lookup` | Controller/Event/TranslationsEvent.php:127 | a non-null lookup means the first dotted part of the type is a key of the configuration |
| `Translations.Empty` | Controller/Event/TranslationsEvent.php:121-128 | `empty()` holds exactly for null, `""`, `"0"` and the empty array |
| `Translations.DisplayName` | Controller/Event/TranslationsEvent.php:132 | the display name differs from the subject's name only when a non-empty name is configured |
| `Translations.FlashDefaults` | Controller/Event/TranslationsEvent.php:133 | the defaults cover exactly `message`, `element`, `params` and `key` |
| `Translations.Resolve` | Controller/Event/TranslationsEvent.php:120-139 | resolution succeeds iff the type is present and truthy and its lookup is a non-empty table |
| `Translations.TranslationsEvent.constructor` | Controller/Event/TranslationsEvent.php:90-95 | the config is the defaults overridden key by key; with no override it is the defaults, with domain `crud` |
| `Translations.TranslationsEvent.GetDefaults` | Controller/Event/TranslationsEvent.php:97-99 | returns the built-in table, whatever the current config is |
| `Translations.TranslationsEvent.Configure` | Controller/Event/TranslationsEvent.php:92-94 | `config(array)` overrides the top-level keys it gives |
| `Translations.TranslationsEvent.SetFlash` | Controller/Event/TranslationsEvent.php:120-140 | returns `Resolve` of the config and the subject; on an error the subject is unchanged; on success exactly message, element, params and key are written |
| `Translations.MissingType` | Controller/Event/TranslationsEvent.php:121-123 | the result is "missing flash type" iff the type is null, "" or "0" |
| `Translations.InvalidType` | Controller/Event/TranslationsEvent.php:127-130 | for a present type, the result is "invalid flash type" iff its dotted lookup is empty |
| `Translations.LookupTwo` | Controller/Event/TranslationsEvent.php:127 | a type `a.b` looks up key `a`, then key `b` |
| `Translations.GetPathTwo` | Controller/Event/TranslationsEvent.php:127 | a two-step path reaches the nested entry |
| `Translations.DefaultInvalidTypes` | Controller/Event/TranslationsEvent.php:63-68 | with the default table, `find.success` and `bogus` are invalid types |
| `Translations.FillsDefaults` | Controller/Event/TranslationsEvent.php:133 | fields present in the entry are kept; missing ones become message null, element null, params `{}` and key `flash` |
| `Translations.FilledEntry` | Controller/Event/TranslationsEvent.php:133 | a default entry gets empty params and key `flash` and keeps its message and element |
| `Translations.DisplayNameChoice` | Controller/Event/TranslationsEvent.php:132 | a non-empty configured name wins; an empty or null one gives the subject's name |
| `Translations.MessageWithoutPlaceholder` | Controller/Event/TranslationsEvent.php:134 | a message without `{name}` reaches the translation unchanged |
| `Translations.InsertAfterPlain` | Controller/Event/TranslationsEvent.php:134 | a template of `{`-free text followed by `{key}` becomes that text followed by the value |
| `Translations.CreateSuccessScenario` | Controller/Event/TranslationsEvent.php:33-37 | `create.success` with any subject name N (e.g. `Widget`) gives `Successfully created N`, element `success`, params empty and key `flash` |
| `Translations.InvalidIdScenario` | Controller/Event/TranslationsEvent.php:74-77 | `error.invalid_id` gives `Invalid id` unchanged |

## Left out

- Framework machinery is not modelled: `CakeEvent` dispatch, both `implementedEvents` registrations, `Components->load('Paginator')`, `ClassRegistry` and `CakeRequest` query parsing. The model, the query (a map from string to string) and the paginator are plain inputs.
- `SearchListener::setFlash` (Controller/Event/SearchListener.php:107-108) has an empty body, so it is not modelled.
- `__d` is a foreign call. It is the parameter `translate`, an uninterpreted function of the domain value and the message.
- `CrudBaseEvent::config` is not shown in the source. `config(array)` is a shallow override. `config(key, value)` sets one field.
- `Search.SearchListener.Configure`: an override cannot set a field back to null, because `None` means "not given".
- `String::insert` is modelled for one key only. Its escape handling (`\{...}` is not replaced) and its temporary crc32 hashes are left out.
- `Strings.InsertLeavesNoBrace`: this claim is weaker than "the result has no `{key}` whenever the value has none". That broader claim is false for some templates, and `String::insert` behaves the same way. Example: key `ab`, value `a` and template `{{ab}b}` give `{ab}`. So the placeholder-free result is proved only for templates in which every `{` opens the placeholder.
- `Search.SearchListener.AddConditions`: it substitutes the term it is passed. The source re-reads `config('searchTerm')`, but its only caller passes that same value.
- PHP `is_callable` is also true for a string that names a function. The model treats every string condition as a `Fragment`.
- PHP arrays keep their key order, and one key space holds options, `conditions` and alias buckets. Not modelled:
  - the order of keys inside a condition map;
  - an alias that collides with `conditions` or an option name;
  - a bucket or `conditions` entry holding a value that is not an array.
- `Translations.Resolve`: a type that resolves to a non-empty non-table value (for example `domain`) returns `Err(UnsupportedEntry)`. PHP would stop with a fatal error at `+=` at that point.
- Other PHP loose-typing cases are not modelled. Configuration values are null, strings or tables, with no integers or booleans, and the subject's name is always a string. A null or table message is substituted as the empty string, as `String::insert` does with null.
