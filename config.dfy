/**
 * The user settings shared by the tools (my_engineer/shared_utils/config.py): a dictionary
 * with two defaults, updated in place by `set` and read with a fallback by `get`.
 *
 * The process-wide instance that `get_config` returns is left out: the model passes a
 * `Config` to whoever reads it.
 */
module Settings {

  /** A setting's value: a string, a boolean, or None. */
  datatype Value = Str(s: string) | Bool(b: bool) | NoneValue

  const DefaultEntries: map<string, Value> := map["editor" := Str("vscode"), "use_cursor" := Bool(false)]

  /** `dict.get(key, default)`. */
  function Lookup(entries: map<string, Value>, key: string, default: Value): (r: Value)
    ensures key in entries ==> r == entries[key]
    ensures key !in entries ==> r == default
  {
    if key in entries then entries[key] else default
  }

  class Config {
    var entries: map<string, Value>

    /** The defaults: the VS Code editor, without Cursor. */
    constructor ()
      ensures entries == DefaultEntries
    {
      entries := DefaultEntries;
    }

    /** `set`: stores `value` under `key` and leaves every other key as it was. */
    method Set(key: string, value: Value)
      modifies this
      ensures entries == old(entries)[key := value]
    {
      entries := entries[key := value];
    }

    /** `get`. */
    function Get(key: string, default: Value): (r: Value)
      reads this
      ensures key in entries ==> r == entries[key]
      ensures key !in entries ==> r == default
    {
      Lookup(entries, key, default)
    }

    /** The `use_cursor` property. */
    function UseCursor(): (r: Value)
      reads this
      ensures "use_cursor" in entries ==> r == entries["use_cursor"]
      ensures "use_cursor" !in entries ==> r == Bool(false)
    {
      Get("use_cursor", Bool(false))
    }

    /** The `editor` property. */
    function Editor(): (r: Value)
      reads this
      ensures "editor" in entries ==> r == entries["editor"]
      ensures "editor" !in entries ==> r == Str("vscode")
    {
      Get("editor", Str("vscode"))
    }
  }

  /** After `set(key, value)`, `get(key)` returns `value` whatever the default. */
  lemma SetThenGet(entries: map<string, Value>, key: string, value: Value, default: Value)
    ensures Lookup(entries[key := value], key, default) == value
  {
  }

  /** `set(key, value)` changes what `get` returns for `key` only. */
  lemma SetKeepsOthers(entries: map<string, Value>, key: string, value: Value, other: string, default: Value)
    requires other != key
    ensures Lookup(entries[key := value], other, default) == Lookup(entries, other, default)
  {
  }

  /** A fresh configuration reads as the VS Code editor without Cursor, and anything else as the default. */
  lemma Defaults(key: string, default: Value)
    ensures Lookup(DefaultEntries, "editor", Str("vscode")) == Str("vscode")
    ensures Lookup(DefaultEntries, "use_cursor", Bool(false)) == Bool(false)
    ensures key != "editor" && key != "use_cursor" ==> Lookup(DefaultEntries, key, default) == default
  {
  }
}
