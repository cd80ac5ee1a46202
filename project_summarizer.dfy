/**
 * The per-file summary cache (my_engineer/shared_utils/project_summarizer.py): a dict from
 * path to summary that `update_summaries` brings in line with the tracked files, adding a
 * summary for each new file and deleting the entries of removed ones.
 *
 * The dict keeps insertion order, so it is a key list with a map. The model call that
 * writes a summary is the parameter `summarize` (`None` when reading or the call raises);
 * the tracked files are a parameter; loading and saving the YAML file are left out, and
 * whether the cache would be saved is returned.
 */
module ProjectSummarizer {
  import opened Wrappers
  import opened Text

  /** The dict's keys listed once each, in insertion order. */
  ghost predicate InSync(keys: seq<string>, table: map<string, string>) {
    Distinct(keys) && forall k :: k in table <==> k in keys
  }

  predicate Distinct(keys: seq<string>) {
    forall i, j :: 0 <= i < j < |keys| ==> keys[i] != keys[j]
  }

  /** The keys outside `drop`, in order. */
  function Without(keys: seq<string>, drop: set<string>): seq<string> {
    if keys == [] then []
    else
      var last := keys[|keys| - 1];
      Without(keys[..|keys| - 1], drop) + (if last in drop then [] else [last])
  }

  /** `_generate_summary`: the stripped reply, or "" when reading the file or the call fails. */
  function SummaryOf(summarize: string -> Option<string>, file: string): string {
    match summarize(file)
    case Some(s) => Strip(s)
    case None => ""
  }

  /** `sanitize_for_yaml`: quotes become double quotes, double quotes are escaped, and so is ": ". */
  function SanitizeForYaml(text: string): (r: string)
    ensures '\'' !in r
  {
    var t1 := Replace(text, "'", "\"");
    ReplaceRemoves(text, '\'', "\"");
    assert "'" == ['\''];
    var t2 := Replace(t1, "\"", "\\\"");
    ReplaceKeepsOut(t1, "\"", "\\\"", '\'');
    ReplaceKeepsOut(t2, ": ", "\\: ", '\'');
    Replace(t2, ": ", "\\: ")
  }

  /** The keys after an update: the kept ones, and the new files that got a non-empty summary. */
  function KeysAfter(existing: set<string>, current: set<string>, summarize: string -> Option<string>): set<string> {
    (existing * current) + set f | f in current && f !in existing && SummaryOf(summarize, f) != ""
  }

  /** One entry of the text given to the model: "path:", the stripped summary and a blank line. */
  function Entry(path: string, summary: string): string {
    if Strip(summary) != "" then path + ":\n" + Strip(summary) + "\n\n" else ""
  }

  function Entries(keys: seq<string>, table: map<string, string>): string
    requires forall k :: k in keys ==> k in table
  {
    if keys == [] then ""
    else Entries(keys[..|keys| - 1], table) + Entry(keys[|keys| - 1], table[keys[|keys| - 1]])
  }

  class Summarizer {
    var keys: seq<string>
    var summaries: map<string, string>

    ghost predicate Valid()
      reads this
    {
      InSync(keys, summaries)
    }

    /** `__init__` with the loaded cache (`{}` when there is no cache file). */
    constructor(loadedKeys: seq<string>, loaded: map<string, string>)
      requires InSync(loadedKeys, loaded)
      ensures Valid() && keys == loadedKeys && summaries == loaded
    {
      keys := loadedKeys;
      summaries := loaded;
    }

    /** `get_summary`: the stored summary, "" for an unknown path. */
    function GetSummary(path: string): (r: string)
      reads this
      ensures path !in summaries ==> r == ""
      ensures path in summaries ==> r == summaries[path]
    {
      if path in summaries then summaries[path] else ""
    }

    /**
     * `update_summaries` for the tracked files `current`: removed files lose their entries,
     * the others keep theirs in their order, and each new file gets its sanitised summary,
     * appended, only when that summary is not empty. The result says whether the cache is
     * saved: exactly when some file is new or removed.
     */
    method UpdateSummaries(current: set<string>, summarize: string -> Option<string>) returns (saved: bool)
      requires Valid()
      modifies this
      ensures Valid()
      ensures forall f :: f in summaries <==> f in KeysAfter(old(summaries).Keys, current, summarize)
      ensures forall f :: f in summaries ==>
                summaries[f] == if f in old(summaries) then old(summaries)[f] else SanitizeForYaml(SummaryOf(summarize, f))
      ensures Without(old(keys), old(summaries).Keys - current) <= keys
      ensures saved <==> current != old(summaries).Keys
    {
      var existing := summaries.Keys;
      var newFiles := current - existing;
      var removed := existing - current;
      AddSummaries(newFiles, summarize);
      ghost var added := keys[|old(keys)|..];
      SplitAt(keys, |old(keys)|);
      AddedInSync(old(keys), old(summaries), added, summaries);
      ghost var between := summaries;
      RemoveSummaries(removed);
      RemovedInSync(old(keys) + added, between, removed);
      WithoutAppend(old(keys), added, removed);
      WithoutNone(added, removed);
      saved := newFiles != {} || removed != {};
    }

    /** The loop over the new files: each gets its sanitised summary, appended, when it is not empty. */
    method AddSummaries(newFiles: set<string>, summarize: string -> Option<string>)
      requires newFiles !! summaries.Keys
      modifies this
      ensures |old(keys)| <= |keys| && keys[..|old(keys)|] == old(keys)
      ensures Distinct(keys[|old(keys)|..])
      ensures forall k :: k in keys[|old(keys)|..] <==> k in newFiles && SummaryOf(summarize, k) != ""
      ensures forall k :: k in summaries <==> k in old(summaries) || k in keys[|old(keys)|..]
      ensures forall k :: k in summaries ==>
                summaries[k] == if k in old(summaries) then old(summaries)[k] else SanitizeForYaml(SummaryOf(summarize, k))
    {
      var todo := newFiles;
      ghost var added: seq<string> := [];
      ghost var done: set<string> := {};
      AddingStart(keys, summaries, newFiles, summarize);
      while todo != {}
        invariant Adding(old(keys), old(summaries), newFiles, summarize, keys, summaries, added, done, todo)
        decreases |todo|
      {
        NonEmpty(todo);
        var f :| f in todo;
        var summary := SummaryOf(summarize, f);
        if summary != "" {
          AddingAppend(old(keys), old(summaries), newFiles, summarize, keys, summaries, added, done, todo, f);
        } else {
          AddingSkip(old(keys), old(summaries), newFiles, summarize, keys, summaries, added, done, todo, f);
        }
        todo := todo - {f};
        done := done + {f};
        if summary != "" {
          keys := keys + [f];
          added := added + [f];
          summaries := summaries[f := SanitizeForYaml(summary)];
        }
      }
      AddingDone(old(keys), old(summaries), newFiles, summarize, keys, summaries, added, done);
    }

    /** The loop over the removed files: each entry deleted. */
    method RemoveSummaries(removed: set<string>)
      requires removed <= summaries.Keys
      modifies this
      ensures summaries == old(summaries) - removed
      ensures keys == Without(old(keys), removed)
    {
      var gone := removed;
      ghost var done: set<string> := {};
      WithoutNone(keys, {});
      assert summaries == old(summaries) - done;
      while gone != {}
        invariant done + gone == removed && done !! gone
        invariant summaries == old(summaries) - done
        invariant keys == Without(old(keys), done)
        decreases |gone|
      {
        var f :| f in gone;
        WithoutMore(old(keys), done, f);
        MoveOne(done, gone, removed, f);
        RemoveMore(old(summaries), done, f);
        gone := gone - {f};
        done := done + {f};
        keys := Without(keys, {f});
        summaries := summaries - {f};
      }
      assert done == removed;
    }

    /**
     * `format_summary_for_llm`: "path:\n<summary>\n\n" for each entry whose summary is not
     * blank, in dict order, the whole stripped.
     */
    method FormatSummaryForLlm() returns (r: string)
      requires Valid()
      ensures r == Strip(Entries(keys, summaries))
    {
      var content := "";
      for i := 0 to |keys|
        invariant content == Entries(keys[..i], summaries)
      {
        assert keys[..i + 1][..i] == keys[..i];
        var summary := summaries[keys[i]];
        if Strip(summary) != "" {
          content := content + (keys[i] + ":\n" + Strip(summary) + "\n\n");
        }
      }
      assert keys[..|keys|] == keys;
      r := Strip(content);
    }
  }

  // ---------------------------------------------------------------------------
  // Helpers of the removal loop
  // ---------------------------------------------------------------------------

  lemma {:induction false} WithoutMore(keys: seq<string>, drop: set<string>, f: string)
    ensures Without(keys, drop + {f}) == Without(Without(keys, drop), {f})
    decreases |keys|
  {
    if keys != [] {
      var init := keys[..|keys| - 1];
      var last := keys[|keys| - 1];
      WithoutMore(init, drop, f);
      var w := Without(init, drop);
      if last in drop {
        assert Without(keys, drop) == w + [];
        assert w + [] == w;
      } else {
        var full := w + [last];
        assert Without(keys, drop) == full;
        assert full[..|full| - 1] == w;
        assert Without(full, {f}) == Without(w, {f}) + (if last in {f} then [] else [last]);
      }
    }
  }

  lemma MoveOne(done: set<string>, gone: set<string>, all: set<string>, f: string)
    requires done + gone == all && done !! gone && f in gone
    ensures (done + {f}) + (gone - {f}) == all && (done + {f}) !! (gone - {f})
  {
  }

  lemma RemoveMore(m: map<string, string>, done: set<string>, f: string)
    ensures (m - done) - {f} == m - (done + {f})
  {
  }

  lemma SplitAt(s: seq<string>, n: nat)
    requires n <= |s|
    ensures s == s[..n] + s[n..]
  {
  }

  /** Appending the new files' keys and entries keeps the key list in step with the dict. */
  lemma AddedInSync(keys: seq<string>, table: map<string, string>, added: seq<string>, table1: map<string, string>)
    requires InSync(keys, table) && Distinct(added) && forall k :: k in added ==> k !in table
    requires forall k :: k in table1 <==> k in table || k in added
    ensures InSync(keys + added, table1)
  {
    forall i, j | 0 <= i < j < |keys + added|
      ensures (keys + added)[i] != (keys + added)[j]
    {
      if i < |keys| && |keys| <= j {
        assert (keys + added)[i] in table;
        assert (keys + added)[j] in added;
      }
    }
  }

  /** Deleting the removed files' keys and entries keeps the key list in step with the dict. */
  lemma RemovedInSync(keys: seq<string>, table: map<string, string>, removed: set<string>)
    requires InSync(keys, table)
    ensures InSync(Without(keys, removed), table - removed)
  {
    WithoutMembers(keys, removed);
    WithoutDistinct(keys, removed);
  }

  lemma AppendSlices(a: seq<string>, b: seq<string>)
    ensures (a + b)[..|a|] == a && (a + b)[|a|..] == b
  {
  }

  /** The state of the loop over the new files: `done` visited, `todo` left, `added` appended. */
  ghost predicate Adding(keys0: seq<string>, table0: map<string, string>, newFiles: set<string>,
                         summarize: string -> Option<string>, keys: seq<string>, table: map<string, string>,
                         added: seq<string>, done: set<string>, todo: set<string>)
  {
    && done + todo == newFiles && done !! todo
    && keys == keys0 + added
    && Distinct(added)
    && (forall k :: k in added <==> k in done && SummaryOf(summarize, k) != "")
    && newFiles !! table0.Keys
    && (forall k :: k in table <==> k in table0 || k in added)
    && (forall k :: k in table ==> table[k] == if k in table0 then table0[k] else SanitizeForYaml(SummaryOf(summarize, k)))
  }

  lemma AddingStart(keys: seq<string>, table: map<string, string>, newFiles: set<string>, summarize: string -> Option<string>)
    requires newFiles !! table.Keys
    ensures Adding(keys, table, newFiles, summarize, keys, table, [], {}, newFiles)
  {
    assert keys + [] == keys;
  }

  /** A visited file with no summary moves from `todo` to `done` and changes nothing else. */
  lemma AddingSkip(keys0: seq<string>, table0: map<string, string>, newFiles: set<string>,
                   summarize: string -> Option<string>, keys: seq<string>, table: map<string, string>,
                   added: seq<string>, done: set<string>, todo: set<string>, f: string)
    requires Adding(keys0, table0, newFiles, summarize, keys, table, added, done, todo)
    requires f in todo && SummaryOf(summarize, f) == ""
    ensures Adding(keys0, table0, newFiles, summarize, keys, table, added, done + {f}, todo - {f})
  {
    MoveOne(done, todo, newFiles, f);
  }

  /** A visited file with a summary is appended to the keys and stored. */
  lemma AddingAppend(keys0: seq<string>, table0: map<string, string>, newFiles: set<string>,
                     summarize: string -> Option<string>, keys: seq<string>, table: map<string, string>,
                     added: seq<string>, done: set<string>, todo: set<string>, f: string)
    requires Adding(keys0, table0, newFiles, summarize, keys, table, added, done, todo)
    requires f in todo && SummaryOf(summarize, f) != ""
    ensures Adding(keys0, table0, newFiles, summarize, keys + [f], table[f := SanitizeForYaml(SummaryOf(summarize, f))],
                   added + [f], done + {f}, todo - {f})
  {
    MoveOne(done, todo, newFiles, f);
    assert f !in added && f !in table0;
    DistinctSnoc(added, f);
    AppendSnoc(keys0, added, f);
    AppendedKeys(added, done, summarize, f);
    StoredEntry(table0, table, added, summarize, f);
  }

  lemma AppendedKeys(added: seq<string>, done: set<string>, summarize: string -> Option<string>, f: string)
    requires forall k :: k in added <==> k in done && SummaryOf(summarize, k) != ""
    requires SummaryOf(summarize, f) != ""
    ensures forall k :: k in added + [f] <==> k in done + {f} && SummaryOf(summarize, k) != ""
  {
    forall k
      ensures k in added + [f] <==> k in done + {f} && SummaryOf(summarize, k) != ""
    {
      assert k in added + [f] <==> k in added || k == f;
    }
  }

  lemma StoredEntry(table0: map<string, string>, table: map<string, string>, added: seq<string>,
                    summarize: string -> Option<string>, f: string)
    requires f !in table0
    requires forall k :: k in table <==> k in table0 || k in added
    requires forall k :: k in table ==> table[k] == if k in table0 then table0[k] else SanitizeForYaml(SummaryOf(summarize, k))
    ensures var table1 := table[f := SanitizeForYaml(SummaryOf(summarize, f))];
            && (forall k :: k in table1 <==> k in table0 || k in added + [f])
            && (forall k :: k in table1 ==> table1[k] == if k in table0 then table0[k] else SanitizeForYaml(SummaryOf(summarize, k)))
  {
    var table1 := table[f := SanitizeForYaml(SummaryOf(summarize, f))];
    forall k
      ensures k in table1 <==> k in table0 || k in added + [f]
    {
      assert k in added + [f] <==> k in added || k == f;
    }
  }

  lemma AddingDone(keys0: seq<string>, table0: map<string, string>, newFiles: set<string>,
                   summarize: string -> Option<string>, keys: seq<string>, table: map<string, string>,
                   added: seq<string>, done: set<string>)
    requires Adding(keys0, table0, newFiles, summarize, keys, table, added, done, {})
    ensures |keys0| <= |keys| && keys[..|keys0|] == keys0
    ensures Distinct(keys[|keys0|..])
    ensures forall k :: k in keys[|keys0|..] <==> k in newFiles && SummaryOf(summarize, k) != ""
    ensures forall k :: k in table <==> k in table0 || k in keys[|keys0|..]
    ensures forall k :: k in table ==> table[k] == if k in table0 then table0[k] else SanitizeForYaml(SummaryOf(summarize, k))
  {
    assert done + {} == done;
    AppendSlices(keys0, added);
  }

  lemma NonEmpty(s: set<string>)
    requires s != {}
    ensures exists f :: f in s
  {
    var f :| f in s;
  }

  lemma AppendSnoc(a: seq<string>, b: seq<string>, f: string)
    ensures a + b + [f] == a + (b + [f])
  {
  }

  lemma DistinctSnoc(keys: seq<string>, f: string)
    requires Distinct(keys) && f !in keys
    ensures Distinct(keys + [f])
  {
  }

  lemma {:induction false} WithoutNone(keys: seq<string>, drop: set<string>)
    requires forall k :: k in keys ==> k !in drop
    ensures Without(keys, drop) == keys
    decreases |keys|
  {
    if keys != [] {
      WithoutNone(keys[..|keys| - 1], drop);
    }
  }

  lemma {:induction false} WithoutMembers(keys: seq<string>, drop: set<string>)
    ensures forall k :: k in Without(keys, drop) <==> k in keys && k !in drop
    decreases |keys|
  {
    if keys != [] {
      WithoutMembers(keys[..|keys| - 1], drop);
      assert keys == keys[..|keys| - 1] + [keys[|keys| - 1]];
    }
  }

  lemma {:induction false} WithoutDistinct(keys: seq<string>, drop: set<string>)
    requires Distinct(keys)
    ensures Distinct(Without(keys, drop))
    decreases |keys|
  {
    if keys != [] {
      var init := keys[..|keys| - 1];
      var last := keys[|keys| - 1];
      WithoutDistinct(init, drop);
      WithoutMembers(init, drop);
      var w := Without(init, drop);
      if last !in drop {
        forall i | 0 <= i < |init|
          ensures init[i] != last
        {
          assert init[i] == keys[i];
        }
        assert last !in init;
        assert last !in w;
        DistinctSnoc(w, last);
      } else {
        assert Without(keys, drop) == w + [];
        assert w + [] == w;
      }
    }
  }

  lemma {:induction false} WithoutAppend(a: seq<string>, b: seq<string>, drop: set<string>)
    ensures Without(a + b, drop) == Without(a, drop) + Without(b, drop)
    decreases |b|
  {
    if b == [] {
      assert a + b == a;
    } else {
      assert (a + b)[..|a + b| - 1] == a + b[..|b| - 1];
      WithoutAppend(a, b[..|b| - 1], drop);
    }
  }

  // ---------------------------------------------------------------------------
  // Properties
  // ---------------------------------------------------------------------------

  /**
   * A new file whose summary is empty or failed gets no entry, so the next update sees it
   * as new again; and a second update with the same files and the same summaries changes
   * no key.
   */
  lemma RetriedAndStable(existing: set<string>, current: set<string>, summarize: string -> Option<string>)
    ensures var after := KeysAfter(existing, current, summarize);
            && (forall f :: f in current && f !in existing && SummaryOf(summarize, f) == "" ==> f in current - after)
            && KeysAfter(after, current, summarize) == after
  {
  }

  /** A text with no quote of either kind and no ':' is left as it is. */
  lemma SanitizePlain(text: string)
    requires '\'' !in text && '"' !in text && ':' !in text
    ensures SanitizeForYaml(text) == text
  {
    ReplaceAbsent(text, "'", "\"");
    ReplaceAbsent(text, "\"", "\\\"");
    ReplaceAbsent(text, ": ", "\\: ");
  }

  /** Entries with a blank summary contribute nothing to the text given to the model. */
  lemma {:induction false} BlankEntriesSkipped(keys: seq<string>, table: map<string, string>)
    requires forall k :: k in keys ==> k in table && IsBlank(table[k])
    ensures Entries(keys, table) == ""
    decreases |keys|
  {
    if keys != [] {
      BlankEntriesSkipped(keys[..|keys| - 1], table);
      StripEmptyIffBlank(table[keys[|keys| - 1]]);
    }
  }

  lemma EntriesSingle(key: string, table: map<string, string>)
    requires key in table
    ensures Entries([key], table) == Entry(key, table[key])
  {
    assert [key][..0] == [];
    assert Entries([], table) == "";
  }

  /** A single entry is formatted as "path:" on one line and the stripped summary after it. */
  lemma OneEntry(path: string, summary: string)
    requires path != [] && !IsSpace(path[0]) && !IsBlank(summary)
    ensures Strip(Entries([path], map[path := summary])) == path + ":\n" + Strip(summary)
  {
    StripEmptyIffBlank(summary);
    EntriesSingle(path, map[path := summary]);
    EntryStripped(path, summary);
  }

  lemma EntryStripped(path: string, summary: string)
    requires path != [] && !IsSpace(path[0]) && Strip(summary) != []
    ensures Strip(Entry(path, summary)) == path + ":\n" + Strip(summary)
  {
    var s := Strip(summary);
    var x := path + ":\n" + s;
    StripEnds(summary);
    assert x[0] == path[0] && x[|x| - 1] == s[|s| - 1];
    assert Entry(path, summary) == x + "\n\n";
    StripBlankTail(x, "\n\n");
  }
}
