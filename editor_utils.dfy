/**
 * Opening a file for the user (my_engineer/shared_utils/editor_utils.py): the configured
 * editor's command, and the shell command line that opens the file with it.
 *
 * Launching the process (through `os.system` on Windows, `subprocess.Popen` elsewhere) is
 * left out; both run the same command line.
 */
module EditorUtils {
  import opened Settings

  /** `EDITOR_COMMANDS`. */
  const EditorCommands: map<string, string> := map[
    "vscode" := "code",
    "cursor" := "cursor",
    "vim" := "vim",
    "pycharm" := "pycharm",
    "notepad" := "notepad",
    "textedit" := "open -a TextEdit",
    "nano" := "nano",
    "xcode" := "xed",
    "eclipse" := "eclipse",
    "android_studio" := "studio"]

  const DefaultCommand := "code"

  /** The command for an `editor` setting: its table entry, "code" when it has none. */
  function CommandFor(editor: Value): (r: string)
    ensures r in EditorCommands.Values
    ensures editor.Str? && editor.s in EditorCommands ==> r == EditorCommands[editor.s]
  {
    assert EditorCommands["vscode"] == DefaultCommand;
    if editor.Str? && editor.s in EditorCommands then EditorCommands[editor.s] else DefaultCommand
  }

  /** `get_editor_command`: the command for the configured editor; `use_cursor` plays no part. */
  function GetEditorCommand(cfg: Config): (r: string)
    reads cfg
    ensures r in EditorCommands.Values
    ensures "editor" !in cfg.entries ==> r == DefaultCommand
  {
    CommandFor(cfg.Editor())
  }

  /** The configured editor's command: its table entry, or "code" when the setting is absent or unknown. */
  lemma GetEditorCommandSpec(entries: map<string, Value>)
    ensures var e := Lookup(entries, "editor", Str("vscode"));
            && ("editor" !in entries ==> CommandFor(e) == "code")
            && (e.Str? && e.s in EditorCommands ==> CommandFor(e) == EditorCommands[e.s])
            && (!(e.Str? && e.s in EditorCommands) ==> CommandFor(e) == "code")
  {
  }

  /** Setting `use_cursor` does not change the editor command. */
  lemma UseCursorIgnored(entries: map<string, Value>, v: Value)
    ensures CommandFor(Lookup(entries["use_cursor" := v], "editor", Str("vscode")))
            == CommandFor(Lookup(entries, "editor", Str("vscode")))
  {
  }

  /**
   * The command line of `open_file_in_editor`: the command, a space, and the file path, in
   * single quotes when the command has a space; so the path can be read back from the line.
   */
  function OpenCommand(editorCommand: string, filePath: string): (r: string)
    ensures |r| > |editorCommand| && r[..|editorCommand| + 1] == editorCommand + " "
    ensures ' ' !in editorCommand ==> r[|editorCommand| + 1..] == filePath
    ensures ' ' in editorCommand ==> r[|editorCommand| + 1..] == "'" + filePath + "'"
  {
    if ' ' in editorCommand then
      var line := editorCommand + " '" + filePath + "'";
      assert line == (editorCommand + " ") + ("'" + filePath + "'");
      line
    else
      var line := editorCommand + " " + filePath;
      assert line == (editorCommand + " ") + filePath;
      line
  }

  /** Of all the known editors, only TextEdit's command has a space, so only its file path is quoted. */
  lemma QuotedOnlyForTextEdit(editor: Value)
    ensures ' ' in CommandFor(editor) <==> editor == Str("textedit")
  {
    if editor.Str? && editor.s in EditorCommands {
      var c := EditorCommands[editor.s];
      if editor.s == "textedit" {
        assert c[4] == ' ';
      } else {
        assert ' ' !in c;
      }
    } else {
      assert ' ' !in DefaultCommand;
    }
  }
}
