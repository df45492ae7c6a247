/** The session state machine of app.py: the texts the session holds, the
    undo history, and the actions that replace the edited text. The JSON
    formatter and minifier and the content sniffing of detect_file_type are
    passed in; a formatter that raises returns None. */
module App {
  import opened Common
  import opened PyStr
  import opened Utils

  /** A file from the uploader: its name, and its content when it decodes
      as UTF-8. */
  datatype Upload = Upload(name: string, content: Option<string>)

  /** What the diff view shows once its text areas are read. */
  datatype DiffOutcome = NothingToCompare | NoChanges | ShowDiff

  /** The extensions the uploader takes at face value. */
  const DirectTypes: seq<string> := ["json", "txt", "md"]

  /** An editor edit is worth an undo snapshot when the length changes by
      more than this. */
  const SnapshotThreshold := 10

  class Session {
    var originalText: string
    var editedText: string
    var fileType: string
    const undo: UndoStack

    predicate Valid()
      reads this, undo
    {
      undo.Valid() && undo.capacity == MaxUndoStackSize
    }

    constructor ()
      ensures Valid() && originalText == "" && editedText == "" && fileType == "json" && undo.items == []
      ensures fresh(undo)
    {
      originalText := "";
      editedText := "";
      fileType := "json";
      undo := new UndoStack(MaxUndoStackSize);
    }

    /** `undo_changes`: the last snapshot becomes the edited text. */
    method Undo()
      requires Valid()
      modifies this, undo
      ensures Valid()
      ensures |old(undo.items)| > 0 ==>
                editedText == old(undo.items)[|old(undo.items)| - 1] && undo.items == old(undo.items)[..|old(undo.items)| - 1]
      ensures |old(undo.items)| == 0 ==> editedText == old(editedText) && undo.items == old(undo.items)
      ensures originalText == old(originalText) && fileType == old(fileType)
    {
      if |undo.items| > 0 {
        var previousState := undo.Pop();
        editedText := previousState;
      }
    }

    /** `clear_text` */
    method Clear()
      requires Valid()
      modifies this, undo
      ensures Valid()
      ensures |old(editedText)| > 0 ==> editedText == "" && undo.items == Pushed(old(undo.items), old(editedText), MaxUndoStackSize)
      ensures |old(editedText)| == 0 ==> editedText == old(editedText) && undo.items == old(undo.items)
      ensures originalText == old(originalText) && fileType == old(fileType)
    {
      if |editedText| > 0 {
        undo.Add(editedText);
        editedText := "";
      }
    }

    /** `reset_text` */
    method Reset()
      requires Valid()
      modifies this, undo
      ensures Valid()
      ensures |originalText| > 0 ==> editedText == originalText && undo.items == Pushed(old(undo.items), old(editedText), MaxUndoStackSize)
      ensures |originalText| == 0 ==> editedText == old(editedText) && undo.items == old(undo.items)
      ensures originalText == old(originalText) && fileType == old(fileType)
    {
      if |originalText| > 0 {
        undo.Add(editedText);
        editedText := originalText;
      }
    }

    /** A successful reformatting: snapshot the old text, take the new one. */
    method Replace(formatted: string)
      requires Valid()
      modifies this, undo
      ensures Valid()
      ensures editedText == formatted && undo.items == Pushed(old(undo.items), old(editedText), MaxUndoStackSize)
      ensures originalText == old(originalText) && fileType == old(fileType)
    {
      undo.Add(editedText);
      editedText := formatted;
    }

    /** `format_current_json`: indent 0 minifies, any other indent
        pretty-prints; empty text and a failing formatter change nothing. */
    method FormatCurrentJson(indent: int, sortKeys: bool,
                             formatJson: (string, int, bool) -> Option<string>, minifyJson: string -> Option<string>)
      requires Valid()
      modifies this, undo
      ensures Valid()
      ensures var result := if indent == 0 then minifyJson(old(editedText)) else formatJson(old(editedText), indent, sortKeys);
              if |old(editedText)| > 0 && result.Some? then
                editedText == result.value && undo.items == Pushed(old(undo.items), old(editedText), MaxUndoStackSize)
              else
                editedText == old(editedText) && undo.items == old(undo.items)
      ensures originalText == old(originalText) && fileType == old(fileType)
    {
      var currentJson := editedText;
      if |currentJson| == 0 {
        return;
      }
      var formatted := if indent == 0 then minifyJson(currentJson) else formatJson(currentJson, indent, sortKeys);
      if formatted.Some? {
        Replace(formatted.value);
      }
    }

    /** `minify_current_json` */
    method MinifyCurrentJson(minifyJson: string -> Option<string>)
      requires Valid()
      modifies this, undo
      ensures Valid()
      ensures if |old(editedText)| > 0 && minifyJson(old(editedText)).Some? then
                editedText == minifyJson(old(editedText)).value && undo.items == Pushed(old(undo.items), old(editedText), MaxUndoStackSize)
              else
                editedText == old(editedText) && undo.items == old(undo.items)
      ensures originalText == old(originalText) && fileType == old(fileType)
    {
      var currentJson := editedText;
      if |currentJson| == 0 {
        return;
      }
      var minified := minifyJson(currentJson);
      if minified.Some? {
        Replace(minified.value);
      }
    }

    /** The editor's update rule: a non-empty edit that differs replaces the
        text, and the old text is kept for undo only when the length moved
        by more than 10 characters. */
    method EditorUpdate(editedContent: string)
      requires Valid()
      modifies this, undo
      ensures Valid()
      ensures |editedContent| > 0 && editedContent != old(editedText) ==> editedText == editedContent
      ensures !(|editedContent| > 0 && editedContent != old(editedText)) ==> editedText == old(editedText) && undo.items == old(undo.items)
      ensures |editedContent| > 0 && editedContent != old(editedText) ==>
                undo.items == (if BigEdit(old(editedText), editedContent)
                               then Pushed(old(undo.items), old(editedText), MaxUndoStackSize)
                               else old(undo.items))
      ensures originalText == old(originalText) && fileType == old(fileType)
    {
      var currentText := editedText;
      if |editedContent| > 0 && editedContent != currentText {
        if |editedContent| - |currentText| > SnapshotThreshold || |currentText| - |editedContent| > SnapshotThreshold {
          undo.Add(currentText);
        }
        editedText := editedContent;
      }
    }

    /** The sidebar's input rule: an uploaded file that decodes, or else
        non-empty pasted text, replaces both texts when it differs from the
        original; the file type follows the extension or the content. */
    method SidebarInput(upload: Option<Upload>, textInput: string, sniff: string -> string)
      requires Valid()
      modifies this
      ensures Valid()
      ensures var incoming := Incoming(upload, textInput);
              if incoming.Some? && incoming.value != old(originalText) then
                originalText == incoming.value && editedText == incoming.value &&
                fileType == NewFileType(upload, incoming.value, sniff)
              else
                originalText == old(originalText) && editedText == old(editedText) && fileType == old(fileType)
      ensures undo.items == old(undo.items)
    {
      if upload.Some? {
        if upload.value.content.Some? {
          var content := upload.value.content.value;
          var fileExtension := Extension(upload.value.name);
          if content != originalText {
            originalText := content;
            editedText := content;
            fileType := if fileExtension in DirectTypes then fileExtension
                        else DetectFileType(content, upload.value.name, sniff(content));
          }
        }
      } else if |textInput| > 0 && textInput != originalText {
        originalText := textInput;
        editedText := textInput;
        fileType := DetectFileType(textInput, "", sniff(textInput));
      }
    }

    /** The diff view's rule: the text areas overwrite both texts, then
        nothing to compare, no changes, or a diff to show. */
    method DiffMode(originalManual: string, modifiedManual: string) returns (outcome: DiffOutcome)
      requires Valid()
      modifies this
      ensures Valid()
      ensures originalText == originalManual && editedText == modifiedManual
      ensures outcome == NothingToCompare <==> originalManual == "" && modifiedManual == ""
      ensures outcome == NoChanges <==> originalManual == modifiedManual && originalManual != ""
      ensures outcome == ShowDiff <==> originalManual != modifiedManual
      ensures undo.items == old(undo.items) && fileType == old(fileType)
    {
      if originalManual != originalText {
        originalText := originalManual;
      }
      if modifiedManual != editedText {
        editedText := modifiedManual;
      }
      var original := originalText;
      var edited := editedText;
      if |original| == 0 && |edited| == 0 {
        return NothingToCompare;
      }
      if original == edited {
        return NoChanges;
      }
      return ShowDiff;
    }
  }

  /** The length moved by more than the snapshot threshold. */
  predicate BigEdit(current: string, edited: string)
  {
    |edited| - |current| > SnapshotThreshold || |current| - |edited| > SnapshotThreshold
  }

  /** The text the sidebar offers: the decoded upload when a file is
      given, else non-empty pasted text. */
  function Incoming(upload: Option<Upload>, textInput: string): (r: Option<string>)
    ensures upload.Some? ==> r == upload.value.content
    ensures upload.None? ==> (r.Some? <==> |textInput| > 0)
  {
    if upload.Some? then upload.value.content
    else if |textInput| > 0 then Some(textInput) else None
  }

  /** The file type of newly taken content. */
  function NewFileType(upload: Option<Upload>, content: string, sniff: string -> string): (r: string)
    ensures upload.Some? && Extension(upload.value.name) in DirectTypes ==> r == Extension(upload.value.name)
    ensures upload.None? ==> r == (if IsBlank(content) then "txt" else sniff(content))
  {
    if upload.Some? then
      var ext := Extension(upload.value.name);
      if ext in DirectTypes then ext else DetectFileType(content, upload.value.name, sniff(content))
    else DetectFileType(content, "", sniff(content))
  }

  /** Clearing and then undoing gives the text back. The stack loses at
      most its oldest entry on the way. */
  method ClearThenUndo(s: Session)
    requires s.Valid() && |s.editedText| > 0
    modifies s, s.undo
    ensures s.Valid()
    ensures s.editedText == old(s.editedText)
    ensures |old(s.undo.items)| > 0 && old(s.undo.items)[|old(s.undo.items)| - 1] == old(s.editedText) ==>
              s.undo.items == old(s.undo.items)[..|old(s.undo.items)| - 1]
    ensures !(|old(s.undo.items)| > 0 && old(s.undo.items)[|old(s.undo.items)| - 1] == old(s.editedText)) ==>
              s.undo.items == (if |old(s.undo.items)| == MaxUndoStackSize then old(s.undo.items)[1..] else old(s.undo.items))
  {
    ghost var items := s.undo.items;
    ghost var text := s.editedText;
    s.Clear();
    if !(|items| > 0 && items[|items| - 1] == text) {
      PushedBelowTop(items, text, MaxUndoStackSize);
    }
    s.Undo();
  }

  /** Resetting and then undoing gives the text back, with the same effect
      on the stack. */
  method ResetThenUndo(s: Session)
    requires s.Valid() && |s.originalText| > 0
    modifies s, s.undo
    ensures s.Valid()
    ensures s.editedText == old(s.editedText) && s.originalText == old(s.originalText)
    ensures |old(s.undo.items)| > 0 && old(s.undo.items)[|old(s.undo.items)| - 1] == old(s.editedText) ==>
              s.undo.items == old(s.undo.items)[..|old(s.undo.items)| - 1]
    ensures !(|old(s.undo.items)| > 0 && old(s.undo.items)[|old(s.undo.items)| - 1] == old(s.editedText)) ==>
              s.undo.items == (if |old(s.undo.items)| == MaxUndoStackSize then old(s.undo.items)[1..] else old(s.undo.items))
  {
    ghost var items := s.undo.items;
    ghost var text := s.editedText;
    s.Reset();
    if !(|items| > 0 && items[|items| - 1] == text) {
      PushedBelowTop(items, text, MaxUndoStackSize);
    }
    s.Undo();
  }
}
