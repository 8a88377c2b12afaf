/** The project files on show and the small decisions around them: the
    editing overlay over the active snapshot (App.tsx:158-159), the editor's
    edit map (App.tsx:421-426), the undo/redo availability (App.tsx:430-431),
    the rename and delete guards (App.tsx:275-288) and the selected-element
    toggle (App.tsx:320). */
module Workspace {
  import opened Types
  import opened Text

  /** The chat cursor points into its history. */
  predicate ValidCursor(c: Chat) {
    0 <= c.historyIndex < |c.history|
  }

  /** `activeChat?.history[activeChat.historyIndex]?.files || []`: the files of
      the snapshot under the cursor; none without an active chat or when the
      cursor points outside the history. */
  function FilesFromHistory(chat: Option<Chat>): (r: seq<File>)
    ensures chat.Some? && ValidCursor(chat.value) ==> r == chat.value.history[chat.value.historyIndex].files
    ensures chat.None? || !ValidCursor(chat.value) ==> r == []
  {
    if chat.Some? && ValidCursor(chat.value) then chat.value.history[chat.value.historyIndex].files else []
  }

  /** `liveFiles || filesFromHistory`: an overlay, even an empty one, is an
      array and therefore truthy, so it hides the snapshot. */
  function EffectiveFiles(overlay: Option<seq<File>>, chat: Option<Chat>): (r: seq<File>)
    ensures overlay.Some? ==> r == overlay.value
    ensures overlay.None? ==> r == FilesFromHistory(chat)
  {
    match overlay
    case Some(fs) => fs
    case None => FilesFromHistory(chat)
  }

  /** `currentFiles.map(f => f.name === fileName ? { ...f, content } : f)`. */
  function EditFile(files: seq<File>, name: string, content: string): (r: seq<File>)
    ensures |r| == |files|
    ensures forall k :: 0 <= k < |r| ==> r[k].name == files[k].name && r[k].language == files[k].language
    ensures forall k :: 0 <= k < |r| ==> r[k].content == if files[k].name == name then content else files[k].content
  {
    seq(|files|, k requires 0 <= k < |files| =>
      if files[k].name == name then files[k].(content := content) else files[k])
  }

  /** Typing into a file that is not in the project changes nothing. */
  lemma EditMissingFile(files: seq<File>, name: string, content: string)
    requires forall k :: 0 <= k < |files| ==> files[k].name != name
    ensures EditFile(files, name, content) == files
  {
  }

  /** Of two edits to the same file only the later one shows. */
  lemma EditLastWins(files: seq<File>, name: string, c1: string, c2: string)
    ensures EditFile(EditFile(files, name, c1), name, c2) == EditFile(files, name, c2)
  {
  }

  /** Edits to different files do not interfere. */
  lemma EditsCommute(files: seq<File>, n1: string, c1: string, n2: string, c2: string)
    requires n1 != n2
    ensures EditFile(EditFile(files, n1, c1), n2, c2) == EditFile(EditFile(files, n2, c2), n1, c1)
  {
  }

  /** `(activeChat?.historyIndex || 0) > 0`. */
  predicate CanUndo(chat: Option<Chat>) {
    chat.Some? && chat.value.historyIndex > 0
  }

  /** `activeChat ? activeChat.historyIndex < activeChat.history.length - 1 : false`. */
  predicate CanRedo(chat: Option<Chat>) {
    chat.Some? && chat.value.historyIndex < |chat.value.history| - 1
  }

  /** With the cursor inside the history, undo is offered exactly when a
      snapshot precedes the cursor, redo exactly when one follows it, and
      neither exactly when the history holds a single snapshot. */
  lemma UndoRedoAvailability(c: Chat)
    requires ValidCursor(c)
    ensures CanUndo(Some(c)) <==> 0 <= c.historyIndex - 1 < |c.history|
    ensures CanRedo(Some(c)) <==> 0 <= c.historyIndex + 1 < |c.history|
    ensures !CanUndo(Some(c)) && !CanRedo(Some(c)) <==> |c.history| == 1
  {
  }

  /** `handleRenameChat`: nothing unless the trimmed name is non-empty and a
      chat was chosen in the modal; otherwise one `RENAME_CHAT` with the
      trimmed name. */
  function RenameActions(newName: string, target: Option<Chat>): (r: seq<Action>)
    ensures |r| <= 1
    ensures r != [] ==> r[0].RenameChat? && target.Some? && r[0].chatId == target.value.id
                        && r[0].newName == Trim(newName) && r[0].newName != []
  {
    var name := Trim(newName);
    if name == [] || target.None? then [] else [RenameChat(target.value.id, name)]
  }

  /** A rename happens exactly for a chosen chat and a name with some text;
      the name given to the chat has the same text, without surrounding
      whitespace. */
  lemma RenameGuard(newName: string, target: Option<Chat>)
    ensures RenameActions(newName, target) != [] <==> target.Some? && NonSpace(newName) != []
    ensures RenameActions(newName, target) != [] ==>
              var a := RenameActions(newName, target);
              && |a| == 1 && a[0].RenameChat? && a[0].chatId == target.value.id
              && a[0].newName == Trim(newName)
              && NonSpace(a[0].newName) == NonSpace(newName)
              && !IsSpace(a[0].newName[0]) && !IsSpace(a[0].newName[|a[0].newName| - 1])
  {
    TrimKeepsText(newName);
  }

  /** `handleOpenDeleteModal`: with a single chat left the request is refused
      (None); otherwise the modal opens holding the chat. */
  function OpenDelete(chatCount: nat, chat: Chat): (r: Option<Chat>)
    ensures r.Some? <==> chatCount > 1
    ensures r.Some? ==> r.value == chat
  {
    if chatCount <= 1 then None else Some(chat)
  }

  /** `handleDeleteChat`: one `DELETE_CHAT` for the chat the modal holds. */
  function DeleteActions(modal: Option<Chat>): (r: seq<Action>)
    ensures |r| == if modal.Some? then 1 else 0
    ensures modal.Some? ==> r[0] == DeleteChat(modal.value.id)
  {
    match modal
    case None => []
    case Some(c) => [DeleteChat(c.id)]
  }

  /** Asking to delete and confirming deletes the chat exactly when it was not
      the last one. */
  lemma DeleteGuard(chatCount: nat, chat: Chat)
    ensures DeleteActions(OpenDelete(chatCount, chat)) == (if chatCount > 1 then [DeleteChat(chat.id)] else [])
  {
  }

  predicate HasId(s: seq<SelectedElement>, id: string) {
    exists k :: 0 <= k < |s| && s[k].id == id
  }

  /** `s.filter(el => el.id !== id)`. */
  function Without(s: seq<SelectedElement>, id: string): (r: seq<SelectedElement>)
    ensures !HasId(r, id)
    ensures forall x :: x != id ==> (HasId(r, x) <==> HasId(s, x))
    ensures !HasId(s, id) ==> r == s
    ensures |r| <= |s|
  {
    if s == [] then []
    else
      var rest := Without(s[1..], id);
      assert forall x :: HasId(s, x) <==> s[0].id == x || HasId(s[1..], x) by {
        forall x | HasId(s, x) && s[0].id != x ensures HasId(s[1..], x) {
          var k :| 0 <= k < |s| && s[k].id == x;
          assert s[1..][k - 1] == s[k];
        }
        forall x | HasId(s[1..], x) ensures HasId(s, x) {
          var k :| 0 <= k < |s[1..]| && s[1..][k].id == x;
          assert s[k + 1] == s[1..][k];
        }
      }
      if s[0].id == id then rest
      else
        var r := [s[0]] + rest;
        assert forall x :: HasId(r, x) <==> s[0].id == x || HasId(rest, x) by {
          forall x | HasId(r, x) && s[0].id != x ensures HasId(rest, x) {
            var k :| 0 <= k < |r| && r[k].id == x;
            assert rest[k - 1] == r[k];
          }
          forall x | HasId(rest, x) ensures HasId(r, x) {
            var k :| 0 <= k < |rest| && rest[k].id == x;
            assert r[k + 1] == rest[k];
          }
          assert r[0] == s[0];
        }
        r
  }

  /** A single element survives `filter` exactly when its id differs. */
  lemma WithoutOne(e: SelectedElement, id: string)
    ensures Without([e], id) == if e.id == id then [] else [e]
  {
    assert [e][1..] == [];
  }

  /** `filter` keeps the surviving elements as they are and in their order:
      filtering a concatenation filters each part in turn. */
  lemma {:induction false} WithoutConcat(a: seq<SelectedElement>, b: seq<SelectedElement>, id: string)
    ensures Without(a + b, id) == Without(a, id) + Without(b, id)
    decreases |a|
  {
    if a == [] {
      assert a + b == b;
    } else {
      var s := a + b;
      assert s[0] == a[0];
      assert s[1..] == a[1..] + b;
      WithoutConcat(a[1..], b, id);
      if a[0].id != id {
        assert Without(s, id) == [a[0]] + Without(s[1..], id);
        assert Without(a, id) == [a[0]] + Without(a[1..], id);
        AppendAssoc([a[0]], Without(a[1..], id), Without(b, id));
      }
    }
  }

  lemma WithoutAppended(s: seq<SelectedElement>, e: SelectedElement)
    ensures Without(s + [e], e.id) == Without(s, e.id)
    decreases |s|
  {
    if s == [] {
      assert Without([e], e.id) == [] + Without([e][1..], e.id);
    } else {
      assert (s + [e])[1..] == s[1..] + [e];
      WithoutAppended(s[1..], e);
    }
  }

  /** The element-selection handler: a selected element is deselected (every
      entry with its id removed), an unselected one is appended. */
  function Toggle(prev: seq<SelectedElement>, id: string, html: string): (r: seq<SelectedElement>)
    ensures HasId(r, id) <==> !HasId(prev, id)
    ensures forall x :: x != id ==> (HasId(r, x) <==> HasId(prev, x))
    ensures Without(r, id) == Without(prev, id)
    ensures !HasId(prev, id) ==> r == prev + [SelectedElement(id, html)]
  {
    if HasId(prev, id) then Without(prev, id)
    else
      var r := prev + [SelectedElement(id, html)];
      assert r[|prev|].id == id;
      WithoutAppended(prev, SelectedElement(id, html));
      assert forall x :: x != id ==> (HasId(r, x) <==> HasId(prev, x)) by {
        forall x | x != id && HasId(r, x) ensures HasId(prev, x) {
          var k :| 0 <= k < |r| && r[k].id == x;
          assert k < |prev| && prev[k] == r[k];
        }
        forall x | HasId(prev, x) ensures HasId(r, x) {
          var k :| 0 <= k < |prev| && prev[k].id == x;
          assert r[k] == prev[k];
        }
      }
      r
  }

  /** Clicking an unselected element twice restores the selection. */
  lemma ToggleTwice(prev: seq<SelectedElement>, id: string, html: string, html': string)
    requires !HasId(prev, id)
    ensures Toggle(Toggle(prev, id, html), id, html') == prev
  {
  }
}
