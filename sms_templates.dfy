/** The SMS template settings page (src/components/SmsTemplatesPage.tsx):
    the `sms_templates` table, its default-per-type flag, and the page that
    lists, edits, adds and promotes templates. */
module SmsTemplates {
  import opened JsBuiltins

  /** A `sms_templates` row; times are milliseconds. */
  datatype SmsTemplate = SmsTemplate(
    id: string,
    name: string,
    templateType: string,
    content: string,
    isDefault: bool,
    updatedAt: int)

  const IssueType := "issue"
  const VerifyType := "verify"

  /** `list.filter((t) => t.type === ty)`. */
  function OfType(list: seq<SmsTemplate>, ty: string): (r: seq<SmsTemplate>)
    ensures |r| <= |list|
    ensures forall t :: t in r <==> t in list && t.templateType == ty
    ensures r == [] <==> forall i :: 0 <= i < |list| ==> list[i].templateType != ty
  {
    if list == [] then []
    else (if list[0].templateType == ty then [list[0]] else []) + OfType(list[1..], ty)
  }

  /** Filtering keeps the order: the templates of a type in a concatenation
      are those of each part, one after the other. */
  lemma {:induction false} OfTypeAppend(a: seq<SmsTemplate>, b: seq<SmsTemplate>, ty: string)
    ensures OfType(a + b, ty) == OfType(a, ty) + OfType(b, ty)
  {
    if a == [] {
      assert a + b == b;
    } else {
      assert (a + b)[1..] == a[1..] + b;
      OfTypeAppend(a[1..], b, ty);
    }
  }

  /** No two templates of one type are both marked default. */
  predicate AtMostOneDefault(list: seq<SmsTemplate>) {
    forall i, j :: 0 <= i < j < |list| && list[i].isDefault && list[j].isDefault ==>
      list[i].templateType != list[j].templateType
  }

  /** Template ids identify rows. */
  predicate DistinctIds(list: seq<SmsTemplate>) {
    forall i, j :: 0 <= i < j < |list| ==> list[i].id != list[j].id
  }

  predicate HasId(list: seq<SmsTemplate>, id: string) {
    exists i :: 0 <= i < |list| && list[i].id == id
  }

  /** Every row with this id has type ty. */
  predicate IdHasType(list: seq<SmsTemplate>, id: string, ty: string) {
    forall i :: 0 <= i < |list| && list[i].id == id ==> list[i].templateType == ty
  }

  /** `update({is_default: false}).eq("type", ty)`: the rows of type ty lose
      the flag; nothing else changes. */
  function Cleared(list: seq<SmsTemplate>, ty: string): (r: seq<SmsTemplate>)
    ensures |r| == |list|
    ensures forall i :: 0 <= i < |r| ==> r[i] == list[i].(isDefault := r[i].isDefault)
    ensures forall i :: 0 <= i < |r| && r[i].templateType == ty ==> !r[i].isDefault
    ensures forall i :: 0 <= i < |r| && list[i].templateType != ty ==> r[i] == list[i]
  {
    seq(|list|, i requires 0 <= i < |list| =>
      if list[i].templateType == ty then list[i].(isDefault := false) else list[i])
  }

  /** `update({is_default: true, updated_at: now}).eq("id", id)`. */
  function Promoted(list: seq<SmsTemplate>, id: string, now: int): (r: seq<SmsTemplate>)
    ensures |r| == |list|
    ensures forall i :: 0 <= i < |r| && list[i].id == id ==> r[i] == list[i].(isDefault := true, updatedAt := now)
    ensures forall i :: 0 <= i < |r| && list[i].id != id ==> r[i] == list[i]
  {
    seq(|list|, i requires 0 <= i < |list| =>
      if list[i].id == id then list[i].(isDefault := true, updatedAt := now) else list[i])
  }

  /** `update({content, updated_at: now}).eq("id", id)`. */
  function Edited(list: seq<SmsTemplate>, id: string, content: string, now: int): (r: seq<SmsTemplate>)
    ensures |r| == |list|
    ensures forall i :: 0 <= i < |r| && list[i].id == id ==> r[i] == list[i].(content := content, updatedAt := now)
    ensures forall i :: 0 <= i < |r| && list[i].id != id ==> r[i] == list[i]
  {
    seq(|list|, i requires 0 <= i < |list| =>
      if list[i].id == id then list[i].(content := content, updatedAt := now) else list[i])
  }

  /** The table after `setDefault(id, ty)`. */
  function WithDefault(list: seq<SmsTemplate>, id: string, ty: string, now: int): (r: seq<SmsTemplate>)
    ensures |r| == |list|
    ensures forall i :: 0 <= i < |r| ==> r[i].id == list[i].id && r[i].templateType == list[i].templateType
                                         && r[i].name == list[i].name && r[i].content == list[i].content
    ensures forall i :: 0 <= i < |r| && list[i].templateType == ty ==> (r[i].isDefault <==> list[i].id == id)
    ensures forall i :: 0 <= i < |r| && list[i].templateType != ty && list[i].id != id ==> r[i] == list[i]
  {
    Promoted(Cleared(list, ty), id, now)
  }

  /** Promoting a template of type ty makes it the one default of ty, leaves
      the other types' templates as they were, and keeps at most one default
      per type. */
  lemma WithDefaultIsSoleDefault(list: seq<SmsTemplate>, id: string, ty: string, now: int)
    requires DistinctIds(list) && AtMostOneDefault(list)
    requires IdHasType(list, id, ty)
    ensures var r := WithDefault(list, id, ty, now);
            && AtMostOneDefault(r) && DistinctIds(r)
            && (forall i :: 0 <= i < |r| && r[i].templateType == ty ==> (r[i].isDefault <==> r[i].id == id))
            && (forall i :: 0 <= i < |r| && list[i].templateType != ty ==> r[i] == list[i])
            && (forall i :: 0 <= i < |r| ==>
                  r[i].id == list[i].id && r[i].templateType == list[i].templateType
                  && r[i].content == list[i].content && r[i].name == list[i].name)
  {
  }

  /** Editing a template's content leaves every flag, id and type alone, so
      both table invariants survive. */
  lemma EditKeepsInvariants(list: seq<SmsTemplate>, id: string, content: string, now: int)
    requires DistinctIds(list) && AtMostOneDefault(list)
    ensures var r := Edited(list, id, content, now);
            && DistinctIds(r) && AtMostOneDefault(r)
            && (forall i :: 0 <= i < |r| ==> r[i].isDefault == list[i].isDefault && r[i].templateType == list[i].templateType)
  {
  }

  /** The row `addTemplate` inserts: trimmed name and content, default exactly
      when the page lists no template of that type. */
  function NewTemplate(shown: seq<SmsTemplate>, id: string, name: string, ty: string, content: string, now: int): (t: SmsTemplate)
    ensures t.isDefault <==> OfType(shown, ty) == []
    ensures t.templateType == ty && t.name == Trim(name) && t.content == Trim(content)
  {
    SmsTemplate(id, Trim(name), ty, Trim(content), |OfType(shown, ty)| == 0, now)
  }

  /** Adding a template to the table the page last loaded keeps at most one
      default per type, and ids distinct when the new id is fresh. */
  lemma AddKeepsInvariants(list: seq<SmsTemplate>, id: string, name: string, ty: string, content: string, now: int)
    requires DistinctIds(list) && AtMostOneDefault(list) && !HasId(list, id)
    ensures var r := list + [NewTemplate(list, id, name, ty, content, now)];
            DistinctIds(r) && AtMostOneDefault(r)
  {
    var t := NewTemplate(list, id, name, ty, content, now);
    var r := list + [t];
    forall i, j | 0 <= i < j < |r| && r[i].isDefault && r[j].isDefault
      ensures r[i].templateType != r[j].templateType
    {
      if j == |list| {
        assert list[i] in list;
      }
    }
  }

  /** A page that adds a template while it lists a stale copy of the table
      (here: an empty list after a failed load) can mark a second default. */
  lemma StaleListCanDoubleDefault(now: int)
    ensures var table := [SmsTemplate("t1", "a", IssueType, "x", true, 0)];
            var added := table + [NewTemplate([], "t2", "b", IssueType, "y", now)];
            AtMostOneDefault(table) && !AtMostOneDefault(added)
  {
    var table := [SmsTemplate("t1", "a", IssueType, "x", true, 0)];
    var added := table + [NewTemplate([], "t2", "b", IssueType, "y", now)];
    assert added[0].isDefault && added[1].isDefault && added[0].templateType == added[1].templateType;
  }

  /** The `sms_templates` table. */
  class TemplateTable {
    var rows: seq<SmsTemplate>

    /** Ids identify rows and each type has at most one default. */
    predicate Valid()
      reads this
    {
      DistinctIds(rows) && AtMostOneDefault(rows)
    }

    constructor(initial: seq<SmsTemplate>)
      ensures rows == initial
    {
      rows := initial;
    }

    /** `update({is_default: false}).eq("type", ty)`. */
    method ClearDefaults(ty: string)
      modifies this
      ensures rows == Cleared(old(rows), ty)
    {
      ghost var target := Cleared(rows, ty);
      var i := 0;
      while i < |rows|
        invariant 0 <= i <= |rows| == |target|
        invariant forall k :: 0 <= k < i ==> rows[k] == target[k]
        invariant forall k :: i <= k < |rows| ==> rows[k] == old(rows)[k]
      {
        if rows[i].templateType == ty {
          rows := rows[i := rows[i].(isDefault := false)];
        }
        i := i + 1;
      }
      assert rows == target;
    }

    /** `update({is_default: true, updated_at: now}).eq("id", id)`. */
    method MarkDefault(id: string, now: int)
      modifies this
      ensures rows == Promoted(old(rows), id, now)
    {
      ghost var target := Promoted(rows, id, now);
      var i := 0;
      while i < |rows|
        invariant 0 <= i <= |rows| == |target|
        invariant forall k :: 0 <= k < i ==> rows[k] == target[k]
        invariant forall k :: i <= k < |rows| ==> rows[k] == old(rows)[k]
      {
        if rows[i].id == id {
          rows := rows[i := rows[i].(isDefault := true, updatedAt := now)];
        }
        i := i + 1;
      }
      assert rows == target;
    }

    /** `update({content, updated_at: now}).eq("id", id)`. */
    method UpdateContent(id: string, content: string, now: int)
      modifies this
      ensures rows == Edited(old(rows), id, content, now)
    {
      ghost var target := Edited(rows, id, content, now);
      var i := 0;
      while i < |rows|
        invariant 0 <= i <= |rows| == |target|
        invariant forall k :: 0 <= k < i ==> rows[k] == target[k]
        invariant forall k :: i <= k < |rows| ==> rows[k] == old(rows)[k]
      {
        if rows[i].id == id {
          rows := rows[i := rows[i].(content := content, updatedAt := now)];
        }
        i := i + 1;
      }
      assert rows == target;
    }

    /** `insert(t)`; the table has assigned t a fresh id. */
    method Insert(t: SmsTemplate)
      modifies this
      ensures rows == old(rows) + [t]
    {
      rows := rows + [t];
    }
  }

  /** The settings page's state. */
  class SmsTemplatesPage {
    var list: seq<SmsTemplate>
    var err: Option<string>
    var editingId: Option<string>
    var editContent: string
    var newName: string
    var newType: string
    var newContent: string

    constructor()
      ensures list == [] && err == None && editingId == None && editContent == ""
      ensures newName == "" && newType == IssueType && newContent == ""
    {
      list := [];
      err := None;
      editingId := None;
      editContent := "";
      newName := "";
      newType := IssueType;
      newContent := "";
    }

    /** `load`: the table's rows, or the read error and an empty list. */
    method Load(table: TemplateTable, failure: Option<string>)
      modifies this
      ensures list == (if failure.Some? then [] else table.rows)
      ensures err == failure
      ensures editingId == old(editingId) && editContent == old(editContent)
      ensures newName == old(newName) && newType == old(newType) && newContent == old(newContent)
    {
      err := None;
      if failure.Some? {
        err := failure;
        list := [];
      } else {
        list := table.rows;
      }
    }

    /** The edit button: edit this template's content. */
    method StartEdit(t: SmsTemplate)
      modifies this
      ensures editingId == Some(t.id) && editContent == t.content
      ensures list == old(list) && err == old(err)
      ensures newName == old(newName) && newType == old(newType) && newContent == old(newContent)
    {
      editingId := Some(t.id);
      editContent := t.content;
    }

    /** The cancel button. */
    method CancelEdit()
      modifies this
      ensures editingId == None && editContent == ""
      ensures list == old(list) && err == old(err)
      ensures newName == old(newName) && newType == old(newType) && newContent == old(newContent)
    {
      editingId := None;
      editContent := "";
    }

    /** `setDefault(id, ty)` at time now, then a reload. Promoting a template
        of type ty keeps the table valid. */
    method SetDefault(table: TemplateTable, id: string, ty: string, now: int, loadFailure: Option<string>)
      modifies this, table
      ensures table.rows == WithDefault(old(table.rows), id, ty, now)
      ensures old(table.Valid()) && old(IdHasType(table.rows, id, ty)) ==> table.Valid()
      ensures list == (if loadFailure.Some? then [] else table.rows) && err == loadFailure
      ensures editingId == old(editingId) && editContent == old(editContent)
      ensures newName == old(newName) && newType == old(newType) && newContent == old(newContent)
    {
      err := None;
      ghost var before := table.rows;
      table.ClearDefaults(ty);
      table.MarkDefault(id, now);
      if DistinctIds(before) && AtMostOneDefault(before) && IdHasType(before, id, ty) {
        WithDefaultIsSoleDefault(before, id, ty, now);
      }
      Load(table, loadFailure);
    }

    /** `saveContent` at time now: nothing without a template being edited;
        otherwise store the edited text, stop editing and reload. */
    method SaveContent(table: TemplateTable, now: int, loadFailure: Option<string>)
      modifies this, table
      ensures old(editingId).None? || old(editingId) == Some("") ==>
                table.rows == old(table.rows) && list == old(list) && err == old(err) && editingId == old(editingId)
      ensures old(editingId).Some? && old(editingId) != Some("") ==>
                && table.rows == Edited(old(table.rows), old(editingId).value, old(editContent), now)
                && editingId == None
                && list == (if loadFailure.Some? then [] else table.rows) && err == loadFailure
      ensures old(table.Valid()) ==> table.Valid()
      ensures editContent == old(editContent)
      ensures newName == old(newName) && newType == old(newType) && newContent == old(newContent)
    {
      if editingId.None? || editingId == Some("") {
        return;
      }
      err := None;
      ghost var before := table.rows;
      table.UpdateContent(editingId.value, editContent, now);
      if DistinctIds(before) && AtMostOneDefault(before) {
        EditKeepsInvariants(before, editingId.value, editContent, now);
      }
      editingId := None;
      Load(table, loadFailure);
    }

    /** `addTemplate` at time now; the table assigns the id freshId. Nothing
        happens while the trimmed name or content is empty. The table stays
        valid when the page lists the table as it is. */
    method AddTemplate(table: TemplateTable, freshId: string, now: int, loadFailure: Option<string>)
      modifies this, table
      ensures Trim(old(newName)) == [] || Trim(old(newContent)) == [] ==>
                table.rows == old(table.rows) && list == old(list) && err == old(err)
                && newName == old(newName) && newContent == old(newContent)
      ensures Trim(old(newName)) != [] && Trim(old(newContent)) != [] ==>
                && table.rows == old(table.rows) + [NewTemplate(old(list), freshId, old(newName), old(newType), old(newContent), now)]
                && newName == "" && newContent == ""
                && list == (if loadFailure.Some? then [] else table.rows) && err == loadFailure
      ensures old(table.Valid()) && old(list) == old(table.rows) && !HasId(old(table.rows), freshId) ==> table.Valid()
      ensures newType == old(newType) && editingId == old(editingId) && editContent == old(editContent)
    {
      if Trim(newName) == [] || Trim(newContent) == [] {
        return;
      }
      err := None;
      var t := NewTemplate(list, freshId, newName, newType, newContent, now);
      ghost var before := table.rows;
      if DistinctIds(before) && AtMostOneDefault(before) && list == before && !HasId(before, freshId) {
        AddKeepsInvariants(before, freshId, newName, newType, newContent, now);
      }
      table.Insert(t);
      newName := "";
      newContent := "";
      Load(table, loadFailure);
    }
  }
}
