/**
 * The admin video form (src/components/admin/VideoManager.tsx): the tag list
 * edited by `addTag` and `removeTag`, the validation and the choice between
 * update and insert made by `handleSubmit`, and the write of
 * `togglePublished`. The store is a parameter: its error is an input and the
 * write to make is an output.
 */
module VideoManager {
  import opened Common

  /** The fields of the form as `handleSubmit` sends them; nullable columns are options. */
  datatype VideoForm = VideoForm(
    title: string, description: Option<string>, videoUrl: string, thumbnailUrl: Option<string>,
    durationMinutes: Option<int>, level: string, category: Option<string>, tags: Option<seq<string>>,
    orderIndex: Option<int>, isPremium: Option<bool>, published: Option<bool>)

  /** `emptyFormData`. */
  const EmptyForm: VideoForm :=
    VideoForm("", Some(""), "", Some(""), Some(5), "beginner", Some(""), Some([]), Some(0), Some(false), Some(false))

  /** No tag appears twice. */
  predicate NoDuplicateTags(tags: seq<string>) {
    forall i, j :: 0 <= i < j < |tags| ==> tags[i] != tags[j]
  }

  function TagsOf(tags: Option<seq<string>>): seq<string> {
    if tags.Some? then tags.value else []
  }

  /**
   * `addTag`: a non-empty tag not yet present is appended and the input is
   * cleared; otherwise the tags and the input stay as they are.
   */
  function AddTag(tags: Option<seq<string>>, newTag: string): (r: (Option<seq<string>>, string))
    ensures newTag != "" && newTag !in TagsOf(tags) ==> r == (Some(TagsOf(tags) + [newTag]), "")
    ensures newTag == "" || newTag in TagsOf(tags) ==> r == (tags, newTag)
  {
    if newTag != "" && newTag !in TagsOf(tags) then (Some(TagsOf(tags) + [newTag]), "")
    else (tags, newTag)
  }

  /** `tags.filter(t => t !== tag)`. */
  function Without(tags: seq<string>, tag: string): (r: seq<string>)
    ensures |r| <= |tags|
    ensures forall t :: t in r <==> t in tags && t != tag
  {
    if |tags| == 0 then []
    else if tags[0] == tag then Without(tags[1..], tag)
    else [tags[0]] + Without(tags[1..], tag)
  }

  /** `removeTag`: every occurrence of the tag goes, the other tags stay. */
  function RemoveTag(tags: Option<seq<string>>, tag: string): (r: Option<seq<string>>)
    ensures r.Some?
    ensures forall t :: t in r.value <==> t in TagsOf(tags) && t != tag
  {
    Some(Without(TagsOf(tags), tag))
  }

  /** A tag that is absent leaves the list exactly as it was, order included. */
  lemma {:induction false} WithoutAbsent(tags: seq<string>, tag: string)
    requires tag !in tags
    ensures Without(tags, tag) == tags
  {
    if |tags| > 0 {
      assert tags[0] != tag;
      assert tag !in tags[1..];
      WithoutAbsent(tags[1..], tag);
      assert [tags[0]] + tags[1..] == tags;
    }
  }

  /** Removing distributes over concatenation, so the order of the kept tags is that of the list. */
  lemma {:induction false} WithoutAppend(a: seq<string>, b: seq<string>, tag: string)
    ensures Without(a + b, tag) == Without(a, tag) + Without(b, tag)
  {
    if |a| > 0 {
      assert (a + b)[0] == a[0];
      assert (a + b)[1..] == a[1..] + b;
      WithoutAppend(a[1..], b, tag);
    } else {
      assert a + b == b;
    }
  }

  /** Adding a tag keeps the list free of duplicates. */
  lemma AddTagKeepsDistinct(tags: Option<seq<string>>, newTag: string)
    requires NoDuplicateTags(TagsOf(tags))
    ensures NoDuplicateTags(TagsOf(AddTag(tags, newTag).0))
  {
  }

  /** Removing a tag right after adding it gives back the tags as they were. */
  lemma RemoveUndoesAdd(tags: seq<string>, newTag: string)
    requires newTag != "" && newTag !in tags
    ensures RemoveTag(AddTag(Some(tags), newTag).0, newTag) == Some(tags)
  {
    assert AddTag(Some(tags), newTag).0 == Some(tags + [newTag]);
    WithoutAppend(tags, [newTag], newTag);
    WithoutAbsent(tags, newTag);
    assert Without([newTag], newTag) == [];
    assert tags + [] == tags;
  }

  /** The columns sent to the store. */
  datatype VideoRow = VideoRow(
    title: string, description: Option<string>, videoUrl: string, thumbnailUrl: Option<string>,
    durationMinutes: Option<int>, level: string, category: Option<string>, tags: Option<seq<string>>,
    orderIndex: Option<int>, isPremium: Option<bool>, published: Option<bool>)

  /** `dataToSend`: the form's fields, with an empty thumbnail sent as null. */
  function RowOf(f: VideoForm): (row: VideoRow)
    ensures row.thumbnailUrl.None? <==> f.thumbnailUrl.None? || f.thumbnailUrl.value == ""
    ensures row.thumbnailUrl.Some? ==> row.thumbnailUrl == f.thumbnailUrl
    ensures row.title == f.title && row.videoUrl == f.videoUrl && row.tags == f.tags
            && row.published == f.published && row.level == f.level
  {
    VideoRow(f.title, f.description, f.videoUrl,
      if OrStr(f.thumbnailUrl, "") != "" then f.thumbnailUrl else None,
      f.durationMinutes, f.level, f.category, f.tags, f.orderIndex, f.isPremium, f.published)
  }

  datatype Write = Update(id: string, row: VideoRow) | Insert(row: VideoRow)

  /** What a submit does: the write made, whether it succeeded, and the form afterwards. */
  datatype Submit = Submit(write: Option<Write>, saved: bool, form: VideoForm)

  /**
   * `handleSubmit`: a form without title or video URL makes no write; an
   * edited video with an id is updated, any other form is inserted; after a
   * write the store's error decides, and only a successful write resets the
   * form.
   */
  function HandleSubmit(f: VideoForm, editingId: Option<string>, writeFailed: bool): (r: Submit)
    ensures r.write.None? <==> f.title == "" || f.videoUrl == ""
    ensures r.write.Some? ==> r.write.value.row == RowOf(f)
    ensures r.write.Some? ==>
              (r.write.value.Update? <==> editingId.Some? && editingId.value != "")
    ensures r.write.Some? && r.write.value.Update? ==> r.write.value.id == editingId.value
    ensures r.saved <==> r.write.Some? && !writeFailed
    ensures r.form == (if r.saved then EmptyForm else f)
  {
    if f.title == "" || f.videoUrl == "" then Submit(None, false, f)
    else
      var row := RowOf(f);
      var w := if OrStr(editingId, "") != "" then Update(editingId.value, row) else Insert(row);
      if writeFailed then Submit(Some(w), false, f) else Submit(Some(w), true, EmptyForm)
  }

  /** `handleEdit`: the form is loaded with the stored video's fields. */
  function FormOf(v: VideoRow): (f: VideoForm)
    ensures f.title == v.title && f.videoUrl == v.videoUrl && f.thumbnailUrl == v.thumbnailUrl && f.tags == v.tags
  {
    VideoForm(v.title, v.description, v.videoUrl, v.thumbnailUrl, v.durationMinutes, v.level,
              v.category, v.tags, v.orderIndex, v.isPremium, v.published)
  }

  /**
   * Editing a stored video and saving it unchanged writes the stored row back
   * as an update of that video and resets the form; only an empty thumbnail,
   * which is sent as null, would come back different.
   */
  lemma EditThenSubmitRewritesRow(v: VideoRow, id: string)
    requires v.title != "" && v.videoUrl != "" && id != ""
    requires v.thumbnailUrl != Some("")
    ensures HandleSubmit(FormOf(v), Some(id), false) == Submit(Some(Update(id, v)), true, EmptyForm)
  {
    assert RowOf(FormOf(v)) == v;
  }

  /** An empty stored thumbnail is the one field an unchanged save rewrites, as null. */
  lemma EditThenSubmitNullsEmptyThumbnail(v: VideoRow, id: string)
    requires v.title != "" && v.videoUrl != "" && id != ""
    requires v.thumbnailUrl == Some("")
    ensures HandleSubmit(FormOf(v), Some(id), false).write == Some(Update(id, v.(thumbnailUrl := None)))
  {
    assert RowOf(FormOf(v)) == v.(thumbnailUrl := None);
  }

  /** `togglePublished`: the value written for `published`; an unset flag counts as false. */
  function TogglePublished(published: Option<bool>): (r: bool)
    ensures r <==> !(published == Some(true))
  {
    !OrBool(published, false)
  }
}
