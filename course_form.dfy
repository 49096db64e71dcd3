/** The course form state shared by the create and edit pages
    (CreateCourse.tsx, EditCourse.tsx): text fields plus the two editable
    lists "what you will learn" and "requirements", the per-index list
    helpers both pages define identically, and the blank-entry filter
    applied when the form is saved. */
module CourseForm {
  import opened Common
  import opened Text

  /** The form fields. The create page has no thumbnail field; there
      `thumbnail_url` stays "" and is never sent. `price` is the text typed. */
  datatype Form = Form(
    title: string,
    description: string,
    category: string,
    price: string,
    level: string,
    what_you_will_learn: seq<string>,
    requirements: seq<string>,
    thumbnail_url: string)

  /** The `field` argument of the list helpers. */
  datatype ListField = WhatYouWillLearn | Requirements

  /** The `useState` initial value: level 'beginner', one empty entry in
      each list, every text field empty. */
  const InitialForm := Form("", "", "", "", "beginner", [""], [""], "")

  function Items(form: Form, field: ListField): seq<string> {
    match field
    case WhatYouWillLearn => form.what_you_will_learn
    case Requirements => form.requirements
  }

  /** The list the other `field` names. */
  function Other(field: ListField): ListField {
    match field
    case WhatYouWillLearn => Requirements
    case Requirements => WhatYouWillLearn
  }

  /** `a` and `b` agree on every field except, possibly, the list `field`. */
  predicate AgreeExcept(a: Form, b: Form, field: ListField) {
    && a.title == b.title && a.description == b.description && a.category == b.category
    && a.price == b.price && a.level == b.level && a.thumbnail_url == b.thumbnail_url
    && Items(a, Other(field)) == Items(b, Other(field))
  }

  /** `{ ...formData, [field]: items }`. */
  function WithItems(form: Form, field: ListField, items: seq<string>): (r: Form)
    ensures Items(r, field) == items
    ensures AgreeExcept(r, form, field)
    ensures field.WhatYouWillLearn? ==> r.(what_you_will_learn := form.what_you_will_learn) == form
    ensures field.Requirements? ==> r.(requirements := form.requirements) == form
  {
    match field
    case WhatYouWillLearn => form.(what_you_will_learn := items)
    case Requirements => form.(requirements := items)
  }

  /** `const a = [...items]; a[index] = value`, for an index of an existing
      entry (the only indices the rendered inputs pass). */
  function ChangeItem(items: seq<string>, index: nat, value: string): (r: seq<string>)
    requires index < |items|
    ensures |r| == |items|
    ensures r[index] == value
    ensures forall i :: 0 <= i < |items| && i != index ==> r[i] == items[i]
  {
    items[index := value]
  }

  /** The handler's steps: copy the list into a fresh array, assign the
      entry in the copy, hand the copy back. */
  method AssignInCopy(items: seq<string>, index: nat, value: string) returns (r: seq<string>)
    requires index < |items|
    ensures r == ChangeItem(items, index, value)
  {
    var copy := new string[|items|](i requires 0 <= i < |items| => items[i]);
    copy[index] := value;
    r := copy[..];
  }

  /** `[...items, '']`. */
  function AddItem(items: seq<string>): (r: seq<string>)
    ensures |r| == |items| + 1 && r[..|items|] == items && r[|items|] == ""
  {
    items + [""]
  }

  /** Writing back the old value undoes a change. */
  lemma ChangeItemUndo(items: seq<string>, index: nat, value: string)
    requires index < |items|
    ensures ChangeItem(ChangeItem(items, index, value), index, items[index]) == items
  {
  }

  /** Removing the entry just added restores the list. */
  lemma RemoveAddedItem(items: seq<string>)
    ensures RemoveAt(AddItem(items), |items|) == items
  {
    assert AddItem(items)[..|items|] == items;
  }

  /** `items.filter(item => item.trim() !== '')`. */
  function NonBlank(items: seq<string>): seq<string> {
    Filter(items, (x: string) => !IsBlank(x))
  }

  /** The saved list holds exactly the entries with non-blank text: each as
      often as it was entered, in the order it was entered. */
  lemma NonBlankKeepsFilledEntries(items: seq<string>)
    ensures forall x :: x in NonBlank(items) <==> x in items && !IsBlank(x)
    ensures forall x :: multiset(NonBlank(items))[x] == if IsBlank(x) then 0 else multiset(items)[x]
    ensures IsSubsequence(NonBlank(items), items)
  {
    FilterMultiset(items, (x: string) => !IsBlank(x));
    FilterIsSubsequence(items, (x: string) => !IsBlank(x));
  }

  /** An entry added and left empty is dropped on save. */
  lemma AddedItemIsDroppedOnSave(items: seq<string>)
    ensures NonBlank(AddItem(items)) == NonBlank(items)
  {
    FilterAppend(items, [""], (x: string) => !IsBlank(x));
  }

  /** A list without blank entries is saved as it is. */
  lemma FilledListSavedUnchanged(items: seq<string>)
    requires forall i :: 0 <= i < |items| ==> !IsBlank(items[i])
    ensures NonBlank(items) == items
  {
    FilterAll(items, (x: string) => !IsBlank(x));
  }

  /** `handleArrayChange(index, value, field)`: the other list and the other
      fields are untouched. */
  function ArrayChanged(form: Form, index: nat, value: string, field: ListField): (r: Form)
    requires index < |Items(form, field)|
    ensures Items(r, field) == ChangeItem(Items(form, field), index, value)
    ensures AgreeExcept(r, form, field)
  {
    WithItems(form, field, ChangeItem(Items(form, field), index, value))
  }

  /** `addArrayItem(field)`: the other list and the other fields are
      untouched. */
  function ArrayItemAdded(form: Form, field: ListField): (r: Form)
    ensures Items(r, field) == AddItem(Items(form, field))
    ensures AgreeExcept(r, form, field)
  {
    WithItems(form, field, AddItem(Items(form, field)))
  }

  /** `removeArrayItem(index, field)`: the other list and the other fields
      are untouched. */
  function ArrayItemRemoved(form: Form, index: int, field: ListField): (r: Form)
    ensures Items(r, field) == RemoveAt(Items(form, field), index)
    ensures AgreeExcept(r, form, field)
  {
    WithItems(form, field, RemoveAt(Items(form, field), index))
  }
}
