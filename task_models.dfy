/**
 * The value types of TaskModels.cs: a task category and a task item.
 * C# `string` references that may be null are `Option<string>` here; after
 * construction the name of either value is never null, so it is a `string`.
 */
module TaskModels {
  import opened Wrappers

  /** Color given to a category whose color argument is null. */
  const DefaultColor: string := "#FFFFFF"

  /** A category; its properties have no setters. */
  datatype Category = Category(id: int, name: string, color: string) {

    /** ToString shows the category by its name (what a list box displays). */
    function ToString(): (s: string)
      ensures s == name
    {
      name
    }
  }

  /** The Category constructor: a null name becomes "" and a null color "#FFFFFF". */
  function NewCategory(id: int, name: Option<string>, color: Option<string>): (c: Category)
    ensures c.id == id
    ensures name.None? ==> c.name == ""
    ensures name.Some? ==> c.name == name.value
    ensures color.None? ==> c.color == DefaultColor
    ensures color.Some? ==> c.color == color.value
  {
    Category(id, name.GetOr(""), color.GetOr(DefaultColor))
  }

  /**
   * A task item. IsComplete, Category and Tags have public setters; a setter
   * call is a datatype update `t.(isComplete := b)`. Tags may be set to null
   * after construction, so the field stays optional.
   */
  datatype TaskItem = TaskItem(
    id: int,
    name: string,
    isComplete: bool,
    category: Option<Category>,
    tags: Option<seq<string>>)
  {

    /** ToString shows the task by its name. */
    function ToString(): (s: string)
      ensures s == name
    {
      name
    }
  }

  /**
   * The TaskItem constructor with its optional parameters: isComplete defaults
   * to false and category to null; a null name becomes "" and null tags an
   * empty list, so a freshly built task never has null tags.
   */
  function NewTaskItem(
    id: int,
    name: Option<string>,
    isComplete: bool := false,
    category: Option<Category> := None,
    tags: Option<seq<string>> := None): (t: TaskItem)
    ensures t.id == id && t.isComplete == isComplete && t.category == category
    ensures name.None? ==> t.name == ""
    ensures name.Some? ==> t.name == name.value
    ensures t.tags.Some?
    ensures tags.None? ==> t.tags == Some([])
    ensures tags.Some? ==> t.tags == tags
  {
    TaskItem(id, name.GetOr(""), isComplete, category, Some(tags.GetOr([])))
  }

  /** Building a category from an existing one's fields gives it back: non-null arguments are stored unchanged. */
  lemma CategoryFieldsRoundTrip(c: Category)
    ensures NewCategory(c.id, Some(c.name), Some(c.color)) == c
    ensures NewCategory(c.id, Some(c.name), Some(c.color)).ToString() == c.name
  {
  }

  /** A task built with only an id and a name is incomplete, uncategorised, has no tags and shows that name. */
  lemma TaskItemDefaults(id: int, name: string)
    ensures NewTaskItem(id, Some(name)) == TaskItem(id, name, false, None, Some([]))
    ensures NewTaskItem(id, Some(name)).ToString() == name
    ensures NewTaskItem(id, None).ToString() == ""
  {
  }
}
