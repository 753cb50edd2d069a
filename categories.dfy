/** The goal categories and their lookup with a fallback. */
module Categories {
  import opened Common
  import opened Lists

  /** A category, without its icon and colour classes. */
  datatype Category = Category(id: string, name: string)

  /** `GOAL_CATEGORIES`: the last entry is the fallback `other`. */
  const CategoryTable: seq<Category> := [
    Category("travel", "Travel"),
    Category("gadget", "Gadgets"),
    Category("education", "Education"),
    Category("emergency", "Emergency"),
    Category("vehicle", "Vehicle"),
    Category("wedding", "Wedding"),
    Category("home", "Home"),
    Category("investment", "Investment"),
    Category("other", "Other")
  ]

  lemma CategoryIdsDistinct()
    ensures |CategoryTable| == 9 && CategoryTable[|CategoryTable| - 1].id == "other"
    ensures forall i, j :: 0 <= i < j < |CategoryTable| ==> CategoryTable[i].id != CategoryTable[j].id
  {
  }

  /** `getCategoryById(id)`; a missing id (`undefined`) is `None`. */
  function CategoryById(id: Option<string>): Category
  {
    var found := Find(CategoryTable, (c: Category) => id == Some(c.id));
    if found.Some? then found.value else CategoryTable[|CategoryTable| - 1]
  }

  /** The result is always a table entry: the one with the id when there is
      one, and `other` for an unknown or missing id. */
  lemma CategoryByIdSpec(id: Option<string>)
    ensures CategoryById(id) in CategoryTable
    ensures forall i :: 0 <= i < |CategoryTable| && id == Some(CategoryTable[i].id) ==>
      CategoryById(id) == CategoryTable[i]
    ensures (forall i :: 0 <= i < |CategoryTable| ==> id != Some(CategoryTable[i].id)) ==>
      CategoryById(id).id == "other"
  {
    CategoryIdsDistinct();
    forall i | 0 <= i < |CategoryTable| && id == Some(CategoryTable[i].id)
      ensures CategoryById(id) == CategoryTable[i]
    {
      FindUnique(CategoryTable, (c: Category) => id == Some(c.id), i);
    }
  }
}
