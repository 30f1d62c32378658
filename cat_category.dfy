/** The category side as far as the phone-book code touches it. One class stands for every
    implementation of ICategory; a category is known here by its id and its name. */
module CatCategory {
  import opened JavaLang

  /** What a category reference carries, as a value: the fields a query or a display reads. */
  datatype CategoryFields = CategoryFields(id: Option<Long>, name: Option<string>)

  class CategoryEntity {
    var id: Option<Long>
    var name: Option<string>

    /** `new CategoryEntity()`: every field null. */
    constructor ()
      ensures id == None && name == None
    {
      id := None;
      name := None;
    }

    /** `CategoryEntity.builder().id(key).build()`: a reference carrying only an id. */
    constructor WithId(key: Long)
      ensures id == Some(key) && name == None
    {
      id := Some(key);
      name := None;
    }

    function Fields(): CategoryFields
      reads this
    {
      CategoryFields(id, name)
    }

    /** copyFields(from): fills this entity from another category. */
    method CopyFields(from: CategoryEntity)
      modifies this
      ensures Fields() == old(from.Fields())
    {
      id, name := from.id, from.name;
    }
  }
}
