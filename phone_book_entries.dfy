/** IPhoneBook: an entry is one of the two concrete entry classes. Which one it is decides what
    setting its category does. */
module PhoneBookEntries {
  import opened JavaLang
  import opened CatCategory
  import opened PhoneBookRequests
  import opened PhonebookDtos

  /** What the entry's category reference looks like: no category, or a category with this id. */
  datatype CategoryRef = NoCategory | RefersTo(id: Option<Long>)

  datatype IPhoneBook = Request(request: PhoneBookRequest) | Dto(dto: PhonebookDto)
  {
    /** The object behind the interface. */
    function Obj(): object
    {
      match this
      case Request(r) => r
      case Dto(d) => d
    }

    /** getCategory(). */
    function Category(): CategoryEntity?
      reads Obj()
    {
      match this
      case Request(r) => r.category
      case Dto(d) => d.category
    }

    function Ref(): CategoryRef
      reads Obj(), Category()
    {
      if Category() == null then NoCategory else RefersTo(Category().id)
    }

    /** The four scalar fields, which setting the category leaves alone. */
    function Scalars(): (Option<Long>, Option<string>, Option<string>, Option<string>)
      reads Obj()
    {
      match this
      case Request(r) => (r.id, r.name, r.phoneNumber, r.email)
      case Dto(d) => (d.id, d.name, d.phoneNumber, d.email)
    }
  }

  /** The effect of setCategory(c) on an entry, by its concrete type: a PhonebookDto takes c as it
      is, null included; a PhoneBookRequest keeps its category for null and otherwise takes a new
      entity filled from c. Either way the scalar fields stay as they were. */
  twostate predicate CategorySet(e: IPhoneBook, c: CategoryEntity?)
    reads e.Obj(), e.Category(), c
  {
    e.Scalars() == old(e.Scalars()) &&
    match e
    case Dto(d) => d.category == c
    case Request(r) =>
      if c == null then r.category == old(r.category)
      else r.category != null && fresh(r.category) && r.category.Fields() == c.Fields()
  }

  /** setCategory through the interface: dispatches to the entry's own class. */
  method SetCategory(e: IPhoneBook, c: CategoryEntity?)
    modifies e.Obj()
    ensures CategorySet(e, c)
  {
    match e
    case Request(r) => r.SetCategory(c);
    case Dto(d) => d.SetCategory(c);
  }
}
