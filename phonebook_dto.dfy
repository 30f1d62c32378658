/** PhonebookDto: the plain entry record. Its Lombok setters, the category setter included,
    store whatever they are given; toString renders the five fields. */
module PhonebookDtos {
  import opened JavaLang
  import opened CatCategory

  /** %s of a nullable String. */
  function Text(s: Option<string>): string
  {
    match s
    case None => "null"
    case Some(v) => v
  }

  /** %6d of a nullable Long, without the padding to six columns. */
  function IdText(id: Option<Long>): string
  {
    match id
    case None => "null"
    case Some(n) => DecimalText(n)
  }

  /** The category slot of toString: the category's name when there is a category, null otherwise. */
  function CategoryText(c: CategoryEntity?): string
    reads c
  {
    if c != null then Text(c.name) else "null"
  }

  class PhonebookDto {
    var id: Option<Long>
    var name: Option<string>
    var category: CategoryEntity?
    var phoneNumber: Option<string>
    var email: Option<string>

    /** @NoArgsConstructor: every field null. */
    constructor Empty()
      ensures id == None && name == None && category == null
      ensures phoneNumber == None && email == None
    {
      id, name, category, phoneNumber, email := None, None, null, None, None;
    }

    /** @AllArgsConstructor (also what @Builder builds with): each field as given, in
        declaration order. */
    constructor (id: Option<Long>, name: Option<string>, category: CategoryEntity?,
                 phoneNumber: Option<string>, email: Option<string>)
      ensures this.id == id && this.name == name && this.category == category
      ensures this.phoneNumber == phoneNumber && this.email == email
    {
      this.id := id;
      this.name := name;
      this.category := category;
      this.phoneNumber := phoneNumber;
      this.email := email;
    }

    /** The Lombok category setter: stores the argument itself, null included. */
    method SetCategory(c: CategoryEntity?)
      modifies this
      ensures category == c
      ensures id == old(id) && name == old(name)
      ensures phoneNumber == old(phoneNumber) && email == old(email)
    {
      category := c;
    }

    method SetId(x: Option<Long>)
      modifies this
      ensures id == x && name == old(name) && category == old(category)
      ensures phoneNumber == old(phoneNumber) && email == old(email)
    {
      id := x;
    }

    method SetName(x: Option<string>)
      modifies this
      ensures name == x && id == old(id) && category == old(category)
      ensures phoneNumber == old(phoneNumber) && email == old(email)
    {
      name := x;
    }

    method SetPhoneNumber(x: Option<string>)
      modifies this
      ensures phoneNumber == x && id == old(id) && name == old(name)
      ensures category == old(category) && email == old(email)
    {
      phoneNumber := x;
    }

    method SetEmail(x: Option<string>)
      modifies this
      ensures email == x && id == old(id) && name == old(name)
      ensures category == old(category) && phoneNumber == old(phoneNumber)
    {
      email := x;
    }

    /** The text before the category slot of toString: id, then name. */
    function Head(): string
      reads this
    {
      "{ID:" + IdText(id) + ", 이름:" + Text(name) + ", 분류:"
    }

    /** The text after the category slot of toString: phone number, then email. */
    function Tail(): string
      reads this
    {
      ", 번호:" + Text(phoneNumber) + ", 이메일:" + Text(email) + "}"
    }

    /** toString: id, name, category, phone number and email, in that order. */
    function ToString(): (s: string)
      reads this, category
      ensures |s| == |Head()| + |CategoryText(category)| + |Tail()|
      ensures s[..|Head()|] == Head() && s[|s| - |Tail()|..] == Tail()
      ensures s[|Head()|..|s| - |Tail()|] == CategoryText(category)
      ensures s[..4] == "{ID:" && s[|s| - 1] == '}'
    {
      Head() + CategoryText(category) + Tail()
    }
  }

  lemma Cancel(p: string, x: string, y: string, s: string)
    requires p + x + s == p + y + s
    ensures x == y
  {
    assert |x| == |y|;
    assert x == (p + x + s)[|p|..|p| + |x|];
  }

  /** Between two records that agree on id, name, phone number and email, the renderings agree
      exactly when the category slots do: the category shows only through CategoryText. */
  lemma ToStringCategorySlot(a: PhonebookDto, b: PhonebookDto)
    requires a.id == b.id && a.name == b.name
    requires a.phoneNumber == b.phoneNumber && a.email == b.email
    ensures a.ToString() == b.ToString() <==> CategoryText(a.category) == CategoryText(b.category)
  {
    if a.ToString() == b.ToString() {
      Cancel(a.Head(), CategoryText(a.category), CategoryText(b.category), a.Tail());
    }
  }

  /** A record whose category is absent renders exactly like one whose category has a null name,
      and differently from one whose category is named anything but "null". */
  lemma ToStringAbsentCategory(a: PhonebookDto, b: PhonebookDto)
    requires a.id == b.id && a.name == b.name
    requires a.phoneNumber == b.phoneNumber && a.email == b.email
    requires a.category == null && b.category != null
    ensures a.ToString() == b.ToString() <==> b.category.name.None? || b.category.name == Some("null")
  {
    ToStringCategorySlot(a, b);
  }

  /** The category's id never shows: two categories with the same name render alike. */
  lemma ToStringIgnoresCategoryId(a: PhonebookDto, b: PhonebookDto)
    requires a.id == b.id && a.name == b.name
    requires a.phoneNumber == b.phoneNumber && a.email == b.email
    requires a.category != null && b.category != null && a.category.name == b.category.name
    ensures a.ToString() == b.ToString()
  {
  }
}
