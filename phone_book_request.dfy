/** PhoneBookRequest: the draft a client sends for insert and update. Its category setter
    ignores null and otherwise stores a copy of the given category. */
module PhoneBookRequests {
  import opened JavaLang
  import opened CatCategory

  /** The field constraints the class declares with @NotBlank and @Size. */
  datatype Constraint = NameBlank | NameSize | PhoneNumberBlank | PhoneNumberSize | EmailSize

  /** @NotBlank on a String: not null, and something is left after trimming, where trimming
      removes the characters at or below U+0020. */
  predicate NotBlank(s: Option<string>)
  {
    s.Some? && exists i :: 0 <= i < |s.value| && s.value[i] > ' '
  }

  /** @Size(min, max) on a String: null passes; otherwise the length lies in [min, max]. */
  predicate SizeWithin(s: Option<string>, min: nat, max: nat)
  {
    s.None? || min <= |s.value| <= max
  }

  class PhoneBookRequest {
    var id: Option<Long>
    var name: Option<string>
    var category: CategoryEntity?
    var phoneNumber: Option<string>
    var email: Option<string>

    /** The all-arguments constructor behind @Builder: every field as given. */
    constructor (id: Option<Long>, name: Option<string>, category: CategoryEntity?,
                 phoneNumber: Option<string>, email: Option<string>)
      ensures this.id == id && this.name == name && this.category == category
      ensures this.phoneNumber == phoneNumber && this.email == email
    {
      this.id := id;
      this.name := name;
      this.category := category;
      this.phoneNumber := phoneNumber;
      this.email := email;
    }

    /** The declared validity of a draft: name non-blank with 2 to 12 characters, phone number
        non-blank with 10 to 20 characters, email at most 200 characters. The id carries no
        constraint (it is ignored on JSON input) and @NotBlank on the category entity has no
        meaning for a non-string field. */
    predicate DeclaredValid(): (ok: bool)
      reads this
      ensures ok ==> name.Some? && 2 <= |name.value| <= 12
      ensures ok ==> phoneNumber.Some? && 10 <= |phoneNumber.value| <= 20
      ensures ok ==> email.None? || |email.value| <= 200
    {
      NotBlank(name) && SizeWithin(name, 2, 12) &&
      NotBlank(phoneNumber) && SizeWithin(phoneNumber, 10, 20) &&
      SizeWithin(email, 0, 200)
    }

    /** The constraints this draft breaks, one per annotation, as a validator would report them. */
    function Violations(): (v: set<Constraint>)
      reads this
      ensures v == {} <==> DeclaredValid()
      ensures NameBlank in v <==> !NotBlank(name)
      ensures NameSize in v <==> name.Some? && !(2 <= |name.value| <= 12)
      ensures PhoneNumberBlank in v <==> !NotBlank(phoneNumber)
      ensures PhoneNumberSize in v <==> phoneNumber.Some? && !(10 <= |phoneNumber.value| <= 20)
      ensures EmailSize in v <==> email.Some? && |email.value| > 200
    {
      (if NotBlank(name) then {} else {NameBlank}) +
      (if SizeWithin(name, 2, 12) then {} else {NameSize}) +
      (if NotBlank(phoneNumber) then {} else {PhoneNumberBlank}) +
      (if SizeWithin(phoneNumber, 10, 20) then {} else {PhoneNumberSize}) +
      (if SizeWithin(email, 0, 200) then {} else {EmailSize})
    }

    /** setCategory: null leaves the category as it is; otherwise the category becomes a newly
        allocated entity filled from the argument, never the argument itself. */
    method SetCategory(c: CategoryEntity?)
      modifies this
      ensures c == null ==> category == old(category)
      ensures c != null ==> category != null && fresh(category) && category != c
                            && category.Fields() == c.Fields()
      ensures id == old(id) && name == old(name)
      ensures phoneNumber == old(phoneNumber) && email == old(email)
    {
      if c == null {
        return;
      }
      var entity := new CategoryEntity();
      entity.CopyFields(c);
      category := entity;
    }

    // Lombok setters for the other fields: each stores its argument and touches nothing else.

    method SetId(x: Option<Long>)
      modifies this
      ensures id == x && name == old(name) && category == old(category)
      ensures phoneNumber == old(phoneNumber) && email == old(email)
    {
      id := x;
    }

    method SetName(x: Option<string>)
      modifies this
      ensures name == x && id == old(id) && category == old(category)
      ensures phoneNumber == old(phoneNumber) && email == old(email)
    {
      name := x;
    }

    method SetPhoneNumber(x: Option<string>)
      modifies this
      ensures phoneNumber == x && id == old(id) && name == old(name)
      ensures category == old(category) && email == old(email)
    {
      phoneNumber := x;
    }

    method SetEmail(x: Option<string>)
      modifies this
      ensures email == x && id == old(id) && name == old(name)
      ensures category == old(category) && phoneNumber == old(phoneNumber)
    {
      email := x;
    }
  }

  /** An example of the two constraints on one field working apart: "  " has the length @Size
      asks for, yet it is blank, so only @NotBlank reports it. */
  lemma BlankNameRejected(r: PhoneBookRequest)
    requires r.name == Some("  ")
    ensures NameBlank in r.Violations() && NameSize !in r.Violations() && !r.DeclaredValid()
  {
  }
}
