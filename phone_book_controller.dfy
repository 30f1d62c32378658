/** PhoneBookController: the nine handlers of /pb. Each maps its input and what the phone-book
    service answers to one of three responses; insert and update also re-fetch the category of
    the entry they return. The two services are collaborators whose answers are parameters. */
module PhoneBookController {
  import opened JavaLang
  import opened CatCategory
  import opened PhoneBookRequests
  import opened PhonebookDtos
  import opened PhoneBookEntries
  import Repo = PhoneBookJpaRepository

  /** ResponseEntity as the handlers build it: 200 with a body, 400, or 404. */
  datatype Response<+T> = Ok(body: T) | BadRequest | NotFound

  /** categoryService.findById as the controller sees it: what the call does for each id passed,
      null included. */
  type CategoryLookup = Option<Long> -> Outcome<CategoryEntity?>

  /** The category a lookup hands back for a reference, or null when there is none to hand back. */
  function Found(ref: CategoryRef, findCategory: CategoryLookup): CategoryEntity?
  {
    if ref.RefersTo? && findCategory(ref.id).Returned? then findCategory(ref.id).value else null
  }

  /** What re-fetching the category did to an entry whose reference was `ref` beforehand: nothing
      when it had no category or the lookup threw; otherwise setCategory with the lookup's result. */
  twostate predicate Hydrated(e: IPhoneBook, ref: CategoryRef, findCategory: CategoryLookup)
    reads e.Obj(), e.Category(), Found(ref, findCategory)
  {
    match ref
    case NoCategory => unchanged(e.Obj())
    case RefersTo(id) =>
      match findCategory(id)
      case Threw => unchanged(e.Obj())
      case Returned(found) => CategorySet(e, found)
  }

  /** The step after a write returns an entry: if the entry has a category, look it up by its id
      and set the result as the entry's category. Reports whether the lookup threw. */
  method Hydrate(e: IPhoneBook, findCategory: CategoryLookup) returns (threw: bool)
    modifies e.Obj()
    ensures Hydrated(e, old(e.Ref()), findCategory)
    ensures threw <==> old(e.Ref()).RefersTo? && findCategory(old(e.Ref()).id).Threw?
  {
    var ref := e.Ref();
    if ref.RefersTo? {
      var find := findCategory(ref.id);
      if find.Threw? {
        return true;
      }
      SetCategory(e, find.value);
    }
    return false;
  }

  /** The response of a write once its guard has let it through, from the service's answer and
      the returned entry's category reference before hydration: a thrown exception, from the
      service or from the category lookup, is 400; a null answer is `onNull`; otherwise 200 with
      the entry the service returned. */
  function WriteResponse(answer: Outcome<Option<IPhoneBook>>, ref: CategoryRef,
                         findCategory: CategoryLookup, onNull: Response<IPhoneBook>): (r: Response<IPhoneBook>)
    requires !onNull.Ok?
    ensures r.Ok? <==> answer.Returned? && answer.value.Some? &&
                       (ref.RefersTo? ==> findCategory(ref.id).Returned?)
    ensures r.Ok? ==> answer == Returned(Some(r.body))
    ensures r.NotFound? <==> answer == Returned(None) && onNull.NotFound?
    ensures r.BadRequest? <==> answer.Threw? || (answer == Returned(None) && onNull.BadRequest?) ||
                               (answer.Returned? && answer.value.Some? && ref.RefersTo? && findCategory(ref.id).Threw?)
  {
    match answer
    case Threw => BadRequest
    case Returned(None) => onNull
    case Returned(Some(e)) =>
      if ref.RefersTo? && findCategory(ref.id).Threw? then BadRequest else Ok(e)
  }

  /** POST /pb. */
  method Insert(dto: PhoneBookRequest?, insert: PhoneBookRequest -> Outcome<Option<IPhoneBook>>,
                findCategory: CategoryLookup)
    returns (resp: Response<IPhoneBook>)
    modifies if dto != null && insert(dto).Returned? && insert(dto).value.Some?
             then {insert(dto).value.value.Obj()} else {}
    ensures dto == null ==> resp == BadRequest
    ensures dto != null ==>
      match insert(dto)
      case Returned(Some(e)) =>
        resp == WriteResponse(insert(dto), old(e.Ref()), findCategory, BadRequest) &&
        Hydrated(e, old(e.Ref()), findCategory)
      case _ => resp == WriteResponse(insert(dto), NoCategory, findCategory, BadRequest)
  {
    if dto == null {
      return BadRequest;
    }
    var result := insert(dto);
    if result.Threw? {
      return BadRequest;
    }
    if result.value.None? {
      return BadRequest;
    }
    var e := result.value.value;
    var threw := Hydrate(e, findCategory);
    if threw {
      return BadRequest;
    }
    return Ok(e);
  }

  /** PATCH /pb/{id}. */
  method Update(id: Option<Long>, dto: PhoneBookRequest?,
                update: (Long, PhoneBookRequest) -> Outcome<Option<IPhoneBook>>, findCategory: CategoryLookup)
    returns (resp: Response<IPhoneBook>)
    modifies if id.Some? && dto != null && update(id.value, dto).Returned? && update(id.value, dto).value.Some?
             then {update(id.value, dto).value.value.Obj()} else {}
    ensures id.None? || dto == null ==> resp == BadRequest
    ensures id.Some? && dto != null ==>
      match update(id.value, dto)
      case Returned(Some(e)) =>
        resp == WriteResponse(update(id.value, dto), old(e.Ref()), findCategory, NotFound) &&
        Hydrated(e, old(e.Ref()), findCategory)
      case _ => resp == WriteResponse(update(id.value, dto), NoCategory, findCategory, NotFound)
  {
    if id.None? || dto == null {
      return BadRequest;
    }
    var result := update(id.value, dto);
    if result.Threw? {
      return BadRequest;
    }
    if result.value.None? {
      return NotFound;
    }
    var e := result.value.value;
    var threw := Hydrate(e, findCategory);
    if threw {
      return BadRequest;
    }
    return Ok(e);
  }

  /** GET /pb: the service's list as it is, null included; never 404. */
  function GetAll<T>(listed: Outcome<Option<seq<T>>>): (r: Response<Option<seq<T>>>)
    ensures !r.NotFound?
    ensures r.BadRequest? <==> listed.Threw?
    ensures r.Ok? ==> listed == Returned(r.body)
  {
    match listed
    case Threw => BadRequest
    case Returned(list) => Ok(list)
  }

  /** DELETE /pb/{id}: only a null id is refused; the service's Boolean comes back as it is, so a
      missing entry gives 200 with false, never 404. */
  function Delete(id: Option<Long>, remove: Long -> Outcome<Option<bool>>): (r: Response<Option<bool>>)
    ensures !r.NotFound?
    ensures r.BadRequest? <==> id.None? || remove(id.value).Threw?
    ensures r.Ok? ==> remove(id.value) == Returned(r.body)
  {
    if id.None? then BadRequest
    else
      match remove(id.value)
      case Threw => BadRequest
      case Returned(removed) => Ok(removed)
  }

  /** GET /pb/{id}: ids that are null or not positive are refused; a null answer is 404; the entry
      comes back as the service returned it, without re-fetching its category. */
  function FindById<T>(id: Option<Long>, findById: Long -> Outcome<Option<T>>): (r: Response<T>)
    ensures r.BadRequest? <==> id.None? || id.value <= 0 || findById(id.value).Threw?
    ensures r.NotFound? <==> id.Some? && id.value > 0 && findById(id.value) == Returned(None)
    ensures r.Ok? ==> id.Some? && id.value > 0 && findById(id.value) == Returned(Some(r.body))
  {
    if id.None? || id.value <= 0 then BadRequest
    else
      match findById(id.value)
      case Threw => BadRequest
      case Returned(None) => NotFound
      case Returned(Some(entry)) => Ok(entry)
  }

  /** The tail every search shares: a thrown exception is 400, a null or empty list is 404, any
      other list comes back unchanged. */
  function ListResponse<T>(answer: Outcome<Option<seq<T>>>): (r: Response<seq<T>>)
    ensures r.BadRequest? <==> answer.Threw?
    ensures r.NotFound? <==> answer == Returned(None) || answer == Returned(Some([]))
    ensures r.Ok? ==> r.body != [] && answer == Returned(Some(r.body))
  {
    match answer
    case Threw => BadRequest
    case Returned(None) => NotFound
    case Returned(Some(list)) => if |list| <= 0 then NotFound else Ok(list)
  }

  /** GET /pb/nm/{name}. */
  function FindAllByNameContains<T>(name: Option<string>, getListFromName: string -> Outcome<Option<seq<T>>>)
    : (r: Response<seq<T>>)
    ensures r.BadRequest? <==> name.None? || name.value == [] || getListFromName(name.value).Threw?
    ensures r.NotFound? <==> name.Some? && name.value != [] &&
                             (getListFromName(name.value) == Returned(None) ||
                              getListFromName(name.value) == Returned(Some([])))
    ensures r.Ok? ==> name.Some? && r.body != [] && getListFromName(name.value) == Returned(Some(r.body))
  {
    if name.None? || name.value == [] then BadRequest else ListResponse(getListFromName(name.value))
  }

  /** Long.parseLong(category.toString()): the key of the probe category. */
  function ProbeId(category: Integer): (key: Outcome<Long>)
    ensures key == Returned(category)
  {
    ParseLongRoundTrip(category);
    ParseLong(DecimalText(category))
  }

  /** GET /pb/ct/{category}: builds a category reference carrying only the requested id and asks
      the service for the entries in that category. Also returns that reference. */
  method FindAllByCategory<T>(category: Option<Integer>,
                              getListFromCategory: CategoryFields -> Outcome<Option<seq<T>>>)
    returns (resp: Response<seq<T>>, probe: CategoryEntity?)
    ensures category.None? ==> resp == BadRequest && probe == null
    ensures category.Some? ==> probe != null && fresh(probe) &&
                               probe.Fields() == CategoryFields(Some(category.value), None)
    ensures category.Some? ==> resp == ListResponse(getListFromCategory(CategoryFields(Some(category.value), None)))
  {
    if category.None? {
      return BadRequest, null;
    }
    var key := ProbeId(category.value).value;
    probe := new CategoryEntity.WithId(key);
    resp := ListResponse(getListFromCategory(probe.Fields()));
  }

  /** GET /pb/pn/{phoneNumber}. */
  function FindAllByPhoneNumberContains<T>(phoneNumber: Option<string>,
                                           getListFromPhoneNumber: string -> Outcome<Option<seq<T>>>)
    : (r: Response<seq<T>>)
    ensures r.BadRequest? <==> phoneNumber.None? || phoneNumber.value == [] ||
                               getListFromPhoneNumber(phoneNumber.value).Threw?
    ensures r.NotFound? <==> phoneNumber.Some? && phoneNumber.value != [] &&
                             (getListFromPhoneNumber(phoneNumber.value) == Returned(None) ||
                              getListFromPhoneNumber(phoneNumber.value) == Returned(Some([])))
    ensures r.Ok? ==> phoneNumber.Some? && r.body != [] &&
                      getListFromPhoneNumber(phoneNumber.value) == Returned(Some(r.body))
  {
    if phoneNumber.None? || phoneNumber.value == [] then BadRequest
    else ListResponse(getListFromPhoneNumber(phoneNumber.value))
  }

  /** GET /pb/em/{email}. */
  function FindAllByEmailContains<T>(email: Option<string>, getListFromEmail: string -> Outcome<Option<seq<T>>>)
    : (r: Response<seq<T>>)
    ensures r.BadRequest? <==> email.None? || email.value == [] || getListFromEmail(email.value).Threw?
    ensures r.NotFound? <==> email.Some? && email.value != [] &&
                             (getListFromEmail(email.value) == Returned(None) ||
                              getListFromEmail(email.value) == Returned(Some([])))
    ensures r.Ok? ==> email.Some? && r.body != [] && getListFromEmail(email.value) == Returned(Some(r.body))
  {
    if email.None? || email.value == [] then BadRequest else ListResponse(getListFromEmail(email.value))
  }

  // What the handlers give when the service answers from stored data.

  /** With a service that answers from an id-keyed store, GET /pb/{id} is 200 with the stored entry
      exactly when the id is positive and stored, and 404 when it is positive and not stored. */
  lemma FindByIdOverStore<T>(id: Option<Long>, store: map<Long, T>)
    ensures var r := FindById(id, (k: Long) => Returned(if k in store then Some(store[k]) else None));
            (r.BadRequest? <==> id.None? || id.value <= 0) &&
            (r.NotFound? <==> id.Some? && id.value > 0 && id.value !in store) &&
            (r.Ok? <==> id.Some? && id.value > 0 && id.value in store) &&
            (r.Ok? ==> r.body == store[id.value])
  {
  }

  /** A list answered by a repository query is 404 exactly when no stored row meets the query's
      condition, and otherwise carries exactly the stored rows that meet it. */
  lemma ListOverRepository(rows: seq<Repo.PhonebookEntity>, keep: Repo.PhonebookEntity -> bool)
    ensures var r := ListResponse(Returned(Some(Repo.Filter(rows, keep))));
            !r.BadRequest? &&
            (r.NotFound? <==> forall e :: e in rows ==> !keep(e)) &&
            (r.Ok? ==> forall e :: e in r.body <==> e in rows && keep(e))
  {
    Repo.QueryExact(rows, keep);
    var found := Repo.Filter(rows, keep);
    if found != [] {
      assert found[0] in found;
    }
  }

  /** GET /pb/nm/{name} against a service that runs findAllByNameContains over the stored rows. */
  lemma NameSearchOverRepository(rows: seq<Repo.PhonebookEntity>, name: Option<string>)
    ensures var r := FindAllByNameContains(name, (s: string) => Returned(Some(Repo.FindAllByNameContains(rows, s))));
            (r.BadRequest? <==> name.None? || name.value == []) &&
            (r.NotFound? <==> name.Some? && name.value != [] &&
                              forall e :: e in rows ==> !Repo.ContainsText(e.name, name.value)) &&
            (r.Ok? ==> forall e :: e in r.body <==> e in rows && Repo.ContainsText(e.name, name.value))
  {
    if name.Some? && name.value != [] {
      ListOverRepository(rows, (e: Repo.PhonebookEntity) => Repo.ContainsText(e.name, name.value));
    }
  }

  /** GET /pb/ct/{category} against a service that runs findAllByCategory with the probe: the
      entries whose category has the requested id, and 404 when there are none. */
  lemma CategorySearchOverRepository(rows: seq<Repo.PhonebookEntity>, category: Integer)
    ensures var r := ListResponse(Returned(Some(Repo.FindAllByCategory(rows, CategoryFields(Some(category), None)))));
            (r.NotFound? <==> forall e :: e in rows ==> e.categoryId != Some(category as Long)) &&
            (r.Ok? ==> forall e :: e in r.body <==> e in rows && e.categoryId == Some(category as Long))
  {
    var probe := CategoryFields(Some(category as Long), None);
    ListOverRepository(rows, (e: Repo.PhonebookEntity) => probe.id.Some? && e.categoryId == probe.id);
  }

  /** GET /pb/pn/{phoneNumber} against a service that runs findAllByPhoneNumberContains. */
  lemma PhoneNumberSearchOverRepository(rows: seq<Repo.PhonebookEntity>, phoneNumber: Option<string>)
    ensures var r := FindAllByPhoneNumberContains(phoneNumber,
                       (s: string) => Returned(Some(Repo.FindAllByPhoneNumberContains(rows, s))));
            (r.BadRequest? <==> phoneNumber.None? || phoneNumber.value == []) &&
            (r.NotFound? <==> phoneNumber.Some? && phoneNumber.value != [] &&
                              forall e :: e in rows ==> !Repo.ContainsText(e.phoneNumber, phoneNumber.value)) &&
            (r.Ok? ==> forall e :: e in r.body <==> e in rows && Repo.ContainsText(e.phoneNumber, phoneNumber.value))
  {
    if phoneNumber.Some? && phoneNumber.value != [] {
      ListOverRepository(rows, (e: Repo.PhonebookEntity) => Repo.ContainsText(e.phoneNumber, phoneNumber.value));
    }
  }

  /** GET /pb/em/{email} against a service that runs findAllByEmailContains. */
  lemma EmailSearchOverRepository(rows: seq<Repo.PhonebookEntity>, email: Option<string>)
    ensures var r := FindAllByEmailContains(email, (s: string) => Returned(Some(Repo.FindAllByEmailContains(rows, s))));
            (r.BadRequest? <==> email.None? || email.value == []) &&
            (r.NotFound? <==> email.Some? && email.value != [] &&
                              forall e :: e in rows ==> !Repo.ContainsText(e.email, email.value)) &&
            (r.Ok? ==> forall e :: e in r.body <==> e in rows && Repo.ContainsText(e.email, email.value))
  {
    if email.Some? && email.value != [] {
      ListOverRepository(rows, (e: Repo.PhonebookEntity) => Repo.ContainsText(e.email, email.value));
    }
  }

  // Contrasts between handlers.

  /** DELETE accepts an id that GET refuses: ids at or below zero reach the service on delete. */
  lemma DeleteTakesNonPositiveIds<T>(k: Long, remove: Long -> Outcome<Option<bool>>, findById: Long -> Outcome<Option<T>>)
    requires k <= 0 && remove(k).Returned?
    ensures Delete(Some(k), remove) == Ok(remove(k).value)
    ensures FindById(Some(k), findById) == BadRequest
  {
  }

  /** A write can be answered 400 after the service has already stored the entry: the category
      lookup that follows threw. */
  lemma BadRequestAfterStoredWrite(e: IPhoneBook, id: Option<Long>, findCategory: CategoryLookup, onNull: Response<IPhoneBook>)
    requires !onNull.Ok? && findCategory(id).Threw?
    ensures WriteResponse(Returned(Some(e)), RefersTo(id), findCategory, onNull) == BadRequest
  {
  }

  // Client scenarios: what a caller can conclude from the contracts alone.

  /** Inserting a draft whose category is {id:1} where category 1 is "Friends": 200, and the
      returned entry carries category 1 in full, whichever entry type the service returned. */
  method InsertWithKnownCategory()
  {
    var friends := new CategoryEntity.WithId(1);
    friends.name := Some("Friends");
    var findCategory := (id: Option<Long>) => if id == Some(1) then Returned(friends) else Returned(null);

    var reference := new CategoryEntity.WithId(1);
    var draft := new PhoneBookRequest(None, Some("Jane Doe"), reference, Some("555-0100-0000"), Some("j@x.com"));
    assert draft.name.value[0] > ' ' && draft.phoneNumber.value[0] > ' ';
    assert draft.DeclaredValid();

    // The service hands back a PhonebookDto whose category is a bare reference to id 1.
    var bare := new CategoryEntity.WithId(1);
    var stored := new PhonebookDto(Some(7), Some("Jane Doe"), bare, Some("555-0100-0000"), Some("j@x.com"));
    var resp := Insert(draft, (r: PhoneBookRequest) => Returned(Some(Dto(stored))), findCategory);
    assert resp == Ok(Dto(stored));
    assert stored.category == friends && stored.category.name == Some("Friends");

    // The service hands back the draft itself: its category becomes a copy of "Friends".
    resp := Insert(draft, (r: PhoneBookRequest) => Returned(Some(Request(r))), findCategory);
    assert resp == Ok(Request(draft));
    assert draft.category != friends && draft.category.Fields() == CategoryFields(Some(1), Some("Friends"));
  }

  /** When the lookup finds no category, a PhoneBookRequest keeps its unresolved reference while a
      PhonebookDto ends up with no category at all. */
  method InsertWithUnknownCategory()
  {
    var findCategory := (id: Option<Long>) => Returned(null);

    var unresolved := new CategoryEntity.WithId(42);
    var draft := new PhoneBookRequest(None, Some("Jane Doe"), unresolved, Some("555-0100-0000"), None);
    var resp := Insert(draft, (r: PhoneBookRequest) => Returned(Some(Request(r))), findCategory);
    assert resp == Ok(Request(draft)) && draft.category == unresolved;

    var bare := new CategoryEntity.WithId(42);
    var stored := new PhonebookDto(Some(7), Some("Jane Doe"), bare, Some("555-0100-0000"), None);
    resp := Insert(draft, (r: PhoneBookRequest) => Returned(Some(Dto(stored))), findCategory);
    assert resp == Ok(Dto(stored)) && stored.category == null;
  }

  /** DELETE /pb/9999 for an id the service does not hold: 200 with false. */
  lemma DeleteMissingEntry(remove: Long -> Outcome<Option<bool>>)
    requires remove(9999) == Returned(Some(false))
    ensures Delete(Some(9999), remove) == Ok(Some(false))
  {
  }
}
