# Phone-book entry boundary, modelled in Dafny

This project models the phone-book part of a small Spring/JPA contact directory. It covers:

- the REST controller for `/pb`, with its nine handlers;
- the two concrete entry types, `PhoneBookRequest` (the client draft) and `PhonebookDto` (a plain record);
- the four derived search queries of the JPA repository.

Each handler maps its input, plus whatever the phone-book service answers, to a 200 with a body, a 400,
or a 404. After `insert` and `update`, the handler re-fetches the returned entry's category by id and
sets it back on the entry. This step is called hydration below. What hydration does depends on the
entry's concrete type. A `PhoneBookRequest` ignores a null category and otherwise stores a freshly
allocated copy. A `PhonebookDto` stores what it is given, null included.

Files and modules:

- `java_lang.dfy`, module `JavaLang`, covers the java.lang pieces the code relies on:
  - nullable values (`Option`);
  - a call that returns or throws (`Outcome`);
  - `Long` and `Integer` as bounded integers;
  - `Long.toString`/`Integer.toString` as decimal text (`DecimalText`), and `Long.parseLong` (`ParseLong`).
- `cat_category.dfy`, module `CatCategory`: the category entity. One class stands for every `ICategory`.
- `phone_book_request.dfy`, module `PhoneBookRequests`: the draft class, its setters, and its declared field constraints.
- `phonebook_dto.dfy`, module `PhonebookDtos`: the record class, its setters, and `toString`.
- `phone_book_entries.dfy`, module `PhoneBookEntries`: `IPhoneBook` as a choice between the two classes, and
  `setCategory` dispatched to the right one.
- `phone_book_jpa_repository.dfy`, module `PhoneBookJpaRepository`: stored rows, and the four queries as filters.
- `phone_book_controller.dfy`, module `PhoneBookController`, contains:
  - the handlers;
  - lemmas that compose them with stored data;
  - two client scenarios.

How the collaborators are modelled:

- The phone-book service and the category service are interfaces whose implementations are not part of this
  model. So each of their calls is a parameter: a function from the call's arguments to what the call does,
  either `Returned(v)` or `Threw`.
- A Java `null` answer is `None` (or a null reference).
- Pure handlers are Dafny functions.
- `Insert` and `Update` are methods, because they change the returned entry in place.
- `FindAllByCategory` is a method, because it allocates the probe category it passes to the service.
- Lemmas connect the handlers to stored data under a stated assumption about what the service answers. One
  assumption is a `map` from id to entry for `findById`. The other is the repository queries over stored rows
  for the searches.

Points where the code behaves differently from what its names suggest:

- `findById` refuses ids that are not positive as well as null ids. `delete` refuses only null.
- The handlers do not validate the draft on insert or update: they take `@RequestBody` without `@Valid`. The
  field constraints are modelled as a predicate only.
- After a category lookup that returns null, the outcome depends on the entry type the service returns. A
  `PhoneBookRequest` keeps its unresolved reference. A `PhonebookDto` has its category set to null. The scenario
  `InsertWithUnknownCategory` shows both. A lookup that throws leaves either entry type unchanged, and the
  handler answers 400.
- The searches also answer 404 when the service returns a null list, not only an empty one.

## Model

| member | source | states |
|---|---|---|
| `JavaLang.DecimalText` | src/main/java/com/softagape/myjpa/phoneBook/PhonebookDto.java:20 | the text is non-empty, starts with a minus sign exactly for a negative number, and is otherwise all decimal digits |
| `JavaLang.ParseLong` | src/main/java/com/softagape/myjpa/phoneBook/PhoneBookController.java:137 | a parse succeeds only on text that starts with a sign or a digit, and a negative result only from text starting with a minus sign |
| `JavaLang.ParseLongRoundTrip` | src/main/java/com/softagape/myjpa/phoneBook/PhoneBookController.java:137 | parsing the decimal text of any long gives that long back |
| `CatCategory.CategoryEntity.constructor` | src/main/java/com/softagape/myjpa/phoneBook/PhoneBookRequest.java:39 | `new CategoryEntity()` leaves the id and the name null |
| `CatCategory.CategoryEntity.WithId` | src/main/java/com/softagape/myjpa/phoneBook/PhoneBookController.java:136-138 | the builder with only an id sets that id and leaves the name null |
| `CatCategory.CategoryEntity.CopyFields` | src/main/java/com/softagape/myjpa/phoneBook/PhoneBookRequest.java:39-40 | the entity is filled with the id and name of the category it copies |
| `PhoneBookRequests.PhoneBookRequest.constructor` | src/main/java/com/softagape/myjpa/phoneBook/PhoneBookRequest.java:15-32 | the builder's constructor stores each of the five fields as given |
| `PhoneBookRequests.PhoneBookRequest.DeclaredValid` | src/main/java/com/softagape/myjpa/phoneBook/PhoneBookRequest.java:20-32 | a valid draft has a non-null name of 2-12 characters, a non-null phone number of 10-20 characters, and a null email or one of at most 200 characters |
| `PhoneBookRequests.PhoneBookRequest.Violations` | src/main/java/com/softagape/myjpa/phoneBook/PhoneBookRequest.java:20-32 | no constraint is broken exactly when the name is non-blank with 2-12 characters, the phone number is non-blank with 10-20, and the email is null or at most 200; each of the five constraints is reported exactly when it is broken (a blank or null name or phone number; a non-null name outside 2-12, phone number outside 10-20, or email over 200 characters) |
| `PhoneBookRequests.PhoneBookRequest.SetCategory` | src/main/java/com/softagape/myjpa/phoneBook/PhoneBookRequest.java:34-42 | null leaves the category unchanged; otherwise the category is a fresh entity, not the argument, with the argument's id and name; no other field changes |
| `PhoneBookRequests.PhoneBookRequest.SetId` | src/main/java/com/softagape/myjpa/phoneBook/PhoneBookRequest.java:14-18 | the Lombok setter stores the id and changes nothing else |
| `PhoneBookRequests.PhoneBookRequest.SetName` | src/main/java/com/softagape/myjpa/phoneBook/PhoneBookRequest.java:14-22 | the Lombok setter stores the name and changes nothing else |
| `PhoneBookRequests.PhoneBookRequest.SetPhoneNumber` | src/main/java/com/softagape/myjpa/phoneBook/PhoneBookRequest.java:27-29 | the Lombok setter stores the phone number and changes nothing else |
| `PhoneBookRequests.PhoneBookRequest.SetEmail` | src/main/java/com/softagape/myjpa/phoneBook/PhoneBookRequest.java:31-32 | the Lombok setter stores the email and changes nothing else |
| `PhoneBookRequests.BlankNameRejected` | src/main/java/com/softagape/myjpa/phoneBook/PhoneBookRequest.java:20-22 | an example: a name of two spaces meets @Size but breaks @NotBlank, and only the blank-name constraint is reported for it |
| `PhonebookDtos.PhonebookDto.Empty` | src/main/java/com/softagape/myjpa/phoneBook/PhonebookDto.java:9 | the no-argument constructor leaves all five fields null |
| `PhonebookDtos.PhonebookDto.constructor` | src/main/java/com/softagape/myjpa/phoneBook/PhonebookDto.java:10-16 | the all-arguments constructor stores each of the five fields as given |
| `PhonebookDtos.PhonebookDto.SetCategory` | src/main/java/com/softagape/myjpa/phoneBook/PhonebookDto.java:7-14 | the category becomes the argument itself, null included; no other field changes |
| `PhonebookDtos.PhonebookDto.SetId` | src/main/java/com/softagape/myjpa/phoneBook/PhonebookDto.java:7-12 | the Lombok setter stores the id and changes nothing else |
| `PhonebookDtos.PhonebookDto.SetName` | src/main/java/com/softagape/myjpa/phoneBook/PhonebookDto.java:7-13 | the Lombok setter stores the name and changes nothing else |
| `PhonebookDtos.PhonebookDto.SetPhoneNumber` | src/main/java/com/softagape/myjpa/phoneBook/PhonebookDto.java:7-15 | the Lombok setter stores the phone number and changes nothing else |
| `PhonebookDtos.PhonebookDto.SetEmail` | src/main/java/com/softagape/myjpa/phoneBook/PhonebookDto.java:7-16 | the Lombok setter stores the email and changes nothing else |
| `PhonebookDtos.PhonebookDto.ToString` | src/main/java/com/softagape/myjpa/phoneBook/PhonebookDto.java:18-26 | the rendering is the id-and-name text, then the category slot, then the phone-and-email text, enclosed in `{ID:` and `}` |
| `PhonebookDtos.ToStringCategorySlot` | src/main/java/com/softagape/myjpa/phoneBook/PhonebookDto.java:19-26 | with the other four fields equal, two renderings are equal exactly when their category texts are |
| `PhonebookDtos.ToStringAbsentCategory` | src/main/java/com/softagape/myjpa/phoneBook/PhonebookDto.java:23 | an absent category renders as null: the same as a category with a null name or one named "null", and differently from a category with any other name |
| `PhonebookDtos.ToStringIgnoresCategoryId` | src/main/java/com/softagape/myjpa/phoneBook/PhonebookDto.java:23 | only the category's name shows; categories differing only in id render alike |
| `PhoneBookEntries.SetCategory` | src/main/java/com/softagape/myjpa/phoneBook/PhoneBookController.java:41 | setCategory on an entry acts as its concrete class does: a PhonebookDto takes the argument verbatim; a PhoneBookRequest ignores null and otherwise takes a fresh copy; scalar fields stay |
| `PhoneBookJpaRepository.FilterExact` | src/main/java/com/softagape/myjpa/phoneBook/PhoneBookJpaRepository.java:9-12 | a query returns each stored row meeting its condition exactly as often as it is stored, and no other row |
| `PhoneBookJpaRepository.FilterKeyed` | src/main/java/com/softagape/myjpa/phoneBook/PhoneBookJpaRepository.java:8 | a query over rows with distinct Long ids returns rows with distinct ids |
| `PhoneBookJpaRepository.QueryExact` | src/main/java/com/softagape/myjpa/phoneBook/PhoneBookJpaRepository.java:9-12 | a row is in a query's answer exactly when it is stored and meets the condition; multiplicities and keying carry over |
| `PhoneBookJpaRepository.FindAllByNameContains` | src/main/java/com/softagape/myjpa/phoneBook/PhoneBookJpaRepository.java:9 | the answer is no longer than the stored rows, and every row in it is stored and has a non-null name containing the text |
| `PhoneBookJpaRepository.FindAllByCategory` | src/main/java/com/softagape/myjpa/phoneBook/PhoneBookJpaRepository.java:10 | the answer is no longer than the stored rows, and every row in it is stored and has the reference's category id, which is not null |
| `PhoneBookJpaRepository.FindAllByPhoneNumberContains` | src/main/java/com/softagape/myjpa/phoneBook/PhoneBookJpaRepository.java:11 | the answer is no longer than the stored rows, and every row in it is stored and has a non-null phone number containing the text |
| `PhoneBookJpaRepository.FindAllByEmailContains` | src/main/java/com/softagape/myjpa/phoneBook/PhoneBookJpaRepository.java:12 | the answer is no longer than the stored rows, and every row in it is stored and has a non-null email containing the text |
| `PhoneBookJpaRepository.FindAllByNameContainsExact` | src/main/java/com/softagape/myjpa/phoneBook/PhoneBookJpaRepository.java:9 | the answer holds exactly the stored rows whose non-null name contains the text |
| `PhoneBookJpaRepository.FindAllByCategoryExact` | src/main/java/com/softagape/myjpa/phoneBook/PhoneBookJpaRepository.java:10 | the answer holds exactly the stored rows whose category id equals the reference's non-null id |
| `PhoneBookJpaRepository.FindAllByPhoneNumberContainsExact` | src/main/java/com/softagape/myjpa/phoneBook/PhoneBookJpaRepository.java:11 | the answer holds exactly the stored rows whose non-null phone number contains the text |
| `PhoneBookJpaRepository.FindAllByEmailContainsExact` | src/main/java/com/softagape/myjpa/phoneBook/PhoneBookJpaRepository.java:12 | the answer holds exactly the stored rows whose non-null email contains the text |
| `PhoneBookJpaRepository.FindAllByCategoryIdentityOnly` | src/main/java/com/softagape/myjpa/phoneBook/PhoneBookJpaRepository.java:10 | two category references with the same id give the same answer, whatever their names |
| `PhoneBookJpaRepository.EmptyTextMatchesEveryValue` | src/main/java/com/softagape/myjpa/phoneBook/PhoneBookJpaRepository.java:9 | the empty text is contained in every non-null column, so among the modelled components only the controller's guard keeps it out |
| `PhoneBookController.Hydrate` | src/main/java/com/softagape/myjpa/phoneBook/PhoneBookController.java:39-42 | an entry without a category is untouched; otherwise its category is looked up by id and set through the entry's own setCategory; it reports exactly when the lookup threw, and then the entry is untouched |
| `PhoneBookController.WriteResponse` | src/main/java/com/softagape/myjpa/phoneBook/PhoneBookController.java:35-47 | 200 exactly when the service returned an entry and no lookup was needed or the lookup returned; the body is the service's own entry; 404 only for a null answer where the handler says so; 400 for every exception, the lookup's included |
| `PhoneBookController.Insert` | src/main/java/com/softagape/myjpa/phoneBook/PhoneBookController.java:29-48 | a null draft or a null answer is 400, never 404; otherwise the response and the entry's new category follow WriteResponse and Hydrated |
| `PhoneBookController.Update` | src/main/java/com/softagape/myjpa/phoneBook/PhoneBookController.java:75-94 | a null id or draft is 400; a null answer is 404; otherwise the response and the entry's new category follow WriteResponse and Hydrated |
| `PhoneBookController.GetAll` | src/main/java/com/softagape/myjpa/phoneBook/PhoneBookController.java:50-59 | never 404; 400 exactly when the service threw; otherwise the service's list as it is |
| `PhoneBookController.Delete` | src/main/java/com/softagape/myjpa/phoneBook/PhoneBookController.java:61-73 | never 404; 400 exactly for a null id or an exception; otherwise the service's Boolean verbatim |
| `PhoneBookController.FindById` | src/main/java/com/softagape/myjpa/phoneBook/PhoneBookController.java:96-111 | 400 exactly for a null id, an id at or below zero, or an exception; 404 exactly for a null answer; 200 carries the service's entry with nothing re-fetched |
| `PhoneBookController.ListResponse` | src/main/java/com/softagape/myjpa/phoneBook/PhoneBookController.java:119-127 | 400 exactly on an exception; 404 exactly for a null or empty list; otherwise the non-empty list unchanged |
| `PhoneBookController.FindAllByNameContains` | src/main/java/com/softagape/myjpa/phoneBook/PhoneBookController.java:113-128 | 400 exactly for a null or empty name or an exception; 404 exactly for a null or empty answer; 200 carries the service's non-empty list unchanged |
| `PhoneBookController.ProbeId` | src/main/java/com/softagape/myjpa/phoneBook/PhoneBookController.java:137 | parsing the Integer's decimal text as a long gives the same number and never throws |
| `PhoneBookController.FindAllByCategory` | src/main/java/com/softagape/myjpa/phoneBook/PhoneBookController.java:130-148 | a null category is 400; otherwise a fresh category reference carrying only the requested id is passed to the service, and its answer is mapped as ListResponse does |
| `PhoneBookController.FindAllByPhoneNumberContains` | src/main/java/com/softagape/myjpa/phoneBook/PhoneBookController.java:150-165 | 400 exactly for a null or empty phone number or an exception; 404 exactly for a null or empty answer; 200 carries the list unchanged |
| `PhoneBookController.FindAllByEmailContains` | src/main/java/com/softagape/myjpa/phoneBook/PhoneBookController.java:167-182 | 400 exactly for a null or empty email or an exception; 404 exactly for a null or empty answer; 200 carries the list unchanged |
| `PhoneBookController.FindByIdOverStore` | src/main/java/com/softagape/myjpa/phoneBook/PhoneBookController.java:99-106 | if the service answers from an id-keyed map: 200 with the stored entry exactly for a positive stored id, 404 exactly for a positive missing id |
| `PhoneBookController.ListOverRepository` | src/main/java/com/softagape/myjpa/phoneBook/PhoneBookController.java:120-123 | a list answered by a repository query is 404 exactly when no stored row meets the condition, and otherwise holds exactly the rows that do |
| `PhoneBookController.NameSearchOverRepository` | src/main/java/com/softagape/myjpa/phoneBook/PhoneBookController.java:116-123 | if the service runs the name query: 400 exactly for a null or empty name, 404 exactly when no stored name contains it, and 200 holds exactly the matching rows |
| `PhoneBookController.CategorySearchOverRepository` | src/main/java/com/softagape/myjpa/phoneBook/PhoneBookController.java:136-143 | if the service runs the category query with the probe: 404 exactly when no stored row has that category id, and 200 holds exactly the rows that do |
| `PhoneBookController.PhoneNumberSearchOverRepository` | src/main/java/com/softagape/myjpa/phoneBook/PhoneBookController.java:153-160 | the same for the phone-number query |
| `PhoneBookController.EmailSearchOverRepository` | src/main/java/com/softagape/myjpa/phoneBook/PhoneBookController.java:170-177 | the same for the email query |
| `PhoneBookController.DeleteTakesNonPositiveIds` | src/main/java/com/softagape/myjpa/phoneBook/PhoneBookController.java:64-68 | an id at or below zero reaches the service on delete, while GET refuses it with 400 |
| `PhoneBookController.BadRequestAfterStoredWrite` | src/main/java/com/softagape/myjpa/phoneBook/PhoneBookController.java:35-46 | a write whose service call returned an entry is still 400 when the category lookup throws, so 400 does not mean nothing was written |
| `PhoneBookController.DeleteMissingEntry` | src/main/java/com/softagape/myjpa/phoneBook/PhoneBookController.java:67-68 | when the service answers false for id 9999, DELETE gives 200 with false |

## Left out

- Spring wiring, `@Autowired` injection, routing and the `ResponseEntity` types: the handlers take their collaborators' answers as parameters.
- Jackson: JSON binding is not modelled. `id`'s `@JsonIgnore` therefore shows only as the absence of any constraint on `id` in `DeclaredValid`.
- SLF4J logging has no effect on behaviour.
- The services behind `IPhoneBookService` and `ICategoryService` are not part of this model. Nothing is asserted about what they store or return. For example, a repeated remove returning false is not asserted.
- A service answer is a total Dafny function, so it cannot depend on heap state at the time of the call.
- The service calls are modelled as changing no object. A service that changes the draft or the returned entry during the call, for example by setting its id or category, is not represented. The frames of `Insert` and `Update` rest on this: nothing but the returned entry may change, and only by hydration. So the returned entry's category after the call, which the Java code reads, is taken to be its category before the call.
- A pure handler does not record whether it called the service. It consults the service's answer only on the paths where the Java code makes the call.
- `catch (Exception ex)` is modelled as catching every failure of a call. `Error`s, which it does not catch, are not modelled.
- No handler applies validation; what the services do is not modelled. `DeclaredValid` and `Violations` describe the annotations only.
- `@NotBlank` on the `CategoryEntity` field is not modelled: the constraint has no meaning for a non-string field.
- `@NotBlank` is modelled as "some character above U+0020", which is what trimming leaves.
- `@Size` counts Dafny characters (Unicode scalar values), not UTF-16 code units.
- `CategoryEntity.copyFields` is not part of this model. `CopyFields` copies the two fields this model gives a category, id and name.
- `IPhoneBook` is represented by `PhoneBookRequest` and `PhonebookDto` only. The concrete type the service returns is not shown. Any other implementation, `PhonebookEntity` included, is not represented. So the hydration contracts of `Insert` and `Update` cover these two types only.
- `CategoryDto` and any other `ICategory` implementation are represented by the one `CategoryEntity` class.
- The `%6d` padding of the id in `toString` is left out. The id renders as plain decimal text, or `null`.
- `PhonebookDto.ToString`: its contract places the category slot between the id-and-name text and the phone-and-email text. The order within those two parts is fixed by their definitions and is not restated.
- JPA internals are not modelled:
  - The substring queries are modelled as case-sensitive containment with no wildcard characters.
  - A null column matches nothing.
  - The answer keeps storage order, but no lemma promises an order.
- `PhonebookEntity` is not part of this model. A stored row is a value holding its key, its fields and its category's key.
- `ParseLong` accepts ASCII digits only. `Long.parseLong` also accepts other Unicode decimal digits. The one caller passes `Integer.toString` output, which is always ASCII.
