/** PhoneBookJpaRepository: stored phone-book rows keyed by a Long id, and the four derived
    queries, each a filter over the stored rows. */
module PhoneBookJpaRepository {
  import opened JavaLang
  import opened CatCategory

  /** A stored PhonebookEntity row: its key, its fields, and the key of the category it refers to. */
  datatype PhonebookEntity = PhonebookEntity(
    id: Long,
    name: Option<string>,
    categoryId: Option<Long>,
    phoneNumber: Option<string>,
    email: Option<string>)

  /** s occurs in t starting at offset k. */
  predicate OccursAt(s: string, t: string, k: nat)
  {
    k + |s| <= |t| && t[k..k + |s|] == s
  }

  /** s is a substring of t (case-sensitive). */
  predicate IsSubstring(s: string, t: string)
  {
    exists k: nat | k <= |t| :: OccursAt(s, t, k)
  }

  /** A `...Contains` condition on a nullable column: a null column matches nothing. */
  predicate ContainsText(column: Option<string>, s: string)
  {
    column.Some? && IsSubstring(s, column.value)
  }

  /** The rows are keyed by id: no two stored rows share one. */
  predicate KeyedById(rows: seq<PhonebookEntity>)
  {
    forall i, j :: 0 <= i < j < |rows| ==> rows[i].id != rows[j].id
  }

  /** The rows that satisfy a query's condition, in storage order. */
  function Filter(rows: seq<PhonebookEntity>, keep: PhonebookEntity -> bool): (r: seq<PhonebookEntity>)
    ensures |r| <= |rows|
    ensures forall e :: e in r ==> e in rows && keep(e)
  {
    if rows == [] then []
    else if keep(rows[0]) then [rows[0]] + Filter(rows[1..], keep)
    else Filter(rows[1..], keep)
  }

  /** A filter keeps every row that satisfies the condition, as often as it is stored, and no other. */
  lemma {:induction false} FilterExact(rows: seq<PhonebookEntity>, keep: PhonebookEntity -> bool)
    ensures forall e :: multiset(Filter(rows, keep))[e] == if keep(e) then multiset(rows)[e] else 0
  {
    if rows != [] {
      FilterExact(rows[1..], keep);
      assert rows == [rows[0]] + rows[1..];
    }
  }

  /** A filter of keyed rows is keyed. */
  lemma {:induction false} FilterKeyed(rows: seq<PhonebookEntity>, keep: PhonebookEntity -> bool)
    requires KeyedById(rows)
    ensures KeyedById(Filter(rows, keep))
  {
    if rows != [] {
      var rest := rows[1..];
      assert KeyedById(rest) by {
        forall i, j | 0 <= i < j < |rest| ensures rest[i].id != rest[j].id {
          assert rest[i] == rows[i + 1] && rest[j] == rows[j + 1];
        }
      }
      FilterKeyed(rest, keep);
      if keep(rows[0]) {
        var tail := Filter(rest, keep);
        FilterExact(rest, keep);
        forall j | 0 <= j < |tail| ensures rows[0].id != tail[j].id {
          assert multiset(tail)[tail[j]] > 0;
          assert tail[j] in rest;
          var k :| 0 <= k < |rest| && rest[k] == tail[j];
          assert rows[k + 1] == tail[j];
        }
        var r := [rows[0]] + tail;
        forall i, j | 0 <= i < j < |r| ensures r[i].id != r[j].id {
          if i > 0 {
            assert r[i] == tail[i - 1] && r[j] == tail[j - 1];
          } else {
            assert r[j] == tail[j - 1];
          }
        }
      }
    }
  }

  /** The common shape of a query's answer: exactly the stored rows meeting the condition, each as
      often as it is stored; keyed rows give keyed answers. */
  lemma QueryExact(rows: seq<PhonebookEntity>, keep: PhonebookEntity -> bool)
    ensures forall e :: e in Filter(rows, keep) <==> e in rows && keep(e)
    ensures forall e :: multiset(Filter(rows, keep))[e] == if keep(e) then multiset(rows)[e] else 0
    ensures KeyedById(rows) ==> KeyedById(Filter(rows, keep))
  {
    FilterExact(rows, keep);
    if KeyedById(rows) {
      FilterKeyed(rows, keep);
    }
    forall e ensures e in Filter(rows, keep) <==> e in rows && keep(e) {
      assert e in Filter(rows, keep) <==> multiset(Filter(rows, keep))[e] > 0;
      assert e in rows <==> multiset(rows)[e] > 0;
    }
  }

  /** findAllBy...Contains: stored rows whose name contains the text. */
  function FindAllByNameContains(rows: seq<PhonebookEntity>, name: string): (r: seq<PhonebookEntity>)
    ensures |r| <= |rows|
    ensures forall e :: e in r ==> e in rows && ContainsText(e.name, name)
  {
    Filter(rows, (e: PhonebookEntity) => ContainsText(e.name, name))
  }

  /** Matches on the category's identity (its id) only; its other fields play no part. */
  function FindAllByCategory(rows: seq<PhonebookEntity>, category: CategoryFields): (r: seq<PhonebookEntity>)
    ensures |r| <= |rows|
    ensures forall e :: e in r ==> e in rows && category.id.Some? && e.categoryId == category.id
  {
    Filter(rows, (e: PhonebookEntity) => category.id.Some? && e.categoryId == category.id)
  }

  /** findAllBy...Contains: stored rows whose phoneNumber contains the text. */
  function FindAllByPhoneNumberContains(rows: seq<PhonebookEntity>, phoneNumber: string): (r: seq<PhonebookEntity>)
    ensures |r| <= |rows|
    ensures forall e :: e in r ==> e in rows && ContainsText(e.phoneNumber, phoneNumber)
  {
    Filter(rows, (e: PhonebookEntity) => ContainsText(e.phoneNumber, phoneNumber))
  }

  /** findAllBy...Contains: stored rows whose email contains the text. */
  function FindAllByEmailContains(rows: seq<PhonebookEntity>, email: string): (r: seq<PhonebookEntity>)
    ensures |r| <= |rows|
    ensures forall e :: e in r ==> e in rows && ContainsText(e.email, email)
  {
    Filter(rows, (e: PhonebookEntity) => ContainsText(e.email, email))
  }

  lemma FindAllByNameContainsExact(rows: seq<PhonebookEntity>, name: string)
    ensures forall e :: e in FindAllByNameContains(rows, name) <==> e in rows && ContainsText(e.name, name)
    ensures forall e :: multiset(FindAllByNameContains(rows, name))[e] ==
                        if ContainsText(e.name, name) then multiset(rows)[e] else 0
    ensures KeyedById(rows) ==> KeyedById(FindAllByNameContains(rows, name))
  {
    QueryExact(rows, (e: PhonebookEntity) => ContainsText(e.name, name));
  }

  lemma FindAllByCategoryExact(rows: seq<PhonebookEntity>, category: CategoryFields)
    ensures forall e :: e in FindAllByCategory(rows, category) <==>
                        e in rows && category.id.Some? && e.categoryId == category.id
    ensures forall e :: multiset(FindAllByCategory(rows, category))[e] ==
                        if category.id.Some? && e.categoryId == category.id then multiset(rows)[e] else 0
    ensures KeyedById(rows) ==> KeyedById(FindAllByCategory(rows, category))
  {
    QueryExact(rows, (e: PhonebookEntity) => category.id.Some? && e.categoryId == category.id);
  }

  lemma FindAllByPhoneNumberContainsExact(rows: seq<PhonebookEntity>, phoneNumber: string)
    ensures forall e :: e in FindAllByPhoneNumberContains(rows, phoneNumber) <==>
                        e in rows && ContainsText(e.phoneNumber, phoneNumber)
    ensures forall e :: multiset(FindAllByPhoneNumberContains(rows, phoneNumber))[e] ==
                        if ContainsText(e.phoneNumber, phoneNumber) then multiset(rows)[e] else 0
    ensures KeyedById(rows) ==> KeyedById(FindAllByPhoneNumberContains(rows, phoneNumber))
  {
    QueryExact(rows, (e: PhonebookEntity) => ContainsText(e.phoneNumber, phoneNumber));
  }

  lemma FindAllByEmailContainsExact(rows: seq<PhonebookEntity>, email: string)
    ensures forall e :: e in FindAllByEmailContains(rows, email) <==> e in rows && ContainsText(e.email, email)
    ensures forall e :: multiset(FindAllByEmailContains(rows, email))[e] ==
                        if ContainsText(e.email, email) then multiset(rows)[e] else 0
    ensures KeyedById(rows) ==> KeyedById(FindAllByEmailContains(rows, email))
  {
    QueryExact(rows, (e: PhonebookEntity) => ContainsText(e.email, email));
  }

  /** Two category references with the same id find the same rows, in the same order, whatever
      else they carry. */
  lemma {:induction false} FindAllByCategoryIdentityOnly(rows: seq<PhonebookEntity>, a: CategoryFields, b: CategoryFields)
    requires a.id == b.id
    ensures FindAllByCategory(rows, a) == FindAllByCategory(rows, b)
  {
    if rows != [] {
      FindAllByCategoryIdentityOnly(rows[1..], a, b);
    }
  }

  /** The empty string is a substring of every string, so an empty search text would match every
      row whose column is not null. */
  lemma EmptyTextMatchesEveryValue(column: Option<string>)
    ensures ContainsText(column, "") <==> column.Some?
  {
    if column.Some? {
      assert OccursAt("", column.value, 0);
    }
  }
}
