// PersonConverter: an information-space entity carrying a person becomes a
// Person record with its id, first name, second names and full name.

module PersonConverting {
  import opened Wrappers

  /** A string field whose value may be null. */
  datatype StringField = StringField(value: Option<string>)

  datatype PersonMetadata = PersonMetadata(
    firstname: Option<StringField>, secondnames: Option<seq<StringField>>, fullname: Option<StringField>)

  datatype SourcePerson = SourcePerson(metadata: Option<PersonMetadata>)

  datatype OafEntity = OafEntity(id: string, person: Option<SourcePerson>)

  datatype Person = Person(
    id: string, firstname: Option<string>, secondnames: Option<seq<string>>, fullname: Option<string>)

  /** handleFirstName / handleFullName: the value when the field and its value
      are present and not empty; a whitespace-only value counts. */
  function NonEmptyValue(field: Option<StringField>): (r: Option<string>)
    ensures r.Some? <==> field.Some? && field.value.value.Some? && field.value.value.value != ""
    ensures r.Some? ==> r == field.value.value
  {
    if field.Some? && field.value.value.Some? && field.value.value.value != "" then field.value.value else None
  }

  /** The non-null values of the fields, in order. */
  function NonNullValues(fields: seq<StringField>): (r: seq<string>)
    ensures |r| <= |fields|
  {
    if fields == [] then []
    else (if fields[0].value.Some? then [fields[0].value.value] else []) + NonNullValues(fields[1..])
  }

  /** handleSecondNames: the field stays unset for a null or empty list;
      otherwise it holds the non-null values in order. */
  method HandleSecondNames(secondNames: Option<seq<StringField>>) returns (r: Option<seq<string>>)
    ensures secondNames.None? || secondNames.value == [] ==> r.None?
    ensures secondNames.Some? && secondNames.value != [] ==> r == Some(NonNullValues(secondNames.value))
  {
    if secondNames.None? || secondNames.value == [] {
      return None;
    }
    var names := secondNames.value;
    var resultNames: seq<string> := [];
    var i := 0;
    while i < |names|
      invariant 0 <= i <= |names|
      invariant resultNames + NonNullValues(names[i..]) == NonNullValues(names)
    {
      assert names[i..][1..] == names[i + 1..];
      if names[i].value.Some? {
        resultNames := resultNames + [names[i].value.value];
      }
      i := i + 1;
    }
    assert NonNullValues(names[i..]) == [];
    assert resultNames + [] == resultNames;
    return Some(resultNames);
  }

  function SecondNamesOf(secondNames: Option<seq<StringField>>): Option<seq<string>>
  {
    if secondNames.None? || secondNames.value == [] then None else Some(NonNullValues(secondNames.value))
  }

  /** convert: a null entity is a null-pointer error; a null person or null
      metadata gives null (protobuf getters never return null, so that branch
      is unreachable in practice); the id is always copied. */
  function Convert(entity: Option<OafEntity>): (r: Result<Option<Person>>)
    ensures entity.None? ==> r == Failure(NullPointer)
    ensures entity.Some? ==> r.Success?
    ensures entity.Some? ==> (r.value.None? <==> entity.value.person.None? || entity.value.person.value.metadata.None?)
    ensures r.Success? && r.value.Some? ==>
              var m := entity.value.person.value.metadata.value;
              r.value.value == Person(entity.value.id, NonEmptyValue(m.firstname), SecondNamesOf(m.secondnames),
                                      NonEmptyValue(m.fullname))
  {
    if entity.None? then Failure(NullPointer)
    else if entity.value.person.None? || entity.value.person.value.metadata.None? then Success(None)
    else
      var m := entity.value.person.value.metadata.value;
      Success(Some(Person(entity.value.id, NonEmptyValue(m.firstname), SecondNamesOf(m.secondnames),
                          NonEmptyValue(m.fullname))))
  }

  /** An entity without person data, which protobuf presents as default
      instances with empty strings and an empty list, becomes a person holding
      only the id. */
  lemma DefaultMetadataKeepsOnlyId(id: string, m: PersonMetadata)
    requires m.firstname.None? || m.firstname.value.value.None? || m.firstname.value.value == Some("")
    requires m.fullname.None? || m.fullname.value.value.None? || m.fullname.value.value == Some("")
    requires m.secondnames.None? || m.secondnames.value == []
    ensures Convert(Some(OafEntity(id, Some(SourcePerson(Some(m)))))) == Success(Some(Person(id, None, None, None)))
  {
  }

  /** A value is kept exactly when it is not null: the kept values are the
      non-null ones, each as often as it occurs. */
  lemma {:induction false} NonNullValuesSpec(fields: seq<StringField>, v: string)
    ensures v in NonNullValues(fields) <==> StringField(Some(v)) in fields
    ensures multiset(NonNullValues(fields))[v] == multiset(fields)[StringField(Some(v))]
  {
    if fields != [] {
      NonNullValuesSpec(fields[1..], v);
      assert fields == [fields[0]] + fields[1..];
      var first: seq<string> := if fields[0].value.Some? then [fields[0].value.value] else [];
      assert NonNullValues(fields) == first + NonNullValues(fields[1..]);
      assert multiset(NonNullValues(fields))[v] == multiset(first)[v] + multiset(NonNullValues(fields[1..]))[v];
    }
  }

  /** The kept values keep their order: the values of a concatenation are
      the values of its first part followed by those of its second. */
  lemma {:induction false} NonNullValuesAppend(a: seq<StringField>, b: seq<StringField>)
    ensures NonNullValues(a + b) == NonNullValues(a) + NonNullValues(b)
  {
    if a == [] {
      assert a + b == b;
    } else {
      assert (a + b)[0] == a[0];
      assert (a + b)[1..] == a[1..] + b;
      NonNullValuesAppend(a[1..], b);
      var first: seq<string> := if a[0].value.Some? then [a[0].value.value] else [];
      assert NonNullValues(a + b) == first + NonNullValues(a[1..] + b);
      assert first + (NonNullValues(a[1..]) + NonNullValues(b)) == (first + NonNullValues(a[1..])) + NonNullValues(b);
    }
  }

  /** A whitespace-only first name is kept. */
  lemma WhitespaceNameKept(e: OafEntity, m: PersonMetadata)
    requires e.person == Some(SourcePerson(Some(m)))
    requires m.firstname == Some(StringField(Some(" ")))
    ensures Convert(Some(e)).value.value.firstname == Some(" ")
  {
  }
}
