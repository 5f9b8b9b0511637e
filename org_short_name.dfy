// GetOrgShortNameFunction: the organization-name source that yields the
// short name only. Guava's ImmutableList.of rejects a null element, so a
// missing short name is a null-pointer error just like a missing organization.

module OrgShortName {
  import opened Wrappers
  import opened AffMatchModel

  function GetOrgShortName(org: Option<Organization>): (r: Result<seq<string>>)
    ensures org.None? ==> r == Failure(NullPointer)
    ensures org.Some? && org.value.shortName.None? ==> r == Failure(NullPointer)
    ensures org.Some? && org.value.shortName.Some? ==> r.Success? && |r.value| == 1
    ensures r.Success? ==> r.value == [org.value.shortName.value]
  {
    if org.None? then Failure(NullPointer)
    else if org.value.shortName.None? then Failure(NullPointer)
    else Success([org.value.shortName.value])
  }

  /** The function as a name source for the voters. */
  function AsOrgNamesFunction(): OrgNamesFunction
  {
    (o: Organization) => GetOrgShortName(Some(o))
  }

  /** Only the short name matters: the full name and the other fields do not. */
  lemma DependsOnlyOnShortName(o1: Organization, o2: Organization)
    requires o1.shortName == o2.shortName
    ensures GetOrgShortName(Some(o1)) == GetOrgShortName(Some(o2))
  {
  }
}
