/** `list.find(r => r.id === id)?.name || 'Unknown'`, the lookup the
    reports page and the global search use to show the names behind a
    contribution's or an expense's foreign keys. */
module Lookups {
  import opened Optional
  import opened Seqs
  import opened Records

  function DeceasedWithId(id: int): Deceased -> bool { (d: Deceased) => d.id == id }
  function ContributorWithId(id: int): Contributor -> bool { (c: Contributor) => c.id == id }

  /** `find(...)?.name || 'Unknown'`: the name of the first record with the
      id, unless there is none or its name is empty. */
  function NameOrUnknown(found: Option<string>): (r: string)
    ensures r == "Unknown" <==> found.None? || found.value == "" || found.value == "Unknown"
    ensures r != "Unknown" ==> found == Some(r)
  {
    if found.Some? && found.value != "" then found.value else "Unknown"
  }

  function DeceasedName(ds: seq<Deceased>, id: int): string {
    NameOrUnknown(match Find(ds, DeceasedWithId(id)) case None => None case Some(d) => Some(d.name))
  }

  function ContributorName(cs: seq<Contributor>, id: int): string {
    NameOrUnknown(match Find(cs, ContributorWithId(id)) case None => None case Some(c) => Some(c.name))
  }

  /** Names come from the first record with the id and fall back to
      'Unknown' exactly when there is no such record or its name is empty. */
  lemma NameResolution(ds: seq<Deceased>, cs: seq<Contributor>, id: int)
    ensures (forall d :: d in ds ==> d.id != id) ==> DeceasedName(ds, id) == "Unknown"
    ensures forall i :: (0 <= i < |ds| && ds[i].id == id && ds[i].name != ""
      && forall j :: 0 <= j < i ==> ds[j].id != id) ==> DeceasedName(ds, id) == ds[i].name
    ensures (forall c :: c in cs ==> c.id != id) ==> ContributorName(cs, id) == "Unknown"
    ensures forall i :: (0 <= i < |cs| && cs[i].id == id && cs[i].name != ""
      && forall j :: 0 <= j < i ==> cs[j].id != id) ==> ContributorName(cs, id) == cs[i].name
  {
    forall i | 0 <= i < |ds| && ds[i].id == id && ds[i].name != ""
      && (forall j :: 0 <= j < i ==> ds[j].id != id)
      ensures DeceasedName(ds, id) == ds[i].name
    {
      assert FindIndex(ds, DeceasedWithId(id)) == Some(i);
    }
    forall i | 0 <= i < |cs| && cs[i].id == id && cs[i].name != ""
      && (forall j :: 0 <= j < i ==> cs[j].id != id)
      ensures ContributorName(cs, id) == cs[i].name
    {
      assert FindIndex(cs, ContributorWithId(id)) == Some(i);
    }
  }
}
