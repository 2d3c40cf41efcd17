/** The contributors page of app/routes/contributors.tsx: the contributor
    list is grouped by religion for display, one group per religion that
    has at least one contributor. */
module ContributorGroups {
  import opened Seqs
  import opened Records

  const AllReligions: set<Religion> := {Christian, Muslim, OtherReligion}

  /** What the grouping should give: for every religion some contributor
      has, the contributors of that religion in list order. */
  function Groups(cs: seq<Contributor>): map<Religion, seq<Contributor>> {
    map r | r in AllReligions && Count(cs, KeyIs(ReligionOf, r)) > 0 :: Filter(cs, KeyIs(ReligionOf, r))
  }

  /** A religion has a group exactly when some contributor has it, and the
      group is that religion's contributors. */
  lemma GroupsEntry(cs: seq<Contributor>, r: Religion)
    ensures r in Groups(cs) <==> Count(cs, KeyIs(ReligionOf, r)) > 0
    ensures r in Groups(cs) ==> Groups(cs)[r] == Filter(cs, KeyIs(ReligionOf, r))
  {
    assert r in AllReligions by {
      if r.Christian? {} else if r.Muslim? {} else {}
    }
  }

  /** The group after one more contributor joins, as the reduce builds it. */
  function Joined(g: map<Religion, seq<Contributor>>, c: Contributor): map<Religion, seq<Contributor>> {
    g[c.religion := (if c.religion in g then g[c.religion] else []) + [c]]
  }

  /** One more contributor joins the end of its religion's group, creating
      the group when it is the first; the other groups stay as they are. */
  lemma GroupsStep(cs: seq<Contributor>, c: Contributor)
    ensures Groups(cs + [c]) == Joined(Groups(cs), c)
  {
    forall r ensures (r in Groups(cs + [c]) <==> r in Joined(Groups(cs), c))
      && (r in Groups(cs + [c]) ==> Groups(cs + [c])[r] == Joined(Groups(cs), c)[r])
    {
      GroupStepAt(cs, c, r);
    }
    assert Groups(cs + [c]).Keys == Joined(Groups(cs), c).Keys;
  }

  lemma GroupStepAt(cs: seq<Contributor>, c: Contributor, r: Religion)
    ensures r in Groups(cs + [c]) <==> r in Joined(Groups(cs), c)
    ensures r in Groups(cs + [c]) ==> Groups(cs + [c])[r] == Joined(Groups(cs), c)[r]
  {
    GroupsEntry(cs, r);
    GroupsEntry(cs + [c], r);
    FilterAppend(cs, [c], KeyIs(ReligionOf, r));
    assert KeyIs(ReligionOf, r)(c) == (ReligionOf(c) == r);
    assert ReligionOf(c) == c.religion;
    assert Filter([c], KeyIs(ReligionOf, r)) == if r == c.religion then [c] else [];
  }

  /** The groups the reduce has built after the given contributors. */
  ghost function Folded(cs: seq<Contributor>): map<Religion, seq<Contributor>> {
    if cs == [] then map[] else Joined(Folded(cs[..|cs| - 1]), cs[|cs| - 1])
  }

  /** Folding the contributors in one at a time builds the grouping. */
  lemma {:induction false} FoldedGroups(cs: seq<Contributor>)
    ensures Folded(cs) == Groups(cs)
  {
    if cs == [] {
      assert Groups(cs) == map[] by {
        forall r | r in Groups(cs) ensures false {
          GroupsEntry(cs, r);
        }
      }
    } else {
      var front, c := cs[..|cs| - 1], cs[|cs| - 1];
      FoldedGroups(front);
      GroupsStep(front, c);
      FrontAndLast(cs);
    }
  }

  /** `groupedContributors`: the reduce that creates a religion's list on
      its first contributor and pushes each contributor onto its list. */
  method GroupByReligion(contributors: seq<Contributor>) returns (groups: map<Religion, seq<Contributor>>)
    ensures groups == Groups(contributors)
  {
    groups := map[];
    var i := 0;
    while i < |contributors|
      invariant 0 <= i <= |contributors|
      invariant groups == Folded(contributors[..i])
    {
      var c := contributors[i];
      if c.religion !in groups {
        groups := groups[c.religion := []];
      }
      groups := groups[c.religion := groups[c.religion] + [c]];
      assert contributors[..i + 1][..i] == contributors[..i];
      i := i + 1;
    }
    AllPrefix(contributors);
    FoldedGroups(contributors);
  }

  /** Each group holds exactly the contributors of its religion, in list
      order, and is never empty. */
  lemma GroupsArePlacement(cs: seq<Contributor>)
    ensures forall r :: r in Groups(cs) ==> Groups(cs)[r] != []
    ensures forall r, c :: r in Groups(cs) ==> (c in Groups(cs)[r] <==> c in cs && c.religion == r)
    ensures forall r :: r in Groups(cs) ==> IsSubsequence(Groups(cs)[r], cs)
  {
    forall r | r in Groups(cs) ensures Groups(cs)[r] != [] && IsSubsequence(Groups(cs)[r], cs) {
      GroupsEntry(cs, r);
      FilterIsSubsequence(cs, KeyIs(ReligionOf, r));
    }
    forall r, c | r in Groups(cs) ensures c in Groups(cs)[r] <==> c in cs && c.religion == r {
      GroupsEntry(cs, r);
      FilterMembers(cs, KeyIs(ReligionOf, r));
      assert KeyIs(ReligionOf, r)(c) == (c.religion == r);
    }
  }

  /** The group's size, zero for a religion without a group. */
  function GroupSize(g: map<Religion, seq<Contributor>>, r: Religion): nat {
    if r in g then |g[r]| else 0
  }

  /** Every contributor is in exactly one group, so the sizes add up to the
      number of contributors. */
  lemma GroupSizesCover(cs: seq<Contributor>)
    ensures GroupSize(Groups(cs), Christian) + GroupSize(Groups(cs), Muslim)
      + GroupSize(Groups(cs), OtherReligion) == |cs|
  {
    ReligionCountsCover(cs);
    GroupsEntry(cs, Christian);
    GroupsEntry(cs, Muslim);
    GroupsEntry(cs, OtherReligion);
  }
}
