/** The order the tracker keeps its teams in: favourites first, then by
    name. The name comparison is plain lexicographic order on characters,
    standing in for `localeCompare`. */
module TeamOrder {
  import opened Records
  import opened Sorting

  /** Lexicographic "no later than" on names. */
  predicate NameLe(a: string, b: string) {
    if |a| == 0 then true
    else if |b| == 0 then false
    else if a[0] != b[0] then a[0] < b[0]
    else NameLe(a[1..], b[1..])
  }

  /** The team comparator: `le(a, b)` is `compare(a, b) <= 0`. */
  predicate TeamLe(a: Team, b: Team) {
    if a.favorite != b.favorite then a.favorite else NameLe(a.name, b.name)
  }

  lemma {:induction false} NameLeTotal(a: string, b: string)
    ensures NameLe(a, b) || NameLe(b, a)
  {
    if |a| > 0 && |b| > 0 && a[0] == b[0] {
      NameLeTotal(a[1..], b[1..]);
    }
  }

  lemma {:induction false} NameLeTransitive(a: string, b: string, c: string)
    requires NameLe(a, b) && NameLe(b, c)
    ensures NameLe(a, c)
  {
    if |a| > 0 && |b| > 0 && |c| > 0 && a[0] == b[0] && b[0] == c[0] {
      NameLeTransitive(a[1..], b[1..], c[1..]);
    }
  }

  /** Names equal under `NameLe` in both directions are the same name. */
  lemma {:induction false} NameLeAntisymmetric(a: string, b: string)
    requires NameLe(a, b) && NameLe(b, a)
    ensures a == b
  {
    if |a| > 0 && |b| > 0 {
      NameLeAntisymmetric(a[1..], b[1..]);
      assert a == [a[0]] + a[1..] && b == [b[0]] + b[1..];
    }
  }

  /** The comparator is consistent, so sorting the teams is well defined. */
  lemma TeamLeTotalPreorder()
    ensures TotalPreorder(TeamLe)
  {
    forall a: Team, b: Team
      ensures TeamLe(a, b) || TeamLe(b, a)
    {
      NameLeTotal(a.name, b.name);
    }
    forall a: Team, b: Team, c: Team | TeamLe(a, b) && TeamLe(b, c)
      ensures TeamLe(a, c)
    {
      if a.favorite == b.favorite == c.favorite {
        NameLeTransitive(a.name, b.name, c.name);
      }
    }
  }

  /** In an ordered team list every favourite comes before every other team. */
  lemma FavoritesFirst(teams: seq<Team>, i: int, j: int)
    requires Sorted(teams, TeamLe)
    requires 0 <= i < |teams| && 0 <= j < |teams|
    requires teams[j].favorite && !teams[i].favorite
    ensures j < i
  {
  }

  /** Among teams with the same favourite flag, names never descend. */
  lemma NamesAscendWithinGroup(teams: seq<Team>, i: int, j: int)
    requires Sorted(teams, TeamLe)
    requires 0 <= i < j < |teams| && teams[i].favorite == teams[j].favorite
    ensures NameLe(teams[i].name, teams[j].name)
  {
  }
}
