/** The statically declared projects (`content/projects.ts`): the read-only
    input of both the GitHub route and the projects section. */
module Projects {
  import opened Types

  /** One showcased repository. Every field but `repo` is optional. */
  datatype Project = Project(
    repo: string,
    featured: Option<bool>,
    demoUrl: Option<string>,
    customDescription: Option<string>,
    tags: Option<seq<string>>)

  /** The list of projects, in declared order. */
  const Declared: seq<Project> := [
    Project("lou-16/krnl", Some(true), None,
            Some("A WIP kernel created from scratch in C."),
            Some(["Operating Systems", "Low-level", "C"])),
    Project("lou-16/cassie", Some(true), None,
            Some("Mirror Repo for the GitLab repository for this project."),
            Some(["C++"])),
    Project("lou-16/fsprintf", Some(false), None,
            Some("Freestanding printf that I wrote for my kernel. Plans to add driver support later."),
            Some(["C", "Kernel Development"])),
    Project("lou-16/prabhaavField", Some(true), None,
            Some("An Expo Go app implemented under PS25250 for team CogniForge's solution"),
            Some(["TypeScript", "React Native", "Expo"]))
  ]

  /** Number of occurrences of `c` in `s`. */
  function Occurrences(s: string, c: char): (n: nat)
    ensures n <= |s|
    ensures n == 0 <==> c !in s
  {
    if |s| == 0 then 0
    else Occurrences(s[1..], c) + (if s[0] == c then 1 else 0)
  }

  /** Position of the first `c` in `s`. */
  function IndexOf(s: string, c: char): (k: nat)
    requires c in s
    ensures k < |s| && s[k] == c && c !in s[..k]
  {
    if s[0] == c then 0 else 1 + IndexOf(s[1..], c)
  }

  /** A repository identifier `owner/name`: exactly one slash, with
      something on each side of it. */
  predicate IsRepoId(s: string) {
    && Occurrences(s, '/') == 1
    && 0 < IndexOf(s, '/') < |s| - 1
  }

  /** The owner part of a repository identifier. */
  function Owner(s: string): (o: string)
    requires IsRepoId(s)
    ensures 0 < |o| < |s| && '/' !in o && s[|o|] == '/'
    ensures o == s[..|o|]
  {
    s[..IndexOf(s, '/')]
  }

  /** No two projects name the same repository. */
  predicate DistinctIds(ps: seq<Project>) {
    forall i, j :: 0 <= i < j < |ps| ==> ps[i].repo != ps[j].repo
  }

  /** Number of projects flagged `featured: true`. */
  function FeaturedCount(ps: seq<Project>): (n: nat)
    ensures n <= |ps|
  {
    if |ps| == 0 then 0
    else FeaturedCount(ps[1..]) + (if ps[0].featured == Some(true) then 1 else 0)
  }

  lemma {:induction false} OccurrencesAppend(a: string, b: string, c: char)
    ensures Occurrences(a + b, c) == Occurrences(a, c) + Occurrences(b, c)
  {
    if |a| > 0 {
      assert (a + b)[1..] == a[1..] + b;
      OccurrencesAppend(a[1..], b, c);
    } else {
      assert a + b == b;
    }
  }

  lemma {:induction false} IndexOfAfterPrefix(a: string, b: string, c: char)
    requires c !in a && c in b
    ensures IndexOf(a + b, c) == |a| + IndexOf(b, c)
  {
    if |a| > 0 {
      assert (a + b)[1..] == a[1..] + b;
      IndexOfAfterPrefix(a[1..], b, c);
    } else {
      assert a + b == b;
    }
  }

  /** Joining a slash-free non-empty owner and name with one slash gives a
      repository identifier whose owner part is that owner. */
  lemma JoinedRepoId(owner: string, name: string)
    requires owner != "" && name != ""
    requires '/' !in owner && '/' !in name
    ensures IsRepoId(owner + "/" + name)
    ensures Owner(owner + "/" + name) == owner
  {
    var s := owner + "/" + name;
    OccurrencesAppend(owner, "/", '/');
    OccurrencesAppend(owner + "/", name, '/');
    assert s == owner + ("/" + name);
    IndexOfAfterPrefix(owner, "/" + name, '/');
    assert s[..|owner|] == owner;
  }

  /** Every declared identifier is `lou-16/<name>` with a slash-free name. */
  lemma DeclaredIdsWellFormed()
    ensures forall i :: 0 <= i < |Declared| ==> IsRepoId(Declared[i].repo)
    ensures forall i :: 0 <= i < |Declared| ==> Owner(Declared[i].repo) == "lou-16"
  {
    var names := ["krnl", "cassie", "fsprintf", "prabhaavField"];
    forall i | 0 <= i < |Declared|
      ensures IsRepoId(Declared[i].repo) && Owner(Declared[i].repo) == "lou-16"
    {
      assert Declared[i].repo == "lou-16" + "/" + names[i];
      JoinedRepoId("lou-16", names[i]);
    }
  }

  /** Shape of the declared list: four projects with distinct identifiers,
      three of them featured (not `fsprintf`), each with a description
      override and at least one tag. */
  lemma DeclaredShape()
    ensures |Declared| == 4
    ensures DistinctIds(Declared)
    ensures FeaturedCount(Declared) == 3
    ensures forall i :: 0 <= i < |Declared| && Declared[i].repo == "lou-16/fsprintf" ==>
              Declared[i].featured != Some(true)
    ensures forall i :: 0 <= i < |Declared| ==>
              Declared[i].customDescription.Some? && Declared[i].customDescription.value != ""
    ensures forall i :: 0 <= i < |Declared| ==>
              Declared[i].tags.Some? && |Declared[i].tags.value| > 0
  {
  }
}
