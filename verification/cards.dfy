/** The projects section (`components/ProjectsSection.tsx`): one request per
    declared project to the public repository endpoint, then one card per
    project whose repository data arrived, in declared order. */
module Cards {
  import opened Types
  import opened JsObject
  import opened Projects

  /** Skeleton cards shown while loading. */
  const SkeletonCount := 4

  /** The component's state (`repoData`, `loading`). */
  datatype Section = Section(repoData: map<string, Repo>, loading: bool)

  const Initial := Section(map[], true)

  /** The assignments `data[project.repo] = body` made for ok responses. */
  function OkEntries(projects: seq<Project>, responses: seq<Fetched<Repo>>)
    : (es: seq<(string, Repo)>)
    requires |responses| == |projects|
    ensures forall e :: e in es ==>
              exists i :: 0 <= i < |projects| && responses[i].Ok?
                          && e == (projects[i].repo, responses[i].body)
    ensures forall i :: 0 <= i < |projects| && responses[i].Ok? ==>
              (projects[i].repo, responses[i].body) in es
  {
    if |projects| == 0 then []
    else
      var init := OkEntries(projects[..|projects| - 1], responses[..|responses| - 1]);
      var k := |projects| - 1;
      if responses[k].Ok? then init + [(projects[k].repo, responses[k].body)] else init
  }

  /** The record built from the ok assignments has a key exactly for the
      repo ids with an ok response. */
  lemma OkRecordKeys(projects: seq<Project>, responses: seq<Fetched<Repo>>)
    requires |responses| == |projects|
    ensures forall id :: id in FromEntries(OkEntries(projects, responses)) <==>
              exists i :: 0 <= i < |projects| && projects[i].repo == id && responses[i].Ok?
  {
    var es := OkEntries(projects, responses);
    forall id | id in KeysOf(es)
      ensures exists i :: 0 <= i < |projects| && projects[i].repo == id && responses[i].Ok?
    {
      var w :| 0 <= w < |es| && es[w].0 == id;
      assert es[w] in es;
    }
    forall id | exists i :: 0 <= i < |projects| && projects[i].repo == id && responses[i].Ok?
      ensures id in KeysOf(es)
    {
      var i :| 0 <= i < |projects| && projects[i].repo == id && responses[i].Ok?;
      var w :| 0 <= w < |es| && es[w] == (projects[i].repo, responses[i].body);
    }
  }

  /** Each key of that record holds the body of an ok response for it, and
      with distinct ids, the body of its own project's response. */
  lemma OkRecordValues(projects: seq<Project>, responses: seq<Fetched<Repo>>)
    requires |responses| == |projects|
    ensures forall id :: id in FromEntries(OkEntries(projects, responses)) ==>
              exists i :: && 0 <= i < |projects| && projects[i].repo == id && responses[i].Ok?
                          && FromEntries(OkEntries(projects, responses))[id] == responses[i].body
    ensures DistinctIds(projects) ==>
              forall i :: 0 <= i < |projects| && responses[i].Ok? ==>
                && projects[i].repo in FromEntries(OkEntries(projects, responses))
                && FromEntries(OkEntries(projects, responses))[projects[i].repo] == responses[i].body
  {
    var es := OkEntries(projects, responses);
    var m := FromEntries(es);
    forall id | id in m
      ensures exists i :: && 0 <= i < |projects| && projects[i].repo == id
                          && responses[i].Ok? && m[id] == responses[i].body
    {
      var w := LastOccurrenceExists(es, id);
      LastWriterWins(es, w);
      assert es[w] in es;
    }
    if DistinctIds(projects) {
      forall i | 0 <= i < |projects| && responses[i].Ok?
        ensures projects[i].repo in m && m[projects[i].repo] == responses[i].body
      {
        OkRecordKeys(projects, responses);
        var id := projects[i].repo;
        var j :| && 0 <= j < |projects| && projects[j].repo == id
                 && responses[j].Ok? && m[id] == responses[j].body;
        assert j == i;
      }
    }
  }

  /** The state once `Promise.all` over the per-project requests settles.
      Any rejected request rejects the whole batch, and the `catch` branch
      never stores the partly filled record, so `repoData` stays empty.
      Otherwise each ok response's body is stored under its project's id. */
  function Settle(projects: seq<Project>, responses: seq<Fetched<Repo>>): (s: Section)
    requires |responses| == |projects|
    ensures !s.loading
    ensures (exists i :: 0 <= i < |responses| && responses[i].Thrown?) ==> s.repoData == map[]
    ensures (forall i :: 0 <= i < |responses| ==> !responses[i].Thrown?) ==>
              forall id :: id in s.repoData <==>
                exists i :: 0 <= i < |projects| && projects[i].repo == id && responses[i].Ok?
    ensures forall id :: id in s.repoData ==>
              exists i :: && 0 <= i < |projects| && projects[i].repo == id && responses[i].Ok?
                          && s.repoData[id] == responses[i].body
    ensures (forall i :: 0 <= i < |responses| ==> !responses[i].Thrown?) && DistinctIds(projects) ==>
              forall i :: 0 <= i < |projects| && responses[i].Ok? ==>
                projects[i].repo in s.repoData && s.repoData[projects[i].repo] == responses[i].body
  {
    if exists i :: 0 <= i < |responses| && responses[i].Thrown? then Section(map[], false)
    else
      OkRecordKeys(projects, responses);
      OkRecordValues(projects, responses);
      Section(FromEntries(OkEntries(projects, responses)), false)
  }

  /** What one card shows. `featured` is the badge; `tags` and `demoUrl`
      are `None` when their block is not rendered; `language` likewise. */
  datatype Card = Card(
    key: string,
    title: string,
    href: string,
    featured: bool,
    description: string,
    language: Option<string>,
    stars: int,
    forks: int,
    tags: Option<seq<string>>,
    demoUrl: Option<string>)

  /** `project.customDescription || repo.description`. */
  function Description(p: Project, r: Repo): (d: string)
    ensures p.customDescription.Some? && p.customDescription.value != "" ==>
              d == p.customDescription.value
    ensures p.customDescription.None? || p.customDescription.value == "" ==> d == r.description
  {
    match p.customDescription
    case Some(c) => if c != "" then c else r.description
    case None => r.description
  }

  /** The card of a project whose repository data is `r`. */
  function CardOf(p: Project, r: Repo): (c: Card)
    ensures c.key == p.repo && c.title == r.name && c.href == r.htmlUrl
    ensures c.featured <==> p.featured == Some(true)
    ensures c.description == Description(p, r)
    ensures c.tags.Some? <==> p.tags.Some? && |p.tags.value| > 0
    ensures c.tags.Some? ==> c.tags == p.tags
    ensures c.demoUrl.Some? <==> p.demoUrl.Some? && p.demoUrl.value != ""
    ensures c.demoUrl.Some? ==> c.demoUrl == p.demoUrl
    ensures c.language.Some? <==> r.language != ""
    ensures c.language.Some? ==> c.language.value == r.language
    ensures c.stars == r.stars && c.forks == r.forks
  {
    Card(p.repo, r.name, r.htmlUrl, p.featured == Some(true), Description(p, r),
         if r.language != "" then Some(r.language) else None,
         r.stars, r.forks,
         if p.tags.Some? && |p.tags.value| > 0 then p.tags else None,
         if p.demoUrl.Some? && p.demoUrl.value != "" then p.demoUrl else None)
  }

  /** `projects.map(...)` with `null` for projects lacking repository data. */
  function CardsFor(projects: seq<Project>, data: map<string, Repo>): (cs: seq<Card>)
    ensures |cs| <= |projects|
    ensures forall c :: c in cs ==> c.key in data
  {
    if |projects| == 0 then []
    else
      var p := projects[|projects| - 1];
      CardsFor(projects[..|projects| - 1], data)
        + (if p.repo in data then [CardOf(p, data[p.repo])] else [])
  }

  /** The cards of the declared projects: each one shows its own
      description override and tag list, never the repository's. */
  lemma DeclaredCardsUseOverrides(r: Repo, i: int)
    requires 0 <= i < |Declared|
    ensures CardOf(Declared[i], r).description == Declared[i].customDescription.value
    ensures CardOf(Declared[i], r).tags == Declared[i].tags
  {
    DeclaredShape();
  }

  /** The positions of the projects that have repository data, ascending. */
  function FetchedPositions(projects: seq<Project>, data: map<string, Repo>): (idx: seq<int>)
    ensures forall k :: 0 <= k < |idx| ==> 0 <= idx[k] < |projects| && projects[idx[k]].repo in data
    ensures forall k, l :: 0 <= k < l < |idx| ==> idx[k] < idx[l]
    ensures forall i :: 0 <= i < |projects| && projects[i].repo in data ==> i in idx
  {
    if |projects| == 0 then []
    else
      var prev := FetchedPositions(projects[..|projects| - 1], data);
      var last := |projects| - 1;
      if projects[last].repo in data then prev + [last] else prev
  }

  /** The cards are exactly the projects with repository data, in declared
      order: card `k` belongs to the `k`-th such project. */
  lemma {:induction false} CardsAreFetchedInOrder(projects: seq<Project>, data: map<string, Repo>)
    ensures var cs := CardsFor(projects, data);
            var idx := FetchedPositions(projects, data);
            && |cs| == |idx|
            && forall k :: 0 <= k < |cs| ==>
                 cs[k] == CardOf(projects[idx[k]], data[projects[idx[k]].repo])
  {
    if |projects| > 0 {
      var init := projects[..|projects| - 1];
      CardsAreFetchedInOrder(init, data);
      var idx0 := FetchedPositions(init, data);
      forall k | 0 <= k < |idx0| ensures projects[idx0[k]] == init[idx0[k]] { }
    }
  }

  /** When every project has repository data, every project gets a card. */
  lemma {:induction false} AllFetchedAllShown(projects: seq<Project>, data: map<string, Repo>)
    requires forall i :: 0 <= i < |projects| ==> projects[i].repo in data
    ensures |CardsFor(projects, data)| == |projects|
  {
    if |projects| > 0 {
      AllFetchedAllShown(projects[..|projects| - 1], data);
    }
  }

  /** What the grid renders. */
  datatype Grid = Skeletons(count: nat) | Shown(cards: seq<Card>)

  function Render(projects: seq<Project>, s: Section): (g: Grid)
    ensures s.loading ==> g == Skeletons(SkeletonCount)
    ensures !s.loading ==> g.Shown? && |g.cards| <= |projects|
    ensures !s.loading ==> forall c :: c in g.cards ==> c.key in s.repoData
  {
    if s.loading then Skeletons(SkeletonCount)
    else
      Shown(CardsFor(projects, s.repoData))
  }

  /** Before any request settles, the grid shows the skeletons. */
  lemma InitialShowsSkeletons(projects: seq<Project>)
    ensures Initial.repoData == map[]
    ensures Render(projects, Initial) == Skeletons(SkeletonCount)
  {
  }

  /** End to end: with no rejected request, the cards shown are exactly
      those of the declared projects whose request succeeded; a single
      rejected request leaves the section without cards. */
  lemma SettledCards(projects: seq<Project>, responses: seq<Fetched<Repo>>)
    requires |responses| == |projects|
    ensures var g := Render(projects, Settle(projects, responses));
            && g.Shown?
            && ((exists i :: 0 <= i < |responses| && responses[i].Thrown?) ==> g.cards == [])
            && ((forall i :: 0 <= i < |responses| ==> !responses[i].Thrown?) ==>
                  && (forall c :: c in g.cards ==>
                        exists i :: 0 <= i < |projects| && projects[i].repo == c.key
                                    && responses[i].Ok?)
                  && (forall i :: 0 <= i < |projects| && responses[i].Ok? ==>
                        exists c :: c in g.cards && c.key == projects[i].repo))
  {
    var s := Settle(projects, responses);
    if exists i :: 0 <= i < |responses| && responses[i].Thrown? {
      EmptyDataNoCards(projects);
    } else {
      var cs := CardsFor(projects, s.repoData);
      var idx := FetchedPositions(projects, s.repoData);
      CardsAreFetchedInOrder(projects, s.repoData);
      forall i | 0 <= i < |projects| && responses[i].Ok?
        ensures exists c :: c in cs && c.key == projects[i].repo
      {
        assert projects[i].repo in s.repoData;
        var k :| 0 <= k < |idx| && idx[k] == i;
        assert cs[k].key == projects[i].repo;
      }
    }
  }

  lemma {:induction false} EmptyDataNoCards(projects: seq<Project>)
    ensures CardsFor(projects, map[]) == []
  {
    if |projects| > 0 {
      EmptyDataNoCards(projects[..|projects| - 1]);
    }
  }
}
