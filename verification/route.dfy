/** The server-side GitHub aggregation endpoint (`GET /api/github`).

    The three upstream calls (profile, repository page, public events) are
    inputs: each is the `Fetched` outcome the handler sees once
    `Promise.all` has settled. The handler is then a total function from
    those outcomes, the declared projects and the clock reading to the JSON
    payload it answers with. */
module Route {
  import opened Types
  import opened JsObject
  import opened Projects

  const Username := "lou-16"
  const AcceptMediaType := "application/vnd.github+json"
  /** How many of the fetched repositories are exposed. */
  const DisplayedRepos := 6

  /** Request headers: the GitHub media type always, and a bearer
      credential only when the token is set and non-empty (an empty string
      is falsy, so the spread adds nothing). */
  function Headers(token: Option<string>): (h: map<string, string>)
    ensures "Accept" in h && h["Accept"] == AcceptMediaType
    ensures "Authorization" in h <==> token.Some? && token.value != ""
    ensures "Authorization" in h ==> h["Authorization"] == "Bearer " + token.value
    ensures h.Keys <= {"Accept", "Authorization"}
  {
    var base := map["Accept" := AcceptMediaType];
    if token.Some? && token.value != "" then base["Authorization" := "Bearer " + token.value]
    else base
  }

  /** The answer. `Live` is a successful fetch cycle; `Fallback` is the
      hard-coded payload of the error path, the only one with a
      `fromFallback` field. */
  datatype Payload =
    | Live(user: User, repos: seq<Repo>, projectRepos: map<string, Option<Repo>>,
           events: seq<Event>, timestamp: int)
    | Fallback(user: User, repos: seq<Repo>, projectRepos: map<string, Option<Repo>>,
               events: seq<Event>, timestamp: int)
  {
    /** The JSON `fromFallback` field: absent on a live payload. */
    function FromFallback(): Option<bool> {
      if Fallback? then Some(true) else None
    }
  }

  const FallbackUser := User("lou-16", "/IMG_0133.jpg", "Gurnoor Singh", "", 20, 5, 3,
                             "https://github.com/lou-16")

  /** The error-path payload, stamped with the clock reading `now`. */
  function FallbackPayload(now: int): (p: Payload)
    ensures p.Fallback? && p.FromFallback() == Some(true)
    ensures p.user.login == Username
    ensures p.repos == [] && p.events == [] && p.projectRepos == map[]
    ensures p.timestamp == now
  {
    Fallback(FallbackUser, [], map[], [], now)
  }

  /** `allRepos.map(r => [r.full_name, r])`. */
  function RepoEntries(all: seq<Repo>): (es: seq<(string, Repo)>)
    ensures |es| == |all|
    ensures forall i :: 0 <= i < |all| ==> es[i] == (all[i].fullName, all[i])
  {
    seq(|all|, i requires 0 <= i < |all| => (all[i].fullName, all[i]))
  }

  /** The lookup table from full name to repository: one key per full
      name on the fetched page. */
  function RepoMap(all: seq<Repo>): (m: map<string, Repo>)
    ensures m.Keys == set j | 0 <= j < |all| :: all[j].fullName
  {
    FromEntries(RepoEntries(all))
  }

  /** `repoMap[id] ?? null`. */
  function Lookup(repoMap: map<string, Repo>, id: string): Option<Repo> {
    if id in repoMap then Some(repoMap[id]) else None
  }

  /** `projects.map(p => [p.repo, repoMap[p.repo] ?? null])`. */
  function ProjectEntries(projects: seq<Project>, repoMap: map<string, Repo>)
    : (es: seq<(string, Option<Repo>)>)
    ensures |es| == |projects|
    ensures forall i :: 0 <= i < |projects| ==>
              es[i] == (projects[i].repo, Lookup(repoMap, projects[i].repo))
  {
    seq(|projects|, i requires 0 <= i < |projects| =>
                      (projects[i].repo, Lookup(repoMap, projects[i].repo)))
  }

  /** The per-project resolution, computed from the whole fetched page:
      one key per declared identifier. */
  function ProjectRepos(projects: seq<Project>, all: seq<Repo>): (m: map<string, Option<Repo>>)
    ensures m.Keys == set i | 0 <= i < |projects| :: projects[i].repo
  {
    FromEntries(ProjectEntries(projects, RepoMap(all)))
  }

  /** The handler. A rejected fetch (any of the three) or a non-ok profile
      or repository response ends in the fallback payload; a non-ok events
      response only empties the event list. */
  function Handle(projects: seq<Project>, user: Fetched<User>, repos: Fetched<seq<Repo>>,
                  events: Fetched<seq<Event>>, now: int): (p: Payload)
    ensures p.Live? <==> user.Ok? && repos.Ok? && !events.Thrown?
    ensures !p.Live? ==> p == FallbackPayload(now)
    ensures p.Live? ==> p.user == user.body && p.timestamp == now
    ensures p.Live? ==> p.events == (if events.Ok? then events.body else [])
  {
    if user.Thrown? || repos.Thrown? || events.Thrown? then FallbackPayload(now)
    else if !user.Ok? || !repos.Ok? then FallbackPayload(now)
    else
      var allRepos := repos.body;
      var evs := if events.Ok? then events.body else [];
      Live(user.body, allRepos[..Min(DisplayedRepos, |allRepos|)],
           ProjectRepos(projects, allRepos), evs, now)
  }

  /** Required calls: a failed profile or repository call gives the
      fallback whatever happened to the events call. */
  lemma RequiredFailureFallsBack(projects: seq<Project>, user: Fetched<User>,
                                 repos: Fetched<seq<Repo>>, events: Fetched<seq<Event>>, now: int)
    requires !user.Ok? || !repos.Ok?
    ensures Handle(projects, user, repos, events, now) == FallbackPayload(now)
    ensures Handle(projects, user, repos, events, now).FromFallback() == Some(true)
  {
  }

  /** Best-effort call: a non-ok events response yields a live payload with
      no events. */
  lemma EventsDegrade(projects: seq<Project>, u: User, all: seq<Repo>, now: int)
    ensures Handle(projects, Ok(u), Ok(all), NotOk, now).Live?
    ensures Handle(projects, Ok(u), Ok(all), NotOk, now).events == []
    ensures Handle(projects, Ok(u), Ok(all), NotOk, now).FromFallback() == None
  {
  }

  /** Only the six most recently updated repositories are exposed, in the
      order they were received. */
  lemma DisplayedPrefix(projects: seq<Project>, u: User, all: seq<Repo>,
                        events: Fetched<seq<Event>>, now: int)
    requires !events.Thrown?
    ensures var p := Handle(projects, Ok(u), Ok(all), events, now);
            && |p.repos| == Min(DisplayedRepos, |all|)
            && forall i :: 0 <= i < |p.repos| ==> p.repos[i] == all[i]
  {
  }

  /** The lookup holds exactly the fetched full names; each maps to the
      last repository in the page carrying that name. */
  lemma {:induction false} RepoMapLastWins(all: seq<Repo>, name: string)
    ensures name in RepoMap(all) <==> exists j :: 0 <= j < |all| && all[j].fullName == name
    ensures name in RepoMap(all) ==>
              exists j :: && 0 <= j < |all| && RepoMap(all)[name] == all[j]
                          && all[j].fullName == name
                          && forall k :: j < k < |all| ==> all[k].fullName != name
  {
    var es := RepoEntries(all);
    if name in RepoMap(all) {
      var j := LastOccurrenceExists(es, name);
      LastWriterWins(es, j);
      assert all[j].fullName == name;
      forall k | j < k < |all| ensures all[k].fullName != name {
        assert es[k].0 == all[k].fullName;
      }
    } else {
      forall j | 0 <= j < |all| ensures all[j].fullName != name {
        assert es[j].0 in KeysOf(es);
      }
    }
  }

  /** A live payload's `projectRepos` has one key per declared identifier
      and no other. */
  lemma ProjectReposKeys(projects: seq<Project>, u: User, all: seq<Repo>,
                         events: Fetched<seq<Event>>, now: int)
    requires !events.Thrown?
    ensures var p := Handle(projects, Ok(u), Ok(all), events, now);
            forall id :: id in p.projectRepos <==>
              exists i :: 0 <= i < |projects| && projects[i].repo == id
  {
  }

  /** Resolution of one declared project in a live payload: a repository
      with exactly that full name (the last such in the whole fetched page,
      not only the six displayed) when there is one, and `null` otherwise. */
  lemma {:induction false} ProjectResolution(projects: seq<Project>, u: User, all: seq<Repo>,
                                             events: Fetched<seq<Event>>, now: int, i: int)
    requires 0 <= i < |projects| && !events.Thrown?
    ensures var id := projects[i].repo;
            var m := Handle(projects, Ok(u), Ok(all), events, now).projectRepos;
            && id in m
            && (m[id] == None <==> forall j :: 0 <= j < |all| ==> all[j].fullName != id)
            && (m[id].Some? ==>
                  exists j :: && 0 <= j < |all| && m[id].value == all[j]
                              && all[j].fullName == id
                              && forall k :: j < k < |all| ==> all[k].fullName != id)
  {
    var id := projects[i].repo;
    assert Handle(projects, Ok(u), Ok(all), events, now).projectRepos
        == ProjectRepos(projects, all);
    var es := ProjectEntries(projects, RepoMap(all));
    var last := LastOccurrenceExists(es, id);
    LastWriterWins(es, last);
    assert ProjectRepos(projects, all)[id] == Lookup(RepoMap(all), id);
    RepoMapLastWins(all, id);
  }

  /** A declared project whose repository lies beyond the six displayed
      ones still resolves, to a repository of that name. */
  lemma ResolvesBeyondDisplayed(projects: seq<Project>, u: User, all: seq<Repo>,
                                events: Fetched<seq<Event>>, now: int, i: int, j: int)
    requires 0 <= i < |projects| && !events.Thrown?
    requires DisplayedRepos <= j < |all| && all[j].fullName == projects[i].repo
    ensures var p := Handle(projects, Ok(u), Ok(all), events, now);
            && projects[i].repo in p.projectRepos
            && p.projectRepos[projects[i].repo].Some?
            && p.projectRepos[projects[i].repo].value.fullName == projects[i].repo
  {
    ProjectResolution(projects, u, all, events, now, i);
  }

  /** For the declared list, a live payload resolves exactly four keys. */
  lemma {:induction false} DeclaredProjectReposSize(u: User, all: seq<Repo>,
                                                  events: Fetched<seq<Event>>, now: int)
    requires !events.Thrown?
    ensures |Handle(Declared, Ok(u), Ok(all), events, now).projectRepos| == 4
  {
    DeclaredShape();
    var es := ProjectEntries(Declared, RepoMap(all));
    assert DistinctKeys(es);
    DistinctEntries(es);
  }
}
