/** The profile card's data loading (`components/GitAndThings.tsx`): one
    request to the site's own `/api/github` endpoint, then coarse activity
    counts derived from the returned events. */
module Activity {
  import opened Types
  import Route
  import Projects

  const PushKind := "PushEvent"
  const PullRequestKind := "PullRequestEvent"
  const IssuesKind := "IssuesEvent"

  const FetchFailedMessage := "Failed to fetch GitHub data"
  const UnknownErrorMessage := "An error occurred"

  datatype Counts = Counts(commits: nat, prs: nat, issues: nat)

  /** `events.filter(e => e.type === kind).length`. */
  function CountKind(events: seq<Event>, kind: string): (n: nat)
    ensures n <= |events|
  {
    if |events| == 0 then 0
    else CountKind(events[..|events| - 1], kind) + (if events[|events| - 1].kind == kind then 1 else 0)
  }

  /** Events of none of the three counted kinds. */
  function CountOthers(events: seq<Event>): (n: nat)
    ensures n <= |events|
  {
    if |events| == 0 then 0
    else
      var k := events[|events| - 1].kind;
      CountOthers(events[..|events| - 1])
        + (if k != PushKind && k != PullRequestKind && k != IssuesKind then 1 else 0)
  }

  /** The positions of the events of one kind. */
  ghost function PositionsOf(events: seq<Event>, kind: string): set<int> {
    set i | 0 <= i < |events| && events[i].kind == kind
  }

  /** Positions in a prefix are the positions below its length. */
  lemma PositionsOfPrefix(events: seq<Event>, kind: string)
    requires |events| > 0
    ensures var last := |events| - 1;
            PositionsOf(events[..last], kind) == PositionsOf(events, kind) - {last}
  {
    var last := |events| - 1;
    var init := events[..last];
    forall i | 0 <= i < last ensures init[i] == events[i] { }
  }

  /** The counts are the numbers of positions holding each kind. */
  lemma {:induction false} CountKindIsPositions(events: seq<Event>, kind: string)
    ensures CountKind(events, kind) == |PositionsOf(events, kind)|
  {
    if |events| > 0 {
      var last := |events| - 1;
      var all := PositionsOf(events, kind);
      var before := PositionsOf(events[..last], kind);
      CountKindIsPositions(events[..last], kind);
      PositionsOfPrefix(events, kind);
      if events[last].kind == kind {
        assert last in all;
        assert all == before + {last};
        assert |all| == |before| + 1;
      } else {
        assert last !in all;
        assert all == before;
      }
    }
  }

  lemma {:induction false} CountKindAppend(a: seq<Event>, b: seq<Event>, kind: string)
    ensures CountKind(a + b, kind) == CountKind(a, kind) + CountKind(b, kind)
    decreases |b|
  {
    if |b| == 0 {
      assert a + b == a;
    } else {
      assert (a + b)[..|a + b| - 1] == a + b[..|b| - 1];
      CountKindAppend(a, b[..|b| - 1], kind);
    }
  }

  lemma CountKindSingle(e: Event, kind: string)
    ensures CountKind([e], kind) == if e.kind == kind then 1 else 0
  {
  }

  /** Each count only depends on the multiset of events: reordering the
      event list changes none of them. */
  lemma {:induction false} CountKindPermutation(a: seq<Event>, b: seq<Event>, kind: string)
    requires multiset(a) == multiset(b)
    ensures CountKind(a, kind) == CountKind(b, kind)
    decreases |a|
  {
    if |a| == 0 {
      assert |b| == |multiset(b)| == 0;
    } else {
      var x := a[0];
      assert x in multiset(b);
      var j :| 0 <= j < |b| && b[j] == x;
      var rest := b[..j] + b[j + 1..];
      assert b == b[..j] + [x] + b[j + 1..];
      assert a == [x] + a[1..];
      assert multiset(a) == multiset{x} + multiset(a[1..]);
      assert multiset(b) == multiset(b[..j]) + multiset{x} + multiset(b[j + 1..]);
      assert multiset(rest) == multiset(b[..j]) + multiset(b[j + 1..]);
      assert multiset(a[1..]) == multiset(a) - multiset{x};
      assert multiset(rest) == multiset(b) - multiset{x};
      CountKindPermutation(a[1..], rest, kind);
      CountKindAppend([x], a[1..], kind);
      CountKindAppend(b[..j] + [x], b[j + 1..], kind);
      CountKindAppend(b[..j], [x], kind);
      CountKindAppend(b[..j], b[j + 1..], kind);
      CountKindSingle(x, kind);
    }
  }

  /** Every event is a push, a pull request, an issue event or something
      else, and the other kinds add to no count. */
  lemma {:induction false} CountsPartition(events: seq<Event>)
    ensures CountKind(events, PushKind) + CountKind(events, PullRequestKind)
            + CountKind(events, IssuesKind) + CountOthers(events) == |events|
  {
    if |events| > 0 {
      CountsPartition(events[..|events| - 1]);
    }
  }

  /** The activity of an event list: for each counted kind, how many
      positions hold an event of that kind. */
  function ActivityOf(events: seq<Event>): (c: Counts)
    ensures c.commits == |PositionsOf(events, PushKind)|
    ensures c.prs == |PositionsOf(events, PullRequestKind)|
    ensures c.issues == |PositionsOf(events, IssuesKind)|
    ensures c.commits + c.prs + c.issues <= |events|
  {
    CountKindIsPositions(events, PushKind);
    CountKindIsPositions(events, PullRequestKind);
    CountKindIsPositions(events, IssuesKind);
    CountsPartition(events);
    Counts(CountKind(events, PushKind), CountKind(events, PullRequestKind),
           CountKind(events, IssuesKind))
  }

  /** The classification of `fetchGitHubData`. The source filters the list
      once per kind; this single pass with one counter per kind computes
      the same three counts. */
  method Classify(events: seq<Event>) returns (c: Counts)
    ensures c == ActivityOf(events)
    ensures c.commits + c.prs + c.issues <= |events|
  {
    var commits, prs, issues := 0, 0, 0;
    var i := 0;
    while i < |events|
      invariant 0 <= i <= |events|
      invariant commits == CountKind(events[..i], PushKind)
      invariant prs == CountKind(events[..i], PullRequestKind)
      invariant issues == CountKind(events[..i], IssuesKind)
    {
      assert events[..i + 1][..i] == events[..i];
      var k := events[i].kind;
      if k == PushKind {
        commits := commits + 1;
      } else if k == PullRequestKind {
        prs := prs + 1;
      } else if k == IssuesKind {
        issues := issues + 1;
      }
      i := i + 1;
    }
    assert events[..i] == events;
    c := Counts(commits, prs, issues);
  }

  /** The three counts are invariant under any reordering of the events. */
  lemma ActivityPermutation(a: seq<Event>, b: seq<Event>)
    requires multiset(a) == multiset(b)
    ensures ActivityOf(a) == ActivityOf(b)
  {
    CountKindPermutation(a, b, PushKind);
    CountKindPermutation(a, b, PullRequestKind);
    CountKindPermutation(a, b, IssuesKind);
  }

  /** The JSON body as the component reads it: any field may be missing. */
  datatype Body = Body(user: Option<User>, repos: Option<seq<Repo>>, events: Option<seq<Event>>)

  /** The component's state (`userData`, `repos`, `activity`, `loading`,
      `error`). */
  datatype View = View(user: Option<User>, repos: seq<Repo>, activity: Counts,
                       loading: bool, error: Option<string>)

  /** The state before the request settles. */
  const Initial := View(None, [], Counts(0, 0, 0), true, None)

  /** The state once the request to `/api/github` has settled. A non-ok
      status and a rejected fetch both land in the `catch` branch, which
      only clears `loading` and records the error message. */
  function Settle(response: Fetched<Body>): (v: View)
    ensures !v.loading
    ensures response.Ok? ==>
              && v.error == None
              && v.user == response.body.user
              && v.repos == (if response.body.repos.Some? then response.body.repos.value else [])
              && var evs := if response.body.events.Some? then response.body.events.value else [];
                 && v.activity.commits == |PositionsOf(evs, PushKind)|
                 && v.activity.prs == |PositionsOf(evs, PullRequestKind)|
                 && v.activity.issues == |PositionsOf(evs, IssuesKind)|
    ensures !response.Ok? ==>
              && v.user == Initial.user && v.repos == Initial.repos
              && v.activity == Initial.activity && v.error.Some?
    ensures response.NotOk? ==> v.error == Some(FetchFailedMessage)
    ensures response.Thrown? ==>
              v.error == Some(if response.message.Some? then response.message.value
                              else UnknownErrorMessage)
  {
    match response
    case Ok(data) =>
      var evs := data.events.GetOr([]);
      View(data.user, data.repos.GetOr([]), ActivityOf(evs), false, None)
    case NotOk =>
      Initial.(loading := false, error := Some(FetchFailedMessage))
    case Thrown(message) =>
      Initial.(loading := false, error := Some(message.GetOr(UnknownErrorMessage)))
  }

  /** A body lacking `events` gives zero activity; one lacking `repos`
      gives an empty repository list. */
  lemma MissingFields(u: Option<User>, r: Option<seq<Repo>>, e: Option<seq<Event>>)
    ensures Settle(Ok(Body(u, r, None))).activity == Counts(0, 0, 0)
    ensures Settle(Ok(Body(u, None, e))).repos == []
  {
  }

  /** The JSON the endpoint serves, as the component sees it. */
  function Serve(p: Route.Payload): Body {
    Body(Some(p.user), Some(p.repos), Some(p.events))
  }

  /** End to end: the endpoint always answers with status 200, so the card
      shows the fallback identity with zero activity when the upstream
      profile or repositories failed, and otherwise counts exactly the
      events the endpoint passed through. */
  lemma {:induction false} EndToEnd(projects: seq<Projects.Project>, user: Fetched<User>,
                                    repos: Fetched<seq<Repo>>, events: Fetched<seq<Event>>,
                                    now: int)
    ensures var v := Settle(Ok(Serve(Route.Handle(projects, user, repos, events, now))));
            && v.error == None
            && (!user.Ok? || !repos.Ok? ==>
                  v.user == Some(Route.FallbackUser) && v.activity == Counts(0, 0, 0)
                  && v.repos == [])
            && (user.Ok? && repos.Ok? && events.Ok? ==>
                  v.activity == ActivityOf(events.body))
  {
  }
}
