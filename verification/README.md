# Portfolio site data logic, modelled in Dafny

This project models the logic of a personal portfolio site (a Next.js
application) that is more than layout. There are five parts:

- **GitHub aggregation route** (`GET /api/github`). It issues three
  parallel upstream requests: profile, repository page and public events.
  Profile and repositories are required. A non-ok events response degrades
  to an empty list. The first six repositories are exposed. Every declared
  project is resolved against the whole fetched page. Any failure yields a
  fixed fallback payload marked `fromFallback`.
- **Static project list**: four declared repositories with optional
  featured flag, demo link, description override and tags.
- **Profile card loading**: one request to the route, then counts of push,
  pull-request and issue events.
- **Projects section**: one request per declared project, then one card per
  project whose request succeeded, in declared order. Each card follows
  fixed rules for description, badge, tags and demo link.
- **Section navigation**: a section index in 0..2 that wheel events move by
  one under a scroll lock. An unlock event releases the lock. Clicks on the
  section indicators or the navbar buttons jump directly to a section.

Every upstream call is an input of type `Fetched<T>`, with three cases:
`Ok(body)`, `NotOk` (a non-2xx status) and `Thrown` (a rejected promise:
transport failure or a body that does not parse). The clock reading
(`Date.now()`) is a parameter `now`. The 1000 ms unlock timer is the
`Unlock` input. With these as inputs, every handler is a total, pure
function.

Modules: `Types` (shared records), `JsObject` (`Object.fromEntries`),
`Projects`, `Route`, `Activity`, `Cards`, `Navigation`.

### Behaviour worth noting

- The route's answer is either live or the fixed fallback, and only the fallback carries `fromFallback: true`. Next.js revalidation (`revalidate = 3600` on the route and on each upstream fetch) can serve an earlier answer for up to an hour; that layer is left out.
- Projects are resolved against the whole repository page (`per_page=100`), not only the six displayed repositories (`Route.ResolvesBeyondDisplayed`).
- Only a non-ok events *status* is tolerated. A *rejected* events fetch rejects `Promise.all`, so the route answers with the fallback payload (`Route.Handle`).
- The `Authorization` header is added only for a non-empty token, because an empty string is falsy in the spread.

## Model

| member | source | states |
|---|---|---|
| JsObject.FromEntries | app/api/github/route.ts:57-59 | The record built from an entry list has exactly the keys occurring in the list, and the last entry's key maps to the last entry's value |
| JsObject.LastWriterWins | app/api/github/route.ts:57-59 | Last writer wins: a key is bound to the value of its last occurrence in the entry list |
| JsObject.LastOccurrenceExists | app/api/github/route.ts:57-59 | Every key that occurs has a last occurrence in the list |
| JsObject.DistinctEntries | app/api/github/route.ts:62-64 | With pairwise distinct keys, the record has one key per entry and each key maps to its own entry's value |
| Route.Headers | app/api/github/route.ts:18-21 | `Accept: application/vnd.github+json` is always present; `Authorization: Bearer <token>` is present iff a non-empty token is set; no other header |
| Route.FallbackPayload | app/api/github/route.ts:79-95 | The fallback payload has login `lou-16`, no repos, no events, an empty `projectRepos` record, `fromFallback = true`, and the current timestamp |
| Route.Handle | app/api/github/route.ts:23-96 | Live iff profile and repos are ok and the events fetch did not reject; otherwise exactly the fallback payload; a live payload carries the fetched user, the current timestamp, and the events body or `[]` for a non-ok events status |
| Route.RequiredFailureFallsBack | app/api/github/route.ts:45-47 | A non-ok or rejected profile or repos call gives the fallback payload, whatever the events call did |
| Route.EventsDegrade | app/api/github/route.ts:51 | A non-ok events status with ok profile and repos gives a live payload, without `fromFallback`, whose event list is empty |
| Route.DisplayedPrefix | app/api/github/route.ts:54 | Live `repos` has `min(6, n)` entries and they are the first entries of the fetched page, in order |
| Route.RepoMap | app/api/github/route.ts:57-59 | The lookup has one key per full name on the fetched page and no other; each maps to the last repo with that name (`Route.RepoMapLastWins`) |
| Route.RepoMapLastWins | app/api/github/route.ts:57-59 | A full name is in the lookup iff some fetched repo has it; it maps to the last such repo in page order |
| Route.ProjectRepos | app/api/github/route.ts:62-64 | The resolution record has one key per declared identifier and no other; each resolves as `Route.ProjectResolution` states |
| Route.ProjectReposKeys | app/api/github/route.ts:62-64 | A live payload's `projectRepos` has a key for every declared identifier and no other key |
| Route.ProjectResolution | app/api/github/route.ts:57-64 | In a live payload, a declared project resolves to `null` iff no fetched repo has its identifier; otherwise it resolves to the last fetched repo with exactly that full name |
| Route.ResolvesBeyondDisplayed | app/api/github/route.ts:50-64 | A project whose repo sits beyond the six displayed ones still resolves to a repo of that name |
| Route.DeclaredProjectReposSize | app/api/github/route.ts:62-64 | For the declared list, a live `projectRepos` has exactly four keys |
| Projects.JoinedRepoId | content/projects.ts:2 | `owner + "/" + name` with slash-free, non-empty parts has exactly one slash, non-empty sides, and that owner |
| Projects.DeclaredIdsWellFormed | content/projects.ts:11-29 | Every declared `repo` has the form `owner/name` with exactly one slash, and the owner is `lou-16` |
| Projects.DeclaredShape | content/projects.ts:9-34 | Four projects with pairwise distinct ids; exactly three are featured and `lou-16/fsprintf` is not; each has a non-empty description override and a non-empty tag list |
| Activity.CountKind | components/GitAndThings.tsx:52-54 | A per-kind filter count never exceeds the number of events |
| Activity.CountKindIsPositions | components/GitAndThings.tsx:52-54 | The count of a kind equals the number of positions in the event list holding that kind |
| Activity.CountKindPermutation | components/GitAndThings.tsx:51-55 | Reordering the events leaves each per-kind count unchanged |
| Activity.ActivityPermutation | components/GitAndThings.tsx:51-55 | The commits/prs/issues triple is invariant under every permutation of the events |
| Activity.CountsPartition | components/GitAndThings.tsx:51-55 | Pushes plus pull requests plus issue events plus other kinds equal the number of events; other kinds add to no count |
| Activity.ActivityOf | components/GitAndThings.tsx:51-55 | Each of commits, prs and issues is the number of positions in the event list holding a push, pull-request or issue event, and the three add up to at most the number of events; reordering leaves them unchanged (`Activity.ActivityPermutation`) |
| Activity.Classify | components/GitAndThings.tsx:50-55 | The loop yields commits, prs and issues equal to the per-kind counts, and their sum is at most the number of events |
| Activity.Settle | components/GitAndThings.tsx:35-62 | After settling, loading is off. On an ok response, the user and repos come from the body (a missing `repos` becomes `[]`), and each count is the number of positions of that kind in `events` (a missing `events` becomes `[]`). On a non-ok or rejected response, activity stays `{0,0,0}` and user and repos stay at their initial values. The error is `Failed to fetch GitHub data` for a non-ok status, and for a rejection it is the thrown error's message, or `An error occurred` when the thrown value is not an `Error` |
| Activity.MissingFields | components/GitAndThings.tsx:48-51 | A body lacking `events` gives zero counts; one lacking `repos` gives an empty repository list |
| Activity.EndToEnd | components/GitAndThings.tsx:41-55 | Through the route: a failed required upstream call shows the fallback user with no repos, zero activity and no error; ok upstream calls give exactly the counts of the upstream events |
| Cards.OkEntries | components/ProjectsSection.tsx:32-39 | The stored assignments are exactly `(project.repo, body)` for the projects whose response was ok |
| Cards.OkRecordValues | components/ProjectsSection.tsx:33-38 | Each stored id holds the body of an ok response for that id; with distinct ids, each ok project's id holds its own response body |
| Cards.Settle | components/ProjectsSection.tsx:28-47 | After settling, loading is off. Any rejected request leaves `repoData` empty. Otherwise `repoData` has a key iff some project with that repo id had an ok response. Every stored value is the body of an ok response for that id. With distinct ids, each ok project's id holds its own response body |
| Cards.Description | components/ProjectsSection.tsx:100 | The description is the override when it is present and non-empty, else the repository's description |
| Cards.CardOf | components/ProjectsSection.tsx:78-139 | The badge shows iff `featured` is true; tags show iff present and non-empty; the demo link shows iff `demoUrl` is present and non-empty; the language shows iff non-empty, and then it is the repo's language; title, link, stars and forks come from the repo |
| Cards.CardsFor | components/ProjectsSection.tsx:74-76 | No more cards than projects, and every card's key has repository data; card `k` is the card of the `k`-th project with data (`Cards.CardsAreFetchedInOrder`) |
| Cards.DeclaredCardsUseOverrides | components/ProjectsSection.tsx:99-125 | For every declared project, whatever the repository data, the card's description is the project's own override and its tags are the project's own tag list |
| Cards.FetchedPositions | components/ProjectsSection.tsx:74-76 | The positions of the projects with repository data, strictly ascending, containing every such position |
| Cards.CardsAreFetchedInOrder | components/ProjectsSection.tsx:74-76 | The rendered cards are, one for one and in declared order, the cards of the projects that have repository data |
| Cards.AllFetchedAllShown | components/ProjectsSection.tsx:74-76 | When every project has repository data, there is one card per project |
| Cards.Render | components/ProjectsSection.tsx:60-76 | While loading, exactly four skeletons and no cards; otherwise a card list no longer than the project list whose every card has repository data |
| Cards.InitialShowsSkeletons | components/ProjectsSection.tsx:24-62 | The section starts with an empty record and renders exactly four skeletons |
| Cards.SettledCards | components/ProjectsSection.tsx:27-76 | After settling, a rejected request leaves no cards. Otherwise the cards are exactly the projects whose request succeeded: each card is one of them, and each of them has a card |
| Navigation.Step | app/page.tsx:16-86 | While locked, a wheel event changes nothing. Unlocked, a positive delta below section 2 moves down one and locks; a negative delta above section 0 moves up one and locks. A zero delta or a move past a boundary changes nothing. Unlock releases the lock only. A click sets the section and keeps the lock |
| Navigation.StepValid | app/page.tsx:83-86 | Every wheel, unlock or indicator click (index 0..2) keeps the section in 0..2 |
| Navigation.WheelMovesByOne | app/page.tsx:23-32 | A wheel event that changes the section moves it by exactly one, from unlocked to locked |
| Navigation.RunValid | app/page.tsx:15-46 | The section stays in 0..2 along every sequence of inputs |
| Navigation.FromInitial | app/page.tsx:11-86 | The first render is section 0, unlocked, and every run of wheel, unlock and in-range clicks from it keeps the section in 0..2 |
| Navigation.WheelMovesBounded | app/page.tsx:19-33 | Without clicks, the number of inputs that change the section is at most the number of unlocks, plus one if the lock starts released |
| Navigation.WheelDriftBounded | app/page.tsx:23-32 | Without clicks, the net change of the section is at most the number of moves in either direction |

## Left out

- Network I/O: `fetch`, `response.json()`, `NextResponse` and console logging are left out. Each upstream result is an input `Fetched<T>`, and a body that fails to parse counts as a rejected fetch.
- Malformed JSON shapes are left out; the model types every body. In the route, a `repos` body that is not an array, or a `null` repo entry, throws and leads to the fallback. A non-array `events` body is passed through unchanged. In the profile card, an `events` field that is truthy but not an array, or a `null` event, throws after `userData` and `repos` have already been set. A non-array `repos` field is stored as is, and repo entries are never inspected there.
- Object prototype keys are left out: a `repoMap` lookup of an inherited name such as `toString` would not yield `null` in JavaScript. Declared ids all contain a slash, so none of them is such a name.
- Repository `description` and `language` may be `null` upstream; the model uses strings, with `""` for absent.
- Next.js revalidation (`revalidate = 3600` at route.ts:4 and `next: { revalidate: 3600 }` on each upstream fetch) is left out: the platform may answer with a payload computed up to an hour earlier, which the model, a function of the current upstream outcomes, does not describe.
- The timestamp is the parameter `now`; wall-clock time is not modelled.
- Cards.Settle: with two declared projects sharing a repo id, the source's winner depends on which request completes last. The model takes the later one in declared order. The declared ids are distinct (`Projects.DeclaredShape`), so this never arises.
- Navigation.Step: `deltaY` is a real number; a `NaN` delta (neither positive nor negative, so it changes nothing) is not modelled.
- Navigation: the timer and listener wiring, `preventDefault`, the re-registration of the handler on every section change, and React's batching are left out. Inputs are applied one at a time, and the handler reads the current section.
- Rendering is left out: JSX, CSS classes, images, the motion parameters, the shader background, the loader animation and the purely presentational components. The navbar's three buttons are not presentational: each sets the section to 0, 1 or 2, the same input as an indicator click (`Navigation.IndicatorClick`).
